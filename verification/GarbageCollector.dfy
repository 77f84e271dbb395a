/** internal/rulesets/cache/server.go: one iteration of rungc over the cache, and its counters. */
module GarbageCollector {
  import opened CacheModel
  import opened RuleSetCaches
  import opened CacheRuns

  class RuleSetCacheServer {
    const cache: RuleSetCache
    const maxAge: int
    const maxSize: int
    var prunedByAgeTotal: int
    var prunedBySizeTotal: int
    var sizeLimitExceededTotal: nat

    ghost predicate Valid()
      reads this, cache, cache.model.repr
    {
      cache.Valid() && this !in cache.model.repr
    }

    constructor (cache: RuleSetCache, maxAge: int, maxSize: int)
      requires cache.Valid()
      ensures Valid()
      ensures this.cache == cache && this.maxAge == maxAge && this.maxSize == maxSize
      ensures prunedByAgeTotal == 0 && prunedBySizeTotal == 0 && sizeLimitExceededTotal == 0
    {
      this.cache, this.maxAge, this.maxSize := cache, maxAge, maxSize;
      prunedByAgeTotal, prunedBySizeTotal, sizeLimitExceededTotal := 0, 0, 0;
    }

    /** What the ticker triggers, undisturbed by Puts: every answer of the cache stays, every revision that goes is
        counted, and the size limit counter rises exactly when the latest revisions alone exceed the limit. */
    method CollectGarbage(now: int) returns (ghost order: seq<string>)
      requires Valid()
      modifies this, cache
      ensures Valid() && cache.model.lastPut == old(cache.model.lastPut)
      ensures var aged := PruneByAge(old(cache.model.store), now, maxAge);
              VisitsAll(aged, order) &&
              cache.model.store == if TotalSize(aged) > maxSize then PruneInOrder(aged, order, maxSize) else aged
      ensures prunedByAgeTotal == old(prunedByAgeTotal)
                + TotalEntries(old(cache.model.store)) - TotalEntries(PruneByAge(old(cache.model.store), now, maxAge))
      ensures prunedBySizeTotal == old(prunedBySizeTotal)
                + TotalEntries(PruneByAge(old(cache.model.store), now, maxAge)) - TotalEntries(cache.model.store)
      ensures NonEmpty(old(cache.model.store))
      ensures sizeLimitExceededTotal
           == old(sizeLimitExceededTotal) + if TotalSize(LatestOnly(old(cache.model.store))) > maxSize then 1 else 0
    {
      hide Faithful, Consistent, PruneByAge, TotalSize, TotalEntries, SweepOver, PruneInOrder, LatestOnly, NonEmpty,
           VisitsAll;
      ghost var before := cache.model.store;
      KnownInstances(cache.entries, cache.totalSize, cache.totalEntries, cache.model);
      AgePruningKeepsLatestOnly(before, now, maxAge);
      var prunedByAge := cache.Prune(maxAge, now);
      KnownInstances(cache.entries, cache.totalSize, cache.totalEntries, cache.model);
      if prunedByAge > 0 {
        prunedByAgeTotal := prunedByAgeTotal + prunedByAge;
      }
      var currentSize := cache.ReadTotalSize();
      if currentSize > maxSize {
        order := Shrink();
      } else {
        LatestWithin(cache.model.store);
        order := AnyOrder(cache.model.store);
      }
    }

    /** The size-based half of an iteration. */
    method Shrink() returns (ghost order: seq<string>)
      requires Valid() && NonEmpty(cache.model.store)
      modifies this, cache
      ensures Valid() && VisitsAll(old(cache.model.store), order)
      ensures cache.model == old(cache.model).(store := PruneInOrder(old(cache.model.store), order, maxSize))
      ensures prunedByAgeTotal == old(prunedByAgeTotal)
      ensures prunedBySizeTotal == old(prunedBySizeTotal)
                + TotalEntries(old(cache.model.store)) - TotalEntries(cache.model.store)
      ensures sizeLimitExceededTotal
           == old(sizeLimitExceededTotal) + if TotalSize(LatestOnly(old(cache.model.store))) > maxSize then 1 else 0
    {
      hide Faithful, Consistent, TotalSize, TotalEntries, SweepOver, PruneInOrder, LatestOnly, NonEmpty, VisitsAll;
      KnownInstances(cache.entries, cache.totalSize, cache.totalEntries, cache.model);
      ghost var aged := cache.model.store;
      var prunedBySize;
      prunedBySize, order := cache.PruneBySize(maxSize);
      KnownInstances(cache.entries, cache.totalSize, cache.totalEntries, cache.model);
      SizeLimitExactly(aged, order, maxSize);
      if prunedBySize > 0 {
        prunedBySizeTotal := prunedBySizeTotal + prunedBySize;
      }
      var finalSize := cache.ReadTotalSize();
      if finalSize > maxSize {
        sizeLimitExceededTotal := sizeLimitExceededTotal + 1;
      }
    }
  }

  lemma {:induction false} AnyOrder(m: Store) returns (order: seq<string>)
    ensures VisitsAll(m, order)
  {
    order := Enumerate(m.Keys);
  }
}
