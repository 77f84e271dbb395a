/** internal/rulesets/cache/cache.go: the RuleSet cache itself. Every method holds the mutex for its whole body, so each
    is one atomic step. The clock and the UUIDs are parameters; Go's arbitrary map iteration order is a nondeterministic
    choice. */
module RuleSetCaches {
  import opened CacheModel

  type Buffer = array<bv8>

  function Contents(files: map<string, Buffer>): map<string, Bytes>
    reads files.Values
  {
    map f | f in files :: files[f][..]
  }

  /** RuleSetEntry: once stored, never changed. */
  class RuleSetEntry {
    var uuid: string
    var timestamp: int
    var rules: string
    var dataFiles: map<string, Buffer>

    constructor (uuid: string, timestamp: int, rules: string, dataFiles: map<string, Buffer>)
      ensures this.uuid == uuid && this.timestamp == timestamp && this.rules == rules && this.dataFiles == dataFiles
    {
      this.uuid := uuid;
      this.timestamp := timestamp;
      this.rules := rules;
      this.dataFiles := dataFiles;
    }

    ghost function View(): Version
      reads this, dataFiles.Values
    {
      Version(uuid, timestamp, Payload(rules, Contents(dataFiles)))
    }
  }

  /** bytes.Clone for every file, into buffers of their own. */
  method CloneFiles(files: map<string, Buffer>) returns (copy: map<string, Buffer>)
    ensures Contents(copy) == Contents(files)
    ensures fresh(copy.Values)
  {
    copy := map[];
    var left := files.Keys;
    while left != {}
      invariant left <= files.Keys
      invariant copy.Keys == files.Keys - left
      invariant forall f :: f in copy ==> fresh(copy[f]) && copy[f][..] == files[f][..]
      invariant forall f :: f in files ==> files[f][..] == old(files[f][..])
    {
      var f :| f in left;
      var contents := files[f];
      var clone := new bv8[contents.Length](i requires 0 <= i < contents.Length reads contents => contents[i]);
      assert clone[..] == contents[..];
      copy := copy[f := clone];
      left := left - {f};
    }
  }

  /** entrySize. */
  method EntrySize(entry: RuleSetEntry) returns (size: nat)
    ensures size == Size(entry.View())
  {
    size := ByteLength(entry.rules);
    ghost var sizes := FileSizes(entry.View().payload.files);
    var left := entry.dataFiles.Keys;
    assert sizes == map f | f in left :: sizes[f];
    while left != {}
      invariant left <= entry.dataFiles.Keys
      invariant size + Sum(map f | f in left :: sizes[f]) == Size(entry.View())
    {
      var f :| f in left;
      ghost var rest: map<string, nat> := map g | g in left :: sizes[g];
      SumAny(rest, f);
      assert rest - {f} == map g | g in left - {f} :: sizes[g];
      size := size + ByteLength(f);
      size := size + entry.dataFiles[f].Length;
      left := left - {f};
    }
  }

  /** RuleSetEntries: the revisions of one instance, oldest first, and the UUID of the latest. */
  datatype Revisions = Revisions(latest: string, entries: seq<RuleSetEntry>)

  /** The value of every entry ever stored. */
  type Views = map<RuleSetEntry, Version>

  /** Every recorded entry still has its recorded value, and lives with its buffers inside the footprint. */
  ghost predicate Faithful(views: Views, repr: set<object>)
    reads repr
  {
    forall e :: e in views ==> e in repr && e.dataFiles.Values <= repr && e.View() == views[e]
  }

  lemma {:induction false} FaithfulAdd(views: Views, repr: set<object>, e: RuleSetEntry, v: Version)
    requires Faithful(views, repr) && e.View() == v
    ensures Faithful(views[e := v], repr + {e} + e.dataFiles.Values)
  {
  }

  ghost predicate Held(list: seq<RuleSetEntry>, vs: seq<Version>, views: Views) {
    |list| == |vs| && forall i :: 0 <= i < |list| ==> list[i] in views && views[list[i]] == vs[i]
  }

  ghost predicate DistinctUUIDs(vs: seq<Version>) {
    forall i, j :: 0 <= i < j < |vs| ==> vs[i].uuid != vs[j].uuid
  }

  /** Oldest first, under distinct UUIDs, none from the future. */
  ghost predicate Chronicle(vs: seq<Version>, clock: int) {
    |vs| > 0 && DistinctUUIDs(vs) && Sorted(vs) && Last(vs).timestamp <= clock
  }

  ghost predicate WellStored(r: Revisions, vs: seq<Version>, views: Views, clock: int) {
    Held(r.entries, vs, views) && Chronicle(vs, clock) && r.latest == Last(vs).uuid
  }

  ghost predicate AllStored(entries: map<string, Revisions>, store: Store, views: Views, clock: int) {
    entries.Keys == store.Keys && forall k :: k in entries ==> WellStored(entries[k], store[k], views, clock)
  }

  /** The running totals are exact. */
  ghost predicate Accounted(store: Store, totalSize: int, totalEntries: int) {
    totalSize == TotalSize(store) && totalEntries == TotalEntries(store)
  }

  ghost predicate Answers(store: Store, lastPut: map<string, Payload>) {
    NonEmpty(store) && Latest(store) == lastPut
  }

  ghost predicate UnusedUUID(m: Store, uuid: string) {
    forall k, i :: k in m && 0 <= i < |m[k]| ==> m[k][i].uuid != uuid
  }

  // ---------------------------------------------------------------------------------------------
  // What Put does to these
  // ---------------------------------------------------------------------------------------------

  lemma {:induction false} ChronicleAppend(vs: seq<Version>, clock: int, v: Version)
    requires Chronicle(vs, clock) && clock <= v.timestamp && forall i :: 0 <= i < |vs| ==> vs[i].uuid != v.uuid
    ensures Chronicle(vs + [v], v.timestamp)
  {
  }

  lemma {:induction false} HeldAppend(list: seq<RuleSetEntry>, vs: seq<Version>, views: Views, e: RuleSetEntry,
          v: Version)
    requires Held(list, vs, views) && e !in views
    ensures Held(list + [e], vs + [v], views[e := v])
  {
  }

  /** The list of one instance after a Put. */
  ghost function Appended(entries: map<string, Revisions>, k: string, uuid: string, e: RuleSetEntry): Revisions {
    Revisions(uuid, (if k in entries then entries[k].entries else []) + [e])
  }

  lemma {:induction false} AppendedStored(entries: map<string, Revisions>, store: Store, views: Views, clock: int,
          k: string, e: RuleSetEntry, v: Version)
    requires AllStored(entries, store, views, clock) && UnusedUUID(store, v.uuid) && e !in views && clock <= v.timestamp
    ensures WellStored(Appended(entries, k, v.uuid, e), PutVersion(store, k, v)[k], views[e := v], v.timestamp)
  {
    if k in entries {
      assert WellStored(entries[k], store[k], views, clock);
      ChronicleAppend(store[k], clock, v);
      HeldAppend(entries[k].entries, store[k], views, e, v);
    } else {
      assert [] + [e] == [e] && CacheModel.Revisions(store, k) + [v] == [v];
    }
  }

  lemma {:induction false} StoredLater(r: Revisions, vs: seq<Version>, views: Views, clock: int, e: RuleSetEntry,
          v: Version, clock': int)
    requires WellStored(r, vs, views, clock) && e !in views && clock <= clock'
    ensures WellStored(r, vs, views[e := v], clock')
  {
  }

  lemma {:induction false} PutStored(entries: map<string, Revisions>, store: Store, views: Views, clock: int, k: string,
          e: RuleSetEntry, v: Version)
    requires AllStored(entries, store, views, clock) && UnusedUUID(store, v.uuid) && e !in views && clock <= v.timestamp
    ensures AllStored(entries[k := Appended(entries, k, v.uuid, e)], PutVersion(store, k, v), views[e := v],
            v.timestamp)
  {
    var after, store' := entries[k := Appended(entries, k, v.uuid, e)], PutVersion(store, k, v);
    AppendedStored(entries, store, views, clock, k, e, v);
    forall j | j in after ensures WellStored(after[j], store'[j], views[e := v], v.timestamp) {
      if j != k {
        StoredLater(entries[j], store[j], views, clock, e, v, v.timestamp);
      }
    }
  }

  lemma {:induction false} PutAccounted(m: Store, totalSize: int, totalEntries: int, k: string, v: Version)
    requires Accounted(m, totalSize, totalEntries)
    ensures Accounted(PutVersion(m, k, v), totalSize + Size(v), totalEntries + 1)
  {
    var vs := CacheModel.Revisions(m, k);
    TotalSizeUpdate(m, k, vs + [v]);
    TotalEntriesUpdate(m, k, vs + [v]);
    SizeOfAppend(vs, v);
  }

  /** After a Put, the instance's latest payload is what was put; every other instance is as before. */
  lemma {:induction false} PutAnswers(m: Store, lastPut: map<string, Payload>, k: string, v: Version)
    requires Answers(m, lastPut)
    ensures Answers(PutVersion(m, k, v), lastPut[k := v.payload])
  {
  }

  /** What the cache stands for: what is stored, as values; the payload of the last Put of each instance; the time of
      the latest Put; and every entry ever stored with the objects it is made of. */
  datatype Model = Model(store: Store, lastPut: map<string, Payload>, clock: int, views: Views, repr: set<object>)

  ghost predicate Consistent(entries: map<string, Revisions>, totalSize: int, totalEntries: int, m: Model) {
    && AllStored(entries, m.store, m.views, m.clock)
    && Accounted(m.store, totalSize, totalEntries)
    && Answers(m.store, m.lastPut)
  }

  ghost function PutModel(m: Model, k: string, e: RuleSetEntry, v: Version): Model
    reads e
  {
    Model(PutVersion(m.store, k, v), m.lastPut[k := v.payload], v.timestamp, m.views[e := v], m.repr + {e}
      + e.dataFiles.Values)
  }

  lemma {:induction false} PutConsistent(entries: map<string, Revisions>, totalSize: int, totalEntries: int, m: Model,
          k: string, e: RuleSetEntry, v: Version)
    requires Consistent(entries, totalSize, totalEntries, m)
    requires UnusedUUID(m.store, v.uuid) && e !in m.views && m.clock <= v.timestamp
    ensures Consistent(entries[k := Appended(entries, k, v.uuid, e)], totalSize + Size(v), totalEntries + 1,
            PutModel(m, k, e, v))
  {
    PutStored(entries, m.store, m.views, m.clock, k, e, v);
    PutAccounted(m.store, totalSize, totalEntries, k, v);
    PutAnswers(m.store, m.lastPut, k, v);
  }

  // ---------------------------------------------------------------------------------------------
  // What pruning does to these
  // ---------------------------------------------------------------------------------------------

  /** What is left of an instance when its n oldest revisions go. */
  lemma {:induction false} TrimmedStored(r: Revisions, kept: seq<RuleSetEntry>, vs: seq<Version>, n: nat, views: Views,
          clock: int)
    requires WellStored(r, vs, views, clock) && n < |vs| && Held(kept, vs[n..], views)
    ensures WellStored(Revisions(r.latest, kept), vs[n..], views, clock)
  {
    var ws := vs[n..];
    assert forall i :: 0 <= i < |ws| ==> ws[i] == vs[i + n];
  }

  ghost function TrimModel(m: Model, k: string, n: nat): Model
    requires k in m.store && n <= |m.store[k]|
  {
    m.(store := m.store[k := m.store[k][n..]])
  }

  lemma {:induction false} TrimAccounted(m: Store, totalSize: int, totalEntries: int, k: string, n: nat)
    requires Accounted(m, totalSize, totalEntries) && k in m && n <= |m[k]|
    ensures Accounted(m[k := m[k][n..]], totalSize - SizeOf(m[k][..n]), totalEntries - n)
  {
    TotalSizeUpdate(m, k, m[k][n..]);
    TotalEntriesUpdate(m, k, m[k][n..]);
    SplitSize(m[k], n);
  }

  lemma {:induction false} TrimAnswers(m: Store, lastPut: map<string, Payload>, k: string, n: nat)
    requires Answers(m, lastPut) && k in m && n < |m[k]|
    ensures Answers(m[k := m[k][n..]], lastPut)
  {
  }

  lemma {:induction false} TrimConsistent(entries: map<string, Revisions>, totalSize: int, totalEntries: int, m: Model,
          k: string, kept: seq<RuleSetEntry>, n: nat)
    requires Consistent(entries, totalSize, totalEntries, m)
    requires k in entries && k in m.store && n < |m.store[k]| && Held(kept, m.store[k][n..], m.views)
    ensures Consistent(entries[k := Revisions(entries[k].latest, kept)],
                       totalSize - SizeOf(m.store[k][..n]), totalEntries - n, TrimModel(m, k, n))
  {
    hide WellStored, Held, Accounted, Answers;
    TrimmedStored(entries[k], kept, m.store[k], n, m.views, m.clock);
    TrimAccounted(m.store, totalSize, totalEntries, k, n);
    TrimAnswers(m.store, m.lastPut, k, n);
  }

  /** Only the last revision carries the UUID of the latest. */
  lemma {:induction false} LatestIsLast(r: Revisions, vs: seq<Version>, views: Views, clock: int, i: nat)
    requires WellStored(r, vs, views, clock) && i < |r.entries|
    ensures |vs| == |r.entries| && r.entries[i] in views && views[r.entries[i]] == vs[i]
    ensures vs[i].uuid == r.latest <==> i == |vs| - 1
  {
  }

  lemma {:induction false} StoredFacts(r: Revisions, vs: seq<Version>, views: Views, clock: int)
    requires WellStored(r, vs, views, clock)
    ensures |vs| == |r.entries| > 0 && Sorted(vs)
  {
  }

  lemma {:induction false} HeldNone(vs: seq<Version>, i: nat, views: Views)
    requires i <= |vs|
    ensures Held([], vs[i..i], views) && vs[i..i] == []
  {
  }

  lemma {:induction false} HeldNothing(kept: seq<RuleSetEntry>, vs: seq<Version>, i: nat, views: Views)
    requires i <= |vs| && Held(kept, vs[i..i], views)
    ensures kept == []
  {
  }

  lemma {:induction false} HeldPush(list: seq<RuleSetEntry>, vs: seq<Version>, views: Views, e: RuleSetEntry)
    requires Held(list, vs, views) && e in views
    ensures Held(list + [e], vs + [views[e]], views)
  {
  }

  /** Age pruning after the first i revisions: those of them kept, the bytes freed, the number removed. */
  ghost predicate Sifted(vs: seq<Version>, i: nat, kept: seq<Version>, freed: int, count: int, now: int, maxAge: int) {
    && i <= |vs|
    && kept + KeepYoung(vs[i..], now, maxAge) == KeepYoung(vs, now, maxAge)
    && freed + SizeOf(kept) == SizeOf(vs[..i])
    && count + |kept| == i
  }

  lemma {:induction false} SiftStart(vs: seq<Version>, now: int, maxAge: int)
    ensures Sifted(vs, 0, [], 0, 0, now, maxAge)
  {
    assert vs[0..] == vs && vs[..0] == [];
    assert [] + KeepYoung(vs, now, maxAge) == KeepYoung(vs, now, maxAge);
  }

  lemma {:induction false} SiftNext(vs: seq<Version>, i: nat)
    requires i < |vs|
    ensures vs[i..][0] == vs[i] && vs[i..][1..] == vs[i + 1..] && SizeOf(vs[..i + 1]) == SizeOf(vs[..i]) + Size(vs[i])
  {
    assert vs[..i + 1] == vs[..i] + [vs[i]];
    SizeOfAppend(vs[..i], vs[i]);
  }

  lemma {:induction false} SiftKeep(vs: seq<Version>, i: nat, kept: seq<Version>, freed: int, count: int, now: int,
          maxAge: int)
    requires Sifted(vs, i, kept, freed, count, now, maxAge)
    requires i < |vs| && (i == |vs| - 1 || now - vs[i].timestamp <= maxAge)
    ensures Sifted(vs, i + 1, kept + [vs[i]], freed, count, now, maxAge)
  {
    SiftNext(vs, i);
    SizeOfAppend(kept, vs[i]);
    var rest := KeepYoung(vs[i + 1..], now, maxAge);
    if i == |vs| - 1 {
      assert vs[i..] == [vs[i]] + vs[i + 1..];
    }
    assert KeepYoung(vs[i..], now, maxAge) == [vs[i]] + rest;
    assert kept + ([vs[i]] + rest) == (kept + [vs[i]]) + rest;
  }

  lemma {:induction false} SiftDrop(vs: seq<Version>, i: nat, kept: seq<Version>, freed: int, count: int, now: int,
          maxAge: int)
    requires Sifted(vs, i, kept, freed, count, now, maxAge)
    requires i < |vs| - 1 && now - vs[i].timestamp > maxAge
    ensures Sifted(vs, i + 1, kept, freed + Size(vs[i]), count + 1, now, maxAge)
  {
    SiftNext(vs, i);
    var rest := KeepYoung(vs[i + 1..], now, maxAge);
    assert [] + rest == rest;
    assert KeepYoung(vs[i..], now, maxAge) == rest;
  }

  lemma {:induction false} SiftEnd(vs: seq<Version>, kept: seq<Version>, freed: int, count: int, now: int, maxAge: int)
    returns (n: nat)
    requires Sifted(vs, |vs|, kept, freed, count, now, maxAge) && Sorted(vs) && |vs| > 0
    ensures n < |vs| && kept == vs[n..] == KeepYoung(vs, now, maxAge) && count == n && freed == SizeOf(vs[..n])
    ensures freed == SizeOf(vs) - SizeOf(vs[n..])
  {
    assert vs[|vs|..] == [] && vs[..|vs|] == vs;
    assert kept + [] == kept;
    n := KeepYoungIsSuffix(vs, now, maxAge);
    KeepYoungKeepsLast(vs, now, maxAge);
    SplitSize(vs, n);
  }

  /** Size pruning after the first i revisions, of which the first count were removed. */
  ghost predicate Cut(vs: seq<Version>, i: nat, freed: int, count: nat, excess: int) {
    && count <= i <= |vs|
    && count + CutCount(vs[i..], excess - freed) == CutCount(vs, excess)
    && freed == SizeOf(vs[..count])
    && (count < i ==> excess - freed <= 0 || i == |vs|)
  }

  lemma {:induction false} CutStart(vs: seq<Version>, excess: int)
    ensures Cut(vs, 0, 0, 0, excess)
  {
    assert vs[0..] == vs && vs[..0] == [];
  }

  lemma {:induction false} CutKeep(vs: seq<Version>, i: nat, freed: int, count: nat, excess: int)
    requires Cut(vs, i, freed, count, excess) && i < |vs| && (i == |vs| - 1 || excess - freed <= 0)
    ensures Cut(vs, i + 1, freed, count, excess)
  {
  }

  lemma {:induction false} CutDrop(vs: seq<Version>, i: nat, freed: int, count: nat, excess: int)
    requires Cut(vs, i, freed, count, excess) && i < |vs| - 1 && excess - freed > 0
    ensures count == i && Cut(vs, i + 1, freed + Size(vs[i]), count + 1, excess)
  {
    SiftNext(vs, i);
  }

  lemma {:induction false} CutEnd(vs: seq<Version>, freed: int, count: nat, excess: int)
    requires Cut(vs, |vs|, freed, count, excess) && |vs| > 0
    ensures count == CutCount(vs, excess) < |vs| && vs[count..|vs|] == vs[count..]
  {
  }

  lemma {:induction false} HeldSlice(kept: seq<RuleSetEntry>, vs: seq<Version>, count: nat, i: nat, views: Views,
          e: RuleSetEntry)
    requires count <= i < |vs| && Held(kept, vs[count..i], views) && e in views && views[e] == vs[i]
    ensures Held(kept + [e], vs[count..i + 1], views)
  {
    assert vs[count..i + 1] == vs[count..i] + [vs[i]];
  }

  /** Age pruning with some instances still to come. */
  ghost function AgedExcept(m: Store, left: set<string>, now: int, maxAge: int): Store {
    map k | k in m :: if k in left then m[k] else KeepYoung(m[k], now, maxAge)
  }

  lemma {:induction false} AgedStart(m: Store, now: int, maxAge: int)
    ensures AgedExcept(m, m.Keys, now, maxAge) == m && AgedExcept(m, {}, now, maxAge) == PruneByAge(m, now, maxAge)
  {
  }

  lemma {:induction false} AgedStep(m: Store, left: set<string>, k: string, now: int, maxAge: int)
    requires k in left && k in m
    ensures AgedExcept(m, left, now, maxAge)[k] == m[k]
    ensures AgedExcept(m, left - {k}, now, maxAge)
            == AgedExcept(m, left, now, maxAge)[k := KeepYoung(m[k], now, maxAge)]
  {
  }

  lemma {:induction false} KnownInstances(entries: map<string, Revisions>, totalSize: int, totalEntries: int, m: Model)
    requires Consistent(entries, totalSize, totalEntries, m)
    ensures entries.Keys == m.store.Keys == m.lastPut.Keys && NonEmpty(m.store)
    ensures totalSize == TotalSize(m.store) && totalEntries == TotalEntries(m.store)
  {
  }

  /** Size pruning under way: the instances of order have been visited, those of left have not. */
  ghost predicate Swept(before: Store, order: seq<string>, left: set<string>, maxSize: int, store: Store,
          currentSize: int) {
    && Visits(before, order)
    && (forall k :: k in before ==> (k in order <==> k !in left))
    && SweepOver(before, order, maxSize).store == store
    && SweepOver(before, order, maxSize).excess == currentSize - maxSize
  }

  lemma {:induction false} SweptStart(before: Store, maxSize: int)
    ensures Swept(before, [], before.Keys, maxSize, before, TotalSize(before))
  {
  }

  lemma {:induction false} SweptStep(before: Store, order: seq<string>, left: set<string>, maxSize: int, store: Store,
          currentSize: int, k: string, n: nat)
    requires Swept(before, order, left, maxSize, store, currentSize)
    requires k in left && k in before && k in store && n == CutCount(store[k], currentSize - maxSize)
    ensures n <= |store[k]|
    ensures Swept(before, order + [k], left - {k}, maxSize, store[k := store[k][n..]],
            currentSize - SizeOf(store[k][..n]))
  {
    hide SweepOver, CutCount, SizeOf;
    SweepOneMore(before, order, k, maxSize);
  }

  lemma {:induction false} SweptEnd(before: Store, order: seq<string>, left: set<string>, maxSize: int, store: Store,
          currentSize: int)
    returns (full: seq<string>)
    requires Swept(before, order, left, maxSize, store, currentSize) && NonEmpty(before)
    requires left == {} || currentSize <= maxSize
    ensures VisitsAll(before, full) && PruneInOrder(before, full, maxSize) == store
  {
    full := FinishSweep(before, order, maxSize);
  }

  lemma {:induction false} KnownInstance(entries: map<string, Revisions>, totalSize: int, totalEntries: int, m: Model,
          k: string)
    requires Consistent(entries, totalSize, totalEntries, m)
    ensures k in entries <==> k in m.lastPut
    ensures k in entries ==>
              && k in m.store && |m.store[k]| > 0 && WellStored(entries[k], m.store[k], m.views, m.clock)
              && Last(m.store[k]).payload == m.lastPut[k]
  {
  }

  class RuleSetCache {
    var entries: map<string, Revisions>
    var totalSize: int
    var totalEntries: int
    ghost var model: Model

    ghost predicate Valid()
      reads this, model.repr
    {
      && this !in model.repr
      && Faithful(model.views, model.repr)
      && Consistent(entries, totalSize, totalEntries, model)
    }

    constructor ()
      ensures Valid() && model == Model(map[], map[], 0, map[], {})
    {
      entries := map[];
      totalSize, totalEntries := 0, 0;
      model := Model(map[], map[], 0, map[], {});
    }

    /** The search of Get: the entry marked as the latest, which is the last of the list. */
    method FindLatest(r: Revisions, ghost vs: seq<Version>) returns (entry: RuleSetEntry)
      requires Faithful(model.views, model.repr) && WellStored(r, vs, model.views, model.clock)
      ensures entry in model.repr && entry.dataFiles.Values <= model.repr && entry.View() == Last(vs)
    {
      var i := 0;
      while r.entries[i].uuid != r.latest
        invariant 0 <= i < |r.entries|
        decreases |r.entries| - i
      {
        assert r.entries[i].View() == vs[i] && i < |vs| - 1;
        i := i + 1;
      }
      entry := r.entries[i];
      assert entry.View() == vs[i];
      assert i == |vs| - 1;
    }

    /** Get: a copy of the latest revision, in buffers that the cache does not share. */
    method Get(instance: string) returns (result: RuleSetEntry?)
      requires Valid()
      ensures result == null <==> instance !in model.lastPut
      ensures result != null ==>
                && fresh(result) && fresh(result.dataFiles.Values)
                && instance in model.store && |model.store[instance]| > 0
                   && result.View() == Last(model.store[instance])
                && result.View().payload == model.lastPut[instance]
    {
      hide Faithful, Consistent, WellStored, Contents, Last;
      KnownInstance(entries, totalSize, totalEntries, model, instance);
      if instance !in entries {
        return null;
      }
      var entry := FindLatest(entries[instance], model.store[instance]);
      var copy := CloneFiles(entry.dataFiles);
      result := new RuleSetEntry(entry.uuid, entry.timestamp, entry.rules, copy);
      assert result.View() == entry.View();
    }

    /** Put: a new latest revision, made of copies of the caller's buffers. */
    method Put(instance: string, rules: string, datafiles: map<string, Buffer>, uuid: string, now: int)
      requires Valid()
      requires model.clock <= now
      requires UnusedUUID(model.store, uuid)
      modifies this
      ensures Valid() && fresh(model.repr - old(model.repr)) && model.clock == now
      ensures model.store == PutVersion(old(model.store), instance,
              Version(uuid, now, Payload(rules, old(Contents(datafiles)))))
      ensures model.lastPut == old(model.lastPut)[instance := Payload(rules, old(Contents(datafiles)))]
    {
      hide Faithful, Consistent, PutVersion, UnusedUUID;
      ghost var v := Version(uuid, now, Payload(rules, Contents(datafiles)));
      var internalData: map<string, Buffer> := map[];
      if |datafiles| > 0 {
        internalData := CloneFiles(datafiles);
      } else {
        assert Contents(datafiles) == map[];
      }
      var newEntry := new RuleSetEntry(uuid, now, rules, internalData);
      assert newEntry !in model.views;
      Append(instance, newEntry, v);
    }

    /** The bookkeeping half of Put. */
    method Append(instance: string, newEntry: RuleSetEntry, ghost v: Version)
      requires Valid() && newEntry !in model.views && newEntry.View() == v && newEntry.uuid == v.uuid
      requires model.clock <= v.timestamp && UnusedUUID(model.store, v.uuid)
      modifies this
      ensures Valid() && model == PutModel(old(model), instance, newEntry, v)
    {
      hide Faithful, RuleSetEntry.View, Consistent, Size, PutVersion, UnusedUUID;
      var newEntrySize := EntrySize(newEntry);
      var r := Revisions(newEntry.uuid, if instance !in entries then [newEntry]
        else entries[instance].entries + [newEntry]);
      assert r == Appended(entries, instance, v.uuid, newEntry) by { assert [] + [newEntry] == [newEntry]; }
      FaithfulAdd(model.views, model.repr, newEntry, v);
      PutConsistent(entries, totalSize, totalEntries, model, instance, newEntry, v);
      model, entries, totalSize, totalEntries :=
        PutModel(model, instance, newEntry, v), entries[instance := r], totalSize + newEntrySize, totalEntries + 1;
    }

    /** Replaces the entries of an instance by what is left of them. */
    method Trim(instance: string, newEntries: seq<RuleSetEntry>, freed: int, count: int, ghost n: nat)
      requires Valid() && instance in entries && instance in model.store && n < |model.store[instance]|
      requires Held(newEntries, model.store[instance][n..], model.views)
      requires freed == SizeOf(model.store[instance][..n]) && count == n
      modifies this
      ensures Valid() && model == TrimModel(old(model), instance, n) && totalEntries == old(totalEntries) - count
      ensures totalSize == old(totalSize) - freed && entries.Keys == old(entries.Keys)
    {
      hide Faithful, Consistent, Held, SizeOf;
      TrimConsistent(entries, totalSize, totalEntries, model, instance, newEntries, n);
      model, entries, totalSize, totalEntries :=
        TrimModel(model, instance, n), entries[instance := Revisions(entries[instance].latest, newEntries)],
        totalSize - freed, totalEntries - count;
    }

    /** The inner loop of Prune. */
    method YoungEntries(r: Revisions, maxAge: int, now: int, ghost vs: seq<Version>)
      returns (newEntries: seq<RuleSetEntry>, freed: int, count: int, ghost n: nat)
      requires Faithful(model.views, model.repr) && WellStored(r, vs, model.views, model.clock)
      ensures Held(newEntries, KeepYoung(vs, now, maxAge), model.views)
      ensures freed == SizeOf(vs) - SizeOf(KeepYoung(vs, now, maxAge)) && count == |vs| - |KeepYoung(vs, now, maxAge)|
      ensures n < |vs| && vs[n..] == KeepYoung(vs, now, maxAge) && freed == SizeOf(vs[..n])
    {
      hide Held, Sifted, SizeOf, KeepYoung, WellStored;
      ghost var kept: seq<Version> := [];
      newEntries, freed, count := [], 0, 0;
      SiftStart(vs, now, maxAge);
      HeldNone(vs, 0, model.views);
      StoredFacts(r, vs, model.views, model.clock);
      for i := 0 to |r.entries|
        invariant Held(newEntries, kept, model.views)
        invariant Sifted(vs, i, kept, freed, count, now, maxAge)
      {
        var entry := r.entries[i];
        LatestIsLast(r, vs, model.views, model.clock, i);
        if entry.uuid == r.latest || now - entry.timestamp <= maxAge {
          SiftKeep(vs, i, kept, freed, count, now, maxAge);
          HeldPush(newEntries, kept, model.views, entry);
          newEntries, kept := newEntries + [entry], kept + [vs[i]];
        } else {
          SiftDrop(vs, i, kept, freed, count, now, maxAge);
          var removedSize := EntrySize(entry);
          freed, count := freed + removedSize, count + 1;
        }
      }
      n := SiftEnd(vs, kept, freed, count, now, maxAge);
    }

    /** Prune: no instance keeps revisions older than maxAge, except its latest. */
    method Prune(maxAge: int, now: int) returns (pruned: int)
      requires Valid()
      modifies this
      ensures Valid()
      ensures model == old(model).(store := PruneByAge(old(model.store), now, maxAge))
      ensures 0 <= pruned == old(totalEntries) - totalEntries
    {
      hide Faithful, Consistent, KeepYoung, PruneByAge, AgedExcept, SizeOf, WellStored, Held;
      ghost var before := model.store;
      AgedStart(before, now, maxAge);
      KnownInstances(entries, totalSize, totalEntries, model);
      pruned := 0;
      var left := entries.Keys;
      while left != {}
        invariant Valid() && left <= entries.Keys == before.Keys
        invariant model == old(model).(store := AgedExcept(before, left, now, maxAge))
        invariant 0 <= pruned == old(totalEntries) - totalEntries
      {
        var instance :| instance in left;
        KnownInstance(entries, totalSize, totalEntries, model, instance);
        AgedStep(before, left, instance, now, maxAge);
        var newEntries, freed, count, n := YoungEntries(entries[instance], maxAge, now, model.store[instance]);
        Trim(instance, newEntries, freed, count, n);
        pruned := pruned + count;
        left := left - {instance};
      }
    }

    /** The inner loop of PruneBySize. */
    method CutEntries(r: Revisions, excess: int, ghost vs: seq<Version>)
      returns (newEntries: seq<RuleSetEntry>, freed: int, count: nat)
      requires Faithful(model.views, model.repr) && WellStored(r, vs, model.views, model.clock)
      ensures count == CutCount(vs, excess) < |vs|
      ensures Held(newEntries, vs[count..], model.views) && freed == SizeOf(vs[..count])
    {
      hide Held, CutCount, SizeOf, WellStored;
      newEntries, freed, count := [], 0, 0;
      CutStart(vs, excess);
      HeldNone(vs, 0, model.views);
      StoredFacts(r, vs, model.views, model.clock);
      for i := 0 to |r.entries|
        invariant Cut(vs, i, freed, count, excess)
        invariant Held(newEntries, vs[count..i], model.views)
      {
        var entry := r.entries[i];
        LatestIsLast(r, vs, model.views, model.clock, i);
        if entry.uuid == r.latest || excess - freed <= 0 {
          CutKeep(vs, i, freed, count, excess);
          HeldSlice(newEntries, vs, count, i, model.views, entry);
          newEntries := newEntries + [entry];
        } else {
          CutDrop(vs, i, freed, count, excess);
          HeldNothing(newEntries, vs, i, model.views);
          HeldNone(vs, i + 1, model.views);
          var removedSize := EntrySize(entry);
          freed, count := freed + removedSize, count + 1;
        }
      }
      CutEnd(vs, freed, count, excess);
    }

    /** PruneBySize, which stops as soon as the limit is met; order is the order in which the map was iterated. */
    method PruneBySize(maxSize: int) returns (pruned: int, ghost order: seq<string>)
      requires Valid()
      modifies this
      ensures Valid() && VisitsAll(old(model.store), order)
      ensures model == old(model).(store := PruneInOrder(old(model.store), order, maxSize))
      ensures 0 <= pruned == old(totalEntries) - totalEntries
    {
      hide Faithful, Consistent, SizeOf, WellStored, Held, SweepOver, TotalSize, NonEmpty, CutCount, Swept;
      ghost var before := model.store;
      KnownInstances(entries, totalSize, totalEntries, model);
      pruned, order := 0, [];
      var currentSize := totalSize;
      var left := entries.Keys;
      SweptStart(before, maxSize);
      while left != {} && currentSize > maxSize
        invariant Valid() && left <= entries.Keys == before.Keys && currentSize == totalSize
        invariant Swept(before, order, left, maxSize, model.store, currentSize)
        invariant model == old(model).(store := model.store)
        invariant 0 <= pruned == old(totalEntries) - totalEntries
      {
        var instance :| instance in left;
        KnownInstance(entries, totalSize, totalEntries, model, instance);
        var newEntries, freed, count := CutEntries(entries[instance], currentSize - maxSize, model.store[instance]);
        SweptStep(before, order, left, maxSize, model.store, currentSize, instance, count);
        Trim(instance, newEntries, freed, count, count);
        order := order + [instance];
        pruned, currentSize := pruned + count, currentSize - freed;
        left := left - {instance};
      }
      order := SweptEnd(before, order, left, maxSize, model.store, currentSize);
    }

    /** TotalSize. */
    method ReadTotalSize() returns (size: int)
      requires Valid()
      ensures size == TotalSize(model.store)
    {
      size := totalSize;
    }
  }

  /** What callers rely on the copies for: overwriting a buffer that went into the cache, or one that came out of it,
      changes neither what the cache answers nor what it accounts for. */
  method Isolation(cache: RuleSetCache, instance: string, rules: string, files: map<string, Buffer>, uuid: string,
          now: int, name: string, i: nat, garbage: bv8)
    returns (again: RuleSetEntry?)
    requires cache.Valid() && files.Values !! cache.model.repr
    requires cache.model.clock <= now && UnusedUUID(cache.model.store, uuid)
    requires name in files && i < files[name].Length
    modifies cache, files[name]
    ensures cache.Valid()
            && cache.model.store
               == PutVersion(old(cache.model.store), instance, Version(uuid, now, Payload(rules, old(Contents(files)))))
    ensures again != null && again.View().payload == Payload(rules, old(Contents(files)))
  {
    hide Consistent, Faithful, UnusedUUID, PutVersion, Contents;
    assert files[name] in files.Values;
    cache.Put(instance, rules, files, uuid, now);
    files[name][i] := garbage;
    var taken := cache.Get(instance);
    assert fresh(taken.dataFiles.Values);
    taken.rules := "";
    if name in taken.dataFiles && i < taken.dataFiles[name].Length {
      var buffer := taken.dataFiles[name];
      assert buffer in taken.dataFiles.Values;
      buffer[i] := garbage;
    }
    again := cache.Get(instance);
  }
}
