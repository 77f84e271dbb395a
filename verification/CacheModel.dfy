/** What the RuleSet cache (internal/rulesets/cache/cache.go) stores, as values: the revisions of every instance,
    and the effect of each operation on them. */
module CacheModel {

  type Bytes = seq<bv8>

  datatype Payload = Payload(rules: string, files: map<string, Bytes>)

  /** One stored revision (RuleSetEntry). */
  datatype Version = Version(uuid: string, timestamp: int, payload: Payload)

  /** The revisions of each instance, oldest first. */
  type Store = map<string, seq<Version>>

  // ---------------------------------------------------------------------------------------------
  // Sums over maps
  // ---------------------------------------------------------------------------------------------

  ghost function Sum(m: map<string, nat>): nat {
    if m == map[] then 0 else var k :| k in m; m[k] + Sum(m - {k})
  }

  /** The sum does not depend on which key is taken first. */
  lemma {:induction false} SumAny(m: map<string, nat>, k: string)
    requires k in m
    ensures Sum(m) == m[k] + Sum(m - {k})
    decreases |m|
  {
    var j :| j in m && Sum(m) == m[j] + Sum(m - {j});
    if j != k {
      SumAny(m - {j}, k);
      SumAny(m - {k}, j);
      assert m - {j} - {k} == m - {k} - {j};
    }
  }

  lemma {:induction false} SumUpdate(m: map<string, nat>, k: string, n: nat)
    ensures k in m ==> Sum(m[k := n]) == Sum(m) - m[k] + n
    ensures k !in m ==> Sum(m[k := n]) == Sum(m) + n
  {
    SumAny(m[k := n], k);
    if k in m {
      SumAny(m, k);
      assert m[k := n] - {k} == m - {k};
    } else {
      assert m[k := n] - {k} == m;
    }
  }

  // ---------------------------------------------------------------------------------------------
  // Sizes
  // ---------------------------------------------------------------------------------------------

  /** The number of bytes of a character in UTF-8, the measure of Go's len. */
  function CharBytes(c: char): nat {
    var n := c as int;
    if n < 0x80 then 1 else if n < 0x800 then 2 else if n < 0x1_0000 then 3 else 4
  }

  function ByteLength(s: string): nat {
    if |s| == 0 then 0 else ByteLength(s[..|s| - 1]) + CharBytes(s[|s| - 1])
  }

  function FileSizes(files: map<string, Bytes>): map<string, nat> {
    map f | f in files :: ByteLength(f) + |files[f]|
  }

  /** entrySize. */
  ghost function Size(v: Version): nat {
    ByteLength(v.payload.rules) + Sum(FileSizes(v.payload.files))
  }

  ghost function SizeOf(vs: seq<Version>): nat {
    if |vs| == 0 then 0 else Size(vs[0]) + SizeOf(vs[1..])
  }

  lemma {:induction false} SizeOfConcat(a: seq<Version>, b: seq<Version>)
    ensures SizeOf(a + b) == SizeOf(a) + SizeOf(b)
  {
    if |a| == 0 {
      assert a + b == b;
    } else {
      assert (a + b)[0] == a[0] && (a + b)[1..] == a[1..] + b;
      SizeOfConcat(a[1..], b);
    }
  }

  lemma {:induction false} SizeOfAppend(vs: seq<Version>, v: Version)
    ensures SizeOf(vs + [v]) == SizeOf(vs) + Size(v)
  {
    SizeOfConcat(vs, [v]);
    assert [v][1..] == [];
  }

  ghost function Sizes(m: Store): map<string, nat> {
    map k | k in m :: SizeOf(m[k])
  }

  ghost function Counts(m: Store): map<string, nat> {
    map k | k in m :: |m[k]|
  }

  ghost function TotalSize(m: Store): nat {
    Sum(Sizes(m))
  }

  ghost function TotalEntries(m: Store): nat {
    Sum(Counts(m))
  }

  lemma {:induction false} TotalSizeUpdate(m: Store, k: string, vs: seq<Version>)
    ensures TotalSize(m[k := vs]) == TotalSize(m) - SizeOf(Revisions(m, k)) + SizeOf(vs)
  {
    assert Sizes(m[k := vs]) == Sizes(m)[k := SizeOf(vs)];
    SumUpdate(Sizes(m), k, SizeOf(vs));
  }

  lemma {:induction false} TotalEntriesUpdate(m: Store, k: string, vs: seq<Version>)
    ensures TotalEntries(m[k := vs]) == TotalEntries(m) - |Revisions(m, k)| + |vs|
  {
    assert Counts(m[k := vs]) == Counts(m)[k := |vs|];
    SumUpdate(Counts(m), k, |vs|);
  }

  // ---------------------------------------------------------------------------------------------
  // Operations
  // ---------------------------------------------------------------------------------------------

  /** Every instance has a revision. */
  predicate NonEmpty(m: Store) {
    forall k :: k in m ==> |m[k]| > 0
  }

  function Last(vs: seq<Version>): Version
    requires |vs| > 0
  {
    vs[|vs| - 1]
  }

  /** What Get answers from: the newest revision of each instance. */
  function Latest(m: Store): map<string, Payload>
    requires NonEmpty(m)
  {
    map k | k in m :: Last(m[k]).payload
  }

  function Revisions(m: Store, k: string): seq<Version> {
    if k in m then m[k] else []
  }

  function PutVersion(m: Store, k: string, v: Version): Store {
    m[k := Revisions(m, k) + [v]]
  }

  /** Age pruning of one instance: the latest stays, the others stay while they are young enough. */
  function KeepYoung(vs: seq<Version>, now: int, maxAge: int): seq<Version> {
    if |vs| <= 1 then vs
    else (if now - vs[0].timestamp <= maxAge then [vs[0]] else []) + KeepYoung(vs[1..], now, maxAge)
  }

  function PruneByAge(m: Store, now: int, maxAge: int): Store {
    map k | k in m :: KeepYoung(m[k], now, maxAge)
  }

  /** How many of the oldest revisions go until excess bytes are freed; the latest always stays. */
  ghost function CutCount(vs: seq<Version>, excess: int): (n: nat)
    ensures n <= |vs|
    ensures |vs| > 0 ==> n < |vs|
  {
    if |vs| <= 1 || excess <= 0 then 0 else 1 + CutCount(vs[1..], excess - Size(vs[0]))
  }

  /** Size pruning under way: what is stored, what has been removed so far (oldest removal first), and the bytes still
      in excess. */
  datatype Sweep = Sweep(store: Store, removed: seq<Version>, excess: int)

  /** Pruning one instance. */
  ghost function Visit(s: Sweep, k: string): Sweep
    requires k in s.store
  {
    var vs := s.store[k];
    var n := CutCount(vs, s.excess);
    Sweep(s.store[k := vs[n..]], s.removed + vs[..n], s.excess - SizeOf(vs[..n]))
  }

  /** Map iteration visits keys of the map, in an order of its own. */
  predicate Visits(m: Store, order: seq<string>) {
    forall k :: k in order ==> k in m
  }

  ghost predicate VisitsAll(m: Store, order: seq<string>) {
    forall k :: k in order <==> k in m
  }

  /** The state of size pruning after visiting these instances in this order. */
  ghost function SweepOver(m: Store, order: seq<string>, maxSize: int): (s: Sweep)
    requires Visits(m, order)
    ensures s.store.Keys == m.Keys
  {
    if |order| == 0 then Sweep(m, [], TotalSize(m) - maxSize)
    else Visit(SweepOver(m, order[..|order| - 1], maxSize), order[|order| - 1])
  }

  ghost function PruneInOrder(m: Store, order: seq<string>, maxSize: int): Store
    requires Visits(m, order)
  {
    SweepOver(m, order, maxSize).store
  }

  // ---------------------------------------------------------------------------------------------
  // Age pruning
  // ---------------------------------------------------------------------------------------------

  lemma {:induction false} KeepYoungKeepsLast(vs: seq<Version>, now: int, maxAge: int)
    requires |vs| > 0
    ensures 0 < |KeepYoung(vs, now, maxAge)| <= |vs| && Last(KeepYoung(vs, now, maxAge)) == Last(vs)
  {
    if |vs| > 1 {
      KeepYoungKeepsLast(vs[1..], now, maxAge);
    }
  }

  predicate Sorted(vs: seq<Version>) {
    forall i, j :: 0 <= i < j < |vs| ==> vs[i].timestamp <= vs[j].timestamp
  }

  /** With timestamps that never go back, age pruning too removes an oldest-first prefix. */
  lemma {:induction false} KeepYoungIsSuffix(vs: seq<Version>, now: int, maxAge: int) returns (n: nat)
    requires Sorted(vs)
    ensures n <= |vs| && (|vs| > 0 ==> n < |vs|) && KeepYoung(vs, now, maxAge) == vs[n..]
    ensures forall i :: 0 <= i < n ==> now - vs[i].timestamp > maxAge
    ensures forall i :: n <= i < |vs| - 1 ==> now - vs[i].timestamp <= maxAge
  {
    n := 0;
    if |vs| > 1 {
      var t := vs[1..];
      SortedTail(vs);
      var m := KeepYoungIsSuffix(t, now, maxAge);
      if now - vs[0].timestamp > maxAge {
        n := m + 1;
        assert t[m..] == vs[m + 1..];
      } else {
        assert vs[0].timestamp <= t[0].timestamp;
        assert t[0..] == t && [vs[0]] + t == vs;
      }
      hide Sorted, KeepYoung;
      forall i | 0 <= i < n ensures now - vs[i].timestamp > maxAge {
        assert i > 0 ==> vs[i] == t[i - 1];
      }
      forall i | n <= i < |vs| - 1 ensures now - vs[i].timestamp <= maxAge {
        assert i > 0 ==> vs[i] == t[i - 1];
      }
    }
  }

  lemma {:induction false} SortedTail(vs: seq<Version>)
    requires Sorted(vs) && |vs| > 0
    ensures Sorted(vs[1..])
  {
  }

  // ---------------------------------------------------------------------------------------------
  // Size pruning
  // ---------------------------------------------------------------------------------------------

  /** Cutting stops as soon as the excess is gone: with the last removed revision back it would still be there. */
  lemma {:induction false} CutCountStops(vs: seq<Version>, excess: int)
    requires |vs| > 0
    ensures var n := CutCount(vs, excess);
            (excess - SizeOf(vs[..n]) <= 0 || n == |vs| - 1)
            && (n > 0 ==> excess - SizeOf(vs[..n]) + Size(vs[n - 1]) > 0)
            && (excess <= 0 ==> n == 0)
  {
    var n := CutCount(vs, excess);
    if n > 0 {
      var t := vs[1..];
      CutCountStops(t, excess - Size(vs[0]));
      assert vs[..n][0] == vs[0] && vs[..n][1..] == t[..n - 1];
      if n == 1 {
        assert t[..0] == [];
      } else {
        assert t[n - 2] == vs[n - 1];
      }
    } else {
      assert vs[..0] == [];
    }
  }

  lemma {:induction false} SplitSize(vs: seq<Version>, n: nat)
    requires n <= |vs|
    ensures SizeOf(vs) == SizeOf(vs[..n]) + SizeOf(vs[n..])
  {
    SizeOfConcat(vs[..n], vs[n..]);
    assert vs[..n] + vs[n..] == vs;
  }

  predicate IsSuffix(ws: seq<Version>, vs: seq<Version>) {
    0 < |ws| <= |vs| && forall i :: 0 <= i < |ws| ==> ws[i] == vs[i + (|vs| - |ws|)]
  }

  lemma {:induction false} SuffixOfSuffix(a: seq<Version>, b: seq<Version>, c: seq<Version>)
    requires IsSuffix(b, a) && IsSuffix(c, b)
    ensures IsSuffix(c, a)
  {
  }

  /** One visit: what is cut off is accounted for. */
  lemma {:induction false} VisitConserves(s: Sweep, k: string)
    requires k in s.store
    ensures TotalSize(Visit(s, k).store) + SizeOf(Visit(s, k).removed) == TotalSize(s.store) + SizeOf(s.removed)
    ensures TotalEntries(Visit(s, k).store) + |Visit(s, k).removed| == TotalEntries(s.store) + |s.removed|
    ensures Visit(s, k).excess + SizeOf(Visit(s, k).removed) == s.excess + SizeOf(s.removed)
  {
    var vs := s.store[k];
    var n := CutCount(vs, s.excess);
    SplitSize(vs, n);
    TotalSizeUpdate(s.store, k, vs[n..]);
    TotalEntriesUpdate(s.store, k, vs[n..]);
    SizeOfConcat(s.removed, vs[..n]);
  }

  /** One visit leaves a suffix, stops cutting once the excess is gone, and touches no other instance. */
  lemma {:induction false} VisitFacts(s: Sweep, k: string)
    requires k in s.store && NonEmpty(s.store)
    ensures var t := Visit(s, k);
            && IsSuffix(t.store[k], s.store[k])
            && (t.excess > 0 ==> |t.store[k]| == 1)
            && (s.excess <= 0 ==> t == s)
            && (t.removed != s.removed ==> t.excess + Size(Last(t.removed)) > 0)
            && (t.removed == s.removed ==> t.excess == s.excess)
  {
    var vs := s.store[k];
    var n := CutCount(vs, s.excess);
    CutCountStops(vs, s.excess);
    if n == 0 {
      assert vs[0..] == vs && vs[..0] == [];
      assert s.store[k := vs] == s.store;
    } else {
      assert vs[..n][n - 1] == vs[n - 1];
    }
  }

  /** Some, but not all, of the old revisions of k are gone. */
  predicate PartlyPruned(m: Store, m': Store, k: string) {
    k in m && k in m' && |m'[k]| < |m[k]| && |m'[k]| > 1
  }

  /** Every instance keeps a suffix of its revisions; those not yet visited keep everything. */
  ghost predicate KeepsSuffixes(m: Store, visited: seq<string>, s: Sweep) {
    && s.store.Keys == m.Keys
    && (forall k :: k in m ==> IsSuffix(s.store[k], m[k]))
    && (forall k :: k in m && k !in visited ==> s.store[k] == m[k])
  }

  /** While there is excess, the visited instances are down to their latest revision. */
  ghost predicate Exhausts(m: Store, visited: seq<string>, s: Sweep) {
    s.excess > 0 ==> forall k :: k in visited && k in s.store ==> |s.store[k]| == 1
  }

  ghost predicate OnePartly(m: Store, m': Store) {
    forall a, b :: PartlyPruned(m, m', a) && PartlyPruned(m, m', b) ==> a == b
  }

  ghost predicate Balanced(m: Store, maxSize: int, s: Sweep) {
    && TotalSize(s.store) + SizeOf(s.removed) == TotalSize(m)
    && TotalEntries(s.store) + |s.removed| == TotalEntries(m)
    && s.excess == TotalSize(s.store) - maxSize
    && (s.removed != [] ==> s.excess + Size(Last(s.removed)) > 0)
  }

  lemma {:induction false} VisitKeepsSuffixes(m: Store, visited: seq<string>, s: Sweep, k: string)
    requires NonEmpty(m) && k in m && KeepsSuffixes(m, visited, s)
    ensures KeepsSuffixes(m, visited + [k], Visit(s, k))
  {
    hide CutCount;
    VisitFacts(s, k);
    var t := Visit(s, k);
    SuffixOfSuffix(m[k], s.store[k], t.store[k]);
    assert forall j :: j !in visited + [k] ==> j !in visited && j != k;
  }

  lemma {:induction false} VisitExhausts(m: Store, visited: seq<string>, s: Sweep, k: string)
    requires NonEmpty(s.store) && k in s.store && Exhausts(m, visited, s)
    ensures Exhausts(m, visited + [k], Visit(s, k))
  {
    VisitFacts(s, k);
    assert Visit(s, k).excess <= s.excess;
    assert forall j :: j in visited + [k] ==> j in visited || j == k;
  }

  /** While there is excess nothing is partly pruned yet; afterwards nothing changes any more. */
  lemma {:induction false} VisitOnePartly(m: Store, visited: seq<string>, s: Sweep, k: string)
    requires NonEmpty(m) && k in m
    requires KeepsSuffixes(m, visited, s) && Exhausts(m, visited, s) && OnePartly(m, s.store)
    ensures OnePartly(m, Visit(s, k).store)
  {
    VisitFacts(s, k);
    if s.excess > 0 {
      forall j | j in m && j != k ensures !PartlyPruned(m, Visit(s, k).store, j) {
        if j in visited {
          assert |s.store[j]| == 1;
        }
      }
    }
  }

  lemma {:induction false} VisitBalances(m: Store, maxSize: int, s: Sweep, k: string)
    requires NonEmpty(s.store) && k in s.store && Balanced(m, maxSize, s)
    ensures Balanced(m, maxSize, Visit(s, k))
  {
    VisitFacts(s, k);
    VisitConserves(s, k);
  }

  lemma {:induction false} StartFacts(m: Store, maxSize: int)
    requires NonEmpty(m)
    ensures var s := Sweep(m, [], TotalSize(m) - maxSize);
            KeepsSuffixes(m, [], s) && Exhausts(m, [], s) && OnePartly(m, m) && Balanced(m, maxSize, s)
  {
    forall k | k in m ensures IsSuffix(m[k], m[k]) {
      assert m[k][0..] == m[k];
    }
  }

  lemma {:induction false} SweepKeepsSuffixes(m: Store, order: seq<string>, maxSize: int)
    requires NonEmpty(m) && Visits(m, order)
    ensures KeepsSuffixes(m, order, SweepOver(m, order, maxSize))
  {
    if |order| == 0 {
      StartFacts(m, maxSize);
    } else {
      var before, k := order[..|order| - 1], order[|order| - 1];
      assert order == before + [k];
      var s := SweepOver(m, before, maxSize);
      assert SweepOver(m, order, maxSize) == Visit(s, k);
      SweepKeepsSuffixes(m, before, maxSize);
      VisitKeepsSuffixes(m, before, s, k);
    }
  }

  lemma {:induction false} SweepBalances(m: Store, order: seq<string>, maxSize: int)
    requires NonEmpty(m) && Visits(m, order)
    ensures Balanced(m, maxSize, SweepOver(m, order, maxSize))
  {
    if |order| == 0 {
      StartFacts(m, maxSize);
    } else {
      var before, k := order[..|order| - 1], order[|order| - 1];
      SweepBalances(m, before, maxSize);
      SweepKeepsSuffixes(m, before, maxSize);
      VisitBalances(m, maxSize, SweepOver(m, before, maxSize), k);
    }
  }

  lemma {:induction false} SweepExhausts(m: Store, order: seq<string>, maxSize: int)
    requires NonEmpty(m) && Visits(m, order)
    ensures Exhausts(m, order, SweepOver(m, order, maxSize)) && OnePartly(m, SweepOver(m, order, maxSize).store)
  {
    if |order| == 0 {
      StartFacts(m, maxSize);
    } else {
      var before, k := order[..|order| - 1], order[|order| - 1];
      var s := SweepOver(m, before, maxSize);
      SweepExhausts(m, before, maxSize);
      SweepKeepsSuffixes(m, before, maxSize);
      VisitExhausts(m, before, s, k);
      VisitOnePartly(m, before, s, k);
      assert order == before + [k];
    }
  }

  lemma {:induction false} SweepKeeps(m: Store, order: seq<string>, maxSize: int)
    requires NonEmpty(m) && Visits(m, order)
    ensures var s := SweepOver(m, order, maxSize);
            KeepsSuffixes(m, order, s) && Exhausts(m, order, s) && OnePartly(m, s.store) && Balanced(m, maxSize, s)
  {
    SweepKeepsSuffixes(m, order, maxSize);
    SweepBalances(m, order, maxSize);
    SweepExhausts(m, order, maxSize);
  }

  /** PruneBySize for every iteration order: it ends within the limit or with nothing but the latest revision of every
      instance; what it removes is an oldest-first prefix of each instance; at most one instance is partly pruned. */
  lemma {:induction false} PruneBySizeGuarantee(m: Store, order: seq<string>, maxSize: int)
    requires NonEmpty(m) && VisitsAll(m, order)
    ensures var m' := PruneInOrder(m, order, maxSize);
            && m'.Keys == m.Keys
            && (TotalSize(m') <= maxSize || forall k :: k in m' ==> |m'[k]| == 1)
            && (forall k :: k in m ==> IsSuffix(m'[k], m[k]))
            && OnePartly(m, m')
  {
    SweepKeeps(m, order, maxSize);
  }

  /** PruneBySize removes no more than it must: putting the revision removed last back would exceed the limit.
      Sizes and counts of what is left and of what is removed add up. */
  lemma {:induction false} PruneBySizeIsMinimal(m: Store, order: seq<string>, maxSize: int)
    requires NonEmpty(m) && Visits(m, order)
    ensures var s := SweepOver(m, order, maxSize);
            && (s.removed != [] ==> TotalSize(s.store) + Size(Last(s.removed)) > maxSize)
            && TotalSize(s.store) + SizeOf(s.removed) == TotalSize(m)
            && TotalEntries(s.store) + |s.removed| == TotalEntries(m)
  {
    SweepKeeps(m, order, maxSize);
  }

  lemma {:induction false} SweepOneMore(m: Store, order: seq<string>, k: string, maxSize: int)
    requires Visits(m, order) && k in m
    ensures Visits(m, order + [k])
    ensures SweepOver(m, order + [k], maxSize) == Visit(SweepOver(m, order, maxSize), k)
  {
    assert (order + [k])[..|order|] == order;
  }

  /** Once the excess is gone, the instances still to come are left alone: stopping early changes nothing. */
  lemma {:induction false} SweepStops(m: Store, order: seq<string>, more: seq<string>, maxSize: int)
    requires NonEmpty(m) && Visits(m, order) && Visits(m, more)
    requires SweepOver(m, order, maxSize).excess <= 0
    ensures Visits(m, order + more) && SweepOver(m, order + more, maxSize) == SweepOver(m, order, maxSize)
  {
    hide SweepOver, Visit, NonEmpty;
    if |more| == 0 {
      assert order + more == order;
    } else {
      var fewer, k := more[..|more| - 1], more[|more| - 1];
      SweepStops(m, order, fewer, maxSize);
      StopsHere(m, order, maxSize, k);
      assert order + more == (order + fewer) + [k];
      SweepOneMore(m, order + fewer, k, maxSize);
    }
  }

  lemma {:induction false} Enumerate(keys: set<string>) returns (order: seq<string>)
    ensures forall k :: k in order <==> k in keys
    decreases |keys|
  {
    order := [];
    if keys != {} {
      var k :| k in keys;
      var rest := Enumerate(keys - {k});
      order := rest + [k];
    }
  }

  /** A sweep that ended early, because the excess was gone, ends where a sweep over all instances would. */
  lemma {:induction false} FinishSweep(m: Store, order: seq<string>, maxSize: int) returns (full: seq<string>)
    requires NonEmpty(m) && Visits(m, order)
    requires VisitsAll(m, order) || SweepOver(m, order, maxSize).excess <= 0
    ensures VisitsAll(m, full) && PruneInOrder(m, full, maxSize) == PruneInOrder(m, order, maxSize)
  {
    if VisitsAll(m, order) {
      full := order;
    } else {
      var more := Enumerate(m.Keys);
      SweepStops(m, order, more, maxSize);
      full := order + more;
    }
  }

  lemma {:induction false} StopsHere(m: Store, order: seq<string>, maxSize: int, k: string)
    requires NonEmpty(m) && Visits(m, order) && k in m
    requires SweepOver(m, order, maxSize).excess <= 0
    ensures Visit(SweepOver(m, order, maxSize), k) == SweepOver(m, order, maxSize)
  {
    SweepKeeps(m, order, maxSize);
    VisitFacts(SweepOver(m, order, maxSize), k);
  }

  lemma {:induction false} SuffixHasLast(ws: seq<Version>, vs: seq<Version>)
    requires IsSuffix(ws, vs)
    ensures |ws| > 0 && Last(ws) == Last(vs)
  {
    assert ws[|ws| - 1] == vs[|vs| - 1];
  }

  /** Neither pruning touches what Get answers from. */
  lemma {:induction false} PruningKeepsLatest(m: Store, m': Store)
    requires NonEmpty(m) && m'.Keys == m.Keys && forall k :: k in m ==> |m'[k]| > 0 && Last(m'[k]) == Last(m[k])
    ensures NonEmpty(m') && Latest(m') == Latest(m)
  {
  }

  lemma {:induction false} AgePruningKeepsLatest(m: Store, now: int, maxAge: int)
    requires NonEmpty(m)
    ensures NonEmpty(PruneByAge(m, now, maxAge)) && Latest(PruneByAge(m, now, maxAge)) == Latest(m)
    ensures PruneByAge(m, now, maxAge).Keys == m.Keys
  {
    forall k | k in m { KeepYoungKeepsLast(m[k], now, maxAge); }
  }

  lemma {:induction false} SizePruningKeepsLatest(m: Store, order: seq<string>, maxSize: int)
    requires NonEmpty(m) && Visits(m, order)
    ensures NonEmpty(PruneInOrder(m, order, maxSize)) && Latest(PruneInOrder(m, order, maxSize)) == Latest(m)
    ensures PruneInOrder(m, order, maxSize).Keys == m.Keys
  {
    SweepKeepsSuffixes(m, order, maxSize);
    var m' := PruneInOrder(m, order, maxSize);
    forall k | k in m ensures |m'[k]| > 0 && Last(m'[k]) == Last(m[k]) {
      SuffixHasLast(m'[k], m[k]);
    }
    PruningKeepsLatest(m, m');
  }
}
