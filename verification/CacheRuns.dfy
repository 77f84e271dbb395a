/** Whole runs of the cache: any sequence of Put, Prune and PruneBySize, the last two under any order of map iteration,
    and the garbage collector of internal/rulesets/cache/server.go interleaved with Puts. */
module CacheRuns {
  import opened CacheModel

  datatype Op =
    | Put(key: string, version: Version)
    | PruneAge(now: int, maxAge: int)
    | PruneSize(order: seq<string>, maxSize: int)

  /** Size pruning iterates over the map as it then is. */
  ghost predicate Enabled(m: Store, op: Op) {
    op.PruneSize? ==> VisitsAll(m, op.order)
  }

  ghost function Apply(m: Store, op: Op): Store
    requires Enabled(m, op)
  {
    match op
    case Put(k, v) => PutVersion(m, k, v)
    case PruneAge(now, maxAge) => PruneByAge(m, now, maxAge)
    case PruneSize(order, maxSize) => PruneInOrder(m, order, maxSize)
  }

  /** The states of a run, from the empty cache. */
  ghost predicate IsRun(ops: seq<Op>, states: seq<Store>) {
    && |states| == |ops| + 1
    && states[0] == map[]
    && forall i :: 0 <= i < |ops| ==> Enabled(states[i], ops[i]) && states[i + 1] == Apply(states[i], ops[i])
  }

  /** A plain map that every Put overwrites, and that knows nothing of revisions or pruning. */
  function LastWrites(ops: seq<Op>): map<string, Payload> {
    if |ops| == 0 then map[]
    else
      var before := LastWrites(ops[..|ops| - 1]);
      match ops[|ops| - 1]
      case Put(k, v) => before[k := v.payload]
      case _ => before
  }

  function Puts(ops: seq<Op>): nat {
    if |ops| == 0 then 0 else Puts(ops[..|ops| - 1]) + if ops[|ops| - 1].Put? then 1 else 0
  }

  lemma {:induction false} ApplyKeepsLatest(m: Store, op: Op)
    requires NonEmpty(m) && Enabled(m, op)
    ensures NonEmpty(Apply(m, op)) && m.Keys <= Apply(m, op).Keys
    ensures Latest(Apply(m, op)) == if op.Put? then Latest(m)[op.key := op.version.payload] else Latest(m)
  {
    match op
    case Put(k, v) =>
    case PruneAge(now, maxAge) => AgePruningKeepsLatest(m, now, maxAge);
    case PruneSize(order, maxSize) => SizePruningKeepsLatest(m, order, maxSize);
  }

  /** The cache answers like the plain map, after any run. */
  lemma {:induction false} CacheRefinesLastWrite(ops: seq<Op>, states: seq<Store>)
    requires IsRun(ops, states)
    ensures NonEmpty(states[|ops|]) && Latest(states[|ops|]) == LastWrites(ops)
  {
    hide NonEmpty, Latest, Apply;
    if |ops| == 0 {
      EmptyCache();
    } else {
      var n := |ops| - 1;
      CacheRefinesLastWrite(ops[..n], states[..|ops|]);
      ApplyKeepsLatest(states[n], ops[n]);
    }
  }

  lemma {:induction false} EmptyCache()
    ensures NonEmpty(map[]) && Latest(map[]) == map[]
  {
  }

  /** No instance ever disappears. */
  lemma {:induction false} InstancesStay(ops: seq<Op>, states: seq<Store>, i: nat, j: nat)
    requires IsRun(ops, states) && i <= j <= |ops|
    ensures states[i].Keys <= states[j].Keys
  {
    hide NonEmpty, Apply, LastWrites, Latest;
    if i < j {
      InstancesStay(ops, states, i, j - 1);
      CacheRefinesLastWrite(ops[..j - 1], states[..j]);
      ApplyKeepsLatest(states[j - 1], ops[j - 1]);
    }
  }

  // ---------------------------------------------------------------------------------------------
  // Only the latest revisions
  // ---------------------------------------------------------------------------------------------

  function LatestOnly(m: Store): Store
    requires NonEmpty(m)
  {
    map k | k in m :: [Last(m[k])]
  }

  lemma {:induction false} SumMonotone(a: map<string, nat>, b: map<string, nat>)
    requires a.Keys == b.Keys && forall k :: k in a ==> a[k] <= b[k]
    ensures Sum(a) <= Sum(b)
    decreases |a|
  {
    if a != map[] {
      var k :| k in a;
      SumAny(a, k);
      SumAny(b, k);
      SumMonotone(a - {k}, b - {k});
    } else {
      assert b == map[];
    }
  }

  lemma {:induction false} LastWithin(vs: seq<Version>)
    requires |vs| > 0
    ensures SizeOf([Last(vs)]) <= SizeOf(vs)
  {
    hide SizeOf;
    assert vs == vs[..|vs| - 1] + [Last(vs)];
    SizeOfConcat(vs[..|vs| - 1], [Last(vs)]);
  }

  lemma {:induction false} LatestWithin(m: Store)
    requires NonEmpty(m)
    ensures TotalSize(LatestOnly(m)) <= TotalSize(m)
  {
    forall k | k in m ensures Sizes(LatestOnly(m))[k] <= Sizes(m)[k] {
      LastWithin(m[k]);
    }
    SumMonotone(Sizes(LatestOnly(m)), Sizes(m));
  }

  /** The revisions themselves, not only their payloads, survive both prunings. */
  lemma {:induction false} AgePruningKeepsLatestOnly(m: Store, now: int, maxAge: int)
    requires NonEmpty(m)
    ensures NonEmpty(PruneByAge(m, now, maxAge)) && LatestOnly(PruneByAge(m, now, maxAge)) == LatestOnly(m)
  {
    forall k | k in m { KeepYoungKeepsLast(m[k], now, maxAge); }
  }

  lemma {:induction false} SizePruningKeepsLatestOnly(m: Store, order: seq<string>, maxSize: int)
    requires NonEmpty(m) && Visits(m, order)
    ensures NonEmpty(PruneInOrder(m, order, maxSize)) && LatestOnly(PruneInOrder(m, order, maxSize)) == LatestOnly(m)
  {
    hide SweepOver;
    SweepKeepsSuffixes(m, order, maxSize);
    var m' := PruneInOrder(m, order, maxSize);
    forall k | k in m ensures |m'[k]| > 0 && Last(m'[k]) == Last(m[k]) {
      SuffixHasLast(m'[k], m[k]);
    }
  }

  /** After size pruning the limit is exceeded exactly when the latest revisions alone exceed it. */
  lemma {:induction false} SizeLimitExactly(m: Store, order: seq<string>, maxSize: int)
    requires NonEmpty(m) && VisitsAll(m, order)
    ensures TotalSize(PruneInOrder(m, order, maxSize)) > maxSize <==> TotalSize(LatestOnly(m)) > maxSize
  {
    hide SweepOver, TotalSize, OnePartly;
    var m' := PruneInOrder(m, order, maxSize);
    PruneBySizeGuarantee(m, order, maxSize);
    SizePruningKeepsLatestOnly(m, order, maxSize);
    LatestWithin(m');
    if TotalSize(m') > maxSize {
      assert forall k :: k in m' ==> m'[k] == [Last(m'[k])];
      assert m' == LatestOnly(m');
    }
  }

  // ---------------------------------------------------------------------------------------------
  // Garbage collection interleaved with Puts
  // ---------------------------------------------------------------------------------------------

  datatype Config = Config(maxAge: int, maxSize: int)

  /** Where rungc stands. The counters are bumped after the cache's lock is released, so a number of removals can be
      pending. */
  datatype Phase = Waiting | AgedOut(pending: int) | Measuring | Oversize | SizedOut(pending: int) | Judging

  datatype State = State(store: Store, byAge: int, bySize: int, exceeded: nat, puts: nat, phase: Phase)

  datatype Event =
    | APut(key: string, version: Version)
    | Tick(now: int)                  // the ticker fires: Prune
    | CountAged                       // its counter
    | Measure                         // TotalSize, compared with MaxSize
    | Shrink(order: seq<string>)      // PruneBySize
    | CountSized                      // its counter
    | Judge                           // TotalSize again, and the size limit counter

  ghost predicate Step(c: Config, s: State, e: Event, t: State) {
    match e
    case APut(k, v) => t == s.(store := PutVersion(s.store, k, v), puts := s.puts + 1)
    case Tick(now) =>
      && s.phase == Waiting
      && (var m := PruneByAge(s.store, now, c.maxAge);
          t == s.(store := m, phase := AgedOut(TotalEntries(s.store) - TotalEntries(m))))
    case CountAged =>
      && s.phase.AgedOut?
      && t == s.(byAge := s.byAge + s.phase.pending, phase := Measuring)
    case Measure =>
      && s.phase == Measuring
      && t == s.(phase := if TotalSize(s.store) > c.maxSize then Oversize else Waiting)
    case Shrink(order) =>
      && s.phase == Oversize && VisitsAll(s.store, order)
      && (var m := PruneInOrder(s.store, order, c.maxSize);
          t == s.(store := m, phase := SizedOut(TotalEntries(s.store) - TotalEntries(m))))
    case CountSized =>
      && s.phase.SizedOut?
      && t == s.(bySize := s.bySize + s.phase.pending, phase := Judging)
    case Judge =>
      && s.phase == Judging
      && t == s.(exceeded := s.exceeded + (if TotalSize(s.store) > c.maxSize then 1 else 0), phase := Waiting)
  }

  function Pending(p: Phase): int {
    if p.AgedOut? || p.SizedOut? then p.pending else 0
  }

  /** Every revision ever put is stored, counted as pruned, or about to be counted. */
  ghost predicate Conserved(s: State) {
    s.puts == TotalEntries(s.store) + s.byAge + s.bySize + Pending(s.phase)
  }

  function Initial(): State {
    State(map[], 0, 0, 0, 0, Waiting)
  }

  ghost predicate Trace(c: Config, events: seq<Event>, states: seq<State>) {
    && |states| == |events| + 1
    && states[0] == Initial()
    && forall i :: 0 <= i < |events| ==> Step(c, states[i], events[i], states[i + 1])
  }

  lemma {:induction false} PutCounts(m: Store, k: string, v: Version)
    ensures TotalEntries(PutVersion(m, k, v)) == TotalEntries(m) + 1
  {
    TotalEntriesUpdate(m, k, CacheModel.Revisions(m, k) + [v]);
  }

  lemma {:induction false} StepConserves(c: Config, s: State, e: Event, t: State)
    requires Conserved(s) && Step(c, s, e, t)
    ensures Conserved(t)
  {
    hide TotalEntries, TotalSize, PruneByAge, PruneInOrder, PutVersion;
    if e.APut? {
      PutCounts(s.store, e.key, e.version);
    }
  }

  lemma {:induction false} StartConserved()
    ensures Conserved(Initial())
  {
    assert Counts(map[]) == map[];
  }

  lemma {:induction false} AlwaysConserved(c: Config, events: seq<Event>, states: seq<State>)
    requires Trace(c, events, states)
    ensures Conserved(states[|events|])
  {
    hide Conserved, Step;
    if |events| == 0 {
      StartConserved();
    } else {
      var n := |events| - 1;
      AlwaysConserved(c, events[..n], states[..|events|]);
      StepConserves(c, states[n], events[n], states[n + 1]);
    }
  }

  /** In every interleaving of the garbage collector with Puts: whenever the collector rests, the number of Puts equals
      the revisions stored plus the two prune counters. */
  lemma {:induction false} ConservationThroughGC(c: Config, events: seq<Event>, states: seq<State>)
    requires Trace(c, events, states)
    ensures var s := states[|events|]; s.phase == Waiting ==> s.puts == TotalEntries(s.store) + s.byAge + s.bySize
  {
    AlwaysConserved(c, events, states);
  }

  // ---------------------------------------------------------------------------------------------
  // One iteration without a Put in between
  // ---------------------------------------------------------------------------------------------

  ghost predicate Over(m: Store, maxSize: int) {
    TotalSize(m) > maxSize
  }

  /** What holds after each step of an iteration that began with the latest revisions latest and the counter at x. */
  ghost predicate Underway(c: Config, latest: Store, x: nat, s: State) {
    && NonEmpty(s.store) && LatestOnly(s.store) == latest
    && (s.phase.AgedOut? || s.phase.Measuring? || s.phase.Oversize? ==> s.exceeded == x)
    && (s.phase.SizedOut? || s.phase.Judging? ==>
       s.exceeded == x && (Over(s.store, c.maxSize) <==> Over(latest, c.maxSize)))
    && (s.phase.Waiting? ==> s.exceeded == x + if Over(latest, c.maxSize) then 1 else 0)
  }

  lemma {:induction false} TickUnderway(c: Config, s: State, e: Event, t: State)
    requires NonEmpty(s.store) && e.Tick? && Step(c, s, e, t)
    ensures Underway(c, LatestOnly(s.store), s.exceeded, t)
  {
    AgePruningKeepsLatestOnly(s.store, e.now, c.maxAge);
  }

  lemma {:induction false} StepUnderway(c: Config, latest: Store, x: nat, s: State, e: Event, t: State)
    requires Underway(c, latest, x, s) && s.phase != Waiting && !e.APut? && Step(c, s, e, t)
    ensures Underway(c, latest, x, t)
  {
    hide TotalSize, TotalEntries, LatestOnly, SweepOver, PruneByAge, NonEmpty;
    if e.Measure? {
      LatestWithin(s.store);
    } else if e.Shrink? {
      SizeLimitExactly(s.store, e.order, c.maxSize);
      SizePruningKeepsLatestOnly(s.store, e.order, c.maxSize);
    }
  }

  /** An iteration of rungc: it begins with the ticker and lasts until the collector waits again. */
  ghost predicate Iteration(c: Config, events: seq<Event>, states: seq<State>) {
    && |states| == |events| + 1 && |events| > 0
    && states[0].phase == Waiting && events[0].Tick?
    && (forall i :: 0 <= i < |events| ==> Step(c, states[i], events[i], states[i + 1]))
    && (forall i :: 0 < i < |events| ==> states[i].phase != Waiting)
  }

  lemma {:induction false} IterationUnderway(c: Config, events: seq<Event>, states: seq<State>)
    requires Iteration(c, events, states) && NonEmpty(states[0].store)
    requires forall i :: 0 <= i < |events| ==> !events[i].APut?
    ensures Underway(c, LatestOnly(states[0].store), states[0].exceeded, states[|events|])
  {
    hide Step, Underway, NonEmpty, LatestOnly;
    var n := |events| - 1;
    if n == 0 {
      TickUnderway(c, states[0], events[0], states[1]);
    } else {
      IterationUnderway(c, events[..n], states[..|events|]);
      StepUnderway(c, LatestOnly(states[0].store), states[0].exceeded, states[n], events[n], states[n + 1]);
    }
  }

  /** Without a Put during the iteration, the size limit counter rises exactly when the latest revisions alone exceed
      the limit, whatever order the map is iterated in. */
  lemma {:induction false} SizeLimitCounterExact(c: Config, events: seq<Event>, states: seq<State>)
    requires Iteration(c, events, states) && NonEmpty(states[0].store)
    requires forall i :: 0 <= i < |events| ==> !events[i].APut?
    requires states[|events|].phase == Waiting
    ensures states[|events|].exceeded
         == states[0].exceeded + if TotalSize(LatestOnly(states[0].store)) > c.maxSize then 1 else 0
  {
    IterationUnderway(c, events, states);
  }
}
