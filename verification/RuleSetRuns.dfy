/** Whole runs of the operator as far as the RuleSet cache goes, cut at the API calls of a reconcile. There is one
    worker per RuleSet. Between any two of its calls users may create and delete RuleSets, also under the same name
    again, other RuleSets are reconciled, the garbage collector runs, and the operator may restart, which empties the
    cache but not the stored statuses. Every patch may fail, with or without effect. */
module RuleSetRuns {
  import opened Text
  import opened CacheModel
  import opened StatusConditions
  import opened RuleSetPipeline
  import opened RuleSetReconcilers

  datatype Id = Id(ns: string, name: string)

  function IdOf(rs: RuleSet): Id {
    Id(rs.ns, rs.name)
  }

  function KeyOf(id: Id): string {
    CacheKey(id.ns, id.name)
  }

  /** Where a worker stands, with the object it has in memory; seen are the conditions of that object. Next come: the
      initial patch; the Gets, and then the patch to Degraded or the Put into the cache; the patch to Ready. */
  datatype Phase =
    | Initialising(rs: RuleSet, seen: seq<Condition>)
    | Loading(rs: RuleSet, seen: seq<Condition>)
    | Publishing(rs: RuleSet, seen: seq<Condition>, override: string)

  /** The cache, the conditions of every RuleSet that is stored, and the workers that are not idle. */
  datatype State = State(store: Store, statuses: map<Id, seq<Condition>>, workers: map<Id, Phase>)

  /** Users, the process, the garbage collector, and the calls of a reconcile. Get finds the object rs; the initial
      patch answers with the object rs as it is then; Decides puts the rules into the cache or patches to Degraded,
      Publishes patches to Ready; a reconcile may end for any other reason. */
  datatype Event =
    | Created(id: Id)
    | Removed(id: Id)
    | Restarted
    | Aged(now: int, maxAge: int)
    | Shrunk(order: seq<string>, maxSize: int)
    | Begins(rs: RuleSet)
    | Initialises(rs: RuleSet, outcome: PatchOutcome, now: int)
    | Decides(id: Id, data: nat -> Lookup<RuleData>, sources: nat -> Lookup<RuleSource>,
              outcome: PatchOutcome, uuid: string, now: int)
    | Publishes(id: Id, outcome: PatchOutcome, now: int)
    | GivesUp(id: Id)

  function StatusOf(s: State, id: Id): seq<Condition> {
    if id in s.statuses then s.statuses[id] else []
  }

  /** A merge patch says what has changed in the worker's object, and is applied to the object that is stored under that
      name now. */
  function Patched(s: State, id: Id, before: seq<Condition>, after: seq<Condition>, p: PatchOutcome): State {
    if id in s.statuses && after != before
    then s.(statuses := s.statuses[id := StoredAfter(s.statuses[id], after, p)])
    else s
  }

  function Goto(s: State, id: Id, phase: Phase): State {
    s.(workers := s.workers[id := phase])
  }

  function Leave(s: State, id: Id): State {
    s.(workers := s.workers - {id})
  }

  ghost function Verdict(o: Validators, s: State, e: Event): RuleSetPipeline.Verdict
    requires e.Decides? && e.id in s.workers
  {
    Judge(o, s.workers[e.id].rs, e.data, e.sources)
  }

  ghost predicate Enabled(s: State, e: Event) {
    match e
    case Created(id) => id !in s.statuses
    case Removed(id) => id in s.statuses
    case Restarted => true
    case Aged(_, _) => true
    case Shrunk(order, _) => VisitsAll(s.store, order)
    case Begins(rs) => '/' !in rs.ns && IdOf(rs) in s.statuses && IdOf(rs) !in s.workers
    case Initialises(rs, _, _) => IdOf(rs) in s.workers && s.workers[IdOf(rs)].Initialising?
    case Decides(id, _, _, _, _, _) => id in s.workers && s.workers[id].Loading? && '/' !in id.ns
    case Publishes(id, _, _) => id in s.workers && s.workers[id].Publishing?
    case GivesUp(_) => true
  }

  function StartRemark(rs: RuleSet, now: int): Remark {
    Remark("Reconciling", "Starting reconciliation", rs.generation, now)
  }

  /** A reconcile with a Ready condition in sight skips the initial patch. */
  function Begun(s: State, rs: RuleSet): State
    requires IdOf(rs) in s.statuses
  {
    var seen := s.statuses[IdOf(rs)];
    Goto(s, IdOf(rs), if Has(seen, READY) then Loading(rs, seen) else Initialising(rs, seen))
  }

  /** Only an acknowledged patch lets the reconcile go on; a patch of an object that is gone fails. */
  function Initialised(s: State, rs: RuleSet, p: PatchOutcome, now: int): State
    requires IdOf(rs) in s.workers
  {
    var id, w := IdOf(rs), s.workers[IdOf(rs)];
    var after := AsProgressing(w.seen, StartRemark(w.rs, now));
    var t := Patched(s, id, w.seen, after, p);
    if p == Acknowledged && id in s.statuses then Goto(t, id, Loading(rs, t.statuses[id])) else Leave(t, id)
  }

  /** The worker that has cached its rules. */
  ghost function Announcer(o: Validators, s: State, e: Event): Phase
    requires e.Decides? && e.id in s.workers && Verdict(o, s, e).Accepted?
  {
    Publishing(s.workers[e.id].rs, s.workers[e.id].seen, Verdict(o, s, e).override)
  }

  ghost function Decided(o: Validators, s: State, e: Event): State
    requires e.Decides? && e.id in s.workers
  {
    var w := s.workers[e.id];
    match Verdict(o, s, e)
    case Rejected(h) =>
      var after := AsDegraded(w.seen, Remark(h.reason, h.message, w.rs.generation, e.now));
      Leave(Patched(s, e.id, w.seen, after, e.outcome), e.id)
    case Accepted(payload, _) =>
      Goto(s.(store := PutVersion(s.store, KeyOf(e.id), Version(e.uuid, e.now, payload))), e.id, Announcer(o, s, e))
  }

  function Published(s: State, id: Id, p: PatchOutcome, now: int): State
    requires id in s.workers && s.workers[id].Publishing?
  {
    var w := s.workers[id];
    var after := AsReady(w.seen, Remark("RulesCached", ReadyMessage(w.rs, w.override), w.rs.generation, now));
    Leave(Patched(s, id, w.seen, after, p), id)
  }

  ghost function Next(o: Validators, s: State, e: Event): State
    requires Enabled(s, e)
  {
    match e
    case Created(id) => s.(statuses := s.statuses[id := []])
    case Removed(id) => s.(statuses := s.statuses - {id})
    case Restarted => State(map[], s.statuses, map[])
    case Aged(now, maxAge) => s.(store := PruneByAge(s.store, now, maxAge))
    case Shrunk(order, maxSize) => s.(store := PruneInOrder(s.store, order, maxSize))
    case Begins(rs) => Begun(s, rs)
    case Initialises(rs, p, now) => Initialised(s, rs, p, now)
    case Decides(_, _, _, _, _, _) => Decided(o, s, e)
    case Publishes(id, p, now) => Published(s, id, p, now)
    case GivesUp(id) => Leave(s, id)
  }

  /** A new process, with an empty cache and idle workers; the statuses may be left from earlier ones. */
  ghost predicate Fresh(s: State) {
    s.store == map[] && s.workers == map[]
  }

  ghost predicate IsRun(o: Validators, events: seq<Event>, states: seq<State>) {
    && |states| == |events| + 1
    && Fresh(states[0])
    && forall i :: 0 <= i < |events| ==> Enabled(states[i], events[i]) && states[i + 1] == Next(o, states[i], events[i])
  }

  /** When the process that is there before the n-th event started. */
  function ProcessStart(events: seq<Event>, n: nat): (p: nat)
    requires n <= |events|
    ensures p <= n
  {
    if n == 0 || events[n - 1].Restarted? then n else ProcessStart(events, n - 1)
  }

  // ---------------------------------------------------------------------------------------------
  // What is served
  // ---------------------------------------------------------------------------------------------

  /** A reconcile of this RuleSet accepts its rules and caches them. */
  ghost predicate Accepts(o: Validators, s: State, e: Event, id: Id) {
    e.Decides? && e.id == id && id in s.workers && Verdict(o, s, e).Accepted?
  }

  /** Two RuleSets never share a cache key: a namespace has no slash. */
  lemma {:induction false} KeysDiffer(ns: string, name: string, ns': string, name': string)
    requires '/' !in ns && '/' !in ns' && CacheKey(ns, name) == CacheKey(ns', name')
    ensures ns == ns' && name == name'
  {
    CutAtFirst(ns, '/', name);
    CutAtFirst(ns', '/', name');
  }

  lemma {:induction false} PutServes(m: Store, k: string, v: Version)
    requires NonEmpty(m)
    ensures NonEmpty(PutVersion(m, k, v)) && Latest(PutVersion(m, k, v)) == Latest(m)[k := v.payload]
  {
  }

  lemma {:induction false} EmptyServes()
    ensures NonEmpty(map[]) && Latest(map[]) == map[]
  {
  }

  /** One event changes what is served only by being an accepted reconcile or a restart. */
  lemma {:induction false} NextLatest(o: Validators, s: State, e: Event)
    requires NonEmpty(s.store) && Enabled(s, e)
    ensures NonEmpty(Next(o, s, e).store)
    ensures Latest(Next(o, s, e).store)
         == if e.Restarted? then map[]
            else if e.Decides? && Accepts(o, s, e, e.id) then Latest(s.store)[KeyOf(e.id) := Verdict(o, s, e).payload]
            else Latest(s.store)
  {
    hide Judge, PruneInOrder, PruneByAge, PutVersion, KeyOf, Latest, NonEmpty, AsProgressing, AsReady, AsDegraded, Has;
    match e {
      case Aged(now, maxAge) => AgePruningKeepsLatest(s.store, now, maxAge);
      case Shrunk(order, maxSize) => SizePruningKeepsLatest(s.store, order, maxSize);
      case Decides(id, _, _, _, uuid, now) =>
        if Accepts(o, s, e, id) {
          PutServes(s.store, KeyOf(id), Version(uuid, now, Verdict(o, s, e).payload));
        }
      case Restarted => EmptyServes();
      case _ =>
    }
  }

  lemma {:induction false} NextServes(o: Validators, s: State, e: Event, id: Id)
    requires NonEmpty(s.store) && Enabled(s, e) && '/' !in id.ns
    ensures NonEmpty(Next(o, s, e).store)
    ensures var before, after, k := Latest(s.store), Latest(Next(o, s, e).store), KeyOf(id);
            if Accepts(o, s, e, id) then k in after && after[k] == Verdict(o, s, e).payload
            else if e.Restarted? then k !in after
            else (k in after <==> k in before) && (k in before ==> after[k] == before[k])
  {
    hide Judge, CacheKey, Next, Latest, NonEmpty;
    NextLatest(o, s, e);
    if e.Decides? && KeyOf(e.id) == KeyOf(id) {
      KeysDiffer(e.id.ns, e.id.name, id.ns, id.name);
    }
  }

  /** Event i is an accepted reconcile of this RuleSet. */
  ghost predicate AcceptedAt(o: Validators, events: seq<Event>, states: seq<State>, i: int, id: Id) {
    0 <= i < |events| && i < |states| && Accepts(o, states[i], events[i], id)
  }

  /** The most recent one before the n-th event, made by the process that is then there. */
  ghost predicate LastAcceptedAt(o: Validators, events: seq<Event>, states: seq<State>, n: nat, i: int, id: Id)
    requires n <= |events|
  {
    && ProcessStart(events, n) <= i < n && AcceptedAt(o, events, states, i, id)
    && forall j :: i < j < n ==> !AcceptedAt(o, events, states, j, id)
  }

  /** The cache answers exactly for what the process has accepted before the n-th event, with the most recent of it. */
  ghost predicate Serves(o: Validators, events: seq<Event>, states: seq<State>, n: nat, id: Id) {
    && n <= |events| && n < |states| && NonEmpty(states[n].store)
    && var answers, k := Latest(states[n].store), KeyOf(id);
       if k in answers
       then exists i ::
              LastAcceptedAt(o, events, states, n, i, id) && answers[k] == Verdict(o, states[i], events[i]).payload
       else forall i :: ProcessStart(events, n) <= i < n ==> !AcceptedAt(o, events, states, i, id)
  }

  lemma {:induction false} ServesNext(o: Validators, events: seq<Event>, states: seq<State>, n: nat, id: Id)
    requires IsRun(o, events, states) && n < |events| && '/' !in id.ns
    requires Serves(o, events, states, n, id)
    ensures Serves(o, events, states, n + 1, id)
  {
    hide Next, Enabled, KeyOf, Judge, NonEmpty, Latest;
    NextServes(o, states[n], events[n], id);
    var k := KeyOf(id);
    if AcceptedAt(o, events, states, n, id) {
      assert LastAcceptedAt(o, events, states, n + 1, n, id);
    } else if !events[n].Restarted? && k in Latest(states[n].store) {
      var i :| LastAcceptedAt(o, events, states, n, i, id)
            && Latest(states[n].store)[k] == Verdict(o, states[i], events[i]).payload;
      assert LastAcceptedAt(o, events, states, n + 1, i, id);
    }
  }

  lemma {:induction false} ServesNothing(o: Validators, events: seq<Event>, states: seq<State>, id: Id)
    requires IsRun(o, events, states)
    ensures Serves(o, events, states, 0, id)
  {
  }

  /** Last known good: at every point of every run, Get of a RuleSet answers with what its most recent reconcile
      accepted by this process made of it, and with nothing if there was none. Rejected, failed and half-done
      reconciles, garbage collection, and the deletion of the RuleSet change nothing. */
  lemma {:induction false} LastKnownGood(o: Validators, events: seq<Event>, states: seq<State>, n: nat, id: Id)
    requires IsRun(o, events, states) && n <= |events| && '/' !in id.ns
    ensures Serves(o, events, states, n, id)
  {
    hide Serves, Next, Enabled;
    if n == 0 {
      ServesNothing(o, events, states, id);
    } else {
      LastKnownGood(o, events, states, n - 1, id);
      ServesNext(o, events, states, n - 1, id);
    }
  }

  ghost predicate Cached(s: State, id: Id) {
    KeyOf(id) in s.store
  }

  /** Which RuleSets are served, whatever their statuses say: exactly those accepted since the process started. */
  lemma {:induction false} CachedExactly(o: Validators, events: seq<Event>, states: seq<State>, n: nat, id: Id)
    requires IsRun(o, events, states) && n <= |events| && '/' !in id.ns
    ensures Cached(states[n], id)
            <==> exists i :: ProcessStart(events, n) <= i < n && AcceptedAt(o, events, states, i, id)
  {
    hide Next, Enabled, Accepts;
    LastKnownGood(o, events, states, n, id);
    if Cached(states[n], id) {
      var i :| LastAcceptedAt(o, events, states, n, i, id);
      assert AcceptedAt(o, events, states, i, id);
    }
  }

  // ---------------------------------------------------------------------------------------------
  // Shapes
  // ---------------------------------------------------------------------------------------------

  /** Stored statuses have a shape, and so has what the workers have seen; without a Ready condition while they are to
      add one. */
  ghost predicate WellShaped(s: State) {
    && (forall id :: id in s.statuses ==> HasShape(s.statuses[id]))
    && (forall id :: id in s.workers ==> SeesShape(s.workers[id]))
  }

  ghost predicate SeesShape(w: Phase) {
    HasShape(w.seen) && (w.Initialising? ==> !Has(w.seen, READY))
  }

  lemma {:induction false} EmptyStatus()
    ensures HasShape([]) && !IsReady([]) && !Has([], READY)
  {
  }

  /** What the three patches write. */
  lemma {:induction false} PatchShapes(w: Phase, r: Remark)
    requires SeesShape(w)
    ensures w.Initialising? ==> IsProgressing(AsProgressing(w.seen, r)) && AsProgressing(w.seen, r) != w.seen
    ensures IsDegraded(AsDegraded(w.seen, r)) && IsReady(AsReady(w.seen, r))
  {
    hide AsProgressing, AsDegraded, AsReady, HasShape, Has;
    DegradedShape(w.seen, r);
    ReadyShape(w.seen, r);
    if w.Initialising? {
      ProgressingShape(w.seen, r);
      ProgressingHas(AsProgressing(w.seen, r));
    }
  }

  lemma {:induction false} ProgressingHas(cs: seq<Condition>)
    requires IsProgressing(cs)
    ensures Has(cs, READY) && HasShape(cs) && !IsReady(cs)
  {
  }

  lemma {:induction false} ShapesDiffer(cs: seq<Condition>)
    ensures IsDegraded(cs) ==> HasShape(cs) && !IsReady(cs)
    ensures IsReady(cs) ==> HasShape(cs) && Has(cs, READY)
  {
  }

  /** A patch leaves all statuses but this one alone, and stores the new conditions or nothing. */
  lemma {:induction false} PatchedStatus(s: State, id: Id, before: seq<Condition>, after: seq<Condition>,
          p: PatchOutcome)
    ensures var t := Patched(s, id, before, after, p);
            && t.store == s.store && t.workers == s.workers && t.statuses.Keys == s.statuses.Keys
            && (forall j :: j in s.statuses && j != id ==> t.statuses[j] == s.statuses[j])
            && (id in s.statuses ==>
               t.statuses[id] == s.statuses[id] || (t.statuses[id] == after && after != before && p != Refused))
            && (id in s.statuses && after != before && p != Refused ==> t.statuses[id] == after)
  {
  }

  lemma {:induction false} PatchedShaped(s: State, id: Id, before: seq<Condition>, after: seq<Condition>,
          p: PatchOutcome)
    requires WellShaped(s) && HasShape(after)
    ensures WellShaped(Patched(s, id, before, after, p))
  {
    hide HasShape, SeesShape;
  }

  lemma {:induction false} GotoShaped(s: State, id: Id, w: Phase)
    requires WellShaped(s) && SeesShape(w)
    ensures WellShaped(Goto(s, id, w)) && WellShaped(Leave(s, id))
  {
    hide HasShape, SeesShape;
  }

  lemma {:induction false} LeaveShaped(s: State, id: Id)
    requires WellShaped(s)
    ensures WellShaped(Leave(s, id))
  {
    hide HasShape, SeesShape;
  }

  lemma {:induction false} WorkerSees(s: State, id: Id)
    requires WellShaped(s) && id in s.workers
    ensures SeesShape(s.workers[id])
  {
  }

  lemma {:induction false} BegunShaped(s: State, rs: RuleSet)
    requires WellShaped(s) && Enabled(s, Begins(rs))
    ensures WellShaped(Begun(s, rs))
  {
    hide HasShape, Has;
  }

  lemma {:induction false} InitialisedShaped(s: State, rs: RuleSet, p: PatchOutcome, now: int)
    requires WellShaped(s) && Enabled(s, Initialises(rs, p, now))
    ensures WellShaped(Initialised(s, rs, p, now))
  {
    hide HasShape, Has, AsProgressing, Patched, WellShaped, IsProgressing, IsReady, StartRemark;
    var id, w := IdOf(rs), s.workers[IdOf(rs)];
    WorkerSees(s, id);
    var r := StartRemark(w.rs, now);
    PatchShapes(w, r);
    var after := AsProgressing(w.seen, r);
    ProgressingHas(after);
    PatchedStatus(s, id, w.seen, after, p);
    PatchedShaped(s, id, w.seen, after, p);
    var t := Patched(s, id, w.seen, after, p);
    LeaveShaped(t, id);
    if p == Acknowledged && id in s.statuses {
      GotoShaped(t, id, Loading(rs, t.statuses[id]));
    }
  }

  lemma {:induction false} DecidedShaped(o: Validators, s: State, e: Event)
    requires WellShaped(s) && e.Decides? && Enabled(s, e)
    ensures WellShaped(Decided(o, s, e))
  {
    hide HasShape, Has, AsDegraded, Patched, WellShaped, IsDegraded, IsReady, Judge, PutVersion, KeyOf;
    var w := s.workers[e.id];
    WorkerSees(s, e.id);
    match Verdict(o, s, e) {
      case Rejected(h) =>
        var r := Remark(h.reason, h.message, w.rs.generation, e.now);
        PatchShapes(w, r);
        ShapesDiffer(AsDegraded(w.seen, r));
        PatchedShaped(s, e.id, w.seen, AsDegraded(w.seen, r), e.outcome);
        LeaveShaped(Patched(s, e.id, w.seen, AsDegraded(w.seen, r), e.outcome), e.id);
      case Accepted(payload, override) =>
        var t := s.(store := PutVersion(s.store, KeyOf(e.id), Version(e.uuid, e.now, payload)));
        StoreIsNoShape(s, t.store);
        GotoShaped(t, e.id, Publishing(w.rs, w.seen, override));
    }
  }

  lemma {:induction false} StoreIsNoShape(s: State, store: Store)
    requires WellShaped(s)
    ensures WellShaped(s.(store := store)) && WellShaped(State(store, s.statuses, map[]))
  {
    hide HasShape, SeesShape;
  }

  lemma {:induction false} PublishedShaped(s: State, id: Id, p: PatchOutcome, now: int)
    requires WellShaped(s) && Enabled(s, Publishes(id, p, now))
    ensures WellShaped(Published(s, id, p, now))
  {
    hide HasShape, Has, AsReady, Patched, WellShaped, IsReady, ReadyMessage;
    var w := s.workers[id];
    WorkerSees(s, id);
    var r := Remark("RulesCached", ReadyMessage(w.rs, w.override), w.rs.generation, now);
    PatchShapes(w, r);
    ShapesDiffer(AsReady(w.seen, r));
    PatchedShaped(s, id, w.seen, AsReady(w.seen, r), p);
    LeaveShaped(Patched(s, id, w.seen, AsReady(w.seen, r), p), id);
  }

  lemma {:induction false} UserShaped(o: Validators, s: State, e: Event)
    requires WellShaped(s) && Enabled(s, e) && (e.Created? || e.Removed?)
    ensures WellShaped(Next(o, s, e))
  {
    hide HasShape, SeesShape;
    EmptyStatus();
  }

  lemma {:induction false} NextShaped(o: Validators, s: State, e: Event)
    requires WellShaped(s) && Enabled(s, e)
    ensures WellShaped(Next(o, s, e))
  {
    hide WellShaped, Begun, Initialised, Decided, Published, Leave, PruneByAge, PruneInOrder;
    match e {
      case Begins(rs) => BegunShaped(s, rs);
      case Initialises(rs, p, now) => InitialisedShaped(s, rs, p, now);
      case Decides(_, _, _, _, _, _) => DecidedShaped(o, s, e);
      case Publishes(id, p, now) => PublishedShaped(s, id, p, now);
      case GivesUp(id) => LeaveShaped(s, id);
      case Aged(now, maxAge) => StoreIsNoShape(s, PruneByAge(s.store, now, maxAge));
      case Shrunk(order, maxSize) => StoreIsNoShape(s, PruneInOrder(s.store, order, maxSize));
      case Restarted => StoreIsNoShape(s, map[]);
      case _ => UserShaped(o, s, e);
    }
  }

  /** Along every run that starts from statuses in shape they stay in shape, whatever happens between the calls of a
      reconcile. */
  lemma {:induction false} ShapesAlongRuns(o: Validators, events: seq<Event>, states: seq<State>, n: nat)
    requires IsRun(o, events, states) && n <= |events| && WellShaped(states[0])
    ensures WellShaped(states[n])
  {
    hide Next, Enabled, WellShaped;
    if n > 0 {
      ShapesAlongRuns(o, events, states, n - 1);
      NextShaped(o, states[n - 1], events[n - 1]);
    }
  }

  // ---------------------------------------------------------------------------------------------
  // What Ready says
  // ---------------------------------------------------------------------------------------------

  /** A worker that is about to say Ready announces what its RuleSet's last accepted reconcile put into the cache. */
  ghost predicate Announces(o: Validators, events: seq<Event>, states: seq<State>, n: nat, id: Id) {
    && n <= |events| && n < |states|
    && (id in states[n].workers && states[n].workers[id].Publishing? ==>
          exists i :: LastAcceptedAt(o, events, states, n, i, id)
            && states[n].workers[id] == Announcer(o, states[i], events[i]))
  }

  /** An event that does not decide or end a RuleSet's reconcile leaves a worker that publishes where it is. */
  lemma {:induction false} NextPublishing(o: Validators, s: State, e: Event, id: Id)
    requires Enabled(s, e) && id in Next(o, s, e).workers && Next(o, s, e).workers[id].Publishing?
    ensures Accepts(o, s, e, id) ==> Next(o, s, e).workers[id] == Announcer(o, s, e)
    ensures Accepts(o, s, e, id) || (!e.Restarted? && !(e.Decides? && e.id == id)
                                     && id in s.workers && s.workers[id] == Next(o, s, e).workers[id])
  {
    hide Judge, AsProgressing, AsDegraded, AsReady, Has, PutVersion, PruneByAge, PruneInOrder, KeyOf;
  }

  lemma {:induction false} AnnouncesNext(o: Validators, events: seq<Event>, states: seq<State>, n: nat, id: Id)
    requires IsRun(o, events, states) && n < |events| && Announces(o, events, states, n, id)
    ensures Announces(o, events, states, n + 1, id)
  {
    hide Next, Enabled, Announcer, Verdict;
    var w := states[n + 1].workers;
    if id in w && w[id].Publishing? {
      NextPublishing(o, states[n], events[n], id);
      if Accepts(o, states[n], events[n], id) {
        assert LastAcceptedAt(o, events, states, n + 1, n, id);
      } else {
        var i :| LastAcceptedAt(o, events, states, n, i, id)
          && states[n].workers[id] == Announcer(o, states[i], events[i]);
        assert LastAcceptedAt(o, events, states, n + 1, i, id);
      }
    }
  }

  lemma {:induction false} AlwaysAnnounces(o: Validators, events: seq<Event>, states: seq<State>, n: nat, id: Id)
    requires IsRun(o, events, states) && n <= |events|
    ensures Announces(o, events, states, n, id)
  {
    hide Next, Enabled, Announces;
    if n == 0 {
      NoAnnouncement(o, events, states, id);
    } else {
      AlwaysAnnounces(o, events, states, n - 1, id);
      AnnouncesNext(o, events, states, n - 1, id);
    }
  }

  lemma {:induction false} NoAnnouncement(o: Validators, events: seq<Event>, states: seq<State>, id: Id)
    requires IsRun(o, events, states)
    ensures Announces(o, events, states, 0, id)
  {
  }

  lemma {:induction false} LastUnique(o: Validators, events: seq<Event>, states: seq<State>, n: nat, i: int, j: int,
          id: Id)
    requires n <= |events| && LastAcceptedAt(o, events, states, n, i, id) && LastAcceptedAt(o, events, states, n, j, id)
    ensures i == j
  {
    hide AcceptedAt;
  }

  lemma {:induction false} LastIsAccepted(o: Validators, events: seq<Event>, states: seq<State>, n: nat, i: int, id: Id)
    requires n <= |events| && LastAcceptedAt(o, events, states, n, i, id)
    ensures AcceptedAt(o, events, states, i, id)
  {
  }

  /** RuleSet and cache agree: event i is the last accepted reconcile, and its rules are served. */
  ghost predicate ServedFrom(o: Validators, events: seq<Event>, states: seq<State>, n: nat, i: int, id: Id) {
    && n <= |events| && n < |states| && LastAcceptedAt(o, events, states, n, i, id)
       && AcceptedAt(o, events, states, i, id)
    && NonEmpty(states[n].store) && KeyOf(id) in Latest(states[n].store)
    && Latest(states[n].store)[KeyOf(id)] == Verdict(o, states[i], events[i]).payload
  }

  lemma {:induction false} LastIsServed(o: Validators, events: seq<Event>, states: seq<State>, n: nat, i: int, id: Id)
    requires n <= |events| && LastAcceptedAt(o, events, states, n, i, id) && Serves(o, events, states, n, id)
    ensures ServedFrom(o, events, states, n, i, id)
  {
    hide NonEmpty, Latest, KeyOf, Judge;
    LastIsAccepted(o, events, states, n, i, id);
    if KeyOf(id) in Latest(states[n].store) {
      var j :| LastAcceptedAt(o, events, states, n, j, id)
            && Latest(states[n].store)[KeyOf(id)] == Verdict(o, states[j], events[j]).payload;
      LastUnique(o, events, states, n, i, j, id);
    } else {
      LastInProcess(o, events, states, n, i, id);
    }
  }

  lemma {:induction false} LastInProcess(o: Validators, events: seq<Event>, states: seq<State>, n: nat, i: int, id: Id)
    requires n <= |events| && LastAcceptedAt(o, events, states, n, i, id)
    ensures ProcessStart(events, n) <= i < n
  {
  }

  /** Whenever a reconcile says Ready, the cache serves exactly the rules that this very reconcile has accepted. */
  lemma {:induction false} ReadyAnnouncesServed(o: Validators, events: seq<Event>, states: seq<State>, n: nat)
    requires IsRun(o, events, states) && n < |events| && events[n].Publishes? && '/' !in events[n].id.ns
    ensures var id := events[n].id;
            exists i :: ServedFrom(o, events, states, n, i, id)
              && states[n].workers[id] == Announcer(o, states[i], events[i])
  {
    hide Next, Serves, ServedFrom, Judge;
    var id := events[n].id;
    LastKnownGood(o, events, states, n, id);
    AlwaysAnnounces(o, events, states, n, id);
    assert Enabled(states[n], events[n]);
    var i :| LastAcceptedAt(o, events, states, n, i, id) && states[n].workers[id] == Announcer(o, states[i], events[i]);
    LastIsServed(o, events, states, n, i, id);
  }

  /** A status becomes Ready only by the patch of a worker that has cached its rules. */
  lemma {:induction false} NextReady(o: Validators, s: State, e: Event, id: Id)
    requires WellShaped(s) && Enabled(s, e) && IsReady(StatusOf(Next(o, s, e), id))
    ensures StatusOf(Next(o, s, e), id) == StatusOf(s, id) || (e.Publishes? && e.id == id)
  {
    hide HasShape, IsReady, IsDegraded, IsProgressing, AsProgressing, AsDegraded, AsReady, Has, WellShaped, StartRemark;
    hide Judge, PutVersion, PruneByAge, PruneInOrder, KeyOf, Patched;
    EmptyStatus();
    match e {
      case Initialises(rs, p, now) =>
        var w := s.workers[IdOf(rs)];
        WorkerSees(s, IdOf(rs));
        PatchShapes(w, StartRemark(w.rs, now));
        ProgressingHas(AsProgressing(w.seen, StartRemark(w.rs, now)));
        PatchedStatus(s, IdOf(rs), w.seen, AsProgressing(w.seen, StartRemark(w.rs, now)), p);
      case Decides(i, _, _, p, _, now) =>
        var w := s.workers[i];
        WorkerSees(s, i);
        if Verdict(o, s, e).Rejected? {
          var h := Verdict(o, s, e).halt;
          var r := Remark(h.reason, h.message, w.rs.generation, now);
          PatchShapes(w, r);
          ShapesDiffer(AsDegraded(w.seen, r));
          PatchedStatus(s, i, w.seen, AsDegraded(w.seen, r), p);
        }
      case Publishes(i, p, now) =>
        var w := s.workers[i];
        var r := Remark("RulesCached", ReadyMessage(w.rs, w.override), w.rs.generation, now);
        PatchedStatus(s, i, w.seen, AsReady(w.seen, r), p);
      case _ =>
    }
  }

  lemma {:induction false} StillCached(o: Validators, s: State, e: Event, id: Id)
    requires Enabled(s, e) && NonEmpty(s.store) && Cached(s, id) && !e.Restarted?
    ensures Cached(Next(o, s, e), id)
  {
    hide Next, KeyOf, Latest, NonEmpty, Accepts;
    NextLatest(o, s, e);
    LatestKeys(s.store);
    LatestKeys(Next(o, s, e).store);
  }

  lemma {:induction false} LatestKeys(m: Store)
    requires NonEmpty(m)
    ensures Latest(m).Keys == m.Keys
  {
  }

  /** A process says Ready only of what it serves: a Ready status of a RuleSet that is not in the cache is, word for
      word, the one that the process found when it started. */
  lemma {:induction false} UncachedReadyIsLeftOver(o: Validators, events: seq<Event>, states: seq<State>, n: nat,
          id: Id)
    requires IsRun(o, events, states) && n <= |events| && WellShaped(states[0]) && '/' !in id.ns
    requires IsReady(StatusOf(states[n], id)) && !Cached(states[n], id)
    ensures StatusOf(states[n], id) == StatusOf(states[ProcessStart(events, n)], id)
  {
    hide Next, Enabled, WellShaped, IsReady, StatusOf, KeyOf, Accepts, NonEmpty, Latest;
    if n > 0 && !events[n - 1].Restarted? {
      var s, e := states[n - 1], events[n - 1];
      ShapesAlongRuns(o, events, states, n - 1);
      LastKnownGood(o, events, states, n - 1, id);
      if Cached(s, id) {
        StillCached(o, s, e, id);
        assert false;
      }
      NextReady(o, s, e, id);
      if e.Publishes? && e.id == id {
        ReadyAnnouncesServed(o, events, states, n - 1);
        LatestKeys(s.store);
        assert false;
      }
      UncachedReadyIsLeftOver(o, events, states, n - 1, id);
    }
  }

  // ---------------------------------------------------------------------------------------------
  // A reconcile that nothing disturbs
  // ---------------------------------------------------------------------------------------------

  /** These events lead from one state to the other. */
  ghost predicate Leads(o: Validators, s: State, events: seq<Event>, t: State)
    decreases |events|
  {
    if |events| == 0 then s == t else Enabled(s, events[0]) && Leads(o, Next(o, s, events[0]), events[1..], t)
  }

  lemma {:induction false} LeadsOn(o: Validators, s: State, e: Event, events: seq<Event>, t: State)
    requires Enabled(s, e) && Leads(o, Next(o, s, e), events, t)
    ensures Leads(o, s, [e] + events, t)
  {
    hide Next, Enabled;
    assert ([e] + events)[1..] == events;
  }

  lemma {:induction false} LeadsConcat(o: Validators, s: State, a: seq<Event>, t: State, b: seq<Event>, u: State)
    requires Leads(o, s, a, t) && Leads(o, t, b, u)
    ensures Leads(o, s, a + b, u)
    decreases |a|
  {
    hide Next, Enabled;
    if |a| == 0 {
      assert a + b == b;
    } else {
      LeadsConcat(o, Next(o, s, a[0]), a[1..], t, b, u);
      assert (a + b)[1..] == a[1..] + b;
    }
  }

  lemma {:induction false} LeadsAlongRun(o: Validators, s: State, events: seq<Event>, t: State)
    returns (states: seq<State>)
    requires Leads(o, s, events, t)
    ensures |states| == |events| + 1 && states[0] == s && states[|events|] == t
    ensures forall i :: 0 <= i < |events| ==>
            Enabled(states[i], events[i]) && states[i + 1] == Next(o, states[i], events[i])
    decreases |events|
  {
    hide Next, Enabled;
    if |events| == 0 {
      states := [s];
    } else {
      var rest := LeadsAlongRun(o, Next(o, s, events[0]), events[1..], t);
      states := [s] + rest;
    }
  }

  /** The conditions that a whole reconcile leaves behind. */
  ghost function Outcome(cs: seq<Condition>, rs: RuleSet, v: RuleSetPipeline.Verdict, init: PatchOutcome,
          end: PatchOutcome, now: int)
    : seq<Condition>
  {
    var c1 := Started(cs, rs.generation, init, now);
    if Proceeds(cs, init) then Concluded(c1, rs, v, end, now) else c1
  }

  ghost function Stored(m: Store, id: Id, v: RuleSetPipeline.Verdict, uuid: string, now: int): Store {
    if v.Accepted? then PutVersion(m, KeyOf(id), Version(uuid, now, v.payload)) else m
  }

  /** From the loading on. */
  lemma {:induction false} UndisturbedDecision(o: Validators, s: State, id: Id, data: nat -> Lookup<RuleData>,
          sources: nat -> Lookup<RuleSource>, end: PatchOutcome, uuid: string, now: int)
    returns (events: seq<Event>, t: State)
    requires id in s.workers && s.workers[id].Loading? && '/' !in id.ns && IdOf(s.workers[id].rs) == id
    requires id in s.statuses && s.workers[id].seen == s.statuses[id]
    ensures Leads(o, s, events, t)
    ensures var rs := s.workers[id].rs;
            var v := Judge(o, rs, data, sources);
            t == State(Stored(s.store, id, v, uuid, now), s.statuses[id := Concluded(s.statuses[id], rs, v, end, now)],
              s.workers - {id})
  {
    hide Judge, PutVersion, AsDegraded, AsReady, KeyOf, ReadyMessage;
    var w := s.workers[id];
    var decide := Decides(id, data, sources, end, uuid, now);
    var s1 := Next(o, s, decide);
    if Verdict(o, s, decide).Rejected? {
      events, t := [decide], s1;
      LeadsOn(o, s, decide, [], s1);
      assert [decide] == [decide] + [];
    } else {
      var publish := Publishes(id, end, now);
      t := Next(o, s1, publish);
      events := [decide] + ([publish] + []);
      LeadsOn(o, s1, publish, [], t);
      LeadsOn(o, s, decide, [publish] + [], t);
    }
  }

  /** Without a disturbance the calls of a reconcile amount to what the reconciler does in one go. */
  lemma {:induction false} UndisturbedReconcile(o: Validators, s: State, rs: RuleSet, data: nat -> Lookup<RuleData>,
          sources: nat -> Lookup<RuleSource>, init: PatchOutcome, end: PatchOutcome, uuid: string, now: int)
    returns (events: seq<Event>, t: State)
    requires '/' !in rs.ns && IdOf(rs) in s.statuses && IdOf(rs) !in s.workers
    ensures Leads(o, s, events, t)
    ensures var id, v, cs := IdOf(rs), Judge(o, rs, data, sources), s.statuses[IdOf(rs)];
            t == State(if Proceeds(cs, init) then Stored(s.store, id, v, uuid, now) else s.store,
                       s.statuses[id := Outcome(cs, rs, v, init, end, now)], s.workers)
  {
    hide Judge, Stored, AsProgressing, Concluded, Has, Leads;
    var id, cs := IdOf(rs), s.statuses[IdOf(rs)];
    var begin, start := Begins(rs), Initialises(rs, init, now);
    var s1 := Next(o, s, begin);
    assert s.workers - {id} == s.workers && s.statuses[id := cs] == s.statuses;
    if Has(cs, READY) {
      events, t := UndisturbedDecision(o, s1, id, data, sources, end, uuid, now);
      assert s1.workers - {id} == s.workers;
    } else {
      var s2 := Next(o, s1, start);
      if init == Acknowledged {
        events, t := UndisturbedDecision(o, s2, id, data, sources, end, uuid, now);
        assert s2.workers - {id} == s.workers;
      } else {
        events, t := [], s2;
        LeadsNowhere(o, s2);
        assert s2.workers == s.workers;
      }
      LeadsOn(o, s1, start, events, t);
      events := [start] + events;
    }
    LeadsOn(o, s, begin, events, t);
    events := [begin] + events;
  }

  lemma {:induction false} LeadsNowhere(o: Validators, s: State)
    ensures Leads(o, s, [], s)
  {
  }

  // ---------------------------------------------------------------------------------------------
  // What Ready does not say
  // ---------------------------------------------------------------------------------------------

  lemma {:induction false} AcceptedIsReady(rs: RuleSet, v: RuleSetPipeline.Verdict, now: int)
    requires v.Accepted?
    ensures IsReady(Outcome([], rs, v, Acknowledged, Acknowledged, now)) && Proceeds([], Acknowledged)
  {
    hide HasShape, IsReady, AsProgressing, AsReady, IsProgressing;
    EmptyStatus();
    ProgressingShape([], StartRemark(rs, now));
    ProgressingHas(AsProgressing([], StartRemark(rs, now)));
    ReadyShape(AsProgressing([], StartRemark(rs, now)),
      Remark("RulesCached", ReadyMessage(rs, v.override), rs.generation, now));
  }

  lemma {:induction false} RefusedStaysReady(cs: seq<Condition>, rs: RuleSet, v: RuleSetPipeline.Verdict,
          init: PatchOutcome, now: int)
    requires IsReady(cs) && v.Rejected?
    ensures Outcome(cs, rs, v, init, Refused, now) == cs
  {
    hide AsProgressing, AsReady, AsDegraded;
    ShapesDiffer(cs);
  }

  /** After a restart a Ready RuleSet is not served, and it stays Ready while its reconciles are rejected and the
      patches that would say so are refused. */
  lemma {:induction false} ReadyAfterRestart(o: Validators, rs: RuleSet, data: nat -> Lookup<RuleData>,
          sources: nat -> Lookup<RuleSource>, data': nat -> Lookup<RuleData>, sources': nat -> Lookup<RuleSource>,
          uuid: string, now: int)
    returns (events: seq<Event>, states: seq<State>)
    requires '/' !in rs.ns && Judge(o, rs, data, sources).Accepted? && Judge(o, rs, data', sources').Rejected?
    ensures IsRun(o, events, states) && WellShaped(states[0])
    ensures IsReady(StatusOf(states[|events|], IdOf(rs))) && !Cached(states[|events|], IdOf(rs))
  {
    hide Judge, Outcome, Stored, IsReady, Leads, WellShaped, KeyOf, Proceeds;
    var id, s0 := IdOf(rs), State(map[], map[], map[]);
    var s1 := Next(o, s0, Created(id));
    assert s1 == State(map[], map[id := []], map[]);
    var first, s2 := UndisturbedReconcile(o, s1, rs, data, sources, Acknowledged, Acknowledged, uuid, now);
    AcceptedIsReady(rs, Judge(o, rs, data, sources), now);
    var s3 := Next(o, s2, Restarted);
    var second, s4 := UndisturbedReconcile(o, s3, rs, data', sources', Acknowledged, Refused, uuid, now);
    RefusedStaysReady(s3.statuses[id], rs, Judge(o, rs, data', sources'), Acknowledged, now);
    LeadsOn(o, s2, Restarted, second, s4);
    LeadsConcat(o, s1, first, s2, [Restarted] + second, s4);
    LeadsOn(o, s0, Created(id), first + ([Restarted] + second), s4);
    events := [Created(id)] + (first + ([Restarted] + second));
    states := LeadsAlongRun(o, s0, events, s4);
    NothingStored(s0);
    StoredNothing(id, Judge(o, rs, data', sources'), uuid, now);
  }

  lemma {:induction false} StoredNothing(id: Id, v: RuleSetPipeline.Verdict, uuid: string, now: int)
    requires v.Rejected?
    ensures Stored(map[], id, v, uuid, now) == map[]
  {
  }

  lemma {:induction false} NothingStored(s: State)
    requires s.statuses == map[] && s.workers == map[]
    ensures WellShaped(s)
  {
  }

  /** Since the last reconcile of this RuleSet began, it has been deleted. */
  predicate Disturbed(events: seq<Event>, n: nat, id: Id)
    requires n <= |events|
  {
    n > 0 && !(events[n - 1].Begins? && IdOf(events[n - 1].rs) == id)
      && (events[n - 1] == Removed(id) || Disturbed(events, n - 1, id))
  }

  lemma {:induction false} StillSeesStored(o: Validators, s: State, e: Event, id: Id)
    requires Enabled(s, e) && id in Next(o, s, e).workers && e != Removed(id)
    requires id in s.workers ==> id in s.statuses && s.workers[id].seen == s.statuses[id]
    ensures var t := Next(o, s, e); id in t.statuses && t.workers[id].seen == t.statuses[id]
  {
    hide Judge, AsProgressing, AsReady, AsDegraded, Has, PutVersion, KeyOf, PruneByAge, PruneInOrder;
  }

  /** As long as its RuleSet is not deleted, a worker has seen the status that is stored: its patches change the object
      that it looked at. */
  lemma {:induction false} SeesStored(o: Validators, events: seq<Event>, states: seq<State>, n: nat, id: Id)
    requires IsRun(o, events, states) && n <= |events| && id in states[n].workers && !Disturbed(events, n, id)
    ensures id in states[n].statuses && states[n].workers[id].seen == states[n].statuses[id]
  {
    hide Next, Enabled;
    var e := events[n - 1];
    if id in states[n - 1].workers && !(e.Begins? && IdOf(e.rs) == id) {
      SeesStored(o, events, states, n - 1, id);
    }
    if e.Begins? && IdOf(e.rs) == id {
      NotBegunTwice(states[n - 1], e, id);
    }
    StillSeesStored(o, states[n - 1], e, id);
  }

  lemma {:induction false} NotBegunTwice(s: State, e: Event, id: Id)
    requires Enabled(s, e) && e.Begins? && IdOf(e.rs) == id
    ensures id !in s.workers
  {
  }

  /** A RuleSet that is deleted and created again while its old self is being reconciled becomes Ready without having
      been looked at: no reconcile begins after it was created. */
  lemma {:induction false} RecreatedBecomesReady(o: Validators, rs: RuleSet, data: nat -> Lookup<RuleData>,
          sources: nat -> Lookup<RuleSource>, uuid: string, now: int)
    returns (events: seq<Event>, states: seq<State>)
    requires '/' !in rs.ns && Judge(o, rs, data, sources).Accepted?
    ensures IsRun(o, events, states) && WellShaped(states[0])
    ensures var n := |events|; n > 2 && events[n - 2] == Created(IdOf(rs)) && events[n - 1].Publishes?
    ensures IsReady(StatusOf(states[|events|], IdOf(rs)))
  {
    hide Judge, IsReady, WellShaped, KeyOf, AsProgressing, AsReady, HasShape, Has, IsProgressing, PutVersion,
         ReadyMessage;
    var id, s0 := IdOf(rs), State(map[], map[], map[]);
    EmptyStatus();
    var seen := AsProgressing([], StartRemark(rs, now));
    ProgressingShape([], StartRemark(rs, now));
    ProgressingHas(seen);
    var override := Judge(o, rs, data, sources).override;
    ReadyShape(seen, Remark("RulesCached", ReadyMessage(rs, override), rs.generation, now));
    var decide := Decides(id, data, sources, Acknowledged, uuid, now);
    var s1 := Next(o, s0, Created(id));
    var s2 := Next(o, s1, Begins(rs));
    assert s2.workers[id] == Initialising(rs, []);
    var s3 := Next(o, s2, Initialises(rs, Acknowledged, now));
    assert s3.workers[id] == Loading(rs, seen) by {
      NoConditions(seen);
    }
    var s4 := Next(o, s3, decide);
    assert s4.workers[id] == Publishing(rs, seen, override);
    var s5 := Next(o, s4, Removed(id));
    var s6 := Next(o, s5, Created(id));
    var s7 := Next(o, s6, Publishes(id, Acknowledged, now));
    events := [Created(id), Begins(rs), Initialises(rs, Acknowledged, now), decide, Removed(id), Created(id),
               Publishes(id, Acknowledged, now)];
    states := [s0, s1, s2, s3, s4, s5, s6, s7];
    NothingStored(s0);
  }

  lemma {:induction false} NoConditions(cs: seq<Condition>)
    requires Has(cs, READY)
    ensures cs != []
  {
  }
}
