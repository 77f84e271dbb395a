/** The protocol that ties an Engine to its NetworkPolicy in another namespace (internal/controller/engine_controller.go
    and engine_controller_network_policy.go), cut at its API calls. Between any two calls of a reconcile users may
    create and delete Engines, other Engines are reconciled, and the operator may restart; every call may fail, with or
    without effect. There is one worker per Engine, reads are linearizable, and only the operator touches its finalizer
    and the labelled policies. */
module FinalizerProtocol {
  import opened Text

  /** An Engine's namespace and name, which are also what the labels of its policy say. */
  datatype Id = Id(ns: string, name: string)

  datatype Engine = Engine(uid: nat, finalizer: bool, deleting: bool)

  /** A call succeeds, fails without effect, or takes effect without the caller learning of it. */
  datatype Call = Answered | Failed | AnswerLost

  /** Where the worker of an Engine stands; the next API call is named by the phase. */
  datatype Phase =
    | Idle                                         // Get
    | AddingFinalizer                              // Patch
    | Finding                                      // List, before create or update
    | Creating                                     // Create
    | Updating(policy: string)                     // Update
    | Listing(removal: bool)                       // List, before cleanup
    | Cleaning(left: seq<string>, removal: bool)   // Delete, one by one
    | RemovingFinalizer                            // Patch

  datatype State = State(
    engines: map<Id, Engine>,
    policies: map<string, Id>,    // the labelled policies of the operator namespace, by name
    workers: map<Id, Phase>,      // Idle if absent
    uids: nat)                    // how many Engines have ever been created

  /** A worker gives up when its reconcile ends for any other reason than an answer; listed is what a List answers,
      newName a generated name. */
  datatype Event =
    | UserCreates(id: Id, finalizer: bool)
    | UserDeletes(id: Id)
    | Restart
    | GivesUp(id: Id)
    | Works(id: Id, call: Call, listed: seq<string>, newName: string)

  function PhaseOf(s: State, id: Id): Phase {
    if id in s.workers then s.workers[id] else Idle
  }

  function Goto(s: State, id: Id, p: Phase): State {
    s.(workers := s.workers[id := p])
  }

  predicate Owned(s: State, id: Id, policy: string) {
    policy in s.policies && s.policies[policy] == id
  }

  /** Deleting an object that has a finalizer only marks it. */
  function Deleted(s: State, id: Id): State
    requires id in s.engines
  {
    if s.engines[id].finalizer then s.(engines := s.engines[id := s.engines[id].(deleting := true)])
    else s.(engines := s.engines - {id})
  }

  /** Where a Get leads: cleanup after an Engine that is gone, deletion, the finalizer, or provisioning. */
  function AfterGet(s: State, id: Id): Phase {
    if id !in s.engines then Listing(false)
    else if s.engines[id].deleting then (if s.engines[id].finalizer then Listing(true) else Idle)
    else if s.engines[id].finalizer then Finding else AddingFinalizer
  }

  /** The finalizer patch: it fails on an Engine that is gone, and the API server accepts no new finalizers on one being
      deleted. */
  function WithFinalizer(s: State, id: Id): State {
    if id in s.engines && !s.engines[id].deleting
      then s.(engines := s.engines[id := s.engines[id].(finalizer := true)]) else s
  }

  /** Without its last finalizer, an Engine that is being deleted goes. */
  function WithoutFinalizer(s: State, id: Id): State {
    if id !in s.engines then s
    else if s.engines[id].deleting then s.(engines := s.engines - {id})
    else s.(engines := s.engines[id := s.engines[id].(finalizer := false)])
  }

  /** Cleanup over: on to the finalizer, or done. */
  function AfterCleanup(removal: bool): Phase {
    if removal then RemovingFinalizer else Idle
  }

  ghost predicate Enabled(s: State, e: Event) {
    match e
    case UserCreates(id, _) => id !in s.engines
    case UserDeletes(id) => id in s.engines
    case Restart => true
    case GivesUp(_) => true
    case Works(id, _, listed, newName) =>
      && newName !in s.policies
      && (PhaseOf(s, id).Finding? || PhaseOf(s, id).Listing? ==> forall p :: p in listed <==> Owned(s, id, p))
  }

  /** The state once a call has taken effect. */
  function Effect(s: State, id: Id, newName: string): State {
    match PhaseOf(s, id)
    case AddingFinalizer => WithFinalizer(s, id)
    case Creating => s.(policies := s.policies[newName := id])
    case Cleaning(left, _) => if left == [] then s else s.(policies := s.policies - {left[0]})
    case RemovingFinalizer => WithoutFinalizer(s, id)
    case _ => s
  }

  /** What the worker does on a successful answer. An Update leaves the set of policies as it is, or fails for want of
      its policy. */
  function NextPhase(s: State, id: Id, listed: seq<string>): Phase {
    match PhaseOf(s, id)
    case Idle => AfterGet(s, id)
    case AddingFinalizer => Idle
    case Finding => if listed == [] then Creating else Updating(listed[0])
    case Creating => Idle
    case Updating(_) => Idle
    case Listing(removal) => if listed == [] then AfterCleanup(removal) else Cleaning(listed, removal)
    case Cleaning(left, removal) => if |left| <= 1 then AfterCleanup(removal) else Cleaning(left[1..], removal)
    case RemovingFinalizer => Idle
  }

  /** One API call of a worker. Any error ends the reconcile. */
  function Worked(s: State, id: Id, call: Call, listed: seq<string>, newName: string): State {
    match call
    case Failed => Goto(s, id, Idle)
    case AnswerLost => Goto(Effect(s, id, newName), id, Idle)
    case Answered => Goto(Effect(s, id, newName), id, NextPhase(s, id, listed))
  }

  ghost function Next(s: State, e: Event): State
    requires Enabled(s, e)
  {
    match e
    case UserCreates(id, finalizer) =>
      s.(engines := s.engines[id := Engine(s.uids, finalizer, false)], uids := s.uids + 1)
    case UserDeletes(id) => Deleted(s, id)
    case Restart => s.(workers := map[])
    case GivesUp(id) => Goto(s, id, Idle)
    case Works(id, call, listed, newName) => Worked(s, id, call, listed, newName)
  }

  ghost predicate IsRun(events: seq<Event>, states: seq<State>) {
    && |states| == |events| + 1
    && states[0] == State(map[], map[], map[], 0)
    && forall i :: 0 <= i < |events| ==> Enabled(states[i], events[i]) && states[i + 1] == Next(states[i], events[i])
  }

  // ---------------------------------------------------------------------------------------------
  // Safety
  // ---------------------------------------------------------------------------------------------

  predicate Guarded(s: State, id: Id) {
    id in s.engines && s.engines[id].finalizer
  }

  /** Every labelled policy has its Engine, held by the finalizer. */
  ghost predicate Held(s: State) {
    forall p :: p in s.policies ==> Guarded(s, s.policies[p])
  }

  ghost predicate AtMostOne(s: State) {
    forall p, q :: p in s.policies && q in s.policies && s.policies[p] == s.policies[q] ==> p == q
  }

  ghost predicate NoPolicy(s: State, id: Id) {
    forall p :: p in s.policies ==> s.policies[p] != id
  }

  /** What a worker knows at each phase. */
  ghost predicate Knows(s: State, id: Id) {
    match PhaseOf(s, id)
    case Idle => true
    case AddingFinalizer => true
    case Finding => Guarded(s, id)
    case Creating => Guarded(s, id) && NoPolicy(s, id)
    case Updating(_) => true
    case Listing(removal) => removal ==> Guarded(s, id) && s.engines[id].deleting
    case Cleaning(left, removal) =>
      && (removal ==> Guarded(s, id) && s.engines[id].deleting)
      && forall p :: Owned(s, id, p) ==> p in left
    case RemovingFinalizer => Guarded(s, id) && s.engines[id].deleting && NoPolicy(s, id)
  }

  ghost predicate AllKnow(s: State) {
    forall id :: id in s.workers ==> Knows(s, id)
  }

  ghost predicate UidsUsed(s: State) {
    forall id :: id in s.engines ==> s.engines[id].uid < s.uids
  }

  ghost predicate Safe(s: State) {
    Held(s) && AtMostOne(s) && AllKnow(s) && UidsUsed(s)
  }

  /** A worker's knowledge depends on its own Engine and its own policies only. */
  lemma {:induction false} KnowsElsewhere(s: State, t: State, id: Id)
    requires Knows(s, id) && PhaseOf(t, id) == PhaseOf(s, id)
    requires Guarded(s, id) ==> Guarded(t, id) && (s.engines[id].deleting ==> t.engines[id].deleting)
    requires forall p :: Owned(t, id, p) ==> Owned(s, id, p)
    ensures Knows(t, id)
  {
    assert NoPolicy(s, id) ==> NoPolicy(t, id) by {
      if NoPolicy(s, id) {
        forall p | p in t.policies ensures t.policies[p] != id {
          assert !Owned(s, id, p);
          assert !Owned(t, id, p);
        }
      }
    }
  }

  lemma {:induction false} UserKeepsSafe(s: State, e: Event)
    requires Safe(s) && Enabled(s, e) && !e.Works?
    ensures Safe(Next(s, e))
  {
    hide Knows, NoPolicy;
    var t := Next(s, e);
    forall id | id in t.workers ensures Knows(t, id) {
      if e == GivesUp(id) {
        KnowsIdle(t, id);
      } else {
        KnowsElsewhere(s, t, id);
      }
    }
  }

  lemma {:induction false} KnowsIdle(s: State, id: Id)
    requires PhaseOf(s, id) == Idle
    ensures Knows(s, id)
  {
  }

  /** What a call changes: its own Engine and policies. */
  lemma {:induction false} EffectLocal(s: State, id: Id, newName: string, other: Id)
    requires Knows(s, id) && newName !in s.policies && other != id
    ensures var t := Effect(s, id, newName);
            && (Guarded(s, other) <==> Guarded(t, other)) && (other in s.engines <==> other in t.engines)
            && (other in s.engines ==> t.engines[other] == s.engines[other])
            && (forall p :: Owned(t, other, p) ==> Owned(s, other, p))
  {
  }

  /** The worker's own next phase finds what it needs to know. */
  lemma {:induction false} KnowsNext(s: State, id: Id, listed: seq<string>, newName: string)
    requires Knows(s, id) && Held(s) && newName !in s.policies
    requires PhaseOf(s, id).Finding? || PhaseOf(s, id).Listing? ==> forall p :: p in listed <==> Owned(s, id, p)
    ensures Knows(Goto(Effect(s, id, newName), id, NextPhase(s, id, listed)), id)
  {
    var t := Goto(Effect(s, id, newName), id, NextPhase(s, id, listed));
    match PhaseOf(s, id) {
      case Finding =>
        if listed == [] {
          assert forall p :: p in s.policies && s.policies[p] == id ==> Owned(s, id, p);
        }
      case Listing(_) =>
        if listed == [] {
          assert forall p :: p in s.policies && s.policies[p] == id ==> Owned(s, id, p);
        }
      case Cleaning(left, _) =>
        forall p | Owned(t, id, p) ensures left != [] && p in left[1..] {
          assert Owned(s, id, p);
        }
        assert forall p :: p in t.policies && t.policies[p] == id ==> Owned(t, id, p);
      case _ =>
    }
  }

  lemma {:induction false} EffectHeld(s: State, id: Id, newName: string)
    requires Knows(s, id) && Held(s) && AtMostOne(s) && UidsUsed(s) && newName !in s.policies
    ensures Held(Effect(s, id, newName)) && AtMostOne(Effect(s, id, newName)) && UidsUsed(Effect(s, id, newName))
  {
  }

  lemma {:induction false} WorkKeepsSafe(s: State, e: Event)
    requires Safe(s) && Enabled(s, e) && e.Works?
    ensures Safe(Next(s, e))
  {
    hide Knows, Effect, NextPhase, NoPolicy, Held, AtMostOne, UidsUsed;
    var id, t := e.id, Next(s, e);
    if id !in s.workers {
      KnowsIdle(s, id);
    }
    EffectHeld(s, id, e.newName);
    KnowsNext(s, id, e.listed, e.newName);
    SameFacts(s, id, Idle);
    SameFacts(Effect(s, id, e.newName), id, Idle);
    SameFacts(Effect(s, id, e.newName), id, NextPhase(s, id, e.listed));
    EffectKeepsWorkers(s, id, e.newName);
    forall other | other in t.workers ensures Knows(t, other) {
      if other == id {
        if e.call != Answered {
          KnowsIdle(t, id);
        }
      } else {
        EffectLocal(s, id, e.newName, other);
        KnowsElsewhere(s, t, other);
      }
    }
  }

  lemma {:induction false} EffectKeepsWorkers(s: State, id: Id, newName: string)
    ensures Effect(s, id, newName).workers == s.workers
  {
  }

  /** Moving a worker on changes no object. */
  lemma {:induction false} SameFacts(s: State, id: Id, p: Phase)
    ensures Held(Goto(s, id, p)) <==> Held(s)
    ensures AtMostOne(Goto(s, id, p)) <==> AtMostOne(s)
    ensures UidsUsed(Goto(s, id, p)) <==> UidsUsed(s)
  {
  }

  lemma {:induction false} AlwaysSafe(events: seq<Event>, states: seq<State>, n: nat)
    requires IsRun(events, states) && n <= |events|
    ensures Safe(states[n])
  {
    hide Next, Enabled, Safe;
    if n == 0 {
      StartSafe();
    } else {
      AlwaysSafe(events, states, n - 1);
      if events[n - 1].Works? {
        WorkKeepsSafe(states[n - 1], events[n - 1]);
      } else {
        UserKeepsSafe(states[n - 1], events[n - 1]);
      }
    }
  }

  lemma {:induction false} StartSafe()
    ensures Safe(State(map[], map[], map[], 0))
  {
  }

  /** In every reachable state each labelled policy has its Engine stored with the finalizer, and no Engine has two
      policies. */
  lemma {:induction false} PoliciesAreHeld(events: seq<Event>, states: seq<State>, p: string)
    requires IsRun(events, states) && p in states[|events|].policies
    ensures var s := states[|events|];
            && s.policies[p] in s.engines && s.engines[s.policies[p]].finalizer
            && forall q :: q in s.policies && s.policies[q] == s.policies[p] ==> q == p
  {
    hide Next, Enabled, AllKnow, UidsUsed;
    AlwaysSafe(events, states, |events|);
  }

  /** The Engine object that was there is no longer there, even if a new one has its name. */
  ghost predicate Disappears(s: State, t: State, id: Id) {
    id in s.engines && (id !in t.engines || t.engines[id].uid != s.engines[id].uid)
  }

  lemma {:induction false} VanishesUnheld(s: State, e: Event, id: Id)
    requires Safe(s) && Enabled(s, e) && Disappears(s, Next(s, e), id)
    ensures NoPolicy(s, id)
  {
    hide AtMostOne;
    if id !in s.workers {
      KnowsIdle(s, id);
    }
    assert Knows(s, id);
  }

  /** No Engine object ever disappears while its policy stands. */
  lemma {:induction false} NoOrphanedPolicy(events: seq<Event>, states: seq<State>, n: nat, id: Id)
    requires IsRun(events, states) && n < |events|
    requires Disappears(states[n], states[n + 1], id)
    ensures NoPolicy(states[n], id)
  {
    hide Next, Enabled, Safe, Disappears, NoPolicy;
    AlwaysSafe(events, states, n);
    VanishesUnheld(states[n], events[n], id);
  }

  // ---------------------------------------------------------------------------------------------
  // Paths of one worker
  // ---------------------------------------------------------------------------------------------

  /** The calls of one worker, one after the other with nothing in between; None if one of them is not enabled. */
  ghost function Follow(s: State, id: Id, es: seq<Event>): Option<State> {
    if |es| == 0 then Some(s)
    else
      var n := |es| - 1;
      match Follow(s, id, es[..n])
      case None => None
      case Some(t) => if (es[n].Works? || es[n].GivesUp?) && es[n].id == id && Enabled(t, es[n])
        then Some(Next(t, es[n])) else None
  }

  ghost predicate Path(s: State, id: Id, es: seq<Event>, t: State) {
    Follow(s, id, es) == Some(t)
  }

  lemma {:induction false} PathStart(s: State, id: Id)
    ensures Path(s, id, [], s)
  {
  }

  lemma {:induction false} PathMore(s: State, id: Id, es: seq<Event>, t: State, e: Event)
    requires Path(s, id, es, t) && (e.Works? || e.GivesUp?) && e.id == id && Enabled(t, e)
    ensures Path(s, id, es + [e], Next(t, e))
  {
    assert (es + [e])[..|es|] == es;
  }

  /** A worker on its own keeps the system safe. */
  lemma {:induction false} PathKeepsSafe(s: State, id: Id, es: seq<Event>, t: State)
    requires Safe(s) && Path(s, id, es, t)
    ensures Safe(t)
  {
    hide Safe, Next, Enabled;
    if |es| > 0 {
      var n := |es| - 1;
      var m := Follow(s, id, es[..n]).value;
      PathKeepsSafe(s, id, es[..n], m);
      if es[n].Works? {
        WorkKeepsSafe(m, es[n]);
      } else {
        UserKeepsSafe(m, es[n]);
      }
    }
  }

  /** The objects of a state, and where one worker stands. */
  ghost predicate Looks(s: State, id: Id, engines: map<Id, Engine>, policies: map<string, Id>, phase: Phase) {
    s.engines == engines && s.policies == policies && PhaseOf(s, id) == phase
  }

  ghost predicate Lists(policies: map<string, Id>, id: Id, listed: seq<string>) {
    forall p :: p in listed <==> p in policies && policies[p] == id
  }
}
