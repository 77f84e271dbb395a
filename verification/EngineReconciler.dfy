/** The Engine reconciler (internal/controller/engine_controller*.go): the order in which it touches the API server.
    Every call may fail, or take effect without an answer; the answers and the clock are parameters. FinalizerProtocol
    interleaves the same calls. */
module EngineReconcilers {
  import opened Text
  import opened FinalizerProtocol
  import opened TokenRenewal
  import opened StatusConditions

  /** The parts of an Engine's spec that steer the reconcile. target is the Gateway, if the target is a Gateway with a
      valid name. */
  datatype EngineSpec = EngineSpec(driver: string, target: Option<string>, ruleSet: string, generation: int)

  /** A NetworkPolicy that lets the pods of a Gateway reach the cache server. */
  datatype Policy = Policy(owner: Id, gateway: string)

  datatype Effect = PolicyApplied | PluginApplied(token: string) | MarkedReady | MarkedDegraded(reason: string)

  const DRIVER_TYPE_WASM := "wasm"
  const FINALIZER_REQUEUE := 100_000_000   // 100 ms

  /** The stored objects. */
  class Cluster {
    var engines: map<Id, Engine>
    var policies: map<string, Policy>
    var plugins: map<Id, string>                 // the token in the WasmPlugin
    var statuses: map<Id, seq<Condition>>

    constructor ()
      ensures engines == map[] && policies == map[] && plugins == map[] && statuses == map[]
    {
      engines, policies, plugins, statuses := map[], map[], map[], map[];
    }

    function StatusOf(id: Id): seq<Condition>
      reads this
    {
      if id in statuses then statuses[id] else []
    }
  }

  ghost predicate ListsPolicies(policies: map<string, Policy>, id: Id, listed: seq<string>) {
    forall p :: p in listed <==> p in policies && policies[p].owner == id
  }

  /** Cleanup fails exactly when some call of it is not answered with success. */
  ghost predicate CleanupFails(list: Call, listed: seq<string>, deletes: nat -> Call) {
    list != Answered || exists i :: 0 <= i < |listed| && deletes(i) != Answered
  }

  /** Only policies of this Engine are gone. */
  ghost predicate OnlyOwnGone(before: map<string, Policy>, after: map<string, Policy>, id: Id) {
    && (forall p :: p in after ==> p in before && after[p] == before[p])
    && (forall p :: p in before && before[p].owner != id ==> p in after)
  }

  ghost predicate NoneOwned(policies: map<string, Policy>, id: Id) {
    forall p :: p in policies ==> policies[p].owner != id
  }

  /** The answers to the calls of provisionWasmDriver, and the clock along the way. */
  datatype Provisioning = Provisioning(
    list: Call, listed: seq<string>, write: Call, newName: string,   // NetworkPolicy
    account: bool,                                                   // the ServiceAccount is there
    reply: TokenReply, checked: int, issued: int, pruned: int,       // token
    plugin: Call,                                                    // WasmPlugin
    conclude: PatchOutcome, now: int,                                // status
    error: string)                                                   // the text of whatever error occurs

  /** The plugin starts only behind its policy and with a token, and Ready is said only of a running plugin. */
  ghost predicate Disciplined(trace: seq<Effect>) {
    forall i :: 0 <= i < |trace| ==>
      && (trace[i].PluginApplied? ==> trace[i].token != "" && exists j :: 0 <= j < i && trace[j].PolicyApplied?)
      && (trace[i].MarkedReady? ==> exists j :: 0 <= j < i && trace[j].PluginApplied?)
  }

  function TokenKey(id: Id, spec: EngineSpec): string {
    id.ns + "/" + id.name + "/" + spec.ruleSet
  }

  /** The token that a reconcile ends up with is not empty. */
  ghost predicate GetsToken(store: Store, key: string, a: Provisioning) {
    if Reusable(store, key, a.checked) then store[key].token != "" else a.reply.Issued? && a.reply.token != ""
  }

  /** When that token wants to be renewed. */
  function RenewalOf(store: Store, key: string, a: Provisioning): int {
    if Reusable(store, key, a.checked) then RenewalDeadline(store[key])
    else if a.reply.Issued? then RenewalDeadline(TokenEntry(a.reply.token, a.issued, a.reply.expiresAt))
    else 0
  }

  /** Provisioning comes through exactly when there is a target and every call is answered with success. */
  ghost predicate Provisions(store: Store, key: string, spec: EngineSpec, a: Provisioning) {
    && spec.target != None && a.list == Answered && a.write == Answered && a.account
    && GetsToken(store, key, a) && a.plugin == Answered
  }

  /** The stored status after the patch that ends a reconcile. */
  ghost predicate Ends(before: seq<Condition>, after: seq<Condition>, p: PatchOutcome, ready: bool) {
    if p == PatchOutcome.Refused then after == before
    else if ready then IsReady(after) else IsDegraded(after)
  }

  /** What the Get of the RuleSet answers: its conditions, if it is there. */
  datatype RuleSetAnswer = RuleSetFound(conditions: seq<Condition>) | RuleSetMissing | RuleSetUnknown

  /** The answers to the calls of a reconcile before it gets to provisioning. */
  datatype Answers = Answers(
    get: bool,                                             // the Get of the Engine is answered, be it with NotFound
    cleanup: Call, deletes: nat -> Call, removeFinalizer: Call,
    addFinalizer: Call,
    init: PatchOutcome,
    ruleSet: RuleSetAnswer)

  predicate RuleSetDegraded(conditions: seq<Condition>) {
    Has(conditions, DEGRADED) && Find(conditions, DEGRADED).status == StatusTrue
  }

  /** A reconcile comes to a verdict on an Engine that is held by the finalizer and not being deleted and has a status,
      once it has seen its RuleSet. */
  ghost predicate Judges(engines: map<Id, Engine>, conditions: seq<Condition>, id: Id, w: Answers) {
    && w.get && id in engines && !engines[id].deleting && engines[id].finalizer
    && (Has(conditions, READY) || w.init == Acknowledged)
    && !w.ruleSet.RuleSetUnknown?
  }

  /** Why an Engine is not to be provisioned: its RuleSet is missing or degraded, or it asks for another driver than the
      one there is. */
  function Complaint(spec: EngineSpec, answer: RuleSetAnswer): string
    requires !answer.RuleSetUnknown?
  {
    if answer.RuleSetMissing? then "RuleSetNotFound"
    else if RuleSetDegraded(answer.conditions) then "RuleSetDegraded"
    else if spec.driver != "" && spec.driver != DRIVER_TYPE_WASM then "InvalidConfiguration"
    else ""
  }

  /** The conditions say Degraded=True. */
  ghost predicate SaysDegraded(conditions: seq<Condition>) {
    exists c :: c in conditions && c.kind == DEGRADED && c.status == StatusTrue
  }

  lemma {:induction false} DegradedIsSaid(cs: seq<Condition>)
    ensures OnePerKind(cs) ==> (RuleSetDegraded(cs) <==> SaysDegraded(cs))
    ensures HasShape(cs) ==> OnePerKind(cs) && (SaysDegraded(cs) <==> IsDegraded(cs))
  {
    DistinctKinds();
    if HasShape(cs) {
      assert IsDegraded(cs) ==> cs[1] in cs;
    }
    if OnePerKind(cs) && SaysDegraded(cs) {
      var c :| c in cs && c.kind == DEGRADED && c.status == StatusTrue;
      var j :| 0 <= j < |cs| && cs[j] == c;
      assert Position(cs, DEGRADED) <= j;
      assert cs[Position(cs, DEGRADED)].kind == DEGRADED;
    }
  }

  /** What is held against an Engine: nothing exactly if its RuleSet is there and does not say Degraded=True and the
      driver is the one there is. A RuleSet whose status has one of the four shapes is held against it exactly in the
      degraded shape. */
  lemma {:induction false} ComplaintMeans(spec: EngineSpec, answer: RuleSetAnswer)
    requires !answer.RuleSetUnknown? && (answer.RuleSetFound? ==> OnePerKind(answer.conditions))
    ensures Complaint(spec, answer) == "" <==>
              answer.RuleSetFound? && !SaysDegraded(answer.conditions) && spec.driver in {"", DRIVER_TYPE_WASM}
    ensures Complaint(spec, answer) == "RuleSetNotFound" <==> answer.RuleSetMissing?
    ensures Complaint(spec, answer) == "RuleSetDegraded" <==> answer.RuleSetFound? && SaysDegraded(answer.conditions)
    ensures answer.RuleSetFound? && HasShape(answer.conditions) ==>
              (Complaint(spec, answer) == "RuleSetDegraded" <==> IsDegraded(answer.conditions))
  {
    hide HasShape, IsDegraded, OnePerKind, SaysDegraded, RuleSetDegraded;
    assert |"RuleSetNotFound"| == |"RuleSetDegraded"| == 15 && |"InvalidConfiguration"| == 20;
    assert "RuleSetNotFound"[7] != "RuleSetDegraded"[7];
    if answer.RuleSetFound? {
      DegradedIsSaid(answer.conditions);
    }
  }

  /** Where the Get of an Engine that is there leads. */
  function AfterFound(engine: Engine): Phase {
    if engine.deleting then (if engine.finalizer then Listing(true) else Idle)
    else if engine.finalizer then Finding else AddingFinalizer
  }

  /** The policies of an Engine stand only while it is there with its finalizer. */
  ghost predicate HeldFor(engines: map<Id, Engine>, policies: map<string, Policy>, id: Id) {
    NoneOwned(policies, id) || (id in engines && engines[id].finalizer)
  }

  // ---------------------------------------------------------------------------------------------
  // A reconcile as a walk through the finalizer protocol
  // ---------------------------------------------------------------------------------------------

  ghost function Owners(policies: map<string, Policy>): map<string, Id> {
    map p | p in policies :: policies[p].owner
  }

  /** The calls a worker has made so far, from a state of the protocol to another. */
  datatype Walk = Walk(start: State, calls: seq<Event>, now: State)

  /** The worker has come to this phase by calls of the protocol alone, and the stored objects are what the protocol
      says. */
  ghost predicate Walked(w: Walk, id: Id, engines: map<Id, Engine>, policies: map<string, Policy>, phase: Phase) {
    Path(w.start, id, w.calls, w.now) && Looks(w.now, id, engines, Owners(policies), phase)
  }

  lemma {:induction false} Take(w: Walk, id: Id, e: Event) returns (w': Walk)
    requires Path(w.start, id, w.calls, w.now) && (e.Works? || e.GivesUp?) && e.id == id && Enabled(w.now, e)
    ensures w' == Walk(w.start, w.calls + [e], Next(w.now, e)) && Path(w'.start, id, w'.calls, w'.now)
  {
    PathMore(w.start, id, w.calls, w.now, e);
    w' := Walk(w.start, w.calls + [e], Next(w.now, e));
  }

  lemma {:induction false} OwnersList(policies: map<string, Policy>, id: Id, listed: seq<string>)
    requires ListsPolicies(policies, id, listed)
    ensures Lists(Owners(policies), id, listed)
  {
  }

  lemma {:induction false} TakeGet(w: Walk, id: Id, engines: map<Id, Engine>, policies: map<string, Policy>, call: Call,
          unused: string)
    returns (w': Walk)
    requires Walked(w, id, engines, policies, Idle) && unused !in policies
    ensures w'.start == w.start
    ensures Walked(w', id, engines, policies, if call == Answered then AfterGet(w.now, id) else Idle)
  {
    hide Path, AfterGet;
    w' := Take(w, id, Works(id, call, [], unused));
  }

  lemma {:induction false} TakeAdd(w: Walk, id: Id, engines: map<Id, Engine>, policies: map<string, Policy>, call: Call,
          unused: string)
    returns (w': Walk)
    requires Walked(w, id, engines, policies, AddingFinalizer) && unused !in policies && id in engines
             && !engines[id].deleting
    ensures w'.start == w.start
    ensures Walked(w', id, if call == Call.Failed then engines
            else engines[id := engines[id].(finalizer := true)], policies, Idle)
  {
    hide Path;
    w' := Take(w, id, Works(id, call, [], unused));
  }

  lemma {:induction false} TakeList(w: Walk, id: Id, engines: map<Id, Engine>, policies: map<string, Policy>,
          removal: bool, call: Call, listed: seq<string>, unused: string) returns (w': Walk)
    requires Walked(w, id, engines, policies, Listing(removal)) && unused !in policies
             && ListsPolicies(policies, id, listed)
    ensures w'.start == w.start
    ensures Walked(w', id, engines, policies,
                   if call != Answered then Idle else if listed == [] then AfterCleanup(removal)
                     else Cleaning(listed, removal))
  {
    hide Path;
    OwnersList(policies, id, listed);
    w' := Take(w, id, Works(id, call, listed, unused));
  }

  lemma {:induction false} TakeDelete(w: Walk, id: Id, engines: map<Id, Engine>, policies: map<string, Policy>,
          left: seq<string>, removal: bool, call: Call, unused: string) returns (w': Walk)
    requires Walked(w, id, engines, policies, Cleaning(left, removal)) && left != [] && unused !in policies
    ensures w'.start == w.start
    ensures Walked(w', id, engines, if call == Call.Failed then policies else policies - {left[0]},
                   if call != Answered then Idle else if |left| <= 1 then AfterCleanup(removal)
                     else Cleaning(left[1..], removal))
  {
    hide Path;
    assert Owners(policies - {left[0]}) == Owners(policies) - {left[0]};
    w' := Take(w, id, Works(id, call, [], unused));
  }

  lemma {:induction false} TakeRemove(w: Walk, id: Id, engines: map<Id, Engine>, policies: map<string, Policy>,
          call: Call, unused: string)
    returns (w': Walk)
    requires Walked(w, id, engines, policies, RemovingFinalizer) && unused !in policies && id in engines
             && engines[id].deleting
    ensures w'.start == w.start
    ensures Walked(w', id, if call == Call.Failed then engines else engines - {id}, policies, Idle)
  {
    hide Path;
    w' := Take(w, id, Works(id, call, [], unused));
  }

  lemma {:induction false} TakeFind(w: Walk, id: Id, engines: map<Id, Engine>, policies: map<string, Policy>,
          call: Call, listed: seq<string>, unused: string)
    returns (w': Walk)
    requires Walked(w, id, engines, policies, Finding) && unused !in policies && ListsPolicies(policies, id, listed)
    ensures w'.start == w.start
    ensures Walked(w', id, engines, policies,
                   if call != Answered then Idle else if listed == [] then Creating else Updating(listed[0]))
  {
    hide Path;
    OwnersList(policies, id, listed);
    w' := Take(w, id, Works(id, call, listed, unused));
  }

  /** The desired policy is written, under the name found or a new one. */
  lemma {:induction false} TakeWrite(w: Walk, id: Id, engines: map<Id, Engine>, policies: map<string, Policy>,
          listed: seq<string>, gateway: string, call: Call, newName: string) returns (w': Walk)
    requires Walked(w, id, engines, policies, if listed == [] then Creating else Updating(listed[0]))
    requires newName !in policies && ListsPolicies(policies, id, listed)
    ensures w'.start == w.start
    ensures Walked(w', id, engines,
                   if call == Call.Failed then policies
                   else policies[(if listed == [] then newName else listed[0]) := Policy(id, gateway)], Idle)
  {
    hide Path;
    if listed == [] {
      assert Owners(policies[newName := Policy(id, gateway)]) == Owners(policies)[newName := id];
    } else {
      assert listed[0] in listed;
      assert Owners(policies[listed[0] := Policy(id, gateway)]) == Owners(policies);
    }
    w' := Take(w, id, Works(id, call, [], newName));
  }

  lemma {:induction false} TakeLeave(w: Walk, id: Id, engines: map<Id, Engine>, policies: map<string, Policy>,
          phase: Phase)
    returns (w': Walk)
    requires Walked(w, id, engines, policies, phase)
    ensures w'.start == w.start && Walked(w', id, engines, policies, Idle)
  {
    hide Path;
    w' := Take(w, id, GivesUp(id));
  }

  /** Each policy has its Engine with the finalizer, and no Engine has two. */
  ghost predicate AllHeld(engines: map<Id, Engine>, policies: map<string, Policy>) {
    && (forall p :: p in policies ==> policies[p].owner in engines && engines[policies[p].owner].finalizer)
    && (forall p, q :: p in policies && q in policies && policies[p].owner == policies[q].owner ==> p == q)
  }

  /** So the safety of the protocol is the safety of the reconciler: from every state in which it is safe to interleave
      a worker, a reconcile leads to such a state. */
  lemma {:induction false} WalkKeepsSafe(w: Walk, id: Id, engines: map<Id, Engine>, policies: map<string, Policy>,
          phase: Phase)
    requires Walked(w, id, engines, policies, phase) && Safe(w.start)
    ensures Safe(w.now) && AllHeld(engines, policies)
  {
    hide Path, AllKnow, UidsUsed;
    PathKeepsSafe(w.start, id, w.calls, w.now);
    forall p | p in policies ensures policies[p].owner in engines && engines[policies[p].owner].finalizer {
      assert p in w.now.policies;
    }
    forall p, q | p in policies && q in policies && policies[p].owner == policies[q].owner ensures p == q {
      assert p in w.now.policies && q in w.now.policies && w.now.policies[p] == w.now.policies[q];
    }
  }

  lemma {:induction false} UidBound(engines: map<Id, Engine>) returns (uids: nat)
    ensures forall id :: id in engines ==> engines[id].uid < uids
    decreases |engines|
  {
    uids := 0;
    if engines != map[] {
      var id :| id in engines;
      var rest := engines - {id};
      assert |rest.Keys| < |engines.Keys| by { assert rest.Keys == engines.Keys - {id}; }
      uids := UidBound(rest);
      uids := if uids > engines[id].uid then uids else engines[id].uid + 1;
      assert forall j :: j in engines ==> j == id || (j in rest && rest[j] == engines[j]);
    }
  }

  /** Every reconcile has a walk to begin with, whatever objects are stored, and where all policies are held it begins
      in a safe state. */
  lemma {:induction false} ReconcileWalks(id: Id, engines: map<Id, Engine>, policies: map<string, Policy>)
    returns (w: Walk)
    ensures Walked(w, id, engines, policies, Idle)
    ensures AllHeld(engines, policies) ==> Safe(w.start)
  {
    var uids := UidBound(engines);
    var s := State(engines, Owners(policies), map[], uids);
    PathStart(s, id);
    w := Walk(s, [], s);
  }

  class EngineReconciler {
    const cluster: Cluster
    const tokens: TokenKeeper

    constructor (cluster: Cluster, tokens: TokenKeeper)
      ensures this.cluster == cluster && this.tokens == tokens
    {
      this.cluster, this.tokens := cluster, tokens;
    }

    // -------------------------------------------------------------------------------------------
    // NetworkPolicy
    // -------------------------------------------------------------------------------------------

    /** ensureNetworkPolicyFinalizer. */
    method EnsureNetworkPolicyFinalizer(id: Id, call: Call, ghost walk: Walk, ghost unused: string)
      returns (added: bool, failed: bool, ghost walked: Walk)
      requires id in cluster.engines && !cluster.engines[id].deleting && unused !in cluster.policies
      requires Walked(walk, id, cluster.engines, cluster.policies, if cluster.engines[id].finalizer then Finding
               else AddingFinalizer)
      modifies cluster`engines
      ensures id in cluster.engines && cluster.engines.Keys == old(cluster.engines).Keys
      ensures forall j :: j in cluster.engines && j != id ==> cluster.engines[j] == old(cluster.engines)[j]
      ensures !added && !failed ==> old(cluster.engines)[id].finalizer && cluster.engines == old(cluster.engines)
      ensures added || failed ==> !old(cluster.engines)[id].finalizer && (added <==> call == Answered)
      ensures added ==> !failed && cluster.engines[id] == old(cluster.engines)[id].(finalizer := true)
      ensures old(cluster.engines)[id].finalizer ==> !added && !failed
      ensures walked.start == walk.start
      ensures Walked(walked, id, cluster.engines, cluster.policies, if added || failed then Idle else Finding)
    {
      hide Walked;
      var engine := cluster.engines[id];
      if engine.finalizer {
        return false, false, walk;
      }
      walked := TakeAdd(walk, id, cluster.engines, cluster.policies, call, unused);
      if call != Call.Failed {
        cluster.engines := cluster.engines[id := engine.(finalizer := true)];
      }
      return call == Answered, call != Answered, walked;
    }

    /** cleanupNetworkPolicy: deletes one policy after the other, and stops at the first error. */
    method CleanupNetworkPolicy(id: Id, list: Call, listed: seq<string>, deletes: nat -> Call, ghost removal: bool,
            ghost walk: Walk, ghost unused: string)
      returns (failed: bool, ghost walked: Walk)
      requires ListsPolicies(cluster.policies, id, listed) && unused !in cluster.policies
      requires Walked(walk, id, cluster.engines, cluster.policies, Listing(removal))
      modifies cluster`policies
      ensures OnlyOwnGone(old(cluster.policies), cluster.policies, id)
      ensures !failed ==> NoneOwned(cluster.policies, id)
      ensures failed <==> CleanupFails(list, listed, deletes)
      ensures walked.start == walk.start
      ensures Walked(walked, id, cluster.engines, cluster.policies, if failed then Idle else AfterCleanup(removal))
    {
      hide Walked, AfterCleanup;
      walked := TakeList(walk, id, cluster.engines, cluster.policies, removal, list, listed, unused);
      if list != Answered {
        return true, walked;
      }
      ghost var before := cluster.policies;
      assert listed[0..] == listed;
      for i := 0 to |listed|
        invariant OnlyOwnGone(before, cluster.policies, id)
        invariant walked.start == walk.start
        invariant Walked(walked, id, cluster.engines, cluster.policies,
                         if i == |listed| then AfterCleanup(removal) else Cleaning(listed[i..], removal))
        invariant forall p :: p in cluster.policies && cluster.policies[p].owner == id ==> p in listed[i..]
        invariant forall k :: 0 <= k < i ==> deletes(k) == Answered
      {
        assert listed[i..][0] == listed[i] && listed[i..][1..] == listed[i + 1..];
        walked := TakeDelete(walked, id, cluster.engines, cluster.policies, listed[i..], removal, deletes(i), unused);
        if deletes(i) != Call.Failed {
          cluster.policies := cluster.policies - {listed[i]};
        }
        if deletes(i) != Answered {
          return true, walked;
        }
      }
      return false, walked;
    }

    /** handleNetworkPolicyDeletion: the finalizer goes only when no policy is left. */
    method HandleNetworkPolicyDeletion(id: Id, list: Call, listed: seq<string>, deletes: nat -> Call, patch: Call,
            ghost walk: Walk, ghost unused: string)
      returns (deleting: bool, failed: bool, ghost walked: Walk)
      requires id in cluster.engines && ListsPolicies(cluster.policies, id, listed) && unused !in cluster.policies
      requires Walked(walk, id, cluster.engines, cluster.policies, AfterFound(cluster.engines[id]))
      modifies cluster`policies, cluster`engines, cluster`statuses
      ensures deleting == old(cluster.engines)[id].deleting
      ensures !deleting ==>
              !failed && cluster.policies == old(cluster.policies) && cluster.engines == old(cluster.engines)
      ensures cluster.statuses == if id in cluster.engines then old(cluster.statuses) else old(cluster.statuses) - {id}
      ensures OnlyOwnGone(old(cluster.policies), cluster.policies, id)
      ensures cluster.engines == old(cluster.engines)
           || (cluster.engines == old(cluster.engines) - {id} && NoneOwned(cluster.policies, id))
      ensures failed <==> old(cluster.engines)[id].deleting && old(cluster.engines)[id].finalizer
                          && (patch != Answered || CleanupFails(list, listed, deletes))
      ensures deleting && !failed ==> !old(cluster.engines)[id].finalizer || id !in cluster.engines
      ensures walked.start == walk.start && (!deleting ==> walked == walk)
      ensures deleting ==> Walked(walked, id, cluster.engines, cluster.policies, Idle)
    {
      hide Walked;
      var engine := cluster.engines[id];
      if !engine.deleting {
        return false, false, walk;
      }
      if !engine.finalizer {
        return true, false, walk;
      }
      failed, walked := CleanupNetworkPolicy(id, list, listed, deletes, true, walk, unused);
      if failed {
        return true, true, walked;
      }
      walked := TakeRemove(walked, id, cluster.engines, cluster.policies, patch, unused);
      if patch != Call.Failed {
        cluster.engines, cluster.statuses := cluster.engines - {id}, cluster.statuses - {id};
      }
      return true, patch != Answered, walked;
    }

    /** applyNetworkPolicy: updates the first policy listed, or creates one. */
    method ApplyNetworkPolicy(id: Id, gateway: string, a: Provisioning, ghost walk: Walk)
      returns (failed: bool, ghost walked: Walk)
      requires ListsPolicies(cluster.policies, id, a.listed) && a.newName !in cluster.policies
      requires Walked(walk, id, cluster.engines, cluster.policies, Finding)
      modifies cluster`policies
      ensures failed <==> a.list != Answered || a.write != Answered
      ensures !failed ==> exists p :: p in cluster.policies && cluster.policies[p] == Policy(id, gateway)
      ensures forall p :: p in old(cluster.policies) ==>
              p in cluster.policies && cluster.policies[p].owner == old(cluster.policies)[p].owner
      ensures forall p :: p in cluster.policies && cluster.policies[p].owner != id ==>
                p in old(cluster.policies) && cluster.policies[p] == old(cluster.policies)[p]
      ensures |a.listed| == 1 ==> cluster.policies.Keys == old(cluster.policies).Keys
      ensures walked.start == walk.start && Walked(walked, id, cluster.engines, cluster.policies, Idle)
    {
      hide Walked;
      walked := TakeFind(walk, id, cluster.engines, cluster.policies, a.list, a.listed, a.newName);
      if a.list != Answered {
        return true, walked;
      }
      walked := TakeWrite(walked, id, cluster.engines, cluster.policies, a.listed, gateway, a.write, a.newName);
      var desired := Policy(id, gateway);
      if |a.listed| > 0 {
        assert a.listed[0] in a.listed;
        if a.write != Call.Failed {
          cluster.policies := cluster.policies[a.listed[0] := desired];
          assert a.listed[0] in cluster.policies && cluster.policies[a.listed[0]] == desired;
        }
      } else if a.write != Call.Failed {
        cluster.policies := cluster.policies[a.newName := desired];
        assert a.newName in cluster.policies && cluster.policies[a.newName] == desired;
      }
      return a.write != Answered, walked;
    }

    // -------------------------------------------------------------------------------------------
    // Status
    // -------------------------------------------------------------------------------------------

    /** patchDegraded, on the Engine in memory. */
    method PatchDegraded(id: Id, engine: Status, remark: Remark, p: PatchOutcome) returns (failed: bool)
      requires engine.conditions == cluster.StatusOf(id) && HasShape(engine.conditions)
      modifies cluster`statuses, engine
      ensures cluster.statuses == old(cluster.statuses)[id := cluster.StatusOf(id)]
      ensures cluster.StatusOf(id)
              == StoredAfter(old(cluster.StatusOf(id)), AsDegraded(old(cluster.StatusOf(id)), remark), p)
      ensures Ends(old(cluster.StatusOf(id)), cluster.StatusOf(id), p, false) && HasShape(cluster.StatusOf(id))
      ensures failed == (p != Acknowledged)
    {
      hide AsDegraded;
      DegradedShape(engine.conditions, remark);
      var before := engine.conditions;
      engine.ApplyDegraded(remark);
      cluster.statuses := cluster.statuses[id := StoredAfter(before, engine.conditions, p)];
      return p != Acknowledged;
    }

    /** patchReady, on the Engine in memory. */
    method PatchReady(id: Id, engine: Status, remark: Remark, p: PatchOutcome) returns (failed: bool)
      requires engine.conditions == cluster.StatusOf(id) && HasShape(engine.conditions)
      modifies cluster`statuses, engine
      ensures cluster.statuses == old(cluster.statuses)[id := cluster.StatusOf(id)]
      ensures cluster.StatusOf(id)
              == StoredAfter(old(cluster.StatusOf(id)), AsReady(old(cluster.StatusOf(id)), remark), p)
      ensures Ends(old(cluster.StatusOf(id)), cluster.StatusOf(id), p, true) && HasShape(cluster.StatusOf(id))
      ensures failed == (p != Acknowledged)
    {
      hide AsReady;
      ReadyShape(engine.conditions, remark);
      var before := engine.conditions;
      engine.ApplyReady(remark);
      cluster.statuses := cluster.statuses[id := StoredAfter(before, engine.conditions, p)];
      return p != Acknowledged;
    }

    // -------------------------------------------------------------------------------------------
    // Provisioning
    // -------------------------------------------------------------------------------------------

    /** provisionWasmDriver up to the status patch that ends it: everything that can go wrong, in order. */
    method InstallPlugin(id: Id, spec: EngineSpec, a: Provisioning, ghost walk: Walk)
      returns (halt: Option<(string, string)>, renewAt: int, ghost trace: seq<Effect>, ghost walked: Walk)
      requires ListsPolicies(cluster.policies, id, a.listed) && a.newName !in cluster.policies
      requires Walked(walk, id, cluster.engines, cluster.policies, Finding)
      requires IssuedBy(tokens.tokenStore, a.checked) && a.checked <= a.issued <= a.pruned
      modifies cluster`policies, cluster`plugins, tokens
      ensures IssuedBy(tokens.tokenStore, a.pruned)
      ensures halt == None <==> Provisions(old(tokens.tokenStore), TokenKey(id, spec), spec, a)
      ensures Disciplined(trace) && forall m :: m in trace ==> m.PolicyApplied? || m.PluginApplied?
      ensures halt == None ==>
                && id in cluster.plugins && trace == [PolicyApplied, PluginApplied(cluster.plugins[id])]
                && exists p :: p in cluster.policies && cluster.policies[p] == Policy(id, spec.target.value)
      ensures halt == None ==> renewAt == RenewalOf(old(tokens.tokenStore), TokenKey(id, spec), a)
      ensures walked.start == walk.start && Walked(walked, id, cluster.engines, cluster.policies, Idle)
    {
      hide Walked, TokenKey, RenewalDeadline, NeedsRenewal, Pruned, ListsPolicies;
      renewAt, trace := 0, [];
      if spec.target == None {
        walked := TakeLeave(walk, id, cluster.engines, cluster.policies, Finding);
        return Some(("InvalidConfiguration", "target is required: cannot derive workload selector")), renewAt, trace,
          walked;
      }
      var refused;
      refused, walked := ApplyNetworkPolicy(id, spec.target.value, a, walk);
      if refused {
        return Some(("NetworkPolicyFailed", "Failed to apply NetworkPolicy: " + a.error)), renewAt, trace, walked;
      }
      ghost var mine :| mine in cluster.policies && cluster.policies[mine] == Policy(id, spec.target.value);
      trace := [PolicyApplied];
      assert trace[0].PolicyApplied?;
      if !a.account {
        return Some(("ServiceAccountFailed", "Failed to ensure cache client ServiceAccount: " + a.error)), renewAt,
          trace, walked;
      }
      var tokenless, cacheToken;
      tokenless, cacheToken, renewAt :=
        tokens.EnsureCacheToken(TokenKey(id, spec), a.reply, a.checked, a.issued, a.pruned);
      if tokenless || cacheToken == "" {
        return Some(("TokenFailed", a.error)), renewAt, trace, walked;
      }
      if a.plugin != Call.Failed {
        cluster.plugins := cluster.plugins[id := cacheToken];
        OneMore(trace, PluginApplied(cacheToken));
        trace := trace + [PluginApplied(cacheToken)];
      }
      if a.plugin != Answered {
        return Some(("ProvisioningFailed", "Failed to create or update WasmPlugin: " + a.error)), renewAt, trace,
          walked;
      }
      assert mine in cluster.policies && trace == [PolicyApplied, PluginApplied(cluster.plugins[id])];
      halt := None;
    }

    /** provisionWasmDriver. */
    method ProvisionWasmDriver(id: Id, engine: Status, spec: EngineSpec, a: Provisioning, ghost walk: Walk)
      returns (failed: bool, requeueAfter: int, ghost trace: seq<Effect>, ghost walked: Walk)
      requires Walked(walk, id, cluster.engines, cluster.policies, Finding)
      requires engine.conditions == cluster.StatusOf(id) && HasShape(engine.conditions)
      requires ListsPolicies(cluster.policies, id, a.listed) && a.newName !in cluster.policies
      requires IssuedBy(tokens.tokenStore, a.checked) && a.checked <= a.issued <= a.pruned
      modifies cluster`statuses, cluster`policies, cluster`plugins, tokens, engine
      ensures Disciplined(trace)
      ensures MarkedReady in trace <==> Provisions(old(tokens.tokenStore), TokenKey(id, spec), spec, a)
      ensures Ends(old(cluster.StatusOf(id)), cluster.StatusOf(id), a.conclude, MarkedReady in trace)
              && HasShape(cluster.StatusOf(id))
      ensures cluster.statuses == old(cluster.statuses)[id := cluster.StatusOf(id)]
      ensures failed <==> MarkedReady !in trace || a.conclude != Acknowledged
      ensures MarkedReady in trace ==>
                && id in cluster.plugins && trace == [PolicyApplied, PluginApplied(cluster.plugins[id]), MarkedReady]
                && exists p :: p in cluster.policies && cluster.policies[p] == Policy(id, spec.target.value)
      ensures !failed ==> requeueAfter == RequeueAfter(RenewalOf(old(tokens.tokenStore), TokenKey(id, spec), a), a.now)
      ensures walked.start == walk.start && Walked(walked, id, cluster.engines, cluster.policies, Idle)
    {
      hide Walked, AsDegraded, AsReady, HasShape, IsReady, IsDegraded, TokenKey, GetsToken, IssuedBy, RenewalOf,
           Disciplined, ListsPolicies;
      var halt, renewAt;
      halt, renewAt, trace, walked := InstallPlugin(id, spec, a, walk);
      if halt != None {
        DegradedLast(trace, halt.value.0);
        var _ := PatchDegraded(id, engine, Remark(halt.value.0, halt.value.1, spec.generation, a.now), a.conclude);
        trace := trace + [MarkedDegraded(halt.value.0)];
        return true, 0, trace, walked;
      }
      ReadyLast(trace, cluster.plugins[id]);
      ghost var mine :| mine in cluster.policies && cluster.policies[mine] == Policy(id, spec.target.value);
      failed := PatchReady(id, engine,
        Remark("Configured", "WasmPlugin successfully created/updated", spec.generation, a.now), a.conclude);
      trace := trace + [MarkedReady];
      assert mine in cluster.policies && trace[2] == MarkedReady;
      requeueAfter := RequeueAfter(renewAt, a.now);
    }

    // -------------------------------------------------------------------------------------------
    // The reconcile
    // -------------------------------------------------------------------------------------------

    /** The initial status patch of Reconcile, made only while there is no Ready condition. */
    method InitialiseStatus(id: Id, engine: Status, generation: int, now: int, p: PatchOutcome) returns (failed: bool)
      requires engine.conditions == cluster.StatusOf(id) && HasShape(engine.conditions)
      modifies cluster`statuses, engine
      ensures failed <==> !Has(old(engine.conditions), READY) && p != Acknowledged
      ensures !failed ==> engine.conditions == cluster.StatusOf(id)
      ensures HasShape(cluster.StatusOf(id)) && cluster.statuses - {id} == old(cluster.statuses) - {id}
    {
      hide HasShape, AsProgressing;
      if Has(engine.conditions, READY) {
        return false;
      }
      var before := engine.conditions;
      var remark := Remark("Reconciling", "Starting reconciliation", generation, now);
      ShapeStarts(before, remark);
      engine.ApplyProgressing(remark);
      cluster.statuses := cluster.statuses[id := StoredAfter(before, engine.conditions, p)];
      return p != Acknowledged;
    }

    /** isRuleSetDegraded and handleInvalidDriverConfiguration: why the Engine is not to be provisioned. */
    method Objection(spec: EngineSpec, answer: RuleSetAnswer) returns (reason: string, message: string, retry: bool)
      requires !answer.RuleSetUnknown?
      ensures reason == Complaint(spec, answer)
      ensures answer.RuleSetFound? && HasShape(answer.conditions) ==>
                && (reason == "RuleSetDegraded" <==> IsDegraded(answer.conditions))
                && (reason == "RuleSetDegraded" ==>
                      message == "RuleSet " + spec.ruleSet + " is degraded: " + answer.conditions[0].message)
                && (reason == "" <==> !IsDegraded(answer.conditions) && spec.driver in {"", DRIVER_TYPE_WASM})
      ensures retry <==> reason == "InvalidConfiguration"
    {
      ObjectionMeans(spec, answer);
      hide HasShape, IsDegraded, RuleSetDegraded, SaysDegraded, OnePerKind, Find;
      if answer.RuleSetMissing? {
        return "RuleSetNotFound", "RuleSet " + spec.ruleSet + " not found", false;
      }
      if RuleSetDegraded(answer.conditions) {
        return "RuleSetDegraded", "RuleSet " + spec.ruleSet + " is degraded: "
          + Find(answer.conditions, DEGRADED).message, false;
      }
      if spec.driver != "" && spec.driver != DRIVER_TYPE_WASM {
        return "InvalidConfiguration",
               "unsupported driver type \"" + spec.driver + "\": only \"" + DRIVER_TYPE_WASM
                 + "\" is currently supported", true;
      }
      return "", "", false;
    }

    /** Reconcile. */
    method Reconcile(id: Id, spec: EngineSpec, w: Answers, a: Provisioning, ghost walk: Walk)
      returns (failed: bool, requeueAfter: int, ghost trace: seq<Effect>, ghost walked: Walk)
      requires Walked(walk, id, cluster.engines, cluster.policies, Idle)
      requires HasShape(cluster.StatusOf(id))
      requires ListsPolicies(cluster.policies, id, a.listed) && a.newName !in cluster.policies
      requires IssuedBy(tokens.tokenStore, a.checked) && a.checked <= a.issued <= a.pruned
      modifies cluster, tokens
      ensures HasShape(cluster.StatusOf(id)) && cluster.statuses - {id} == old(cluster.statuses) - {id}
      ensures HeldFor(old(cluster.engines), old(cluster.policies), id) ==>
              HeldFor(cluster.engines, cluster.policies, id)
      ensures id in old(cluster.engines) && id !in cluster.engines ==> NoneOwned(cluster.policies, id)
      ensures w.get && id !in old(cluster.engines) && !failed ==> NoneOwned(cluster.policies, id)
      ensures w.get && id in old(cluster.engines) && old(cluster.engines)[id].deleting && !failed ==>
                !old(cluster.engines)[id].finalizer || id !in cluster.engines
      ensures Disciplined(trace)
      ensures var judges := Judges(old(cluster.engines), old(cluster.StatusOf(id)), id, w);
              && (!judges ==> trace == [])
              && (judges && Complaint(spec, w.ruleSet) != "" ==> trace == [MarkedDegraded(Complaint(spec, w.ruleSet))])
              && (judges && a.conclude != PatchOutcome.Refused ==>
                    if MarkedReady in trace then IsReady(cluster.StatusOf(id)) else IsDegraded(cluster.StatusOf(id)))
              && (MarkedReady in trace <==>
                    && judges && Complaint(spec, w.ruleSet) == ""
                    && Provisions(old(tokens.tokenStore), TokenKey(id, spec), spec, a))
      ensures !failed && MarkedReady in trace ==>
                requeueAfter == RequeueAfter(RenewalOf(old(tokens.tokenStore), TokenKey(id, spec), a), a.now)
      ensures w.get && id in old(cluster.engines) && !old(cluster.engines)[id].deleting
              && !old(cluster.engines)[id].finalizer ==>
                && trace == []
                && (!failed <==> w.addFinalizer == Answered)
                && (!failed ==>
                      requeueAfter == FINALIZER_REQUEUE && id in cluster.engines && cluster.engines[id].finalizer)
      ensures walked.start == walk.start && Walked(walked, id, cluster.engines, cluster.policies, Idle)
    {
      hide Walked, AfterGet, RenewalOf, IsReady, IsDegraded, HasShape, RuleSetDegraded, AsDegraded, AsProgressing,
           AsReady, TokenKey, GetsToken, IssuedBy, Has, Find, Provisions, Disciplined;
      NoEffects();
      failed, requeueAfter, trace := true, 0, [];
      walked := TakeGet(walk, id, cluster.engines, cluster.policies, if w.get then Answered else Call.Failed,
                        a.newName);
      WhereGetLeads(walk, id, cluster.engines, cluster.policies);
      if !w.get {
        return;
      }
      if id !in cluster.engines {
        failed, walked := CleanupNetworkPolicy(id, w.cleanup, a.listed, w.deletes, false, walked, a.newName);
        return;
      }
      var deleting;
      deleting, failed, walked :=
        HandleNetworkPolicyDeletion(id, w.cleanup, a.listed, w.deletes, w.removeFinalizer, walked, a.newName);
      if deleting || failed {
        return;
      }
      var added;
      added, failed, walked := EnsureNetworkPolicyFinalizer(id, w.addFinalizer, walked, a.newName);
      if added || failed {
        requeueAfter := if added then FINALIZER_REQUEUE else 0;
        return;
      }
      var engine := new Status(cluster.StatusOf(id));
      failed := InitialiseStatus(id, engine, spec.generation, a.now, w.init);
      if failed {
        walked := TakeLeave(walked, id, cluster.engines, cluster.policies, Finding);
        return;
      }
      if w.ruleSet.RuleSetUnknown? {
        failed := true;
        walked := TakeLeave(walked, id, cluster.engines, cluster.policies, Finding);
        return;
      }
      var reason, message, retry := Objection(spec, w.ruleSet);
      if reason != "" {
        DegradedLast(trace, reason);
        trace := trace + [MarkedDegraded(reason)];
        failed := PatchDegraded(id, engine, Remark(reason, message, spec.generation, a.now), a.conclude);
        failed := failed || retry;
        walked := TakeLeave(walked, id, cluster.engines, cluster.policies, Finding);
        return;
      }
      failed, requeueAfter, trace, walked := ProvisionWasmDriver(id, engine, spec, a, walked);
    }
  }

  /** A shaped RuleSet that is degraded gives its reason in both conditions. */
  lemma {:induction false} ObjectionMeans(spec: EngineSpec, answer: RuleSetAnswer)
    requires !answer.RuleSetUnknown?
    ensures answer.RuleSetFound? && HasShape(answer.conditions) ==>
              && (Complaint(spec, answer) == "RuleSetDegraded" <==> IsDegraded(answer.conditions))
              && (Complaint(spec, answer) == ""
                 <==> !IsDegraded(answer.conditions) && spec.driver in {"", DRIVER_TYPE_WASM})
              && (RuleSetDegraded(answer.conditions) ==>
                    Has(answer.conditions, DEGRADED)
                      && Find(answer.conditions, DEGRADED).message == answer.conditions[0].message)
  {
    if answer.RuleSetFound? && HasShape(answer.conditions) {
      DegradedIsSaid(answer.conditions);
      ComplaintMeans(spec, answer);
    }
  }

  lemma {:induction false} WhereGetLeads(w: Walk, id: Id, engines: map<Id, Engine>, policies: map<string, Policy>)
    requires Walked(w, id, engines, policies, Idle)
    ensures AfterGet(w.now, id) == if id in engines then AfterFound(engines[id]) else Listing(false)
  {
  }

  lemma {:induction false} NoEffects()
    ensures Disciplined([]) && HasShape([])
  {
  }

  lemma {:induction false} ShapeStarts(cs: seq<Condition>, r: Remark)
    requires HasShape(cs) && !Has(cs, READY)
    ensures HasShape(AsProgressing(cs, r))
  {
    ProgressingShape(cs, r);
  }

  lemma {:induction false} DegradedLast(trace: seq<Effect>, reason: string)
    requires Disciplined(trace) && forall m :: m in trace ==> m.PolicyApplied? || m.PluginApplied?
    ensures Disciplined(trace + [MarkedDegraded(reason)]) && MarkedReady !in trace + [MarkedDegraded(reason)]
  {
    OneMore(trace, MarkedDegraded(reason));
  }

  lemma {:induction false} ReadyLast(trace: seq<Effect>, token: string)
    requires Disciplined(trace) && trace == [PolicyApplied, PluginApplied(token)]
    ensures Disciplined(trace + [MarkedReady])
            && trace + [MarkedReady] == [PolicyApplied, PluginApplied(token), MarkedReady]
  {
    assert trace[1].PluginApplied?;
    OneMore(trace, MarkedReady);
  }

  lemma {:induction false} OneMore(trace: seq<Effect>, e: Effect)
    requires Disciplined(trace)
    requires e.PluginApplied? ==> e.token != "" && exists j :: 0 <= j < |trace| && trace[j].PolicyApplied?
    requires e.MarkedReady? ==> exists j :: 0 <= j < |trace| && trace[j].PluginApplied?
    ensures Disciplined(trace + [e])
  {
    var t := trace + [e];
    assert forall i :: 0 <= i < |trace| ==> t[i] == trace[i];
    forall i | 0 <= i < |t|
      ensures t[i].PluginApplied? ==> t[i].token != "" && exists j :: 0 <= j < i && t[j].PolicyApplied?
      ensures t[i].MarkedReady? ==> exists j :: 0 <= j < i && t[j].PluginApplied?
    {
      if t[i].PluginApplied? {
        var j :| 0 <= j < i && trace[j].PolicyApplied?;
        assert t[j].PolicyApplied?;
      }
      if t[i].MarkedReady? {
        var j :| 0 <= j < i && trace[j].PluginApplied?;
        assert t[j].PluginApplied?;
      }
    }
  }
}
