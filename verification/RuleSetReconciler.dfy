/** The RuleSet reconciler itself (internal/controller/ruleset_controller.go and its helpers): one reconcile, from the
    Get to the last status patch. The answers of the API server are parameters; now and uuid are what the clock and the
    UUID library give. */
module RuleSetReconcilers {
  import opened Text
  import opened CacheModel
  import opened RuleSetCaches
  import opened StatusConditions
  import opened RuleSetPipeline
  import UnsupportedRules

  function CacheKey(ns: string, name: string): string {
    ns + "/" + name
  }

  /** buildCacheReadyMessage. */
  function ReadyMessage(rs: RuleSet, override: string): string {
    "Successfully cached rules for " + CacheKey(rs.ns, rs.name) + if override == "" then ""
      else "\n[annotation override] " + override
  }

  // ---------------------------------------------------------------------------------------------
  // Specification
  // ---------------------------------------------------------------------------------------------

  /** initializeStatus, as stored. */
  function Started(cs: seq<Condition>, generation: int, init: PatchOutcome, now: int): seq<Condition> {
    if Has(cs, READY) then cs
    else StoredAfter(cs, AsProgressing(cs, Remark("Reconciling", "Starting reconciliation", generation, now)), init)
  }

  /** A reconcile goes on unless the initial patch was needed and not acknowledged. */
  predicate Proceeds(cs: seq<Condition>, init: PatchOutcome) {
    Has(cs, READY) || init == Acknowledged
  }

  function Concluded(cs: seq<Condition>, rs: RuleSet, v: Verdict, end: PatchOutcome, now: int): seq<Condition> {
    match v
    case Rejected(h) => StoredAfter(cs, AsDegraded(cs, Remark(h.reason, h.message, rs.generation, now)), end)
    case Accepted(_, override) =>
      StoredAfter(cs, AsReady(cs, Remark("RulesCached", ReadyMessage(rs, override), rs.generation, now)), end)
  }

  lemma {:induction false} ReconcileKeepsShape(cs: seq<Condition>, rs: RuleSet, v: Verdict, init: PatchOutcome,
          end: PatchOutcome, now: int)
    requires HasShape(cs)
    ensures HasShape(Started(cs, rs.generation, init, now))
    ensures HasShape(Concluded(Started(cs, rs.generation, init, now), rs, v, end, now))
  {
    hide HasShape, AsProgressing, AsDegraded, AsReady, ReadyMessage, Has;
    var remark := Remark("Reconciling", "Starting reconciliation", rs.generation, now);
    AttemptKeepsShape(cs, Attempt.Initialise(remark, init));
    var c1 := Started(cs, rs.generation, init, now);
    match v
    case Rejected(h) => AttemptKeepsShape(c1, Attempt.Degrade(Remark(h.reason, h.message, rs.generation, now), end));
    case Accepted(_, override) =>
      AttemptKeepsShape(c1, Attempt.Accept(Remark("RulesCached", ReadyMessage(rs, override), rs.generation, now), end));
  }

  // ---------------------------------------------------------------------------------------------
  // Loading
  // ---------------------------------------------------------------------------------------------

  lemma {:induction false} DataHaltStays(refs: seq<string>, answers: nat -> Lookup<RuleData>, i: nat, n: nat)
    requires i <= n <= |refs| && DataAfter(refs, answers, i).Halted?
    ensures DataAfter(refs, answers, n) == DataAfter(refs, answers, i)
  {
    if i < n {
      DataHaltStays(refs, answers, i, n - 1);
    }
  }

  lemma {:induction false} SourcesHaltStays(refs: seq<string>, answers: nat -> Lookup<RuleSource>, i: nat, n: nat)
    requires i <= n <= |refs| && SourcesAfter(refs, answers, i).Halted?
    ensures SourcesAfter(refs, answers, n) == SourcesAfter(refs, answers, i)
  {
    if i < n {
      SourcesHaltStays(refs, answers, i, n - 1);
    }
  }

  /** The inner loop of loadData: the files of one RuleData, over those loaded before. */
  method AddFiles(files: map<string, Buffer>, more: map<string, Bytes>) returns (all: map<string, Buffer>)
    ensures Contents(all) == Contents(files) + more
    ensures forall b :: b in all.Values ==> b in files.Values || fresh(b)
  {
    all := files;
    var left := more.Keys;
    while left != {}
      invariant left <= more.Keys
      invariant all.Keys == files.Keys + (more.Keys - left)
      invariant forall k :: k in files && k !in more.Keys - left ==> all[k] == files[k]
      invariant forall k :: k in more.Keys - left ==> fresh(all[k]) && all[k][..] == more[k]
      invariant forall k :: k in files ==> files[k][..] == old(files[k][..])
    {
      var k :| k in left;
      var bytes := more[k];
      var buffer := new bv8[|bytes|](i requires 0 <= i < |bytes| => bytes[i]);
      assert buffer[..] == bytes;
      all := all[k := buffer];
      left := left - {k};
    }
  }

  /** loadData, up to the status patch for a missing reference. */
  method LoadData(refs: seq<string>, answers: nat -> Lookup<RuleData>)
    returns (dataFiles: map<string, Buffer>, halt: Option<Halt>)
    ensures DataAfter(refs, answers, |refs|) == if halt == None then Loaded(Contents(dataFiles)) else Halted(halt.value)
    ensures fresh(dataFiles.Values)
  {
    dataFiles, halt := map[], None;
    for i := 0 to |refs|
      invariant DataAfter(refs, answers, i) == Loaded(Contents(dataFiles))
      invariant fresh(dataFiles.Values)
    {
      var answer := answers(i);
      if !answer.Found? {
        DataHaltStays(refs, answers, i + 1, |refs|);
        return map[], Some(HaltOf("RuleData", refs[i], answer));
      }
      dataFiles := AddFiles(dataFiles, answer.value.files);
    }
  }

  /** The first loop of loadSources. */
  method FetchSources(refs: seq<string>, answers: nat -> Lookup<RuleSource>)
    returns (sources: seq<RuleSource>, halt: Option<Halt>)
    ensures SourcesAfter(refs, answers, |refs|) == if halt == None then Loaded(sources) else Halted(halt.value)
    ensures |sources| <= |refs|
  {
    sources, halt := [], None;
    for i := 0 to |refs|
      invariant SourcesAfter(refs, answers, i) == Loaded(sources) && |sources| == i
    {
      var answer := answers(i);
      if !answer.Found? {
        SourcesHaltStays(refs, answers, i + 1, |refs|);
        return [], Some(HaltOf("RuleSource", refs[i], answer));
      }
      sources := sources + [answer.value];
    }
  }

  lemma {:induction false} JoinAppend(ls: seq<string>, l: string)
    ensures Join(ls + [l]) == if |ls| == 0 then l else Join(ls) + "\n" + l
  {
    if |ls| == 0 {
      assert ls + [l] == [l];
    } else {
      JoinAppend(ls[1..], l);
      assert (ls + [l])[0] == ls[0] && (ls + [l])[1..] == ls[1..] + [l];
      if |ls| > 1 {
        assert ls[0] + "\n" + (Join(ls[1..]) + "\n" + l) == (ls[0] + "\n" + Join(ls[1..])) + "\n" + l;
      }
    }
  }

  /** What the second loop of loadSources has written after i of n fragments. */
  function Written(ts: seq<string>, i: nat): string
    requires i <= |ts|
  {
    Join(ts[..i]) + if 0 < i < |ts| then "\n" else ""
  }

  lemma {:induction false} WrittenNext(ts: seq<string>, i: nat)
    requires i < |ts|
    ensures Written(ts, i + 1) == Written(ts, i) + ts[i] + if i < |ts| - 1 then "\n" else ""
  {
    JoinAppend(ts[..i], ts[i]);
    assert ts[..i + 1] == ts[..i] + [ts[i]];
    if i == 0 {
      assert ts[..0] == [] && "" + ts[0] == ts[0];
    }
  }

  lemma {:induction false} WrittenAll(ts: seq<string>)
    ensures Written(ts, |ts|) == Join(ts) && Written(ts, 0) == ""
  {
    assert ts[..|ts|] == ts;
    assert Join(ts) + "" == Join(ts);
  }

  lemma {:induction false} FragmentErrorsNext(o: Validators, refs: seq<string>, sources: seq<RuleSource>,
          files: map<string, Bytes>, i: nat)
    requires i < |sources| <= |refs|
    ensures FragmentErrors(o, refs, sources[..i + 1], files)
         == FragmentErrors(o, refs, sources[..i], files)
            + if sources[i].validation == Some("false") || o.fragment(sources[i].rules, refs[i], files) == None then []
              else [o.fragment(sources[i].rules, refs[i], files).value]
  {
    var upTo := sources[..i + 1];
    assert upTo[..i] == sources[..i] && upTo[i] == sources[i];
    assert FragmentErrors(o, refs, sources[..i], files) + [] == FragmentErrors(o, refs, sources[..i], files);
  }

  /** The second loop of loadSources: validates and concatenates. */
  method Concatenate(o: Validators, refs: seq<string>, sources: seq<RuleSource>, files: map<string, Bytes>)
    returns (aggregatedRules: string, aggregatedErrors: seq<string>)
    requires |sources| <= |refs|
    ensures aggregatedRules == Aggregate(sources)
    ensures aggregatedErrors == FragmentErrors(o, refs, sources, files)
  {
    hide Join, FragmentErrors, Written;
    aggregatedRules, aggregatedErrors := "", [];
    ghost var ts := Texts(sources);
    NothingYet(o, refs, sources, files);
    for i := 0 to |sources|
      invariant aggregatedRules == Written(ts, i)
      invariant aggregatedErrors == FragmentErrors(o, refs, sources[..i], files)
    {
      WrittenNext(ts, i);
      FragmentErrorsNext(o, refs, sources, files, i);
      if sources[i].validation != Some("false") {
        var validationErr := o.fragment(sources[i].rules, refs[i], files);
        if validationErr != None {
          aggregatedErrors := aggregatedErrors + [validationErr.value];
        }
      }
      aggregatedRules := aggregatedRules + sources[i].rules;
      if i < |sources| - 1 {
        aggregatedRules := aggregatedRules + "\n";
      }
    }
    assert sources[..|sources|] == sources;
  }

  lemma {:induction false} NothingYet(o: Validators, refs: seq<string>, sources: seq<RuleSource>,
          files: map<string, Bytes>)
    requires |sources| <= |refs|
    ensures Written(Texts(sources), 0) == "" && FragmentErrors(o, refs, sources[..0], files) == []
    ensures Written(Texts(sources), |sources|) == Aggregate(sources)
  {
    WrittenAll(Texts(sources));
  }

  // ---------------------------------------------------------------------------------------------
  // The reconciler
  // ---------------------------------------------------------------------------------------------

  class RuleSetReconciler {
    const cache: RuleSetCache
    const validators: Validators

    constructor (cache: RuleSetCache, validators: Validators)
      ensures this.cache == cache && this.validators == validators
    {
      this.cache, this.validators := cache, validators;
    }

    /** Everything between initializeStatus and cacheRules. The data files come in buffers of their own. */
    method Assess(rs: RuleSet, data: nat -> Lookup<RuleData>, sources: nat -> Lookup<RuleSource>)
      returns (halt: Option<Halt>, rules: string, files: map<string, Buffer>, override: string)
      requires UnsupportedRules.WellFormed(validators.registry)
      ensures fresh(files.Values)
      ensures Judge(validators, rs, data, sources)
           == if halt == None then Accepted(Payload(rules, Contents(files)), override) else Rejected(halt.value)
    {
      hide UnsupportedRules.Check, FragmentErrors, DataAfter, SourcesAfter, UnsupportedRules.WellFormed, Join;
      rules, override := "", "";
      files, halt := LoadData(rs.data, data);
      if halt != None {
        return;
      }
      var fetched;
      fetched, halt := FetchSources(rs.sources, sources);
      if halt != None {
        return;
      }
      var contents := Contents(files);
      var errors;
      rules, errors := Concatenate(validators, rs.sources, fetched, contents);
      var invalid := validators.coraza(rules, contents);
      if invalid != None {
        halt := Some(Halt("InvalidRuleSet", InvalidMessage(invalid.value, errors), true));
        return;
      }
      var found := UnsupportedRules.CheckUnsupportedRules(validators.registry, rules);
      if found != [] {
        if rs.skipUnsupported == Some("true") {
          override := validators.describe(found);
        } else {
          halt := Some(Halt("UnsupportedRules", validators.describe(found), false));
        }
      }
    }

    /** initializeStatus. ruleset is the object in memory, status what the API server has stored. */
    method InitializeStatus(rs: RuleSet, ruleset: Status, status: Status, init: PatchOutcome, now: int)
      returns (failed: bool)
      requires ruleset != status && ruleset.conditions == status.conditions
      modifies ruleset, status
      ensures status.conditions == Started(old(status.conditions), rs.generation, init, now)
      ensures failed <==> !Proceeds(old(status.conditions), init)
      ensures !failed ==> ruleset.conditions == status.conditions
    {
      hide AsProgressing, Has;
      if Has(ruleset.conditions, READY) {
        return false;
      }
      ruleset.ApplyProgressing(Remark("Reconciling", "Starting reconciliation", rs.generation, now));
      status.conditions := StoredAfter(status.conditions, ruleset.conditions, init);
      return init != Acknowledged;
    }

    /** patchDegraded, for the reason given. */
    method Reject(rs: RuleSet, ruleset: Status, status: Status, halt: Halt, end: PatchOutcome, now: int)
      returns (failed: bool)
      requires ruleset != status && ruleset.conditions == status.conditions
      modifies ruleset, status
      ensures status.conditions == Concluded(old(status.conditions), rs, Rejected(halt), end, now)
      ensures failed <==> end != Acknowledged || halt.retry
    {
      hide AsDegraded, AsReady;
      ruleset.ApplyDegraded(Remark(halt.reason, halt.message, rs.generation, now));
      status.conditions := StoredAfter(status.conditions, ruleset.conditions, end);
      return end != Acknowledged || halt.retry;
    }

    /** cacheRules: Put comes first, then the patch to Ready. */
    method CacheRules(rs: RuleSet, ruleset: Status, status: Status, rules: string, files: map<string, Buffer>,
            override: string, end: PatchOutcome, uuid: string, now: int)
      returns (failed: bool)
      requires ruleset != status && ruleset.conditions == status.conditions
      requires cache.Valid() && status !in cache.model.repr && ruleset !in cache.model.repr
      requires cache.model.clock <= now && UnusedUUID(cache.model.store, uuid)
      modifies cache, ruleset, status
      ensures cache.Valid() && status !in cache.model.repr
      ensures cache.model.lastPut
              == old(cache.model.lastPut)[CacheKey(rs.ns, rs.name) := Payload(rules, old(Contents(files)))]
      ensures cache.model.store
           == PutVersion(old(cache.model.store), CacheKey(rs.ns, rs.name),
             Version(uuid, now, Payload(rules, old(Contents(files)))))
      ensures status.conditions
           == Concluded(old(status.conditions), rs, Accepted(Payload(rules, old(Contents(files))), override), end, now)
      ensures failed <==> end != Acknowledged
    {
      hide Faithful, Consistent, AsDegraded, AsReady, UnusedUUID, PutVersion, ReadyMessage, Contents;
      cache.Put(CacheKey(rs.ns, rs.name), rules, files, uuid, now);
      ruleset.ApplyReady(Remark("RulesCached", ReadyMessage(rs, override), rs.generation, now));
      status.conditions := StoredAfter(status.conditions, ruleset.conditions, end);
      return end != Acknowledged;
    }

    /** Reconcile. A refused or unanswered patch ends it with an error. */
    method Reconcile(get: Lookup<RuleSet>, status: Status, data: nat -> Lookup<RuleData>,
            sources: nat -> Lookup<RuleSource>, init: PatchOutcome, end: PatchOutcome, uuid: string, now: int)
      returns (failed: bool)
      requires UnsupportedRules.WellFormed(validators.registry)
      requires cache.Valid() && status !in cache.model.repr
      requires cache.model.clock <= now && UnusedUUID(cache.model.store, uuid)
      modifies cache, status
      ensures cache.Valid() && status !in cache.model.repr
      ensures !get.Found? ==> failed == get.Failed? && status.conditions == old(status.conditions)
      ensures get.Found? ==>
                var rs := get.value;
                var c1 := Started(old(status.conditions), rs.generation, init, now);
                var v := Judge(validators, rs, data, sources);
                if Proceeds(old(status.conditions), init)
                then && status.conditions == Concluded(c1, rs, v, end, now)
                     && failed == (end != Acknowledged || (v.Rejected? && v.halt.retry))
                else status.conditions == c1 && failed
      ensures var go := get.Found? && Proceeds(old(status.conditions), init);
              cache.model.lastPut
              == if go && Judge(validators, get.value, data, sources).Accepted?
                 then old(cache.model.lastPut)[CacheKey(get.value.ns, get.value.name) :=
                   Judge(validators, get.value, data, sources).payload]
                 else old(cache.model.lastPut)
      ensures var go := get.Found? && Proceeds(old(status.conditions), init);
              cache.model.store
              == if go && Judge(validators, get.value, data, sources).Accepted?
                 then PutVersion(old(cache.model.store), CacheKey(get.value.ns, get.value.name),
                                 Version(uuid, now, Judge(validators, get.value, data, sources).payload))
                 else old(cache.model.store)
    {
      hide Faithful, Consistent, Judge, UnusedUUID, PutVersion, Contents, Started, Concluded, Proceeds, CacheKey;
      hide UnsupportedRules.WellFormed;
      if !get.Found? {
        return get.Failed?;
      }
      var rs := get.value;
      var ruleset := new Status(status.conditions);
      failed := InitializeStatus(rs, ruleset, status, init, now);
      if failed {
        return;
      }
      var halt, rules, files, override := Assess(rs, data, sources);
      if halt != None {
        failed := Reject(rs, ruleset, status, halt.value, end, now);
      } else {
        failed := CacheRules(rs, ruleset, status, rules, files, override, end, uuid, now);
      }
    }
  }
}
