/** What a reconcile of a RuleSet decides (internal/controller/ruleset_controller*.go), from the answers of the API
    server and of the Coraza library. */
module RuleSetPipeline {
  import opened Text
  import opened CacheModel
  import opened UnsupportedRules

  datatype RuleData = RuleData(files: map<string, Bytes>)

  /** validation is the annotation coraza.io/validation. */
  datatype RuleSource = RuleSource(rules: string, validation: Option<string>)

  /** skipUnsupported is the annotation waf.k8s.coraza.io/skip-unsupported-rules-check. */
  datatype RuleSet = RuleSet(ns: string, name: string, sources: seq<string>, data: seq<string>,
                             skipUnsupported: Option<string>, generation: int)

  /** The answer to one Get. */
  datatype Lookup<T> = Found(value: T) | NotFound | Failed(error: string)

  /** The registry of unsupported rules; Coraza's verdicts and the wording of the unsupported rules message, which this
      model does not look into. The fragment check is told the rules, the name of their source and the data files. */
  datatype Validators = Validators(
    registry: Registry,
    coraza: (string, map<string, Bytes>) -> Option<string>,
    fragment: (string, string, map<string, Bytes>) -> Option<string>,
    describe: seq<UnsupportedRule> -> string)

  /** Loading goes through the references in order and halts at the first one that does not answer. */
  datatype Loading<T> = Loaded(value: T) | Halted(halt: Halt)

  /** Why a reconcile ends as Degraded, and whether it is retried at once. */
  datatype Halt = Halt(reason: string, message: string, retry: bool)

  function MissingHalt(kind: string, name: string): Halt {
    Halt(kind + "NotFound", "Referenced " + kind + " " + name + " does not exist", false)
  }

  function AccessHalt(kind: string, name: string, error: string): Halt {
    Halt(kind + "AccessError", "Failed to access " + kind + " " + name + ": " + error, true)
  }

  function HaltOf<T>(kind: string, name: string, answer: Lookup<T>): Halt
    requires !answer.Found?
  {
    if answer.NotFound? then MissingHalt(kind, name) else AccessHalt(kind, name, answer.error)
  }

  /** The data files after the first n references; answers(i) is the answer to the Get for reference i. */
  function DataAfter(refs: seq<string>, answers: nat -> Lookup<RuleData>, n: nat): Loading<map<string, Bytes>>
    requires n <= |refs|
  {
    if n == 0 then Loaded(map[])
    else match DataAfter(refs, answers, n - 1)
      case Halted(h) => Halted(h)
      case Loaded(files) =>
        match answers(n - 1)
        case Found(rd) => Loaded(files + rd.files)
        case other => Halted(HaltOf("RuleData", refs[n - 1], other))
  }

  function SourcesAfter(refs: seq<string>, answers: nat -> Lookup<RuleSource>, n: nat): (l: Loading<seq<RuleSource>>)
    requires n <= |refs|
    ensures l.Loaded? ==> |l.value| == n
  {
    if n == 0 then Loaded([])
    else match SourcesAfter(refs, answers, n - 1)
      case Halted(h) => Halted(h)
      case Loaded(sources) =>
        match answers(n - 1)
        case Found(rs) => Loaded(sources + [rs])
        case other => Halted(HaltOf("RuleSource", refs[n - 1], other))
  }

  function Texts(sources: seq<RuleSource>): (ts: seq<string>)
    ensures |ts| == |sources|
  {
    seq(|sources|, i requires 0 <= i < |sources| => sources[i].rules)
  }

  /** Fragments are joined by newlines, in list order. */
  function Aggregate(sources: seq<RuleSource>): string {
    Join(Texts(sources))
  }

  /** A fragment is left unvalidated when its annotation answers "false". */
  function FragmentErrors(o: Validators, refs: seq<string>, sources: seq<RuleSource>, files: map<string, Bytes>)
    : seq<string>
    requires |sources| <= |refs|
  {
    if |sources| == 0 then []
    else
      var n := |sources| - 1;
      var before := FragmentErrors(o, refs, sources[..n], files);
      if sources[n].validation == Some("false") then before
      else match o.fragment(sources[n].rules, refs[n], files)
        case None => before
        case Some(e) => before + [e]
  }

  function InvalidMessage(error: string, fragmentErrors: seq<string>): string {
    Join(["Ruleset is invalid", error] + fragmentErrors)
  }

  /** What a reconcile decides: nothing is cached, or this payload is. */
  datatype Verdict = Rejected(halt: Halt) | Accepted(payload: Payload, override: string)

  ghost function Examine(o: Validators, rs: RuleSet, rules: string, files: map<string, Bytes>, errors: seq<string>)
    : Verdict {
    match o.coraza(rules, files)
    case Some(e) => Rejected(Halt("InvalidRuleSet", InvalidMessage(e, errors), true))
    case None =>
      var found := Check(o.registry, rules);
      if found == [] then Accepted(Payload(rules, files), "")
      else if rs.skipUnsupported == Some("true") then Accepted(Payload(rules, files), o.describe(found))
      else Rejected(Halt("UnsupportedRules", o.describe(found), false))
  }

  ghost function Judge(o: Validators, rs: RuleSet, data: nat -> Lookup<RuleData>, sources: nat -> Lookup<RuleSource>)
    : Verdict {
    match DataAfter(rs.data, data, |rs.data|)
    case Halted(h) => Rejected(h)
    case Loaded(files) =>
      match SourcesAfter(rs.sources, sources, |rs.sources|)
      case Halted(h) => Rejected(h)
      case Loaded(found) => Examine(o, rs, Aggregate(found), files, FragmentErrors(o, rs.sources, found, files))
  }

  // ---------------------------------------------------------------------------------------------
  // What loading gives
  // ---------------------------------------------------------------------------------------------

  /** Loading succeeds exactly when every reference was found, and then it gives the sources in list order. */
  lemma {:induction false} SourcesLoaded(refs: seq<string>, answers: nat -> Lookup<RuleSource>, n: nat)
    requires n <= |refs|
    ensures var l := SourcesAfter(refs, answers, n);
            && (l.Loaded? <==> forall i :: 0 <= i < n ==> answers(i).Found?)
            && (l.Loaded? ==> |l.value| == n && forall i :: 0 <= i < n ==>
               answers(i).Found? && l.value[i] == answers(i).value)
  {
    if n > 0 {
      SourcesLoaded(refs, answers, n - 1);
    }
  }

  /** A name that several RuleData objects provide belongs to the last one listed. */
  ghost predicate LastListed(answers: nat -> Lookup<RuleData>, n: nat, files: map<string, Bytes>) {
    && (forall i, k :: 0 <= i < n && answers(i).Found? && k in answers(i).value.files ==> k in files)
    && (forall k :: k in files ==> exists i :: Provides(answers, n, i, k) && files[k] == answers(i).value.files[k])
  }

  /** Reference i is the last of the first n to provide the file k. */
  ghost predicate Provides(answers: nat -> Lookup<RuleData>, n: nat, i: int, k: string) {
    && 0 <= i < n && answers(i).Found? && k in answers(i).value.files
    && forall j :: i < j < n && answers(j).Found? ==> k !in answers(j).value.files
  }

  lemma {:induction false} DataLoaded(refs: seq<string>, answers: nat -> Lookup<RuleData>, n: nat)
    requires n <= |refs|
    ensures DataAfter(refs, answers, n).Loaded? <==> forall i :: 0 <= i < n ==> answers(i).Found?
    ensures DataAfter(refs, answers, n).Loaded? ==> LastListed(answers, n, DataAfter(refs, answers, n).value)
  {
    hide LastListed;
    if n == 0 {
      LastListedNone(answers);
    } else {
      DataLoaded(refs, answers, n - 1);
      if DataAfter(refs, answers, n).Loaded? {
        LastListedStep(answers, n - 1, DataAfter(refs, answers, n - 1).value);
      }
    }
  }

  lemma {:induction false} LastListedNone(answers: nat -> Lookup<RuleData>)
    ensures LastListed(answers, 0, map[])
  {
  }

  lemma {:induction false} LastListedStep(answers: nat -> Lookup<RuleData>, n: nat, files: map<string, Bytes>)
    requires LastListed(answers, n, files) && answers(n).Found?
    ensures LastListed(answers, n + 1, files + answers(n).value.files)
  {
    var more := answers(n).value.files;
    var all := files + more;
    forall k | k in all
      ensures exists i :: Provides(answers, n + 1, i, k) && all[k] == answers(i).value.files[k]
    {
      if k in more {
        assert Provides(answers, n + 1, n, k);
      } else {
        var i :| Provides(answers, n, i, k) && files[k] == answers(i).value.files[k];
        assert Provides(answers, n + 1, i, k);
      }
    }
  }

  lemma {:induction false} LastListedUnique(answers: nat -> Lookup<RuleData>, n: nat, a: map<string, Bytes>,
          b: map<string, Bytes>)
    requires LastListed(answers, n, a) && LastListed(answers, n, b)
    ensures a == b
  {
    forall k | k in a && k in b ensures a[k] == b[k] {
      var i :| Provides(answers, n, i, k) && a[k] == answers(i).value.files[k];
      var j :| Provides(answers, n, j, k) && b[k] == answers(j).value.files[k];
      assert i == j;
    }
    assert a.Keys == b.Keys;
  }

  ghost predicate AllFound<T(!new)>(answers: nat -> Lookup<T>, n: nat) {
    forall i :: 0 <= i < n ==> answers(i).Found?
  }

  ghost function ListedTexts(answers: nat -> Lookup<RuleSource>, n: nat): (ts: seq<string>)
    requires AllFound(answers, n)
    ensures |ts| == n && forall i :: 0 <= i < n ==> ts[i] == answers(i).value.rules
  {
    seq(n, i requires 0 <= i < n => answers(i).value.rules)
  }

  /** The listed sources joined by newlines. */
  ghost function ListedText(answers: nat -> Lookup<RuleSource>, n: nat): string
    requires AllFound(answers, n)
  {
    Join(ListedTexts(answers, n))
  }

  /** A reconcile is accepted exactly when every reference is found, Coraza takes the aggregate with the merged data,
      and the aggregate holds no unsupported rule on an active line, unless the annotation overrides that. What it then
      caches is the sources joined by newlines in list order, and the data with the last listed winning. */
  lemma {:induction false} AcceptedExactly(o: Validators, rs: RuleSet, data: nat -> Lookup<RuleData>,
          sources: nat -> Lookup<RuleSource>, files: map<string, Bytes>)
    requires AllFound(data, |rs.data|) ==> LastListed(data, |rs.data|, files)
    ensures var v := Judge(o, rs, data, sources);
            v.Accepted? <==>
            && AllFound(data, |rs.data|) && AllFound(sources, |rs.sources|)
            && (var text := ListedText(sources, |rs.sources|);
                && o.coraza(text, files) == None
                && (Check(o.registry, text) == [] || rs.skipUnsupported == Some("true")))
    ensures var v := Judge(o, rs, data, sources);
            v.Accepted? ==>
              AllFound(sources, |rs.sources|) && v.payload == Payload(ListedText(sources, |rs.sources|), files)
  {
    hide Check, FragmentErrors, LastListed, Join;
    DataLoaded(rs.data, data, |rs.data|);
    SourcesLoaded(rs.sources, sources, |rs.sources|);
    var l := SourcesAfter(rs.sources, sources, |rs.sources|);
    if AllFound(data, |rs.data|) {
      LastListedUnique(data, |rs.data|, files, DataAfter(rs.data, data, |rs.data|).value);
    }
    if AllFound(sources, |rs.sources|) {
      assert Texts(l.value) == ListedTexts(sources, |rs.sources|);
    }
  }

  /** The rules that stand in the way are those of the listed sources, each for itself. */
  lemma {:induction false} CheckNamesListedRules(o: Validators, rs: RuleSet, sources: nat -> Lookup<RuleSource>,
          r: UnsupportedRule)
    requires WellFormed(o.registry) && AllFound(sources, |rs.sources|) && |rs.sources| > 0
    ensures r in Check(o.registry, ListedText(sources, |rs.sources|))
       <==> exists i :: 0 <= i < |rs.sources| && r in Check(o.registry, sources(i).value.rules)
  {
    hide Check, Join;
    CheckFragments(o.registry, ListedTexts(sources, |rs.sources|), r);
  }
}
