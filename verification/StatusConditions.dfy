/** internal/controller/utils.go: the conditions of an Engine or a RuleSet, and the shapes they can take. */
module StatusConditions {

  datatype ConditionStatus = StatusTrue | StatusFalse | StatusUnknown

  datatype Condition = Condition(kind: string, status: ConditionStatus, reason: string, message: string,
    generation: int, since: int)

  const READY := "Ready"
  const DEGRADED := "Degraded"
  const PROGRESSING := "Progressing"

  /** The position of the first condition of this kind, or the length. */
  function Position(cs: seq<Condition>, kind: string): (i: nat)
    ensures i <= |cs|
    ensures forall j :: 0 <= j < i ==> cs[j].kind != kind
    ensures i < |cs| ==> cs[i].kind == kind
  {
    if |cs| == 0 || cs[0].kind == kind then 0 else 1 + Position(cs[1..], kind)
  }

  /** FindStatusCondition finds something. */
  predicate Has(cs: seq<Condition>, kind: string) {
    Position(cs, kind) < |cs|
  }

  function Find(cs: seq<Condition>, kind: string): Condition
    requires Has(cs, kind)
  {
    cs[Position(cs, kind)]
  }

  /** SetStatusCondition: overwrites in place, or appends; the transition time moves only with the status. */
  function WithCondition(cs: seq<Condition>, c: Condition): seq<Condition> {
    var i := Position(cs, c.kind);
    if i == |cs| then cs + [c]
    else cs[i := c.(since := if cs[i].status == c.status then cs[i].since else c.since)]
  }

  /** RemoveStatusCondition. */
  function WithoutCondition(cs: seq<Condition>, kind: string): seq<Condition> {
    if |cs| == 0 then []
    else (if cs[0].kind == kind then [] else [cs[0]]) + WithoutCondition(cs[1..], kind)
  }

  datatype Remark = Remark(reason: string, message: string, generation: int, now: int)

  function Note(kind: string, status: ConditionStatus, r: Remark): Condition {
    Condition(kind, status, r.reason, r.message, r.generation, r.now)
  }

  /** applyStatusConditionDegraded. */
  function AsDegraded(cs: seq<Condition>, r: Remark): seq<Condition> {
    WithoutCondition(WithCondition(WithCondition(cs, Note(READY, StatusFalse, r)), Note(DEGRADED, StatusTrue, r)),
      PROGRESSING)
  }

  /** applyStatusProgressing. */
  function AsProgressing(cs: seq<Condition>, r: Remark): seq<Condition> {
    WithCondition(WithCondition(cs, Note(READY, StatusFalse, r)), Note(PROGRESSING, StatusTrue, r))
  }

  /** applyStatusReady. */
  function AsReady(cs: seq<Condition>, r: Remark): seq<Condition> {
    WithoutCondition(WithoutCondition(WithCondition(cs, Note(READY, StatusTrue, r)), DEGRADED), PROGRESSING)
  }

  // ---------------------------------------------------------------------------------------------
  // In place
  // ---------------------------------------------------------------------------------------------

  /** A status whose conditions are updated in place. */
  class Status {
    var conditions: seq<Condition>

    constructor (conditions: seq<Condition>)
      ensures this.conditions == conditions
    {
      this.conditions := conditions;
    }

    method SetStatusCondition(c: Condition)
      modifies this
      ensures conditions == WithCondition(old(conditions), c)
    {
      var i := 0;
      while i < |conditions| && conditions[i].kind != c.kind
        invariant i <= |conditions|
        invariant forall j :: 0 <= j < i ==> conditions[j].kind != c.kind
      {
        i := i + 1;
      }
      FirstPosition(conditions, c.kind, i);
      if i == |conditions| {
        conditions := conditions + [c];
      } else {
        var existing := conditions[i];
        if existing.status != c.status {
          existing := existing.(status := c.status, since := c.since);
        }
        conditions := conditions[i := existing.(reason := c.reason, message := c.message, generation := c.generation)];
      }
    }

    method RemoveStatusCondition(kind: string)
      modifies this
      ensures conditions == WithoutCondition(old(conditions), kind)
    {
      ghost var before := conditions;
      var kept: seq<Condition> := [];
      WithoutAll(before, kind);
      for i := 0 to |conditions|
        invariant conditions == before
        invariant kept == WithoutCondition(before[..i], kind)
      {
        WithoutNext(before, i, kind);
        if conditions[i].kind != kind {
          kept := kept + [conditions[i]];
        }
      }
      conditions := kept;
    }

    method ApplyDegraded(r: Remark)
      modifies this
      ensures conditions == AsDegraded(old(conditions), r)
    {
      SetStatusCondition(Note(READY, StatusFalse, r));
      SetStatusCondition(Note(DEGRADED, StatusTrue, r));
      RemoveStatusCondition(PROGRESSING);
    }

    method ApplyProgressing(r: Remark)
      modifies this
      ensures conditions == AsProgressing(old(conditions), r)
    {
      SetStatusCondition(Note(READY, StatusFalse, r));
      SetStatusCondition(Note(PROGRESSING, StatusTrue, r));
    }

    method ApplyReady(r: Remark)
      modifies this
      ensures conditions == AsReady(old(conditions), r)
    {
      SetStatusCondition(Note(READY, StatusTrue, r));
      RemoveStatusCondition(DEGRADED);
      RemoveStatusCondition(PROGRESSING);
    }
  }

  lemma {:induction false} FirstPosition(cs: seq<Condition>, kind: string, i: nat)
    requires i <= |cs| && (forall j :: 0 <= j < i ==> cs[j].kind != kind) && (i < |cs| ==> cs[i].kind == kind)
    ensures Position(cs, kind) == i
  {
    assert Position(cs, kind) == i;
  }

  lemma {:induction false} WithoutConcat(a: seq<Condition>, b: seq<Condition>, kind: string)
    ensures WithoutCondition(a + b, kind) == WithoutCondition(a, kind) + WithoutCondition(b, kind)
  {
    if |a| == 0 {
      assert a + b == b;
    } else {
      assert (a + b)[0] == a[0] && (a + b)[1..] == a[1..] + b;
      WithoutConcat(a[1..], b, kind);
    }
  }

  lemma {:induction false} WithoutAll(cs: seq<Condition>, kind: string)
    ensures cs[..|cs|] == cs && cs[..0] == []
  {
  }

  lemma {:induction false} WithoutNext(cs: seq<Condition>, i: nat, kind: string)
    requires i < |cs|
    ensures WithoutCondition(cs[..i + 1], kind)
         == WithoutCondition(cs[..i], kind) + if cs[i].kind == kind then [] else [cs[i]]
  {
    assert cs[..i + 1] == cs[..i] + [cs[i]];
    WithoutConcat(cs[..i], [cs[i]], kind);
    assert WithoutCondition([cs[i]], kind) == (if cs[i].kind == kind then [] else [cs[i]]) + [];
  }

  // ---------------------------------------------------------------------------------------------
  // Any list of conditions
  // ---------------------------------------------------------------------------------------------

  predicate OnePerKind(cs: seq<Condition>) {
    forall i, j :: 0 <= i < j < |cs| ==> cs[i].kind != cs[j].kind
  }

  /** The kind's condition, as far as a reader of the status can tell. */
  function Seen(cs: seq<Condition>, kind: string): set<Condition> {
    set c | c in cs && c.kind == kind
  }

  lemma {:induction false} WithConditionSeen(cs: seq<Condition>, c: Condition, kind: string)
    requires OnePerKind(cs)
    ensures OnePerKind(WithCondition(cs, c))
    ensures kind != c.kind ==> Seen(WithCondition(cs, c), kind) == Seen(cs, kind)
    ensures exists since :: Seen(WithCondition(cs, c), c.kind) == {c.(since := since)}
  {
    var i := Position(cs, c.kind);
    var ds := WithCondition(cs, c);
    var d := ds[i];
    assert d == c.(since := d.since);
    assert forall j :: 0 <= j < |ds| && j != i ==> ds[j] == cs[j] && ds[j].kind != c.kind;
    assert Seen(ds, c.kind) == {d};
    if kind != c.kind {
      forall e: Condition | e.kind == kind ensures e in ds <==> e in cs {
        if e in cs {
          var j :| 0 <= j < |cs| && cs[j] == e;
          assert ds[j] == e;
        }
      }
    }
  }

  lemma {:induction false} WithoutElements(cs: seq<Condition>, kind: string, c: Condition)
    ensures c in WithoutCondition(cs, kind) <==> c in cs && c.kind != kind
  {
    if |cs| > 0 {
      WithoutElements(cs[1..], kind, c);
      assert c in cs <==> c == cs[0] || c in cs[1..];
    }
  }

  lemma {:induction false} WithoutSeen(cs: seq<Condition>, gone: string, kind: string)
    ensures Seen(WithoutCondition(cs, gone), kind) == if kind == gone then {} else Seen(cs, kind)
  {
    forall c: Condition ensures c in WithoutCondition(cs, gone) <==> c in cs && c.kind != gone {
      WithoutElements(cs, gone, c);
    }
  }

  predicate Owned(kind: string) {
    kind == READY || kind == DEGRADED || kind == PROGRESSING
  }

  lemma {:induction false} DistinctKinds()
    ensures READY != DEGRADED && READY != PROGRESSING && DEGRADED != PROGRESSING
  {
    assert |READY| != |DEGRADED| && |READY| != |PROGRESSING| && |DEGRADED| != |PROGRESSING|;
  }

  /** Whatever conditions were there, degrading leaves Ready=False and Degraded=True with the same reason and message
      and no Progressing, and does not touch anyone else's. */
  lemma {:induction false} DegradedSeen(cs: seq<Condition>, r: Remark, kind: string)
    requires OnePerKind(cs)
    ensures exists since :: Seen(AsDegraded(cs, r), READY) == {Note(READY, StatusFalse, r).(since := since)}
    ensures exists since :: Seen(AsDegraded(cs, r), DEGRADED) == {Note(DEGRADED, StatusTrue, r).(since := since)}
    ensures Seen(AsDegraded(cs, r), PROGRESSING) == {}
    ensures !Owned(kind) ==> Seen(AsDegraded(cs, r), kind) == Seen(cs, kind)
  {
    hide WithCondition, WithoutCondition, Seen, OnePerKind;
    DistinctKinds();
    var c, d := Note(READY, StatusFalse, r), Note(DEGRADED, StatusTrue, r);
    var cs1 := WithCondition(cs, c);
    var cs2 := WithCondition(cs1, d);
    WithConditionSeen(cs, c, kind);
    WithConditionSeen(cs1, d, kind);
    WithConditionSeen(cs1, d, READY);
    WithoutSeen(cs2, PROGRESSING, kind);
    WithoutSeen(cs2, PROGRESSING, READY);
    WithoutSeen(cs2, PROGRESSING, DEGRADED);
    WithoutSeen(cs2, PROGRESSING, PROGRESSING);
  }

  // ---------------------------------------------------------------------------------------------
  // The four shapes
  // ---------------------------------------------------------------------------------------------

  predicate IsUntouched(cs: seq<Condition>) {
    cs == []
  }

  predicate IsProgressing(cs: seq<Condition>) {
    && |cs| == 2
    && cs[0].kind == READY && cs[0].status == StatusFalse
    && cs[1].kind == PROGRESSING && cs[1].status == StatusTrue
  }

  predicate IsDegraded(cs: seq<Condition>) {
    && |cs| == 2
    && cs[0].kind == READY && cs[0].status == StatusFalse
    && cs[1].kind == DEGRADED && cs[1].status == StatusTrue
    && cs[0].reason == cs[1].reason && cs[0].message == cs[1].message
  }

  predicate IsReady(cs: seq<Condition>) {
    |cs| == 1 && cs[0].kind == READY && cs[0].status == StatusTrue
  }

  predicate HasShape(cs: seq<Condition>) {
    IsUntouched(cs) || IsProgressing(cs) || IsDegraded(cs) || IsReady(cs)
  }

  lemma {:induction false} WithoutOne(a: Condition, kind: string)
    ensures WithoutCondition([a], kind) == if a.kind == kind then [] else [a]
  {
    assert [a][1..] == [] && [a] + [] == [a];
  }

  lemma {:induction false} WithoutSecond(a: Condition, b: Condition, kind: string)
    requires a.kind != kind
    ensures WithoutCondition([a, b], kind) == if b.kind == kind then [a] else [a, b]
  {
    WithoutOne(b, kind);
    assert [a, b][1..] == [b] && [a] + [] == [a] && [a] + [b] == [a, b];
  }

  lemma {:induction false} WithoutThird(a: Condition, b: Condition, c: Condition, kind: string)
    requires a.kind != kind && b.kind == kind && c.kind != kind
    ensures WithoutCondition([a, b, c], kind) == [a, c]
  {
    WithoutOne(c, kind);
    assert [b, c][1..] == [c] && [] + [c] == [c];
    assert [a, b, c][1..] == [b, c] && [a] + [c] == [a, c];
  }

  /** From every shape, marking something Degraded gives exactly the degraded shape, with this reason and message. */
  lemma {:induction false} DegradedShape(cs: seq<Condition>, r: Remark)
    requires HasShape(cs)
    ensures IsDegraded(AsDegraded(cs, r)) && AsDegraded(cs, r)[0].reason == r.reason
            && AsDegraded(cs, r)[0].message == r.message
  {
    hide WithoutCondition;
    DistinctKinds();
    var cs1 := WithCondition(cs, Note(READY, StatusFalse, r));
    var cs2 := WithCondition(cs1, Note(DEGRADED, StatusTrue, r));
    if IsProgressing(cs) {
      assert |cs1| == 2 && cs2 == [cs1[0], cs1[1], cs2[2]];
      WithoutThird(cs1[0], cs1[1], cs2[2], PROGRESSING);
    } else {
      assert cs2 == [cs2[0], cs2[1]];
      WithoutSecond(cs2[0], cs2[1], PROGRESSING);
    }
  }

  lemma {:induction false} ReadyShape(cs: seq<Condition>, r: Remark)
    requires HasShape(cs)
    ensures IsReady(AsReady(cs, r)) && AsReady(cs, r)[0].reason == r.reason && AsReady(cs, r)[0].message == r.message
  {
    hide WithoutCondition;
    DistinctKinds();
    var cs1 := WithCondition(cs, Note(READY, StatusTrue, r));
    if |cs1| == 1 {
      assert cs1 == [cs1[0]];
      WithoutOne(cs1[0], DEGRADED);
      WithoutOne(cs1[0], PROGRESSING);
    } else {
      assert cs1 == [cs1[0], cs1[1]];
      WithoutSecond(cs1[0], cs1[1], DEGRADED);
      WithoutSecond(cs1[0], cs1[1], PROGRESSING);
      WithoutOne(cs1[0], PROGRESSING);
    }
  }

  /** The initial patch, made only while there is no Ready condition. */
  lemma {:induction false} ProgressingShape(cs: seq<Condition>, r: Remark)
    requires HasShape(cs) && !Has(cs, READY)
    ensures IsProgressing(AsProgressing(cs, r))
  {
    DistinctKinds();
  }

  /** The guard matters: progressing on top of a degraded status would leave a fifth shape. */
  lemma {:induction false} ProgressingNeedsGuard(cs: seq<Condition>, r: Remark)
    requires HasShape(cs)
    ensures HasShape(AsProgressing(cs, r)) <==> !IsDegraded(cs)
  {
    DistinctKinds();
  }

  // ---------------------------------------------------------------------------------------------
  // Patches that may fail
  // ---------------------------------------------------------------------------------------------

  /** A status patch is stored and acknowledged, refused, or stored without the caller learning of it. */
  datatype PatchOutcome = Acknowledged | Refused | AnswerLost

  /** What the API server has stored after a patch from old to new. */
  function StoredAfter(before: seq<Condition>, after: seq<Condition>, p: PatchOutcome): seq<Condition> {
    if p == Refused then before else after
  }

  datatype Attempt =
    | Initialise(remark: Remark, outcome: PatchOutcome)  // only while there is no Ready condition
    | Degrade(remark: Remark, outcome: PatchOutcome)
    | Accept(remark: Remark, outcome: PatchOutcome)

  function AttemptOn(cs: seq<Condition>, a: Attempt): seq<Condition> {
    match a
    case Initialise(r, p) => if Has(cs, READY) then cs else StoredAfter(cs, AsProgressing(cs, r), p)
    case Degrade(r, p) => StoredAfter(cs, AsDegraded(cs, r), p)
    case Accept(r, p) => StoredAfter(cs, AsReady(cs, r), p)
  }

  function StatusAfter(attempts: seq<Attempt>): seq<Condition> {
    if |attempts| == 0 then [] else AttemptOn(StatusAfter(attempts[..|attempts| - 1]), attempts[|attempts| - 1])
  }

  lemma {:induction false} AttemptKeepsShape(cs: seq<Condition>, a: Attempt)
    requires HasShape(cs)
    ensures HasShape(AttemptOn(cs, a))
  {
    hide AsDegraded, AsReady, AsProgressing, Has;
    DegradedShape(cs, a.remark);
    ReadyShape(cs, a.remark);
    if !Has(cs, READY) {
      ProgressingShape(cs, a.remark);
    }
  }

  /** Every status reachable from the empty one has one of the four shapes, whichever patches fail or lose their
      answer. */
  lemma {:induction false} EveryStatusHasShape(attempts: seq<Attempt>)
    ensures HasShape(StatusAfter(attempts))
  {
    hide AttemptOn, HasShape;
    if |attempts| == 0 {
      EmptyShape();
    } else {
      EveryStatusHasShape(attempts[..|attempts| - 1]);
      AttemptKeepsShape(StatusAfter(attempts[..|attempts| - 1]), attempts[|attempts| - 1]);
    }
  }

  lemma {:induction false} EmptyShape()
    ensures HasShape([])
  {
  }
}
