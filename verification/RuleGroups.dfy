/** chainSecRuleGroups (tools/corerulesetgen/rules.go): partitioning SecRule blocks into chains. */
module RuleGroups {
  import opened Text
  import opened RuleBlocks

  /** What the grouping looks at in a block: comments and blank blocks are skipped, SecRule blocks are rules
      (with or without the chain action), everything else ends a chain. */
  datatype Kind = Skipped | Other | Rule(chained: bool)

  function KindOf(block: string): Kind {
    var stripped := TrimSpace(block);
    if stripped == "" || HasPrefix(stripped, "#") then Skipped
    else if !HasPrefix(stripped, "SecRule") then Other
    else Rule(HasChainAction(block))
  }

  function Kinds(blocks: seq<string>): (ks: seq<Kind>)
    ensures |ks| == |blocks|
    ensures forall i :: 0 <= i < |blocks| ==> ks[i] == KindOf(blocks[i])
  {
    seq(|blocks|, i requires 0 <= i < |blocks| => KindOf(blocks[i]))
  }

  type Group = seq<nat>

  /** The chains found so far and the chain being collected; the source's inChain is cur != []. */
  datatype Progress = Progress(groups: seq<Group>, cur: Group)

  function Flush(p: Progress): Progress {
    if p.cur == [] then p else Progress(p.groups + [p.cur], [])
  }

  function Step(p: Progress, k: Kind, i: nat): Progress {
    match k
    case Skipped => p
    case Other => Flush(p)
    case Rule(chained) =>
      var q := p.(cur := p.cur + [i]);
      if chained then q else Flush(q)
  }

  function Scan(ks: seq<Kind>, n: nat): Progress
    requires n <= |ks|
  {
    if n == 0 then Progress([], []) else Step(Scan(ks, n - 1), ks[n - 1], n - 1)
  }

  /** The chains of a list of blocks, as lists of block positions. */
  function Groups(ks: seq<Kind>): seq<Group> {
    Flush(Scan(ks, |ks|)).groups
  }

  // ---------------------------------------------------------------------------------------------
  // Reference notion of a grouping
  // ---------------------------------------------------------------------------------------------

  /** The positions below n that hold rules, in order. */
  function RuleIndices(ks: seq<Kind>, n: nat): seq<nat>
    requires n <= |ks|
  {
    if n == 0 then [] else RuleIndices(ks, n - 1) + (if ks[n - 1].Rule? then [n - 1] else [])
  }

  /** A chained rule at i whose chain is still waiting for its next member at j. */
  predicate Linked(ks: seq<Kind>, i: nat, j: nat)
    requires i < |ks| && j <= |ks|
  {
    ks[i].Rule? && ks[i].chained && i < j && forall m :: i < m < j ==> ks[m].Skipped?
  }

  predicate InRange(ks: seq<Kind>, g: Group) {
    |g| > 0 && forall x :: 0 <= x < |g| ==> g[x] < |ks|
  }

  /** Each member is linked to the next one. */
  predicate IsChain(ks: seq<Kind>, g: Group) {
    InRange(ks, g) && forall x :: 0 <= x < |g| - 1 ==> Linked(ks, g[x], g[x + 1])
  }

  function Last(g: Group): nat
    requires |g| > 0
  {
    g[|g| - 1]
  }

  predicate AreChains(ks: seq<Kind>, gs: seq<Group>) {
    forall x :: 0 <= x < |gs| ==> IsChain(ks, gs[x])
  }

  /** No two neighbouring chains could be one. */
  predicate Maximal(ks: seq<Kind>, gs: seq<Group>)
    requires AreChains(ks, gs)
  {
    forall x :: 0 < x < |gs| ==> !Linked(ks, Last(gs[x - 1]), gs[x][0])
  }

  /** An ordered partition of the rules into maximal chains. */
  predicate IsGrouping(ks: seq<Kind>, gs: seq<Group>) {
    Flatten(gs) == RuleIndices(ks, |ks|) && AreChains(ks, gs) && Maximal(ks, gs)
  }

  lemma {:induction false} RuleIndicesExact(ks: seq<Kind>, n: nat)
    requires n <= |ks|
    ensures forall x :: 0 <= x < |RuleIndices(ks, n)| ==> RuleIndices(ks, n)[x] < n && ks[RuleIndices(ks, n)[x]].Rule?
    ensures forall x, y :: 0 <= x < y < |RuleIndices(ks, n)| ==> RuleIndices(ks, n)[x] < RuleIndices(ks, n)[y]
    ensures forall i :: 0 <= i < n && ks[i].Rule? ==> i in RuleIndices(ks, n)
  {
    if n > 0 {
      RuleIndicesExact(ks, n - 1);
    }
  }

  /** What the scan has established about the first n blocks, the chain in progress left open. */
  ghost predicate Facts(ks: seq<Kind>, n: nat, p: Progress)
    requires n <= |ks|
  {
    && Flatten(p.groups) + p.cur == RuleIndices(ks, n)
    && AreChains(ks, p.groups) && Maximal(ks, p.groups)
    && (p.cur != [] ==> IsChain(ks, p.cur))
    && (p.groups != [] ==> !Linked(ks, Last(p.groups[|p.groups| - 1]), if p.cur != [] then p.cur[0] else n))
  }

  ghost predicate Dangling(ks: seq<Kind>, n: nat, p: Progress)
    requires n <= |ks| && Facts(ks, n, p)
  {
    p.cur != [] && Linked(ks, Last(p.cur), n)
  }

  lemma {:induction false} FlushFacts(ks: seq<Kind>, n: nat, p: Progress)
    requires n <= |ks| && Facts(ks, n, p) && !Dangling(ks, n, p)
    ensures Facts(ks, n, Flush(p))
  {
    FlattenConcat(p.groups, [p.cur]);
    assert Flatten([p.cur]) == p.cur + [] == p.cur;
    assert Flatten(p.groups) + p.cur + [] == Flatten(p.groups) + p.cur;
  }

  lemma {:induction false} AddFacts(ks: seq<Kind>, i: nat, p: Progress)
    requires i < |ks| && ks[i].Rule? && Facts(ks, i, p)
    requires p.cur != [] ==> Dangling(ks, i, p)
    ensures Facts(ks, i + 1, p.(cur := p.cur + [i]))
    ensures Dangling(ks, i + 1, p.(cur := p.cur + [i])) <==> ks[i].chained
  {
    var cur := p.cur + [i];
    assert Flatten(p.groups) + cur == (Flatten(p.groups) + p.cur) + [i] == RuleIndices(ks, i + 1);
    assert IsChain(ks, cur) by {
      forall x | 0 <= x < |cur| - 1 ensures Linked(ks, cur[x], cur[x + 1]) {
        if x + 1 == |p.cur| {
          assert cur[x] == Last(p.cur) && cur[x + 1] == i;
        }
      }
    }
  }

  lemma {:induction false} ScanKeepsFacts(ks: seq<Kind>, n: nat)
    requires n <= |ks|
    ensures Facts(ks, n, Scan(ks, n))
    ensures Scan(ks, n).cur != [] ==> Dangling(ks, n, Scan(ks, n))
  {
    if n > 0 {
      var i: nat := n - 1;
      ScanKeepsFacts(ks, i);
      var p := Scan(ks, i);
      if ks[i].Rule? {
        AddFacts(ks, i, p);
        var q := p.(cur := p.cur + [i]);
        if !ks[i].chained {
          FlushFacts(ks, n, q);
        }
      } else {
        PassFacts(ks, i, p);
      }
    }
  }

  lemma {:induction false} PassFacts(ks: seq<Kind>, i: nat, p: Progress)
    requires i < |ks| && !ks[i].Rule? && Facts(ks, i, p)
    requires p.cur != [] ==> Dangling(ks, i, p)
    ensures Facts(ks, i + 1, Step(p, ks[i], i))
    ensures Step(p, ks[i], i).cur != [] ==> Dangling(ks, i + 1, Step(p, ks[i], i))
  {
    hide AreChains, Maximal, IsChain, Flatten;
    assert RuleIndices(ks, i + 1) == RuleIndices(ks, i);
    assert forall j :: 0 <= j < |ks| && Linked(ks, j, i + 1) && j != i ==> Linked(ks, j, i);
    if ks[i].Other? {
      FlushFacts(ks, i + 1, p);
    }
  }

  /** The computed chains are an ordered partition of exactly the rule positions into maximal chains:
      every member but the last has the chain action, and no two neighbouring chains could be one. */
  lemma {:induction false} GroupsAreGrouping(ks: seq<Kind>)
    ensures IsGrouping(ks, Groups(ks))
  {
    ScanKeepsFacts(ks, |ks|);
    var p := Scan(ks, |ks|);
    FlattenConcat(p.groups, [p.cur]);
    assert Flatten([p.cur]) == p.cur + [] == p.cur;
  }

  lemma {:induction false} FlattenHead(gs: seq<Group>, p: nat)
    requires |gs| > 0
    requires p < |gs[0]| || (p == |gs[0]| && |gs| > 1 && |gs[1]| > 0)
    ensures p < |Flatten(gs)|
    ensures Flatten(gs)[p] == if p < |gs[0]| then gs[0][p] else gs[1][0]
  {
    assert Flatten(gs) == gs[0] + Flatten(gs[1..]);
    if p == |gs[0]| {
      assert Flatten(gs[1..]) == gs[1] + Flatten(gs[1..][1..]);
    }
  }

  /** A longer first chain would be linked where the other grouping has a boundary. */
  lemma {:induction false} FirstChainLength(ks: seq<Kind>, gs: seq<Group>, hs: seq<Group>)
    requires |gs| > 0 && |hs| > 0 && Flatten(gs) == Flatten(hs)
    requires AreChains(ks, gs) && Maximal(ks, gs) && AreChains(ks, hs)
    ensures |hs[0]| <= |gs[0]|
  {
    var p := |gs[0]|;
    FlattenHead(gs, p - 1);
    assert |gs| == 1 ==> Flatten(gs) == gs[0] + [];
    if |gs| > 1 {
      FlattenHead(gs, p);
    }
    assert Flatten(hs) == hs[0] + Flatten(hs[1..]);
    forall q | 0 < q < |hs[0]| ensures Linked(ks, Flatten(hs)[q - 1], Flatten(hs)[q]) {
      assert Flatten(hs)[q - 1] == hs[0][q - 1] && Flatten(hs)[q] == hs[0][q];
    }
  }

  lemma {:induction false} SameChains(ks: seq<Kind>, gs: seq<Group>, hs: seq<Group>)
    requires Flatten(gs) == Flatten(hs)
    requires AreChains(ks, gs) && Maximal(ks, gs) && AreChains(ks, hs) && Maximal(ks, hs)
    ensures gs == hs
  {
    assert |gs| > 0 ==> |Flatten(gs)| >= |gs[0]| > 0;
    assert |hs| > 0 ==> |Flatten(hs)| >= |hs[0]| > 0;
    if |gs| > 0 && |hs| > 0 {
      FirstChainLength(ks, gs, hs);
      FirstChainLength(ks, hs, gs);
      var n := |gs[0]|;
      assert gs[0] == Flatten(gs)[..n] && hs[0] == Flatten(hs)[..n];
      assert Flatten(gs[1..]) == Flatten(gs)[n..] && Flatten(hs[1..]) == Flatten(hs)[n..];
      SameChains(ks, gs[1..], hs[1..]);
      assert gs == [gs[0]] + gs[1..] && hs == [hs[0]] + hs[1..];
    }
  }

  /** No other ordered partition of the rules into maximal chains exists. */
  lemma {:induction false} GroupingUnique(ks: seq<Kind>, gs: seq<Group>)
    ensures gs == Groups(ks) <==> IsGrouping(ks, gs)
  {
    GroupsAreGrouping(ks);
    if IsGrouping(ks, gs) {
      SameChains(ks, gs, Groups(ks));
    }
  }

  /** chainSecRuleGroups. */
  method ChainSecRuleGroups(blocks: seq<string>) returns (groups: seq<Group>)
    ensures groups == Groups(Kinds(blocks))
  {
    ghost var ks := Kinds(blocks);
    groups := [];
    var cur: Group := [];
    var inChain := false;
    for i := 0 to |blocks|
      invariant inChain <==> cur != []
      invariant Progress(groups, cur) == Scan(ks, i)
    {
      var stripped := TrimSpace(blocks[i]);
      assert ks[i] == KindOf(blocks[i]);
      assert cur == [] ==> cur + [i] == [i];
      if stripped == "" || HasPrefix(stripped, "#") {
        continue;
      }
      if !HasPrefix(stripped, "SecRule") {
        if inChain {
          groups := groups + [cur];
          cur := [];
          inChain := false;
        }
        continue;
      }
      if HasChainAction(blocks[i]) {
        cur := cur + [i];
        inChain := true;
        continue;
      }
      if inChain {
        cur := cur + [i];
        groups := groups + [cur];
        cur := [];
        inChain := false;
        continue;
      }
      groups := groups + [[i]];
    }
    if inChain && |cur| > 0 {
      groups := groups + [cur];
    }
  }

  // ---------------------------------------------------------------------------------------------
  // Where a position ends up
  // ---------------------------------------------------------------------------------------------

  lemma {:induction false} RuleInSomeGroup(gs: seq<Group>, i: nat)
    requires i in Flatten(gs)
    ensures exists x :: 0 <= x < |gs| && i in gs[x]
  {
    if |gs| > 0 {
      if i !in gs[0] {
        RuleInSomeGroup(gs[1..], i);
        var x :| 0 <= x < |gs[1..]| && i in gs[1..][x];
        assert i in gs[x + 1];
      }
    }
  }

  /** Every rule lies in a chain, and chains hold nothing but rules. */
  lemma {:induction false} GroupsCoverRules(ks: seq<Kind>)
    ensures forall i :: 0 <= i < |ks| && ks[i].Rule? ==> exists x :: 0 <= x < |Groups(ks)| && i in Groups(ks)[x]
    ensures forall x: nat, i: nat :: x < |Groups(ks)| && i in Groups(ks)[x] ==> i < |ks| && ks[i].Rule?
  {
    GroupsAreGrouping(ks);
    RuleIndicesExact(ks, |ks|);
    forall i | 0 <= i < |ks| && ks[i].Rule?
      ensures exists x :: 0 <= x < |Groups(ks)| && i in Groups(ks)[x]
    {
      RuleInSomeGroup(Groups(ks), i);
    }
    forall x: nat, i: nat | x < |Groups(ks)| && i in Groups(ks)[x]
      ensures i < |ks| && ks[i].Rule?
    {
      MemberInFlatten(Groups(ks), x, i);
    }
  }

  lemma {:induction false} MemberIsRule(ks: seq<Kind>, x: nat, i: nat)
    requires x < |Groups(ks)| && i in Groups(ks)[x]
    ensures i < |ks| && ks[i].Rule?
  {
    GroupsAreGrouping(ks);
    RuleIndicesExact(ks, |ks|);
    MemberInFlatten(Groups(ks), x, i);
  }

  // ---------------------------------------------------------------------------------------------
  // Dropping whole chains and grouping again
  // ---------------------------------------------------------------------------------------------

  /** How many of the first n blocks are kept: the new position of a kept block n. */
  function Rank(keep: seq<bool>, n: nat): (r: nat)
    requires n <= |keep|
    ensures r <= n
  {
    if n == 0 then 0 else Rank(keep, n - 1) + (if keep[n - 1] then 1 else 0)
  }

  predicate SameFate(keep: seq<bool>, g: Group) {
    forall x, y :: 0 <= x < |g| && 0 <= y < |g| && g[x] < |keep| && g[y] < |keep| ==> keep[g[x]] == keep[g[y]]
  }

  /** Only rules are dropped, and a chain is dropped as a whole. */
  ghost predicate WholeChains(ks: seq<Kind>, keep: seq<bool>) {
    && |keep| == |ks|
    && (forall i :: 0 <= i < |ks| && !ks[i].Rule? ==> keep[i])
    && (forall x :: 0 <= x < |Groups(ks)| ==> SameFate(keep, Groups(ks)[x]))
  }

  predicate Survives(keep: seq<bool>, g: Group) {
    forall x :: 0 <= x < |g| && g[x] < |keep| ==> keep[g[x]]
  }

  function Renumber(keep: seq<bool>, g: Group): Group {
    seq(|g|, x requires 0 <= x < |g| => if g[x] < |keep| then Rank(keep, g[x]) else g[x])
  }

  /** The chains that survive, at their new positions. */
  function Surviving(keep: seq<bool>, gs: seq<Group>): seq<Group> {
    if |gs| == 0 then []
    else
      var n := |gs| - 1;
      Surviving(keep, gs[..n]) + (if Survives(keep, gs[n]) then [Renumber(keep, gs[n])] else [])
  }

  function SurvivingProgress(keep: seq<bool>, p: Progress): Progress {
    Progress(Surviving(keep, p.groups), if Survives(keep, p.cur) then Renumber(keep, p.cur) else [])
  }

  lemma {:induction false} SurvivingAppend(keep: seq<bool>, gs: seq<Group>, g: Group)
    ensures Surviving(keep, gs + [g]) == Surviving(keep, gs) + if Survives(keep, g) then [Renumber(keep, g)] else []
  {
    assert (gs + [g])[..|gs|] == gs;
  }

  /** Flush commutes with dropping, once the collected chain has one fate. */
  lemma {:induction false} SurvivingFlush(keep: seq<bool>, p: Progress)
    ensures SurvivingProgress(keep, Flush(p)) == Flush(SurvivingProgress(keep, p))
  {
    SurvivingAppend(keep, p.groups, p.cur);
    assert Renumber(keep, []) == [];
  }

  predicate GrewFrom(p: Progress, q: Progress) {
    if p.groups == q.groups then p.cur <= q.cur
    else |p.groups| < |q.groups| && p.cur <= q.groups[|p.groups|]
  }

  /** A chain under construction is a prefix of a final chain. */
  lemma {:induction false} ScanGrows(ks: seq<Kind>, n: nat, m: nat)
    requires n <= m <= |ks|
    ensures Scan(ks, n).groups <= Scan(ks, m).groups
    ensures Scan(ks, n).cur != [] ==> GrewFrom(Scan(ks, n), Scan(ks, m))
    decreases m - n
  {
    if n < m {
      ScanGrows(ks, n, m - 1);
    }
  }

  lemma {:induction false} CurInFinal(ks: seq<Kind>, n: nat, keep: seq<bool>)
    requires n <= |ks| && WholeChains(ks, keep)
    ensures SameFate(keep, Scan(ks, n).cur)
    ensures n > 0 && ks[n - 1].Rule? ==> SameFate(keep, Scan(ks, n - 1).cur + [n - 1])
  {
    ScanGrows(ks, n, |ks|);
    var p, f := Scan(ks, n), Scan(ks, |ks|);
    var gs := Groups(ks);
    if p.cur != [] {
      assert exists x :: 0 <= x < |gs| && p.cur <= gs[x] by {
        assert |p.groups| < |gs| && p.cur <= gs[|p.groups|];
      }
      var x :| 0 <= x < |gs| && p.cur <= gs[x];
      assert SameFate(keep, gs[x]);
      assert forall y :: 0 <= y < |p.cur| ==> p.cur[y] == gs[x][y];
    }
    if n > 0 && ks[n - 1].Rule? && !ks[n - 1].chained {
      var g := Scan(ks, n - 1).cur + [n - 1];
      assert p.groups == Scan(ks, n - 1).groups + [g];
      assert p.groups <= f.groups <= gs;
      assert gs[|p.groups| - 1] == g;
    }
  }

  lemma {:induction false} RankOfFilter<T>(s: seq<T>, keep: seq<bool>, n: nat)
    requires |keep| == |s| && n <= |s|
    ensures |Filter(s[..n], keep[..n])| == Rank(keep, n)
    ensures Filter(s[..n], keep[..n]) <= Filter(s, keep)
    ensures n < |s| && keep[n] ==> Rank(keep, n) < |Filter(s, keep)| && Filter(s, keep)[Rank(keep, n)] == s[n]
  {
    FilterPrefix(s, keep, n);
    FilterLength(s, keep, n);
    if n < |s| && keep[n] {
      FilterPrefix(s, keep, n + 1);
      assert s[..n + 1][..n] == s[..n] && keep[..n + 1][..n] == keep[..n];
    }
  }

  lemma {:induction false} FilterLength<T>(s: seq<T>, keep: seq<bool>, n: nat)
    requires |keep| == |s| && n <= |s|
    ensures |Filter(s[..n], keep[..n])| == Rank(keep, n)
  {
    if n > 0 {
      FilterLength(s, keep, n - 1);
      assert s[..n][..n - 1] == s[..n - 1] && keep[..n][..n - 1] == keep[..n - 1];
    }
  }

  lemma {:induction false} FilterPrefix<T>(s: seq<T>, keep: seq<bool>, n: nat)
    requires |keep| == |s| && n <= |s|
    ensures Filter(s[..n], keep[..n]) <= Filter(s, keep)
    decreases |s|
  {
    if n == |s| {
      assert s[..n] == s && keep[..n] == keep;
    } else {
      var m := |s| - 1;
      FilterPrefix(s[..m], keep[..m], n);
      assert s[..m][..n] == s[..n] && keep[..m][..n] == keep[..n];
    }
  }

  lemma {:induction false} RenumberAppend(keep: seq<bool>, g: Group, i: nat)
    requires i < |keep|
    ensures Renumber(keep, g + [i]) == Renumber(keep, g) + [Rank(keep, i)]
    ensures Survives(keep, g + [i]) <==> Survives(keep, g) && keep[i]
  {
    assert forall x :: 0 <= x < |g| ==> (g + [i])[x] == g[x];
    assert (g + [i])[|g|] == i;
  }

  lemma {:induction false} RuleStepOfKept(keep: seq<bool>, p: Progress, i: nat)
    requires i < |keep| && SameFate(keep, p.cur + [i])
    requires forall x :: 0 <= x < |p.cur| ==> p.cur[x] < |keep|
    ensures var sp, sq := SurvivingProgress(keep, p), SurvivingProgress(keep, p.(cur := p.cur + [i]));
            sq.groups == sp.groups
            && (keep[i] ==> sq.cur == sp.cur + [Rank(keep, i)])
            && (!keep[i] ==> sq.cur == [] && (p.cur == [] || sp.cur == []))
  {
    var g := p.cur + [i];
    RenumberAppend(keep, p.cur, i);
    assert g[|p.cur|] == i;
    forall x | 0 <= x < |p.cur| ensures keep[p.cur[x]] == keep[i] {
      assert g[x] == p.cur[x];
    }
    if p.cur != [] {
      assert keep[p.cur[0]] == keep[i];
    }
  }

  lemma {:induction false} StepOfKept(keep: seq<bool>, p: Progress, k: Kind, i: nat)
    requires i < |keep|
    requires k.Rule? ==> SameFate(keep, p.cur + [i])
    requires !k.Rule? ==> keep[i]
    requires forall x :: 0 <= x < |p.cur| ==> p.cur[x] < |keep|
    ensures SurvivingProgress(keep, Step(p, k, i)) ==
            if keep[i] then Step(SurvivingProgress(keep, p), k, Rank(keep, i)) else SurvivingProgress(keep, p)
  {
    assert Renumber(keep, []) == [];
    match k
    case Skipped =>
    case Other =>
      SurvivingFlush(keep, p);
    case Rule(chained) =>
      RuleStepOfKept(keep, p, i);
      SurvivingFlush(keep, p.(cur := p.cur + [i]));
  }

  /** All that one scanning step needs to know about the chain in progress. */
  lemma {:induction false} StepInputs(ks: seq<Kind>, keep: seq<bool>, i: nat)
    requires i < |ks| && WholeChains(ks, keep)
    ensures ks[i].Rule? ==> SameFate(keep, Scan(ks, i).cur + [i])
    ensures forall x :: 0 <= x < |Scan(ks, i).cur| ==> Scan(ks, i).cur[x] < |keep|
  {
    CurInFinal(ks, i + 1, keep);
    ScanKeepsFacts(ks, i);
  }

  /** Scanning the kept blocks follows the scan of all blocks, dropped chains left out. */
  lemma {:induction false} ScanOfKept(ks: seq<Kind>, keep: seq<bool>, n: nat)
    requires n <= |ks| && WholeChains(ks, keep)
    ensures Rank(keep, n) <= |Filter(ks, keep)|
    ensures Scan(Filter(ks, keep), Rank(keep, n)) == SurvivingProgress(keep, Scan(ks, n))
  {
    hide Step, Filter;
    RankOfFilter(ks, keep, n);
    if n == 0 {
      assert Renumber(keep, []) == [];
    } else {
      var i: nat := n - 1;
      ScanOfKept(ks, keep, i);
      RankOfFilter(ks, keep, i);
      StepInputs(ks, keep, i);
      StepOfKept(keep, Scan(ks, i), ks[i], i);
    }
  }

  /** When whole chains are dropped, grouping the kept blocks finds exactly the surviving chains, in order. */
  lemma {:induction false} RegroupKept(ks: seq<Kind>, keep: seq<bool>)
    requires WholeChains(ks, keep)
    ensures Groups(Filter(ks, keep)) == Surviving(keep, Groups(ks))
  {
    ScanOfKept(ks, keep, |ks|);
    FilterLength(ks, keep, |ks|);
    assert ks[..|ks|] == ks && keep[..|keep|] == keep;
    SurvivingFlush(keep, Scan(ks, |ks|));
  }
}
