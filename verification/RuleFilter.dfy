/** processFileContent (tools/corerulesetgen/rules.go): dropping ignored rules together with their chains. */
module RuleFilter {
  import opened Text
  import opened RuleBlocks
  import opened RuleGroups

  datatype Settings = Settings(ignoreIDs: set<string>, ignorePM: bool)

  const PM_FROM_FILE := "@pmFromFile"

  predicate UsesPM(block: string, o: Settings) {
    o.ignorePM && Contains(block, PM_FROM_FILE)
  }

  /** The block is a SecRule that the settings ask to drop. */
  predicate Wished(block: string, o: Settings) {
    KindOf(block).Rule? && (UsesPM(block, o) || ExtractRuleID(block) in o.ignoreIDs)
  }

  predicate Doomed(blocks: seq<string>, o: Settings, g: Group) {
    exists x :: 0 <= x < |g| && g[x] < |blocks| && Wished(blocks[g[x]], o)
  }

  function GroupsOf(blocks: seq<string>): seq<Group> {
    Groups(Kinds(blocks))
  }

  /** Block i belongs to a chain that holds a wished rule. */
  predicate Dropped(blocks: seq<string>, o: Settings, i: nat) {
    exists x :: 0 <= x < |GroupsOf(blocks)| && i in GroupsOf(blocks)[x] && Doomed(blocks, o, GroupsOf(blocks)[x])
  }

  function Keep(blocks: seq<string>, o: Settings): (keep: seq<bool>)
    ensures |keep| == |blocks|
    ensures forall i :: 0 <= i < |blocks| ==> keep[i] == !Dropped(blocks, o, i)
  {
    seq(|blocks|, i requires 0 <= i < |blocks| => !Dropped(blocks, o, i))
  }

  function Kept(blocks: seq<string>, o: Settings): seq<string> {
    Filter(blocks, Keep(blocks, o))
  }

  /** Split, group, drop, join. */
  function FilterText(content: string, o: Settings): string {
    Join(Kept(Blocks(content), o))
  }

  predicate Mentions(content: string) {
    Contains(content, "SecRule") || Contains(content, "SecAction")
  }

  function TrimNewlines(raw: string): string {
    TrimRight(raw, {'\n', '\r'})
  }

  /** The text processFileContent returns. */
  function Process(raw: string, o: Settings): string {
    var content := TrimNewlines(raw);
    if Mentions(content) then FilterText(content, o) else ""
  }

  // ---------------------------------------------------------------------------------------------
  // The drop decision respects chains
  // ---------------------------------------------------------------------------------------------

  lemma {:induction false} IncreasingGroupsDisjoint(gs: seq<Group>, x: nat, y: nat, i: nat)
    requires forall a, b :: 0 <= a < b < |Flatten(gs)| ==> Flatten(gs)[a] < Flatten(gs)[b]
    requires x < |gs| && y < |gs| && i in gs[x] && i in gs[y]
    ensures x == y
  {
    var rest := Flatten(gs[1..]);
    assert forall a :: 0 <= a < |rest| ==> rest[a] == Flatten(gs)[|gs[0]| + a];
    assert forall a :: 0 <= a < |gs[0]| ==> gs[0][a] == Flatten(gs)[a];
    if x > 0 {
      MemberInFlatten(gs[1..], x - 1, i);
    }
    if y > 0 {
      MemberInFlatten(gs[1..], y - 1, i);
    }
    if x > 0 && y > 0 {
      IncreasingGroupsDisjoint(gs[1..], x - 1, y - 1, i);
    }
  }

  /** A block lies in at most one chain. */
  lemma {:induction false} GroupsDisjoint(ks: seq<Kind>, x: nat, y: nat, i: nat)
    requires x < |Groups(ks)| && y < |Groups(ks)| && i in Groups(ks)[x] && i in Groups(ks)[y]
    ensures x == y
  {
    GroupsAreGrouping(ks);
    RuleIndicesExact(ks, |ks|);
    IncreasingGroupsDisjoint(Groups(ks), x, y, i);
  }

  /** All members of a chain share its fate, which is to go exactly when one of them is wished away. */
  lemma {:induction false} ChainFate(blocks: seq<string>, o: Settings, x: nat, i: nat)
    requires x < |GroupsOf(blocks)| && i in GroupsOf(blocks)[x]
    ensures i < |blocks|
    ensures Dropped(blocks, o, i) <==> Doomed(blocks, o, GroupsOf(blocks)[x])
  {
    var ks := Kinds(blocks);
    MemberIsRule(ks, x, i);
    var gs := GroupsOf(blocks);
    if Dropped(blocks, o, i) {
      var y :| 0 <= y < |gs| && i in gs[y] && Doomed(blocks, o, gs[y]);
      GroupsDisjoint(ks, x, y, i);
    }
  }

  lemma {:induction false} KeepWholeChains(blocks: seq<string>, o: Settings)
    ensures WholeChains(Kinds(blocks), Keep(blocks, o))
  {
    var ks, keep := Kinds(blocks), Keep(blocks, o);
    GroupsCoverRules(ks);
    forall x | 0 <= x < |Groups(ks)| ensures SameFate(keep, Groups(ks)[x]) {
      var g := Groups(ks)[x];
      forall a | 0 <= a < |g| ensures g[a] < |keep| && keep[g[a]] == !Doomed(blocks, o, g) {
        ChainFate(blocks, o, x, g[a]);
      }
    }
  }

  /** The rules that go are the wished ones and those chained to them; whatever is no SecRule stays. */
  lemma {:induction false} DropIsChainClosure(blocks: seq<string>, o: Settings, i: nat)
    requires i < |blocks|
    ensures !KindOf(blocks[i]).Rule? ==> !Dropped(blocks, o, i)
    ensures Wished(blocks[i], o) ==> Dropped(blocks, o, i)
    ensures Dropped(blocks, o, i) <==>
              exists x, j: nat :: 0 <= x < |GroupsOf(blocks)| && i in GroupsOf(blocks)[x] && j in GroupsOf(blocks)[x]
                        && j < |blocks| && Wished(blocks[j], o)
  {
    var ks := Kinds(blocks);
    GroupsCoverRules(ks);
    assert ks[i] == KindOf(blocks[i]);
    var gs := GroupsOf(blocks);
    if Wished(blocks[i], o) {
      var x :| 0 <= x < |gs| && i in gs[x];
      var g := gs[x];
      var a :| 0 <= a < |g| && g[a] == i;
      assert Doomed(blocks, o, g);
    }
    if Dropped(blocks, o, i) {
      var x :| 0 <= x < |gs| && i in gs[x] && Doomed(blocks, o, gs[x]);
      var g := gs[x];
      var a :| 0 <= a < |g| && g[a] < |blocks| && Wished(blocks[g[a]], o);
      var j: nat := g[a];
      assert j in g;
    }
    forall x, j: nat | 0 <= x < |gs| && i in gs[x] && j in gs[x] && j < |blocks| && Wished(blocks[j], o)
      ensures Dropped(blocks, o, i)
    {
      var a :| 0 <= a < |gs[x]| && gs[x][a] == j;
      assert Doomed(blocks, o, gs[x]);
    }
  }

  // ---------------------------------------------------------------------------------------------
  // Filtering twice
  // ---------------------------------------------------------------------------------------------

  lemma {:induction false} KindsFilter(blocks: seq<string>, keep: seq<bool>)
    requires |keep| == |blocks|
    ensures Kinds(Filter(blocks, keep)) == Filter(Kinds(blocks), keep)
  {
    if |blocks| > 0 {
      var n := |blocks| - 1;
      KindsFilter(blocks[..n], keep[..n]);
      assert Kinds(blocks[..n]) == Kinds(blocks)[..n];
    }
  }

  lemma {:induction false} SurvivingComesFrom(keep: seq<bool>, gs: seq<Group>, y: nat) returns (x: nat)
    requires y < |Surviving(keep, gs)|
    ensures x < |gs| && Survives(keep, gs[x]) && Surviving(keep, gs)[y] == Renumber(keep, gs[x])
    decreases |gs|
  {
    var n := |gs| - 1;
    if y < |Surviving(keep, gs[..n])| {
      x := SurvivingComesFrom(keep, gs[..n], y);
    } else {
      x := n;
    }
  }

  /** Regrouping the kept blocks finds exactly the surviving chains. */
  lemma {:induction false} RegroupKeptBlocks(blocks: seq<string>, o: Settings)
    ensures GroupsOf(Kept(blocks, o)) == Surviving(Keep(blocks, o), GroupsOf(blocks))
  {
    KeepWholeChains(blocks, o);
    KindsFilter(blocks, Keep(blocks, o));
    RegroupKept(Kinds(blocks), Keep(blocks, o));
  }

  lemma {:induction false} SurvivorNotDoomed(blocks: seq<string>, o: Settings, y: nat)
    requires y < |GroupsOf(Kept(blocks, o))|
    ensures !Doomed(Kept(blocks, o), o, GroupsOf(Kept(blocks, o))[y])
  {
    var keep, kept := Keep(blocks, o), Kept(blocks, o);
    RegroupKeptBlocks(blocks, o);
    var x := SurvivingComesFrom(keep, GroupsOf(blocks), y);
    var g := GroupsOf(blocks)[x];
    var h := GroupsOf(kept)[y];
    forall a | 0 <= a < |h| && h[a] < |kept| ensures !Wished(kept[h[a]], o) {
      ChainFate(blocks, o, x, g[a]);
      RankOfFilter(blocks, keep, g[a]);
      assert kept[h[a]] == blocks[g[a]];
    }
  }

  /** A second pass over the kept blocks keeps them all. */
  lemma {:induction false} KeptIsStable(blocks: seq<string>, o: Settings)
    ensures Kept(Kept(blocks, o), o) == Kept(blocks, o)
  {
    var kept := Kept(blocks, o);
    forall i | 0 <= i < |kept| ensures !Dropped(kept, o, i) {
      forall y | 0 <= y < |GroupsOf(kept)| ensures !Doomed(kept, o, GroupsOf(kept)[y]) {
        SurvivorNotDoomed(blocks, o, y);
      }
    }
    FilterAll(kept, Keep(kept, o));
  }

  lemma {:induction false} TextsFilter(bs: seq<seq<string>>, keep: seq<bool>)
    requires |keep| == |bs|
    ensures Texts(Filter(bs, keep)) == Filter(Texts(bs), keep)
  {
    if |bs| > 0 {
      var n := |bs| - 1;
      TextsFilter(bs[..n], keep[..n]);
      assert Texts(bs[..n]) == Texts(bs)[..n];
    }
  }

  /** Dropping blocks of a parse leaves a parse. */
  lemma {:induction false} FilterIsParse(bs: seq<seq<string>>, keep: seq<bool>)
    requires |keep| == |bs| && IsParse(bs)
    requires forall i :: 0 <= i < |bs| ==> AreLines(bs[i])
    ensures IsParse(Filter(bs, keep))
    ensures forall i :: 0 <= i < |Filter(bs, keep)| ==> AreLines(Filter(bs, keep)[i])
  {
    if |bs| > 0 {
      var n := |bs| - 1;
      FilterClosed(bs[..n], keep[..n]);
    }
  }

  lemma {:induction false} FilterClosed(bs: seq<seq<string>>, keep: seq<bool>)
    requires |keep| == |bs| && forall i :: 0 <= i < |bs| ==> Closed(bs[i]) && AreLines(bs[i])
    ensures forall i :: 0 <= i < |Filter(bs, keep)| ==> Closed(Filter(bs, keep)[i]) && AreLines(Filter(bs, keep)[i])
  {
    if |bs| > 0 {
      FilterClosed(bs[..|bs| - 1], keep[..|bs| - 1]);
    }
  }

  lemma {:induction false} FlattenAreLines(bs: seq<seq<string>>)
    requires forall i :: 0 <= i < |bs| ==> AreLines(bs[i])
    ensures AreLines(Flatten(bs))
  {
    if |bs| > 0 {
      FlattenAreLines(bs[1..]);
    }
  }

  /** Splitting the text of a parse gives its blocks back. */
  lemma {:induction false} ReparseBlocks(bs: seq<seq<string>>)
    requires |bs| > 0 && IsParse(bs)
    requires forall i :: 0 <= i < |bs| ==> AreLines(bs[i])
    ensures Blocks(Join(Texts(bs))) == Texts(bs)
  {
    forall i | 0 <= i < |bs| ensures |bs[i]| > 0 {
      assert Closed(bs[i]) || Open(bs[i]);
    }
    JoinFlatten(bs);
    FlattenAreLines(bs);
    assert Flatten(bs) == bs[0] + Flatten(bs[1..]);
    LinesJoin(Flatten(bs));
    ParseUnique(bs);
  }

  /** Splitting the joined kept blocks, if there are any, gives exactly those blocks. */
  lemma {:induction false} ResplitKept(content: string, o: Settings)
    requires |Kept(Blocks(content), o)| > 0
    ensures Blocks(FilterText(content, o)) == Kept(Blocks(content), o)
  {
    var bs := Parse(Lines(content));
    var keep := Keep(Texts(bs), o);
    ParseSound(Lines(content));
    FlattenLines(bs, Lines(content));
    FilterIsParse(bs, keep);
    TextsFilter(bs, keep);
    ReparseBlocks(Filter(bs, keep));
  }

  lemma {:induction false} EmptyText(o: Settings)
    ensures FilterText("", o) == ""
  {
    assert Lines("") == [""];
    assert !Starts("") by {
      assert TrimLineEnd("") == "";
    }
    assert [""][..1] == [""];
    assert Parse([""]) == [[""]] + Parse([""][1..]) == [[""]];
    assert Blocks("") == [""];
    var keep := Keep([""], o);
    assert Filter([""], keep) == (if keep[0] then [""] else []) by {
      assert Filter([""][..0], keep[..0]) == [];
    }
  }

  /** Filter idempotence: a second pass with the same settings leaves every filtered text unchanged. */
  lemma {:induction false} FilterIdempotent(content: string, o: Settings)
    ensures FilterText(FilterText(content, o), o) == FilterText(content, o)
  {
    if |Kept(Blocks(content), o)| > 0 {
      ResplitKept(content, o);
      KeptIsStable(Blocks(content), o);
    } else {
      assert FilterText(content, o) == "";
      EmptyText(o);
    }
  }

  // ---------------------------------------------------------------------------------------------
  // The whole of processFileContent
  // ---------------------------------------------------------------------------------------------

  lemma {:induction false} JoinLength(ts: seq<string>, t: string)
    ensures |Join(ts + [t])| == |Join(ts)| + |t| + if |ts| == 0 then 0 else 1
  {
    if |ts| == 0 {
      assert ts + [t] == [t];
    } else if |ts| == 1 {
      assert (ts + [t])[0] == ts[0] && (ts + [t])[1..] == [t];
    } else {
      JoinLength(ts[1..], t);
      assert (ts + [t])[0] == ts[0] && (ts + [t])[1..] == ts[1..] + [t];
    }
  }

  lemma {:induction false} FilterShortens(ts: seq<string>, keep: seq<bool>)
    requires |keep| == |ts|
    ensures |Join(Filter(ts, keep))| <= |Join(ts)|
    ensures |Filter(ts, keep)| > 0 ==> |ts| > 0
  {
    if |ts| > 0 {
      var n := |ts| - 1;
      FilterShortens(ts[..n], keep[..n]);
      JoinLength(ts[..n], ts[n]);
      JoinLength(Filter(ts[..n], keep[..n]), ts[n]);
      assert ts == ts[..n] + [ts[n]];
      assert !keep[n] ==> Filter(ts, keep) == Filter(ts[..n], keep[..n]);
    }
  }

  lemma {:induction false} FilterTextShortens(content: string, o: Settings)
    ensures |FilterText(content, o)| <= |content|
  {
    SplitLossless(content);
    FilterShortens(Blocks(content), Keep(Blocks(content), o));
  }

  /** The whole function is not idempotent, because of its trimming and of its early exit:
      a second pass changes nothing exactly when the first output is empty, or ends in no
      newline and still mentions SecRule or SecAction. */
  lemma {:induction false} SecondPassExactly(raw: string, o: Settings)
    ensures var once := Process(raw, o);
            Process(once, o) == once <==> once == "" || (TrimNewlines(once) == once && Mentions(once))
  {
    var once := Process(raw, o);
    if once == "" {
      assert TrimNewlines("") == "";
      EmptyText(o);
    } else {
      FilterIdempotent(TrimNewlines(raw), o);
      FilterTextShortens(TrimNewlines(once), o);
    }
  }

  lemma {:induction false} CharOfWord(s: string, word: string, i: nat, j: nat)
    requires i <= |s| && word <= s[i..] && i <= j < i + |word|
    ensures s[j] in word
  {
    assert s[j] == word[j - i];
  }

  lemma {:induction false} SpansNoBreak(s: string, word: string, i: nat, j: nat)
    requires i <= |s| - |word| && word <= s[i..] && '\n' !in word && j < |s| && s[j] == '\n'
    ensures i + |word| <= j || j < i
  {
    if i <= j < i + |word| {
      CharOfWord(s, word, i, j);
    }
  }

  /** A directive name cannot span blocks. */
  lemma {:induction false} ContainsParts(a: string, b: string, word: string)
    requires '\n' !in word
    ensures Contains(a + "\n" + b, word) <==> Contains(a, word) || Contains(b, word)
  {
    var s := a + "\n" + b;
    if Contains(s, word) {
      var i :| 0 <= i <= |s| - |word| && word <= s[i..];
      SpansNoBreak(s, word, i, |a|);
      if i + |word| <= |a| {
        assert word <= a[i..];
      } else if i > |a| {
        assert word <= b[i - |a| - 1..];
      }
    }
    if i :| 0 <= i <= |a| - |word| && word <= a[i..] {
      assert word <= s[i..];
    }
    if i :| 0 <= i <= |b| - |word| && word <= b[i..] {
      assert s[|a| + 1 + i..] == b[i..];
    }
  }

  lemma {:induction false} ContainsJoin(ts: seq<string>, word: string)
    requires '\n' !in word && word != ""
    ensures Contains(Join(ts), word) <==> exists k :: 0 <= k < |ts| && Contains(ts[k], word)
  {
    hide Contains;
    if |ts| == 0 {
      NothingContained(word);
    } else if |ts| > 1 {
      var tail := ts[1..];
      ContainsJoin(tail, word);
      ContainsParts(ts[0], Join(tail), word);
      if k :| 0 <= k < |ts| && Contains(ts[k], word) {
        assert k == 0 || Contains(tail[k - 1], word);
      }
      if k :| 0 <= k < |tail| && Contains(tail[k], word) {
        assert Contains(ts[k + 1], word);
      }
    } else {
      assert ts[0] == Join(ts);
    }
  }

  lemma {:induction false} NothingContained(word: string)
    requires word != ""
    ensures !Contains("", word)
  {
  }

  lemma {:induction false} MentionsJoin(ts: seq<string>)
    ensures Mentions(Join(ts)) <==> exists k :: 0 <= k < |ts| && Mentions(ts[k])
  {
    hide Contains;
    ContainsJoin(ts, "SecRule");
    ContainsJoin(ts, "SecAction");
    if k :| 0 <= k < |ts| && Contains(ts[k], "SecRule") {
      assert Mentions(ts[k]);
    }
    if k :| 0 <= k < |ts| && Contains(ts[k], "SecAction") {
      assert Mentions(ts[k]);
    }
    if k :| 0 <= k < |ts| && Mentions(ts[k]) {
      assert Contains(ts[k], "SecRule") || Contains(ts[k], "SecAction");
    }
  }

  /** Trimming leaves a text alone that ends in neither line end character. */
  predicate EndsClean(s: string) {
    s == "" || s[|s| - 1] !in {'\n', '\r'}
  }

  lemma {:induction false} TrimsNothing(s: string)
    ensures TrimNewlines(s) == s <==> EndsClean(s)
  {
  }

  lemma {:induction false} JoinEnds(ts: seq<string>)
    requires |ts| > 0
    ensures Join(ts) == "" <==> ts == [""]
    ensures ts[|ts| - 1] != "" ==> Join(ts) != "" && Join(ts)[|Join(ts)| - 1] == ts[|ts| - 1][|ts[|ts| - 1]| - 1]
    ensures ts[|ts| - 1] == "" && |ts| > 1 ==> Join(ts) != "" && Join(ts)[|Join(ts)| - 1] == '\n'
  {
    if |ts| > 1 {
      var tail := ts[1..];
      JoinEnds(tail);
      assert tail[|tail| - 1] == ts[|ts| - 1];
      assert Join(ts) == ts[0] + "\n" + Join(tail);
    }
  }

  /** In terms of the blocks: a second pass of the whole function changes nothing exactly when nothing but an empty line
      is kept, or the last kept block is not empty and ends in neither line end character, and some kept block mentions
      a directive. */
  lemma {:induction false} SecondPassByBlocks(raw: string, o: Settings)
    requires Mentions(TrimNewlines(raw))
    ensures var kept := Kept(Blocks(TrimNewlines(raw)), o);
            Process(Process(raw, o), o) == Process(raw, o) <==>
              kept == [] || kept == [""]
              || (kept[|kept| - 1] != "" && EndsClean(kept[|kept| - 1])
                  && exists k :: 0 <= k < |kept| && Mentions(kept[k]))
  {
    hide Mentions, Kept, Blocks, TrimNewlines;
    var kept := Kept(Blocks(TrimNewlines(raw)), o);
    SecondPassExactly(raw, o);
    var once := Process(raw, o);
    TrimsNothing(once);
    MentionsJoin(kept);
    if |kept| > 0 {
      JoinEnds(kept);
    }
  }

  lemma {:induction false} KeepAllUnignored(blocks: seq<string>)
    ensures Kept(blocks, Settings({}, false)) == blocks
  {
    var o := Settings({}, false);
    forall i | 0 <= i < |blocks| ensures !Dropped(blocks, o, i) {
      assert forall b: string :: !Wished(b, o);
    }
    FilterAll(blocks, Keep(blocks, o));
  }

  /** With nothing to ignore the file comes back unchanged exactly when it is empty, or ends in no newline and mentions
      a rule. */
  lemma {:induction false} IdentityExactly(raw: string)
    ensures Process(raw, Settings({}, false)) == raw <==> raw == "" || (TrimNewlines(raw) == raw && Mentions(raw))
  {
    var o := Settings({}, false);
    KeepAllUnignored(Blocks(TrimNewlines(raw)));
    SplitLossless(TrimNewlines(raw));
    assert TrimNewlines("") == "";
  }
}
