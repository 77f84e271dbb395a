/** processFileContent (tools/corerulesetgen/rules.go) as the source runs it: mark, close over chains, warn, collect. */
module FileProcessor {
  import opened Text
  import opened RuleBlocks
  import opened RuleGroups
  import opened RuleFilter

  datatype Reason = ExcludedByProfile | InIgnoreRules | InIgnoreList

  /** One warning per dropped chain; the wording around these values is left out. */
  datatype Warning = ChainWarning(ids: seq<string>) | PMWarning(id: string) | IDWarning(id: string, reason: Reason)

  /** ignoreReason; None is the source's nil map. */
  function IgnoreReason(id: string, autoIgnored: Option<set<string>>): Reason {
    match autoIgnored
    case Some(ids) => if id in ids then ExcludedByProfile else InIgnoreRules
    case None => InIgnoreList
  }

  function IDsOf(blocks: seq<string>, g: Group): seq<string> {
    seq(|g|, x requires 0 <= x < |g| => if g[x] < |blocks| then ExtractRuleID(blocks[g[x]]) else "unknown")
  }

  /** What is said about one dropped chain. */
  function WarningFor(blocks: seq<string>, o: Settings, autoIgnored: Option<set<string>>, g: Group): Warning
    requires |g| > 0 && g[0] < |blocks|
  {
    var b := blocks[g[0]];
    if |g| > 1 then ChainWarning(IDsOf(blocks, g))
    else if UsesPM(b, o) then PMWarning(ExtractRuleID(b))
    else IDWarning(ExtractRuleID(b), IgnoreReason(ExtractRuleID(b), autoIgnored))
  }

  /** The chains that hold a wished rule, in order. */
  function DoomedGroups(blocks: seq<string>, o: Settings, gs: seq<Group>): seq<Group> {
    if |gs| == 0 then []
    else
      var n := |gs| - 1;
      DoomedGroups(blocks, o, gs[..n]) + (if Doomed(blocks, o, gs[n]) then [gs[n]] else [])
  }

  lemma {:induction false} DoomedGroupsAppend(blocks: seq<string>, o: Settings, gs: seq<Group>, n: nat)
    requires n < |gs|
    ensures DoomedGroups(blocks, o, gs[..n + 1]) ==
            DoomedGroups(blocks, o, gs[..n]) + if Doomed(blocks, o, gs[n]) then [gs[n]] else []
  {
    assert gs[..n + 1][..n] == gs[..n];
  }

  predicate GroupsInRange(blocks: seq<string>, gs: seq<Group>) {
    forall x :: 0 <= x < |gs| ==> |gs[x]| > 0 && forall y :: 0 <= y < |gs[x]| ==> gs[x][y] < |blocks|
  }

  lemma {:induction false} GroupsOfInRange(blocks: seq<string>)
    ensures GroupsInRange(blocks, GroupsOf(blocks))
  {
    GroupsAreGrouping(Kinds(blocks));
  }

  /** The warnings are, one for one and in order, those of the dropped chains. */
  ghost predicate WarnsFor(blocks: seq<string>, o: Settings, autoIgnored: Option<set<string>>, warns: seq<Warning>,
          gs: seq<Group>) {
    |warns| == |gs| && GroupsInRange(blocks, gs) &&
    forall x :: 0 <= x < |gs| ==> warns[x] == WarningFor(blocks, o, autoIgnored, gs[x])
  }

  lemma {:induction false} NoWarnings(blocks: seq<string>, o: Settings, autoIgnored: Option<set<string>>)
    ensures WarnsFor(blocks, o, autoIgnored, [], DoomedGroups(blocks, o, []))
  {
  }

  lemma {:induction false} OneMoreWarning(blocks: seq<string>, o: Settings, autoIgnored: Option<set<string>>,
          warns: seq<Warning>, gs: seq<Group>, g: Group)
    requires WarnsFor(blocks, o, autoIgnored, warns, gs) && GroupsInRange(blocks, [g])
    ensures |g| > 0 && g[0] < |blocks|
    ensures WarnsFor(blocks, o, autoIgnored, warns + [WarningFor(blocks, o, autoIgnored, g)], gs + [g])
  {
    hide WarningFor;
    assert [g][0] == g;
  }

  /** The first loop: which blocks are wished away. */
  method MarkWished(blocks: seq<string>, o: Settings, wishDrop: array<bool>)
    requires wishDrop.Length == |blocks| && forall i :: 0 <= i < |blocks| ==> !wishDrop[i]
    modifies wishDrop
    ensures forall i :: 0 <= i < |blocks| ==> wishDrop[i] == Wished(blocks[i], o)
  {
    for i := 0 to |blocks|
      invariant forall k :: 0 <= k < i ==> wishDrop[k] == Wished(blocks[k], o)
      invariant forall k :: i <= k < |blocks| ==> !wishDrop[k]
    {
      var stripped := TrimSpace(blocks[i]);
      if stripped == "" || HasPrefix(stripped, "#") || !HasPrefix(stripped, "Sec") {
        SecPrefix(stripped);
        continue;
      }
      if !HasPrefix(stripped, "SecRule") {
        continue;
      }
      if UsesPM(blocks[i], o) {
        wishDrop[i] := true;
        continue;
      }
      var rid := ExtractRuleID(blocks[i]);
      if rid in o.ignoreIDs {
        wishDrop[i] := true;
      }
    }
  }

  lemma {:induction false} SecPrefix(s: string)
    ensures HasPrefix(s, "SecRule") ==> HasPrefix(s, "Sec")
  {
    assert "SecRule"[..3] == "Sec";
    if HasPrefix(s, "SecRule") {
      assert s[..7] == "SecRule";
      assert s[..3] == s[..7][..3];
    }
  }

  /** The inner scan of both group loops. */
  method AnyWished(blocks: seq<string>, o: Settings, g: Group, wishDrop: array<bool>) returns (found: bool)
    requires wishDrop.Length == |blocks| && forall i :: 0 <= i < |blocks| ==> wishDrop[i] == Wished(blocks[i], o)
    requires forall y :: 0 <= y < |g| ==> g[y] < |blocks|
    ensures found == Doomed(blocks, o, g)
  {
    found := false;
    for x := 0 to |g|
      invariant forall y :: 0 <= y < x ==> !Wished(blocks[g[y]], o)
    {
      if wishDrop[g[x]] {
        return true;
      }
    }
  }

  /** Block i goes because of one of the first n chains: the whole chain goes if it has several members. */
  ghost predicate MarkedBy(blocks: seq<string>, o: Settings, gs: seq<Group>, n: nat, i: nat)
    requires n <= |gs|
  {
    exists x :: 0 <= x < n && |gs[x]| > 1 && Doomed(blocks, o, gs[x]) && i in gs[x]
  }

  /** The second loop: a wish takes its whole chain along. */
  method MarkChains(blocks: seq<string>, o: Settings, gs: seq<Group>, wishDrop: array<bool>, drop: array<bool>)
    requires wishDrop.Length == drop.Length == |blocks| && wishDrop != drop
    requires forall i :: 0 <= i < |blocks| ==> wishDrop[i] == Wished(blocks[i], o)
    requires forall i :: 0 <= i < |blocks| ==> drop[i] == wishDrop[i]
    requires GroupsInRange(blocks, gs)
    modifies drop
    ensures forall i :: 0 <= i < |blocks| ==> drop[i] == (Wished(blocks[i], o) || MarkedBy(blocks, o, gs, |gs|, i))
  {
    hide Wished, Doomed;
    for n := 0 to |gs|
      invariant forall i :: 0 <= i < |blocks| ==> drop[i] == (Wished(blocks[i], o) || MarkedBy(blocks, o, gs, n, i))
    {
      var g := gs[n];
      var found := AnyWished(blocks, o, g, wishDrop);
      assert forall i :: MarkedBy(blocks, o, gs, n + 1, i) <==>
          MarkedBy(blocks, o, gs, n, i) || (|g| > 1 && Doomed(blocks, o, g) && i in g);
      if |g| <= 1 || !found {
        continue;
      }
      for y := 0 to |g|
        invariant forall i :: 0 <= i < |blocks| ==>
            drop[i] == (Wished(blocks[i], o) || MarkedBy(blocks, o, gs, n, i) || i in g[..y])
      {
        drop[g[y]] := true;
        assert g[..y + 1] == g[..y] + [g[y]];
      }
      assert g[..|g|] == g;
    }
  }

  /** Marking single wished rules and whole chains is dropping the chain closure. */
  lemma {:induction false} MarkedIsDropped(blocks: seq<string>, o: Settings, i: nat)
    requires i < |blocks|
    ensures Wished(blocks[i], o) || MarkedBy(blocks, o, GroupsOf(blocks), |GroupsOf(blocks)|, i)
            <==> Dropped(blocks, o, i)
  {
    var gs := GroupsOf(blocks);
    DropIsChainClosure(blocks, o, i);
    if Dropped(blocks, o, i) {
      var x :| 0 <= x < |gs| && i in gs[x] && Doomed(blocks, o, gs[x]);
      if |gs[x]| <= 1 {
        var a :| 0 <= a < |gs[x]| && gs[x][a] == i;
        var b :| 0 <= b < |gs[x]| && gs[x][b] < |blocks| && Wished(blocks[gs[x][b]], o);
        assert a == b == 0;
      }
    }
  }

  /** The third loop: one warning per dropped chain. */
  method CollectWarnings(blocks: seq<string>, o: Settings, autoIgnored: Option<set<string>>, gs: seq<Group>,
          wishDrop: array<bool>)
    returns (warns: seq<Warning>)
    requires wishDrop.Length == |blocks| && forall i :: 0 <= i < |blocks| ==> wishDrop[i] == Wished(blocks[i], o)
    requires GroupsInRange(blocks, gs)
    ensures WarnsFor(blocks, o, autoIgnored, warns, DoomedGroups(blocks, o, gs))
  {
    hide ExtractRuleID, DoomedGroups, WarnsFor;
    NoWarnings(blocks, o, autoIgnored);
    assert gs[..0] == [];
    warns := [];
    for n := 0 to |gs|
      invariant WarnsFor(blocks, o, autoIgnored, warns, DoomedGroups(blocks, o, gs[..n]))
    {
      var g := gs[n];
      var found := AnyWished(blocks, o, g, wishDrop);
      DoomedGroupsAppend(blocks, o, gs, n);
      if !found {
        assert DoomedGroups(blocks, o, gs[..n]) + [] == DoomedGroups(blocks, o, gs[..n]);
        continue;
      }
      OneMoreWarning(blocks, o, autoIgnored, warns, DoomedGroups(blocks, o, gs[..n]), g);
      if |g| > 1 {
        var ids := [];
        for y := 0 to |g|
          invariant ids == IDsOf(blocks, g)[..y]
        {
          ids := ids + [ExtractRuleID(blocks[g[y]])];
        }
        assert IDsOf(blocks, g)[..|g|] == IDsOf(blocks, g);
        warns := warns + [ChainWarning(ids)];
        continue;
      }
      assert Wished(blocks[g[0]], o);
      var b := blocks[g[0]];
      if UsesPM(b, o) {
        warns := warns + [PMWarning(ExtractRuleID(b))];
        continue;
      }
      var rid := ExtractRuleID(b);
      if rid in o.ignoreIDs {
        warns := warns + [IDWarning(rid, IgnoreReason(rid, autoIgnored))];
      }
    }
    assert gs[..|gs|] == gs;
  }

  /** The last loop: the blocks that stay, in order. */
  method CollectKept(blocks: seq<string>, o: Settings, drop: array<bool>) returns (filtered: seq<string>)
    requires drop.Length == |blocks| && forall i :: 0 <= i < |blocks| ==> drop[i] == Dropped(blocks, o, i)
    ensures filtered == Kept(blocks, o)
  {
    hide Dropped;
    filtered := [];
    ghost var keep := Keep(blocks, o);
    for i := 0 to |blocks|
      invariant filtered == Filter(blocks[..i], keep[..i])
    {
      assert blocks[..i + 1][..i] == blocks[..i] && keep[..i + 1][..i] == keep[..i];
      if drop[i] {
        continue;
      }
      filtered := filtered + [blocks[i]];
    }
    assert blocks[..|blocks|] == blocks && keep[..|blocks|] == keep;
  }

  /** processFileContent on the file's text. */
  method ProcessFileContent(raw: string, o: Settings, autoIgnored: Option<set<string>>)
    returns (text: string, warns: seq<Warning>)
    ensures text == Process(raw, o)
    ensures !Mentions(TrimNewlines(raw)) ==> warns == []
    ensures Mentions(TrimNewlines(raw)) ==>
              var blocks := Blocks(TrimNewlines(raw));
              WarnsFor(blocks, o, autoIgnored, warns, DoomedGroups(blocks, o, GroupsOf(blocks)))
  {
    var content := TrimNewlines(raw);
    if !Contains(content, "SecRule") && !Contains(content, "SecAction") {
      return "", [];
    }
    var blocks := SplitIntoRules(content);
    var wishDrop := new bool[|blocks|](_ => false);
    MarkWished(blocks, o, wishDrop);
    var groups := ChainSecRuleGroups(blocks);
    GroupsOfInRange(blocks);
    var drop := new bool[|blocks|](i requires 0 <= i < wishDrop.Length reads wishDrop => wishDrop[i]);
    MarkChains(blocks, o, groups, wishDrop, drop);
    forall i | 0 <= i < |blocks| ensures drop[i] == Dropped(blocks, o, i) {
      MarkedIsDropped(blocks, o, i);
    }
    warns := CollectWarnings(blocks, o, autoIgnored, groups, wishDrop);
    var filtered := CollectKept(blocks, o, drop);
    text := Join(filtered);
  }

  // ---------------------------------------------------------------------------------------------
  // Where the whole function is not stable
  // ---------------------------------------------------------------------------------------------

  const FIRST_RULE := "SecRule"
  const LAST_RULE := "SecRule id:1"

  lemma {:induction false} ExampleLines()
    ensures Closed([FIRST_RULE]) && Closed([""]) && Closed([LAST_RULE])
  {
    assert TrimLineEnd(FIRST_RULE) == FIRST_RULE && TrimLineEnd(LAST_RULE) == LAST_RULE && TrimLineEnd("") == "";
    assert KeywordAtStart(FIRST_RULE, DIRECTIVES[0]) && KeywordAtStart(LAST_RULE, DIRECTIVES[0]);
  }

  lemma {:induction false} ExampleKinds()
    ensures KindOf(FIRST_RULE) == KindOf(LAST_RULE) == Rule(false) && KindOf("") == Skipped
  {
    assert TrimSpace(FIRST_RULE) == FIRST_RULE && TrimSpace(LAST_RULE) == LAST_RULE && TrimSpace("") == "";
    assert forall i :: 0 <= i < |FIRST_RULE| ==> FIRST_RULE[i] != ',';
    assert forall i :: 0 <= i < |LAST_RULE| ==> LAST_RULE[i] != ',';
  }

  lemma {:induction false} ExampleWishes()
    ensures !Wished(FIRST_RULE, Settings({"1"}, false)) && Wished(LAST_RULE, Settings({"1"}, false))
  {
    ExampleKinds();
    RuleIDFromNone(FIRST_RULE, 0);
    RuleIDFromFirst(LAST_RULE, 0, 8);
    assert DigitsEnd(LAST_RULE, 11) == 12 && LAST_RULE[11..12] == "1";
  }

  lemma {:induction false} ExampleSplit(raw: string)
    requires raw == Join([FIRST_RULE, "", LAST_RULE])
    ensures Blocks(raw) == [FIRST_RULE, "", LAST_RULE]
  {
    var bs := [[FIRST_RULE], [""], [LAST_RULE]];
    ExampleLines();
    ReparseBlocks(bs);
    assert Texts(bs) == [FIRST_RULE, "", LAST_RULE];
  }

  lemma {:induction false} JoinTwo(a: string, b: string)
    ensures Join([a, b]) == a + "\n" + b
  {
    assert [a, b][1..] == [b];
  }

  lemma {:induction false} JoinThree(a: string, b: string, c: string)
    ensures Join([a, b, c]) == a + "\n" + (b + "\n" + c)
  {
    assert [a, b, c][1..] == [b, c];
    JoinTwo(b, c);
  }

  lemma {:induction false} ExampleFilter(o: Settings)
    requires o == Settings({"1"}, false)
    ensures Kept([FIRST_RULE, "", LAST_RULE], o) == [FIRST_RULE, ""]
  {
    var blocks := [FIRST_RULE, "", LAST_RULE];
    ExampleKinds();
    assert Kinds(blocks) == [Rule(false), Skipped, Rule(false)];
    ExampleGroups(Kinds(blocks));
    ExampleWishes();
    ExampleKeep(blocks, o);
    assert blocks[..2] == [FIRST_RULE, ""];
  }

  lemma {:induction false} ExampleMentions(raw: string)
    requires raw == FIRST_RULE + "\n" + ("" + "\n" + LAST_RULE)
    ensures TrimNewlines(raw) == raw && Mentions(raw)
  {
    assert raw[|raw| - 1] == '1';
    assert raw[0..] == raw && raw[..7] == "SecRule";
  }

  lemma {:induction false} ExampleText()
    ensures "SecRule\n\nSecRule id:1" == FIRST_RULE + "\n" + ("" + "\n" + LAST_RULE)
    ensures FIRST_RULE + "\n" + "" == "SecRule\n"
  {
  }

  /** A file whose last rule is dropped after a blank line: the first pass leaves a newline at the end, which a second
      pass trims. */
  lemma {:induction false} SecondPassTrims(raw: string, o: Settings)
    requires raw == "SecRule\n\nSecRule id:1" && o == Settings({"1"}, false)
    ensures Process(raw, o) == "SecRule\n"
    ensures Process(Process(raw, o), o) != Process(raw, o)
  {
    ExampleText();
    hide FIRST_RULE, LAST_RULE;
    JoinThree(FIRST_RULE, "", LAST_RULE);
    JoinTwo(FIRST_RULE, "");
    ExampleSplit(raw);
    ExampleFilter(o);
    ExampleMentions(raw);
    assert Process(raw, o) == FIRST_RULE + "\n" + "" == "SecRule\n";
    SecondPassExactly(raw, o);
  }

  lemma {:induction false} ExampleGroups(ks: seq<Kind>)
    requires ks == [Rule(false), Skipped, Rule(false)]
    ensures Groups(ks) == [[0], [2]]
  {
    assert Scan(ks, 1) == Progress([[0]], []) by {
      assert Scan(ks, 0) == Progress([], []) && [] + [0] == [0];
    }
    assert Scan(ks, 2) == Scan(ks, 1);
    assert Scan(ks, 3) == Progress([[0], [2]], []) by {
      assert [] + [2] == [2];
    }
  }

  lemma {:induction false} ExampleKeep(blocks: seq<string>, o: Settings)
    requires |blocks| == 3 && GroupsOf(blocks) == [[0], [2]]
    requires !Wished(blocks[0], o) && Wished(blocks[2], o)
    ensures Kept(blocks, o) == blocks[..2]
  {
    var keep := Keep(blocks, o);
    assert !Doomed(blocks, o, [0]);
    assert Doomed(blocks, o, [2]) by {
      assert [2][0] == 2;
    }
    assert 2 in GroupsOf(blocks)[1];
    assert keep == [true, true, false];
    FilterAll(blocks[..2], keep[..2]);
  }
}
