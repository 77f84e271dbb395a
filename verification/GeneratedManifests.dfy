/** From the generator to the operator: what Build (tools/corerulesetgen/build.go, rules.go, render.go) emits for a set
    of CRS files, read back from YAML, joined like the RuleSet controller joins its sources, and scanned for unsupported
    rules. */
module GeneratedManifests {
  import opened Text
  import opened RuleBlocks
  import opened RuleGroups
  import opened RuleFilter
  import opened UnsupportedRules
  import opened FilterAgreement
  import opened BlockScalar
  import opened ReadBack

  /** A file that leaves nothing but white space is skipped. */
  predicate Skipped(processed: string) {
    TrimSpace(processed) == ""
  }

  /** The text is what the filter makes of one of the files. */
  ghost predicate ComesFrom(raws: seq<string>, o: Settings, text: string) {
    exists k :: 0 <= k < |raws| && text == Process(raws[k], o)
  }

  /** The rules emitted for a list of files, in order. */
  function Emitted(raws: seq<string>, o: Settings): (texts: seq<string>)
    ensures forall i :: 0 <= i < |texts| ==> ComesFrom(raws, o, texts[i]) && !Skipped(texts[i])
  {
    if |raws| == 0 then []
    else
      var n := |raws| - 1;
      assert forall text :: ComesFrom(raws[..n], o, text) || text == Process(raws[n], o) ==> ComesFrom(raws, o, text);
      Emitted(raws[..n], o) + if Skipped(Process(raws[n], o)) then [] else [Process(raws[n], o)]
  }

  /** The accumulation loop of Build: the payloads of the RuleSources, and the two statistics. */
  method Build(raws: seq<string>, o: Settings) returns (payloads: seq<string>, processed: nat, skipped: nat)
    ensures |payloads| == |Emitted(raws, o)| == processed && processed + skipped == |raws|
    ensures forall i :: 0 <= i < processed ==> payloads[i] == Indented(Emitted(raws, o)[i], 4) + "\n"
  {
    hide Process, Indented, Skipped;
    payloads, processed, skipped := [], 0, 0;
    for i := 0 to |raws|
      invariant |payloads| == |Emitted(raws[..i], o)| == processed && processed + skipped == i
      invariant forall j :: 0 <= j < processed ==> payloads[j] == Indented(Emitted(raws[..i], o)[j], 4) + "\n"
    {
      assert raws[..i + 1][..i] == raws[..i] && raws[..i + 1][i] == raws[i];
      var text := Process(raws[i], o);
      if Skipped(text) {
        assert Emitted(raws[..i], o) + [] == Emitted(raws[..i], o);
        skipped := skipped + 1;
      } else {
        var indented := IndentMultiline(text, 4);
        payloads := payloads + [indented + "\n"];
        processed := processed + 1;
      }
    }
    assert raws[..|raws|] == raws;
  }

  // ---------------------------------------------------------------------------------------------
  // YAML keeps what the scanner looks at
  // ---------------------------------------------------------------------------------------------

  lemma {:induction false} EmptiedKeepsActive(ls: seq<string>)
    ensures ActiveLines(Emptied(ls)) == ActiveLines(ls)
  {
    assert !Active("");
    forall l ensures l in Emptied(ls) && Active(l) <==> l in ls && Active(l) {
      if l in ls && Active(l) {
        var i :| 0 <= i < |ls| && ls[i] == l;
        assert Emptied(ls)[i] == l;
      }
    }
  }

  lemma {:induction false} EmptiedAreLines(ls: seq<string>)
    requires AreLines(ls)
    ensures AreLines(Emptied(ls))
  {
  }

  /** What the block scalar does to a text does not matter to the scanner. */
  lemma {:induction false} ScanOfNormalized(reg: Registry, text: string)
    ensures Check(reg, Normalized(text)) == Check(reg, text)
  {
    hide ActiveLines, Lines, Clip, Emptied;
    var ls := Lines(text);
    EmptiedAreLines(ls);
    EmptiedKeepsActive(ls);
    ClipKeepsActive(Emptied(ls));
    OnlyActiveLinesCount(reg, Normalized(text), text);
  }

  // ---------------------------------------------------------------------------------------------
  // End to end
  // ---------------------------------------------------------------------------------------------

  /** The generator's settings for the wasm profile. */
  function WasmSettings(reg: Registry, user: Option<set<string>>, profile: string, ignorePM: bool): Settings {
    Settings(EffectiveIDs(reg, user, profile), ignorePM)
  }

  ghost predicate ConformingFile(reg: Registry, raw: string) {
    forall i :: 0 <= i < |Blocks(TrimNewlines(raw))| ==> Conforming(reg, Blocks(TrimNewlines(raw))[i])
  }

  lemma {:induction false} AllLinesFrom(texts: seq<string>, l: string) returns (k: nat)
    requires l in AllLines(texts)
    ensures k < |texts| && l in Lines(texts[k])
  {
    if l in Lines(texts[0]) {
      k := 0;
    } else {
      k := AllLinesFrom(texts[1..], l);
      k := k + 1;
    }
  }

  /** The lines of a block are lines of its file. */
  lemma {:induction false} BlockLines(bs: seq<seq<string>>, i: nat, l: string)
    requires i < |bs| && |bs[i]| > 0 && AreLines(bs[i]) && l in Lines(Join(bs[i]))
    ensures l in Flatten(bs)
  {
    LinesJoin(bs[i]);
    MemberInFlatten(bs, i, l);
  }

  lemma {:induction false} FileBlocks(content: string, i: nat)
    requires i < |Parse(Lines(content))|
    ensures var bs := Parse(Lines(content));
            |bs[i]| > 0 && AreLines(bs[i]) && Flatten(bs) == Lines(content) && Blocks(content)[i] == Join(bs[i])
  {
    hide Lines, Flatten, Join, Starts, Continued;
    var bs := Parse(Lines(content));
    ParseSound(Lines(content));
    FlattenLines(bs, Lines(content));
    assert Closed(bs[i]) || Open(bs[i]);
  }

  /** The lines of what is kept are lines of blocks. */
  lemma {:induction false} KeptLines(blocks: seq<string>, keep: seq<bool>, l: string) returns (i: nat)
    requires |keep| == |blocks| && l != "" && l in Lines(Join(Filter(blocks, keep)))
    ensures i < |blocks| && l in Lines(blocks[i])
  {
    hide Lines;
    var kept := Filter(blocks, keep);
    if |kept| == 0 {
      NoActiveLines();
      assert false;
    } else {
      LinesOfJoin(kept);
      var k := AllLinesFrom(kept, l);
      FilterMembers(blocks, keep, kept[k]);
      i :| 0 <= i < |blocks| && blocks[i] == kept[k];
    }
  }

  lemma {:induction false} ProcessedLines(raw: string, o: Settings)
    requires CRsEndLines(Lines(TrimNewlines(raw)))
    ensures CRsEndLines(Lines(Process(raw, o)))
  {
    hide Lines, Join, Filter, Keep, Parse, Flatten, CRAtEnd, TrimNewlines, Mentions;
    var content := TrimNewlines(raw);
    var ls := Lines(Process(raw, o));
    NoActiveLines();
    forall i | 0 <= i < |ls| ensures CRAtEnd(ls[i]) {
      if ls[i] == "" {
        EmptyEnds();
      } else {
        assert Mentions(content);
        var b := KeptLines(Blocks(content), Keep(Blocks(content), o), ls[i]);
        FileBlocks(content, b);
        BlockLines(Parse(Lines(content)), b, ls[i]);
        var k :| 0 <= k < |Lines(content)| && Lines(content)[k] == ls[i];
        assert CRAtEnd(Lines(content)[k]);
      }
    }
  }

  lemma {:induction false} EmptyEnds()
    ensures CRAtEnd("")
  {
  }

  /** This is what a YAML reader finds in a RuleSource with this payload. */
  ghost predicate ReadsBack(text: string, rules: string) {
    ReadLast(2, Indented(text, 4) + "\n") == Some(rules)
  }

  /** What the operator makes of rules that went through YAML can be told from the printed text, whatever it is. */
  lemma {:induction false} AcceptedAsRead(reg: Registry, text: string, rules: string)
    requires WellFormed(reg) && ReadsBack(text, rules)
    ensures Check(reg, rules) == [] <==> YamlIDs(text) !! reg.Keys
  {
    hide Check, WellFormed, Indented, ReadLast, ActiveIDs, YamlIDs;
    ReadBackExactly(text, rules);
    NothingFound(reg, rules);
  }

  /** No comment line reveals a registry rule when a YAML reader breaks it. */
  ghost predicate RevealsNothing(reg: Registry, text: string) {
    forall i :: 0 <= i < |Lines(text)| ==> Revealed(Lines(text)[i]) !! reg.Keys
  }

  /** A clean text stays clean exactly when none of its comments reveals a registry rule. */
  lemma {:induction false} CleanAsRead(reg: Registry, text: string)
    requires WellFormed(reg) && Check(reg, text) == []
    ensures YamlIDs(text) !! reg.Keys <==> RevealsNothing(reg, text)
  {
    hide Check, WellFormed, Lines, ActiveMatches, Numbers, Broken, YamlIDs, Revealed;
    var ls := Lines(text);
    NothingFound(reg, text);
    YamlIDsOfLines(text);
    if n :| n in YamlIDs(text) && n in reg {
      LinesAsRead(ls, n);
      assert n !in ActiveIDs(text);
    }
    if i, n :| 0 <= i < |ls| && n in Revealed(ls[i]) && n in reg {
      LinesAsRead(ls, n);
    }
  }

  lemma {:induction false} OneReadsClean(reg: Registry, raw: string, user: Option<set<string>>, profile: string,
          ignorePM: bool, rules: string)
    requires WellFormed(reg) && IsWasmProfile(profile) && ConformingFile(reg, raw)
    requires ReadsBack(Process(raw, WasmSettings(reg, user, profile, ignorePM)), rules)
    ensures Check(reg, rules) == [] <==> RevealsNothing(reg, Process(raw, WasmSettings(reg, user, profile, ignorePM)))
  {
    hide Process, Check, WellFormed, IsWasmProfile, ReadsBack, EffectiveIDs, Conforming, Blocks, TrimNewlines, YamlIDs,
         RevealsNothing;
    var text := Process(raw, WasmSettings(reg, user, profile, ignorePM));
    GeneratorAndOperatorAgree(reg, raw, user, profile, ignorePM);
    AcceptedAsRead(reg, text, rules);
    CleanAsRead(reg, text);
  }

  lemma {:induction false} CheckJoined(reg: Registry, rules: seq<string>)
    requires WellFormed(reg) && |rules| > 0
    ensures Check(reg, Join(rules)) == [] <==> forall j :: 0 <= j < |rules| ==> Check(reg, rules[j]) == []
  {
    hide Check, WellFormed, Join;
    var found := Check(reg, Join(rules));
    if |found| > 0 {
      assert found[0] in found;
      CheckFragments(reg, rules, found[0]);
    }
    if j :| 0 <= j < |rules| && Check(reg, rules[j]) != [] {
      assert Check(reg, rules[j])[0] in Check(reg, rules[j]);
      CheckFragments(reg, rules, Check(reg, rules[j])[0]);
    }
  }

  /** RuleSources are generated with the wasm profile from conforming files, and aggregated in any order or selection,
      in whatever form a YAML reader gives them back. The operator finds nothing to reject exactly when no comment
      printed in the selected ones reveals a registry rule. */
  lemma {:induction false} GeneratedRulesAccepted(reg: Registry, raws: seq<string>, user: Option<set<string>>,
          profile: string, ignorePM: bool, pick: seq<nat>, rules: seq<string>)
    requires WellFormed(reg) && IsWasmProfile(profile) && |rules| == |pick| > 0
    requires forall k :: 0 <= k < |raws| ==> ConformingFile(reg, raws[k])
    requires var texts := Emitted(raws, WasmSettings(reg, user, profile, ignorePM));
             forall j :: 0 <= j < |pick| ==> pick[j] < |texts| && ReadsBack(texts[pick[j]], rules[j])
    ensures var texts := Emitted(raws, WasmSettings(reg, user, profile, ignorePM));
            Check(reg, Join(rules)) == [] <==> forall j :: 0 <= j < |pick| ==> RevealsNothing(reg, texts[pick[j]])
  {
    hide Process, Check, WellFormed, IsWasmProfile, ReadsBack, EffectiveIDs, ConformingFile, Join, WasmSettings,
         Emitted, RevealsNothing;
    var o := WasmSettings(reg, user, profile, ignorePM);
    var texts := Emitted(raws, o);
    CheckJoined(reg, rules);
    forall j | 0 <= j < |rules| ensures Check(reg, rules[j]) == [] <==> RevealsNothing(reg, texts[pick[j]]) {
      assert ReadsBack(texts[pick[j]], rules[j]);
      assert ComesFrom(raws, o, texts[pick[j]]);
      var k :| 0 <= k < |raws| && texts[pick[j]] == Process(raws[k], o);
      OneReadsClean(reg, raws[k], user, profile, ignorePM, rules[j]);
    }
  }

  /** Files whose carriage returns all end lines reveal nothing. */
  lemma {:induction false} EndedFilesRevealNothing(reg: Registry, raws: seq<string>, o: Settings, i: nat)
    requires i < |Emitted(raws, o)| && forall k :: 0 <= k < |raws| ==> CRsEndLines(Lines(TrimNewlines(raws[k])))
    ensures RevealsNothing(reg, Emitted(raws, o)[i])
  {
    hide Process, Lines, TrimNewlines, Emitted, CRAtEnd, Revealed;
    var text := Emitted(raws, o)[i];
    assert ComesFrom(raws, o, text);
    var k :| 0 <= k < |raws| && text == Process(raws[k], o);
    ProcessedLines(raws[k], o);
    forall j | 0 <= j < |Lines(text)| ensures Revealed(Lines(text)[j]) !! reg.Keys {
      EndedLineRevealsNothing(Lines(text)[j]);
    }
  }

  /** Where the comments that count stand in a file: in the blocks that are kept. */
  lemma {:induction false} RevealedByKeptBlocks(reg: Registry, raw: string, o: Settings)
    requires Mentions(TrimNewlines(raw))
    ensures var blocks := Blocks(TrimNewlines(raw));
            RevealsNothing(reg, Process(raw, o)) <==>
            forall i :: 0 <= i < |blocks| && !Dropped(blocks, o, i) ==> RevealsNothing(reg, blocks[i])
  {
    hide Lines, Blocks, TrimNewlines, Mentions, Revealed, Dropped;
    var blocks := Blocks(TrimNewlines(raw));
    var keep, kept := Keep(blocks, o), Kept(blocks, o);
    JoinedRevealsNothing(reg, kept);
    if k :| 0 <= k < |kept| && !RevealsNothing(reg, kept[k]) {
      FilterMembers(blocks, keep, kept[k]);
    }
    if i :| 0 <= i < |blocks| && !Dropped(blocks, o, i) && !RevealsNothing(reg, blocks[i]) {
      FilterMembers(blocks, keep, blocks[i]);
      var k :| 0 <= k < |kept| && kept[k] == blocks[i];
    }
  }

  lemma {:induction false} JoinedRevealsNothing(reg: Registry, texts: seq<string>)
    ensures RevealsNothing(reg, Join(texts)) <==> forall k :: 0 <= k < |texts| ==> RevealsNothing(reg, texts[k])
  {
    hide Lines, Revealed, Join;
    if |texts| == 0 {
      EmptyRevealsNothing(reg);
    } else {
      LinesOfJoin(texts);
      if i :| 0 <= i < |Lines(Join(texts))| && !(Revealed(Lines(Join(texts))[i]) !! reg.Keys) {
        var k := AllLinesFrom(texts, Lines(Join(texts))[i]);
        assert !RevealsNothing(reg, texts[k]);
      }
      if k :| 0 <= k < |texts| && !RevealsNothing(reg, texts[k]) {
        var i :| 0 <= i < |Lines(texts[k])| && !(Revealed(Lines(texts[k])[i]) !! reg.Keys);
        AllLinesHas(texts, k, Lines(texts[k])[i]);
      }
    }
  }

  lemma {:induction false} AllLinesHas(texts: seq<string>, k: nat, l: string)
    requires k < |texts| && l in Lines(texts[k])
    ensures l in AllLines(texts)
  {
    if k > 0 {
      AllLinesHas(texts[1..], k - 1, l);
    }
  }

  lemma {:induction false} EmptyRevealsNothing(reg: Registry)
    ensures Join([]) == "" && RevealsNothing(reg, "")
  {
    NoActiveLines();
    assert CRAtEnd("");
    EndedLineRevealsNothing("");
  }

  // ---------------------------------------------------------------------------------------------
  // A comment that reveals a rule
  // ---------------------------------------------------------------------------------------------

  const COMMENT := "#"
  const DIRECTIVE := " id:922110"
  /** One comment line for the operator's scanner and the generator, two lines for a YAML reader. */
  const HIDDEN := COMMENT + "\r    " + DIRECTIVE
  const ACTION := "SecAction"
  /** A file of the comment and a directive that no setting drops. */
  const HIDING := HIDDEN + "\n" + ACTION

  lemma {:induction false} HiddenIsOneComment()
    ensures IsLine(HIDDEN) && !Active(HIDDEN) && !Blank(HIDDEN) && !Starts(HIDDEN)
    ensures KindOf(HIDDEN) == Kind.Skipped
  {
    assert HIDDEN[0] == '#' && !IsSpace('#');
    TrimSpaceNonSpaceFirst(HIDDEN);
    if Starts(HIDDEN) {
      DirectiveStartsWithS(HIDDEN);
      assert false;
    }
  }

  lemma {:induction false} ActionIsKept()
    ensures IsLine(ACTION) && Starts(ACTION) && !Continued(ACTION) && !Blank(ACTION) && KindOf(ACTION) == Kind.Other
    ensures Mentions(HIDING) && TrimNewlines(HIDING) == HIDING
  {
    assert TrimLineEnd(ACTION) == ACTION && KeywordAtStart(ACTION, DIRECTIVES[1]);
    assert TrimSpace(ACTION) == ACTION && ACTION[..3] == "Sec" && ACTION[3] == 'A';
    var n := |HIDDEN| + 1;
    assert HIDING[n..] == ACTION;
    assert ACTION <= HIDING[n..];
  }

  lemma {:induction false} HidingSplit()
    ensures Lines(HIDING) == [HIDDEN, ACTION] && Blocks(HIDING) == [HIDDEN, ACTION]
  {
    hide Starts, Continued;
    HiddenIsOneComment();
    ActionIsKept();
    var bs := [[HIDDEN], [ACTION]];
    assert Closed([HIDDEN]) && Closed([ACTION]) && IsParse(bs);
    ReparseBlocks(bs);
    assert Texts(bs) == [HIDDEN, ACTION];
    LinesJoin([HIDDEN, ACTION]);
    assert Join([HIDDEN, ACTION]) == HIDING;
  }

  /** The filter takes the file for conforming and leaves it as it is, with any settings. */
  lemma {:induction false} HidingIsEmitted(reg: Registry, o: Settings)
    ensures Process(HIDING, o) == HIDING && ConformingFile(reg, HIDING)
  {
    hide Lines, Mentions, TrimNewlines, Blocks;
    HidingSplit();
    HiddenIsOneComment();
    ActionIsKept();
    var blocks := [HIDDEN, ACTION];
    forall i | 0 <= i < 2 ensures !Dropped(blocks, o, i) {
      if Dropped(blocks, o, i) {
        DropIsChainClosure(blocks, o, i);
      }
    }
    FilterAll(blocks, Keep(blocks, o));
    assert Join(blocks) == HIDING;
    ActionNotFlagged(reg);
    assert forall i :: 0 <= i < 2 ==> Conforming(reg, blocks[i]);
  }

  lemma {:induction false} ActionNotFlagged(reg: Registry)
    ensures !Flagged(reg, ACTION)
  {
    assert IsLine(ACTION);
    LinesOfLine(ACTION);
    ActiveMatchesOne(ACTION);
    assert MatchesIn(ACTION) == {};
  }

  lemma {:induction false} HiddenSpaced()
    ensures Spaces(4) + HIDDEN == (Spaces(4) + COMMENT) + "\r" + (Spaces(4) + DIRECTIVE)
  {
    assert Spaces(4) == "    ";
  }

  lemma {:induction false} TwoLines(x: string, y: string, z: string)
    ensures x + "\r" + y + "\n" + z + "\n" == x + "\r" + (y + "\n" + (z + "\n"))
  {
  }

  lemma {:induction false} HidingPrinted()
    ensures Indented(HIDING, 4) + "\n"
            == (Spaces(4) + COMMENT) + "\r" + (Spaces(4) + DIRECTIVE + "\n" + (Spaces(4) + ACTION + "\n"))
  {
    hide Lines;
    HidingSplit();
    HiddenIsOneComment();
    ActionIsKept();
    HiddenSpaced();
    hide Spaces, COMMENT, DIRECTIVE, HIDDEN, ACTION, HIDING, Blank, Active, Starts, Continued, KindOf;
    hide TrimNewlines, Mentions;
    var x, y, z := Spaces(4) + COMMENT, Spaces(4) + DIRECTIVE, Spaces(4) + ACTION;
    assert IndentLines([HIDDEN, ACTION], 4) == [Spaces(4) + HIDDEN, z];
    assert Join([Spaces(4) + HIDDEN, z]) == Spaces(4) + HIDDEN + "\n" + z;
    TwoLines(x, y, z);
  }

  lemma {:induction false} HidingLines()
    ensures YamlLines(Indented(HIDING, 4) + "\n")
            == [Spaces(4) + COMMENT, Spaces(4) + DIRECTIVE, Spaces(4) + ACTION, ""]
  {
    hide YamlLines;
    HidingPrinted();
    var a, b, c := Spaces(4) + COMMENT, Spaces(4) + DIRECTIVE, Spaces(4) + ACTION;
    assert '\n' !in a && '\r' !in a && '\n' !in b && '\r' !in b && '\n' !in c && '\r' !in c;
    assert (b + "\n" + (c + "\n"))[0] == ' ';
    YamlBreaksAtCR(a, b + "\n" + (c + "\n"));
    YamlFirst(b, c + "\n");
    assert c + "\n" == c + "\n" + "";
    YamlFirst(c, "");
    assert DropCR(b) == b && DropCR(c) == c;
    YamlOfPlain(b);
    YamlOfPlain(c);
    YamlOfPlain("");
  }

  lemma {:induction false} HidingContent()
    ensures var ls := [Spaces(4) + COMMENT, Spaces(4) + DIRECTIVE, Spaces(4) + ACTION];
            ReadLiteral(2, ls) == Some((Join([COMMENT, DIRECTIVE, ACTION]) + "\n", []))
  {
    var a, b, c := Spaces(4) + COMMENT, Spaces(4) + DIRECTIVE, Spaces(4) + ACTION;
    var ls := [a, b, c];
    LeadingSpacesExact(a, 4);
    LeadingSpacesExact(b, 5);
    LeadingSpacesExact(c, 4);
    FirstNonEmptyExact(ls, 0);
    BodyLengthExact(ls, 4, 3);
    assert ls[..3] == ls && ls[3..] == [];
    assert a[4..] == COMMENT && b[4..] == DIRECTIVE && c[4..] == ACTION;
    assert Contents(ls, 4) == [COMMENT, DIRECTIVE, ACTION];
  }

  lemma {:induction false} DirectiveIsActive()
    ensures Active(DIRECTIVE)
  {
    assert IsSpace(' ') && !IsSpace('i');
    assert DIRECTIVE[1..] == "id:922110";
    TrimSpaceNonSpaceFirst("id:922110");
  }

  lemma {:induction false} DirectiveMatch()
    ensures "922110" in MatchesIn(DIRECTIVE)
  {
    assert ScanAt(DIRECTIVE, 1) && DigitStart(DIRECTIVE, 1) == 4;
    DigitsEndIs(DIRECTIVE, 4, 10);
    assert DIRECTIVE[4..10] == "922110";
    MatchIntro(DIRECTIVE, 1);
  }

  lemma {:induction false} HiddenIsRevealed()
    ensures 922110 in Revealed(HIDDEN)
  {
    hide Active, MatchesIn, YamlLines, ActiveMatches;
    var second := "    " + DIRECTIVE;
    HiddenIsOneComment();
    assert DropCR(HIDDEN) == HIDDEN == COMMENT + "\r" + second;
    assert second[0] == ' ';
    YamlBreaksAtCR(COMMENT, second);
    YamlOfPlain(second);
    ActiveMatchesConcat([COMMENT], [second]);
    assert Spaces(4) == "    ";
    TrimSpaced(4, DIRECTIVE);
    SameActive(second, DIRECTIVE);
    SpacedMatches(4, DIRECTIVE);
    DirectiveIsActive();
    DirectiveMatch();
    ActiveMatchesOne(second);
    ValueOfExample();
    assert Atoi("922110") == Some(922110);
  }

  lemma {:induction false} HidingReadsBack()
    ensures ReadsBack(HIDING, Join([COMMENT, DIRECTIVE, ACTION]) + "\n")
  {
    HidingLines();
    HidingContent();
    var ls := YamlLines(Indented(HIDING, 4) + "\n");
    assert ls[..|ls| - 1] == [Spaces(4) + COMMENT, Spaces(4) + DIRECTIVE, Spaces(4) + ACTION];
  }

  /** A conforming file that the filter emits unchanged and the scanner finds clean. A carriage return inside its
      comment makes a YAML reader break the line: what follows comes back as a directive of its own, and the operator
      rejects it. */
  lemma {:induction false} LoneCRRevealsComment(reg: Registry, o: Settings)
    requires WellFormed(reg) && 922110 in reg
    ensures ConformingFile(reg, HIDING) && Process(HIDING, o) == HIDING && Check(reg, HIDING) == []
    ensures exists rules :: ReadsBack(Process(HIDING, o), rules) && Check(reg, rules) != []
  {
    hide Check, ReadsBack, Lines, ActiveIDs, Process, Revealed, Conforming, Blocks, TrimNewlines;
    var wasm := WasmSettings(reg, None, "wasm", false);
    HidingIsEmitted(reg, o);
    HidingIsEmitted(reg, wasm);
    assert Lower(TrimSpace("wasm")) == "wasm";
    GeneratorAndOperatorAgree(reg, HIDING, None, "wasm", false);
    HidingReadsBack();
    HiddenIsRevealed();
    HidingSplit();
    assert Lines(HIDING)[0] == HIDDEN && !RevealsNothing(reg, HIDING);
    AcceptedAsRead(reg, HIDING, Join([COMMENT, DIRECTIVE, ACTION]) + "\n");
    CleanAsRead(reg, HIDING);
  }
}
