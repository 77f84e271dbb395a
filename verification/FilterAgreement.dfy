/** tools/corerulesetgen/build.go, the ignore set of a profile, and how the generator's filter and the operator's
    scanner agree. */
module FilterAgreement {
  import opened Text
  import opened RuleBlocks
  import opened RuleGroups
  import opened RuleFilter
  import opened UnsupportedRules

  // ---------------------------------------------------------------------------------------------
  // Decimal notation
  // ---------------------------------------------------------------------------------------------

  function Digit(n: nat): char
    requires n < 10
  {
    '0' + n as char
  }

  /** strconv.Itoa. */
  function Itoa(n: nat): string {
    if n < 10 then [Digit(n)] else Itoa(n / 10) + [Digit(n % 10)]
  }

  /** A non-empty run of digits without a leading zero. */
  predicate Canonical(d: string) {
    |d| > 0 && (d[0] != '0' || |d| == 1) && forall k :: 0 <= k < |d| ==> IsDigit(d[k])
  }

  lemma {:induction false} CanonicalPositive(d: string)
    requires Canonical(d) && d[0] != '0'
    ensures Value(d) > 0
  {
    if |d| > 1 {
      CanonicalPositive(d[..|d| - 1]);
    }
  }

  /** Reading a canonical number and printing it again gives the same digits. */
  lemma {:induction false} ItoaOfValue(d: string)
    requires Canonical(d)
    ensures Itoa(Value(d)) == d
  {
    var n := |d| - 1;
    if n == 0 {
      assert d[..0] == "";
    } else {
      ItoaOfValue(d[..n]);
      CanonicalPositive(d[..n]);
      assert d == d[..n] + [d[n]];
    }
  }

  /** Printing a number and reading it again gives the same number. */
  lemma {:induction false} ValueOfItoa(n: nat)
    ensures Value(Itoa(n)) == n && Canonical(Itoa(n))
    ensures n > 0 ==> Itoa(n)[0] != '0'
  {
    if n >= 10 {
      ValueOfItoa(n / 10);
      var s := Itoa(n);
      assert s[..|s| - 1] == Itoa(n / 10);
    } else {
      assert [Digit(n)][..0] == "";
    }
  }

  // ---------------------------------------------------------------------------------------------
  // The ignore set of a profile
  // ---------------------------------------------------------------------------------------------

  function LowerChar(c: char): char {
    if 'A' <= c <= 'Z' then c - 'A' + 'a' else c
  }

  function Lower(s: string): string {
    seq(|s|, i requires 0 <= i < |s| => LowerChar(s[i]))
  }

  predicate IsWasmProfile(profile: string) {
    Lower(TrimSpace(profile)) == "wasm"
  }

  function PrintedIDs(ids: set<nat>): set<string> {
    set id | id in ids :: Itoa(id)
  }

  function UserIDs(user: Option<set<string>>): set<string> {
    match user
    case Some(ids) => ids
    case None => {}
  }

  /** The IDs in effect after merging a profile into the user's ignore list. */
  function EffectiveIDs(reg: Registry, user: Option<set<string>>, profile: string): set<string> {
    UserIDs(user) + if IsWasmProfile(profile) then PrintedIDs(reg.Keys) else {}
  }

  /** mergeUnsupportedIDs: the merged ignore set, and the IDs that are in it only because of the profile. */
  method MergeUnsupportedIDs(reg: Registry, user: Option<set<string>>, profile: string)
    returns (merged: Option<set<string>>, autoIgnored: Option<set<string>>)
    ensures UserIDs(merged) == EffectiveIDs(reg, user, profile)
    ensures !IsWasmProfile(profile) || reg == map[] ==> merged == user && autoIgnored == None
    ensures IsWasmProfile(profile) && reg != map[] ==> autoIgnored == Some(PrintedIDs(reg.Keys) - UserIDs(user))
  {
    var ids := if IsWasmProfile(profile) then reg.Keys else {};
    if ids == {} {
      assert PrintedIDs({}) == {};
      return user, None;
    }
    var all := UserIDs(user);
    var autoOnly: set<string> := {};
    var left := ids;
    while left != {}
      invariant left <= ids
      invariant all == UserIDs(user) + PrintedIDs(ids - left)
      invariant autoOnly == PrintedIDs(ids - left) - UserIDs(user)
    {
      var id :| id in left;
      var sid := Itoa(id);
      assert ids - (left - {id}) == (ids - left) + {id};
      PrintedNext(ids - left, id);
      all := all + {sid};
      left := left - {id};
      if user.None? || sid !in user.value {
        autoOnly := autoOnly + {sid};
      }
    }
    assert ids - left == ids == reg.Keys;
    return Some(all), Some(autoOnly);
  }

  lemma {:induction false} PrintedNext(ids: set<nat>, id: nat)
    ensures PrintedIDs(ids + {id}) == PrintedIDs(ids) + {Itoa(id)}
  {
  }

  // ---------------------------------------------------------------------------------------------
  // When the operator accepts what the generator emits
  // ---------------------------------------------------------------------------------------------

  /** The scanner finds a registry rule in this block. */
  predicate Flagged(reg: Registry, block: string) {
    exists n :: n in ActiveIDs(block) && n in reg
  }

  lemma {:induction false} FilterMembers<T>(s: seq<T>, keep: seq<bool>, x: T)
    requires |keep| == |s|
    ensures x in Filter(s, keep) <==> exists i :: 0 <= i < |s| && keep[i] && s[i] == x
  {
    if |s| > 0 {
      var n := |s| - 1;
      FilterMembers(s[..n], keep[..n], x);
      assert forall i :: 0 <= i < n ==> s[..n][i] == s[i] && keep[..n][i] == keep[i];
    }
  }

  lemma {:induction false} NothingFound(reg: Registry, text: string)
    requires WellFormed(reg)
    ensures Check(reg, text) == [] <==> !Flagged(reg, text)
  {
    CheckExact(reg, text);
    assert forall k :: 0 <= k < |Check(reg, text)| ==> Check(reg, text)[k] in Check(reg, text);
    if Flagged(reg, text) {
      var n :| n in ActiveIDs(text) && n in reg;
      assert reg[n] in Check(reg, text);
    }
  }

  lemma {:induction false} EmptyTextAccepted(reg: Registry)
    ensures !Flagged(reg, "")
  {
    assert Lines("") == [""];
    assert !Active("");
  }

  lemma {:induction false} FlaggedJoin(reg: Registry, texts: seq<string>)
    ensures Flagged(reg, Join(texts)) <==> exists k :: 0 <= k < |texts| && Flagged(reg, texts[k])
  {
    if |texts| == 0 {
      EmptyTextAccepted(reg);
    } else {
      if Flagged(reg, Join(texts)) {
        var n :| n in ActiveIDs(Join(texts)) && n in reg;
        ActiveIDsOfFragments(texts, n);
      }
      if k :| 0 <= k < |texts| && Flagged(reg, texts[k]) {
        var n :| n in ActiveIDs(texts[k]) && n in reg;
        ActiveIDsOfFragments(texts, n);
      }
    }
  }

  /** Exactly when the operator accepts filtered rules: every block its scanner flags must lie in a chain the generator
      drops. */
  lemma {:induction false} AcceptedExactly(reg: Registry, content: string, o: Settings)
    requires WellFormed(reg)
    ensures Check(reg, FilterText(content, o)) == [] <==>
            forall i :: 0 <= i < |Blocks(content)| && Flagged(reg, Blocks(content)[i]) ==>
              Dropped(Blocks(content), o, i)
  {
    var blocks := Blocks(content);
    var keep, kept := Keep(blocks, o), Kept(blocks, o);
    NothingFound(reg, FilterText(content, o));
    FlaggedJoin(reg, kept);
    if k :| 0 <= k < |kept| && Flagged(reg, kept[k]) {
      FilterMembers(blocks, keep, kept[k]);
    }
    if i :| 0 <= i < |blocks| && Flagged(reg, blocks[i]) && keep[i] {
      FilterMembers(blocks, keep, blocks[i]);
      var k :| 0 <= k < |kept| && kept[k] == blocks[i];
    }
  }

  /** At most one "id:", written as unquoted digits without a leading zero. */
  predicate SingleCanonicalID(b: string) {
    && (forall i, j :: 0 <= i < |b| && 0 <= j < |b| && IdColonAt(b, i) && IdColonAt(b, j) ==> i == j)
    && (forall i :: 0 <= i < |b| && IdColonAt(b, i) ==> IdAt(b, i) && Canonical(b[i + 3..DigitsEnd(b, i + 3)]))
  }

  /** What the CRS files look like: SecRule blocks carry one plain ID, and no other directive carries a registry ID. */
  predicate Conforming(reg: Registry, block: string) {
    match KindOf(block)
    case Skipped => true
    case Other => !Flagged(reg, block)
    case Rule(_) => SingleCanonicalID(block)
  }

  lemma {:induction false} LineMatches(ls: seq<string>, k: nat)
    requires k < |ls|
    ensures MatchesIn(ls[k]) <= MatchesIn(Join(ls))
  {
    if |ls| > 1 {
      MatchesConcat(ls[0], Join(ls[1..]));
      if k > 0 {
        LineMatches(ls[1..], k - 1);
      }
    }
  }

  lemma {:induction false} ActiveMatchesInText(b: string)
    ensures ActiveMatches(Lines(b)) <= MatchesIn(b)
  {
    JoinLines(b);
    forall l, i | l in Lines(b) && Active(l) && 0 <= i < |l| && ScanAt(l, i) ensures DigitsAt(l, i) in MatchesIn(b) {
      var k :| 0 <= k < |Lines(b)| && Lines(b)[k] == l;
      LineMatches(Lines(b), k);
      MatchIntro(l, i);
    }
  }

  lemma {:induction false} PlainIDIsFound(b: string, j: nat)
    requires SingleCanonicalID(b) && j < |b| && ScanAt(b, j)
    ensures ExtractRuleID(b) == DigitsAt(b, j) && Canonical(DigitsAt(b, j))
  {
    RuleIDFromFirst(b, 0, j);
  }

  /** On a plain SecRule the two tools read the same ID. */
  lemma {:induction false} FlaggedRuleIsWished(reg: Registry, b: string, o: Settings)
    requires KindOf(b).Rule? && SingleCanonicalID(b) && Flagged(reg, b)
    requires PrintedIDs(reg.Keys) <= o.ignoreIDs
    ensures Wished(b, o)
  {
    hide DigitsEnd, Lines, Active, TrimSpace, Canonical, IdColonAt, SingleCanonicalID, KindOf;
    var n :| n in ActiveIDs(b) && n in reg;
    var d :| d in ActiveMatches(Lines(b)) && Atoi(d) == Some(n);
    ActiveMatchesInText(b);
    var j :| 0 <= j < |b| && ScanAt(b, j) && DigitsAt(b, j) == d;
    PlainIDIsFound(b, j);
    ItoaOfValue(d);
    assert Itoa(n) in PrintedIDs(reg.Keys);
  }

  lemma {:induction false} DirectiveStartsWithS(line: string)
    requires Starts(line)
    ensures |line| > 0 && line[0] == 'S'
  {
    var k :| 0 <= k < |DIRECTIVES| && KeywordAtStart(TrimLineEnd(line), DIRECTIVES[k]);
    assert DIRECTIVES[k][0] == 'S' && DIRECTIVES[k] <= TrimLineEnd(line) <= line;
  }

  lemma {:induction false} JoinStartsWith(b: seq<string>)
    requires |b| > 0 && |b[0]| > 0
    ensures |Join(b)| > 0 && Join(b)[0] == b[0][0]
  {
  }

  /** A comment or blank block is a single line, which the scanner skips too. */
  lemma {:induction false} SkippedNotFlagged(reg: Registry, content: string, i: nat)
    requires i < |Blocks(content)| && KindOf(Blocks(content)[i]).Skipped?
    ensures !Flagged(reg, Blocks(content)[i])
  {
    var bs := Parse(Lines(content));
    var text := Blocks(content)[i];
    ParseSound(Lines(content));
    FlattenLines(bs, Lines(content));
    assert Closed(bs[i]) || Open(bs[i]);
    if Starts(bs[i][0]) {
      DirectiveStartsWithS(bs[i][0]);
      JoinStartsWith(bs[i]);
      TrimSpaceNonSpaceFirst(text);
      assert false;
    } else {
      assert text == bs[i][0];
      LinesOfLine(text);
      assert !Active(text);
      assert ActiveMatches([text]) == {} by {
        ActiveMatchesOne(text);
      }
    }
  }

  /** Generator and operator agree: for conforming files the wasm profile leaves nothing that the operator rejects. */
  lemma {:induction false} GeneratorAndOperatorAgree(reg: Registry, raw: string, user: Option<set<string>>,
          profile: string, ignorePM: bool)
    requires WellFormed(reg) && IsWasmProfile(profile)
    requires forall i :: 0 <= i < |Blocks(TrimNewlines(raw))| ==> Conforming(reg, Blocks(TrimNewlines(raw))[i])
    ensures Check(reg, Process(raw, Settings(EffectiveIDs(reg, user, profile), ignorePM))) == []
  {
    var o := Settings(EffectiveIDs(reg, user, profile), ignorePM);
    var content := TrimNewlines(raw);
    var blocks := Blocks(content);
    if Mentions(content) {
      forall i | 0 <= i < |blocks| && Flagged(reg, blocks[i]) ensures Dropped(blocks, o, i) {
        if KindOf(blocks[i]).Skipped? {
          SkippedNotFlagged(reg, content, i);
        } else {
          assert Conforming(reg, blocks[i]);
          FlaggedRuleIsWished(reg, blocks[i], o);
          DropIsChainClosure(blocks, o, i);
        }
      }
      AcceptedExactly(reg, content, o);
    } else {
      EmptyTextAccepted(reg);
      NothingFound(reg, "");
    }
  }

  // ---------------------------------------------------------------------------------------------
  // Where they disagree
  // ---------------------------------------------------------------------------------------------

  const QUOTED := "SecRule id:'922110'"

  lemma {:induction false} QuotedSplit()
    ensures Blocks(QUOTED) == [QUOTED]
  {
    assert TrimLineEnd(QUOTED) == QUOTED && KeywordAtStart(QUOTED, DIRECTIVES[0]);
    assert Closed([QUOTED]);
    assert IsLine(QUOTED);
    ReparseBlocks([[QUOTED]]);
    assert Texts([[QUOTED]]) == [QUOTED];
  }

  lemma {:induction false} QuotedIsRule()
    ensures KindOf(QUOTED).Rule? && TrimNewlines(QUOTED) == QUOTED && Mentions(QUOTED)
  {
    assert TrimSpace(QUOTED) == QUOTED;
    assert QUOTED[..7] == "SecRule";
    assert QUOTED[0..] == QUOTED;
  }

  lemma {:induction false} QuotedMatch()
    ensures "922110" in MatchesIn(QUOTED)
  {
    assert ScanAt(QUOTED, 8) && DigitStart(QUOTED, 8) == 12;
    assert DigitsEnd(QUOTED, 18) == 18 && DigitsEnd(QUOTED, 17) == 18 && DigitsEnd(QUOTED, 16) == 18
        && DigitsEnd(QUOTED, 15) == 18 && DigitsEnd(QUOTED, 14) == 18 && DigitsEnd(QUOTED, 13) == 18;
    assert QUOTED[12..18] == "922110";
    MatchIntro(QUOTED, 8);
  }

  lemma {:induction false} QuotedID()
    ensures ExtractRuleID(QUOTED) == "unknown"
  {
    RuleIDFromNone(QUOTED, 0);
  }

  lemma {:induction false} QuotedScannedID()
    ensures 922110 in ActiveIDs(QUOTED)
  {
    LinesOfLine(QUOTED);
    TrimSpaceNonSpaceFirst(QUOTED);
    QuotedMatch();
    ActiveMatchesOne(QUOTED);
    ValueOfExample();
    assert Atoi("922110") == Some(922110);
  }

  lemma {:induction false} ValueOfExample()
    ensures Value("922110") == 922110
  {
    assert "922110"[..5] == "92211" && "92211"[..4] == "9221" && "9221"[..3] == "922" && "922"[..2] == "92"
           && "92"[..1] == "9" && "9"[..0] == "";
    assert Value("9") == 9;
    assert Value("92") == 92;
    assert Value("922") == 922;
    assert Value("9221") == 9221;
    assert Value("92211") == 92211;
  }

  /** A quoted ID is read by the scanner but not by the generator: the file passes the filter and is then rejected. */
  lemma {:induction false} QuotedIDSlipsThrough(reg: Registry, o: Settings)
    requires WellFormed(reg) && 922110 in reg && "unknown" !in o.ignoreIDs && !o.ignorePM
    ensures Process(QUOTED, o) == QUOTED && Check(reg, Process(QUOTED, o)) != []
  {
    QuotedSplit();
    QuotedIsRule();
    QuotedID();
    QuotedScannedID();
    var blocks := [QUOTED];
    assert !Wished(QUOTED, o);
    assert !Dropped(blocks, o, 0) by {
      if Dropped(blocks, o, 0) {
        DropIsChainClosure(blocks, o, 0);
      }
    }
    FilterAll(blocks, Keep(blocks, o));
    NothingFound(reg, QUOTED);
  }
}
