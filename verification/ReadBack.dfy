/** What a YAML reader makes of a printed RuleSource, as far as the scanner for unsupported rules goes: also of rules
    that start with an indented line, and of rules with carriage returns, at which the reader breaks lines and the
    generator does not. */
module ReadBack {
  import opened Text
  import opened RuleBlocks
  import opened UnsupportedRules
  import opened BlockScalar

  /** A carriage return stands at the end of the line only. */
  predicate CRAtEnd(line: string) {
    forall i :: 0 <= i < |line| && line[i] == '\r' ==> i == |line| - 1
  }

  /** Every carriage return belongs to a line end, be it the last. */
  predicate CRsEndLines(ls: seq<string>) {
    forall i :: 0 <= i < |ls| ==> CRAtEnd(ls[i])
  }

  function DropCR(line: string): string {
    if line != "" && line[|line| - 1] == '\r' then line[..|line| - 1] else line
  }

  /** The lines a YAML reader sees in terminated lines. */
  function Broken(ls: seq<string>): seq<string> {
    if |ls| == 0 then [] else Broken(ls[..|ls| - 1]) + YamlLines(DropCR(ls[|ls| - 1]))
  }

  /** The numbers that stand as rule IDs on the active lines of a text as a YAML reader breaks it. */
  function YamlIDs(text: string): set<nat> {
    Numbers(ActiveMatches(YamlLines(text + "\n")))
  }

  // ---------------------------------------------------------------------------------------------
  // Lines
  // ---------------------------------------------------------------------------------------------

  /** One more character in front of the first line, or one more line break. */
  function InFront(c: char, ls: seq<string>): seq<string>
    requires |ls| > 0
  {
    if c == '\r' then [""] + ls else [[c] + ls[0]] + ls[1..]
  }

  lemma {:induction false} YamlNext(c: char, t: string)
    requires c != '\n' && !(c == '\r' && HasPrefix(t, "\n"))
    ensures YamlLines([c] + t) == InFront(c, YamlLines(t))
  {
    var s := [c] + t;
    assert s[1..] == t;
    assert c == '\r' && t != "" ==> "\n" <= t || s[1] != '\n';
  }

  lemma {:induction false} YamlBreaks(rest: string)
    ensures YamlLines("\n" + rest) == YamlLines("\r\n" + rest) == [""] + YamlLines(rest)
    ensures YamlLines("") == [""]
  {
    assert ("\n" + rest)[1..] == rest && ("\r\n" + rest)[2..] == rest;
  }

  lemma {:induction false} InFrontConcat(c: char, a: seq<string>, b: seq<string>)
    requires |a| > 0
    ensures InFront(c, a + b) == InFront(c, a) + b
  {
  }

  lemma {:induction false} LineStart(l: string)
    requires IsLine(l) && l != "" && l != "\r"
    ensures var c, t := l[0], l[1..];
            && l == [c] + t && c != '\n' && DropCR(l) == [c] + DropCR(t) && IsLine(t)
            && !HasPrefix(DropCR(t), "\n") && (c == '\r' ==> t != "" && t[0] != '\n')
  {
    assert l[0] in l;
    assert |l| > 1 ==> l[1] in l;
  }

  lemma {:induction false} LineBefore(l: string, rest: string)
    requires IsLine(l) && l != "" && l != "\r"
    ensures var c, more := l[0], l[1..] + "\n" + rest;
            l + "\n" + rest == [c] + more && !(c == '\r' && HasPrefix(more, "\n"))
  {
    hide DropCR;
    LineStart(l);
    var more := l[1..] + "\n" + rest;
    assert l[1..] != "" ==> more[0] == l[1..][0];
  }

  /** Each printed line is broken on its own. */
  lemma {:induction false} YamlFirst(l: string, rest: string)
    requires IsLine(l)
    ensures YamlLines(l + "\n" + rest) == YamlLines(DropCR(l)) + YamlLines(rest)
  {
    hide YamlLines, InFront;
    YamlBreaks(rest);
    if l == "" {
      assert l + "\n" + rest == "\n" + rest;
    } else if l == "\r" {
      assert l + "\n" + rest == "\r\n" + rest;
    } else {
      hide DropCR;
      var c, t := l[0], l[1..];
      LineStart(l);
      YamlFirst(t, rest);
      LineBefore(l, rest);
      YamlNext(c, t + "\n" + rest);
      YamlNext(c, DropCR(t));
      InFrontConcat(c, YamlLines(DropCR(t)), YamlLines(rest));
    }
  }

  lemma {:induction false} YamlPieces(s: string)
    ensures AreLines(YamlLines(s))
  {
    if s != "" {
      if s[0] == '\r' && |s| > 1 && s[1] == '\n' {
        YamlPieces(s[2..]);
      } else {
        YamlPieces(s[1..]);
      }
    }
  }

  lemma {:induction false} BrokenAreLines(ls: seq<string>)
    ensures AreLines(Broken(ls))
  {
    if |ls| > 0 {
      BrokenAreLines(ls[..|ls| - 1]);
      YamlPieces(DropCR(ls[|ls| - 1]));
    }
  }

  lemma {:induction false} BrokenOne(l: string)
    ensures Broken([l]) == YamlLines(DropCR(l))
  {
    assert [l][..0] == [];
  }

  lemma {:induction false} BrokenConcat(a: seq<string>, b: seq<string>)
    ensures Broken(a + b) == Broken(a) + Broken(b)
  {
    hide YamlLines, DropCR;
    if |b| == 0 {
      assert a + b == a;
    } else {
      BrokenConcat(a, b[..|b| - 1]);
      var c := a + b;
      assert c[..|c| - 1] == a + b[..|b| - 1] && c[|c| - 1] == b[|b| - 1];
    }
  }

  lemma {:induction false} YamlOfTerminated(ls: seq<string>)
    requires AreLines(ls)
    ensures YamlLines(Terminated(ls)) == Broken(ls) + [""]
  {
    hide YamlLines, DropCR;
    if |ls| == 0 {
      YamlOfEmpty();
    } else {
      var tail := ls[1..];
      assert ls == [ls[0]] + tail;
      YamlOfTerminated(tail);
      TerminatedConcat([ls[0]], tail);
      assert [ls[0]][..0] == [];
      assert Terminated([ls[0]]) == "" + (ls[0] + "\n") == ls[0] + "\n";
      YamlFirst(ls[0], Terminated(tail));
      BrokenConcat([ls[0]], tail);
      BrokenOne(ls[0]);
    }
  }

  lemma {:induction false} YamlOfEmpty()
    ensures YamlLines("") == [""]
  {
  }

  /** A carriage return that does not belong to a line end breaks a line. */
  lemma {:induction false} YamlBreaksAtCR(l: string, rest: string)
    requires '\n' !in l && '\r' !in l && !HasPrefix(rest, "\n")
    ensures YamlLines(l + "\r" + rest) == [l] + YamlLines(rest)
  {
    var s := l + "\r" + rest;
    if l == "" {
      assert s[1..] == rest;
      assert rest != "" ==> s[1] == rest[0] && (rest[0] == '\n' ==> "\n" <= rest);
    } else {
      assert l[0] in l && l == [l[0]] + l[1..];
      YamlBreaksAtCR(l[1..], rest);
      assert s[1..] == l[1..] + "\r" + rest;
    }
  }

  lemma {:induction false} YamlOfPlain(l: string)
    requires '\n' !in l && '\r' !in l
    ensures YamlLines(l) == [l]
  {
    YamlLinesWithoutCR(l);
    LinesOfLine(l);
  }

  // ---------------------------------------------------------------------------------------------
  // Matches
  // ---------------------------------------------------------------------------------------------

  lemma {:induction false} DigitsEndIs(s: string, i: nat, e: nat)
    requires i <= e <= |s| && (forall k :: i <= k < e ==> IsDigit(s[k])) && (e < |s| ==> !IsDigit(s[e]))
    ensures DigitsEnd(s, i) == e
  {
    assert !(DigitsEnd(s, i) < e) && !(e < DigitsEnd(s, i));
  }

  /** The part t stands in s from a on, separate enough for matches: behind a non-word character, and not before a
      digit. */
  ghost predicate Stands(s: string, a: nat, t: string) {
    && a + |t| <= |s|
    && (forall k :: a <= k < a + |t| ==> s[k] == t[k - a])
    && (a > 0 ==> !IsWord(s[a - 1]))
    && (a + |t| < |s| ==> !IsDigit(s[a + |t|]))
  }

  lemma {:induction false} SameStart(s: string, a: nat, t: string, i: nat)
    requires Stands(s, a, t) && i < |t| && (ScanAt(t, i) || (ScanAt(s, a + i) && a + |t| == |s|))
    ensures ScanAt(t, i) && ScanAt(s, a + i) && DigitStart(s, a + i) == a + DigitStart(t, i)
  {
    assert s[a + i] == t[i];
    assert i > 0 ==> s[a + i - 1] == t[i - 1];
    assert i + 1 < |t| ==> s[a + i + 1] == t[i + 1];
    assert i + 2 < |t| ==> s[a + i + 2] == t[i + 2];
    assert i + 3 < |t| ==> s[a + i + 3] == t[i + 3];
    assert i + 4 < |t| ==> s[a + i + 4] == t[i + 4];
  }

  lemma {:induction false} SameSlice(s: string, a: nat, t: string, d: nat, e: nat)
    requires Stands(s, a, t) && d <= e <= |t|
    ensures s[a + d..a + e] == t[d..e]
  {
    hide IsWord, IsDigit;
  }

  lemma {:induction false} SameEnd(s: string, a: nat, t: string, d: nat)
    requires Stands(s, a, t) && d <= |t|
    ensures DigitsEnd(s, a + d) == a + DigitsEnd(t, d)
  {
    hide IsWord, IsDigit, DigitsEnd;
    var e := DigitsEnd(t, d);
    assert forall k :: a + d <= k < a + e ==> s[k] == t[k - a];
    assert e < |t| ==> s[a + e] == t[e];
    DigitsEndIs(s, a + d, a + e);
  }

  lemma {:induction false} StandsInside(s: string, a: nat, t: string)
    requires Stands(s, a, t)
    ensures a + |t| <= |s|
  {
  }

  /** It shows the same digits there. */
  lemma {:induction false} SameMatch(s: string, a: nat, t: string, i: nat)
    requires Stands(s, a, t) && i < |t| && (ScanAt(t, i) || (ScanAt(s, a + i) && a + |t| == |s|))
    ensures ScanAt(t, i) && ScanAt(s, a + i) && DigitsAt(s, a + i) == DigitsAt(t, i)
  {
    hide Stands, IdColonAt, DigitsEnd;
    SameStart(s, a, t, i);
    SameEnd(s, a, t, DigitStart(t, i));
    SameSlice(s, a, t, DigitStart(t, i), DigitsEnd(t, DigitStart(t, i)));
    StandsInside(s, a, t);
  }

  lemma {:induction false} PartMatches(s: string, a: nat, t: string)
    requires Stands(s, a, t)
    ensures MatchesIn(t) <= MatchesIn(s)
  {
    forall i | 0 <= i < |t| && ScanAt(t, i) ensures DigitsAt(t, i) in MatchesIn(s) {
      SameMatch(s, a, t, i);
      MatchIntro(s, a + i);
    }
  }

  lemma {:induction false} SpacesStand(n: nat, t: string)
    ensures Stands(Spaces(n) + t, n, t)
    ensures forall i :: 0 <= i < n ==> (Spaces(n) + t)[i] == ' '
  {
  }

  lemma {:induction false} NoMatchAtSpace(s: string, i: nat)
    requires i < |s| && s[i] == ' '
    ensures !ScanAt(s, i)
  {
  }

  /** Leading spaces add no match and hide none. */
  lemma {:induction false} SpacedMatches(n: nat, t: string)
    ensures MatchesIn(Spaces(n) + t) == MatchesIn(t)
  {
    hide ScanAt, Stands;
    var s := Spaces(n) + t;
    SpacesStand(n, t);
    PartMatches(s, n, t);
    forall i | 0 <= i < |s| && ScanAt(s, i) ensures DigitsAt(s, i) in MatchesIn(t) {
      if i < n {
        NoMatchAtSpace(s, i);
      } else {
        SameMatch(s, n, t, i - n);
        MatchIntro(t, i - n);
      }
    }
  }

  /** A carriage return at the end of a line is part of no match. */
  lemma {:induction false} DropCRMatches(line: string)
    ensures MatchesIn(DropCR(line)) == MatchesIn(line)
  {
    hide DigitsEnd, IsWord;
    var t := DropCR(line);
    PartMatches(line, 0, t) by {
      assert Stands(line, 0, t);
    }
    forall i | 0 <= i < |line| && ScanAt(line, i) ensures DigitsAt(line, i) in MatchesIn(t) {
      if t != line {
        assert line[|line| - 1] == '\r' && !IsDigit('\r');
        assert DigitStart(line, i) < |t|;
        assert ScanAt(t, i);
        SameMatch(line, 0, t, i);
      }
      MatchIntro(t, i);
    }
  }

  // ---------------------------------------------------------------------------------------------
  // Comments
  // ---------------------------------------------------------------------------------------------

  lemma {:induction false} TrimSpaced(n: nat, t: string)
    ensures TrimSpace(Spaces(n) + t) == TrimSpace(t)
  {
    if n == 0 {
      assert Spaces(0) + t == t;
    } else {
      assert (Spaces(n) + t)[1..] == Spaces(n - 1) + t;
      assert IsSpace(' ');
      TrimSpaced(n - 1, t);
    }
  }

  lemma {:induction false} TrimTrailing(t: string, c: char)
    requires IsSpace(c)
    ensures TrimSpace(t + [c]) == TrimSpace(t)
  {
    var s := t + [c];
    if t == "" {
      assert s[1..] == "";
    } else if IsSpace(t[0]) {
      assert s[1..] == t[1..] + [c];
      TrimTrailing(t[1..], c);
    } else {
      assert s[..|s| - 1] == t;
    }
  }

  lemma {:induction false} TrimDropCR(line: string)
    ensures TrimSpace(DropCR(line)) == TrimSpace(line)
  {
    if DropCR(line) != line {
      assert line == DropCR(line) + ['\r'];
      assert IsSpace('\r');
      TrimTrailing(DropCR(line), '\r');
    }
  }

  lemma {:induction false} BlankChars(s: string)
    ensures Blank(s) <==> forall i :: 0 <= i < |s| ==> IsSpace(s[i])
  {
    hide IsSpace;
    if s != "" {
      if IsSpace(s[0]) {
        BlankChars(s[1..]);
        assert forall i :: 0 < i < |s| ==> s[i] == s[1..][i - 1];
      } else {
        TrimSpaceNonSpaceFirst(s);
      }
    }
  }

  ghost predicate AllInactive(ls: seq<string>) {
    forall i :: 0 <= i < |ls| ==> !Active(ls[i])
  }

  lemma {:induction false} InactiveMatches(ls: seq<string>)
    requires AllInactive(ls)
    ensures ActiveMatches(ls) == {}
  {
    hide Active;
  }

  /** Wherever a blank line is broken, its pieces are blank. */
  lemma {:induction false} PiecesOfBlank(s: string)
    requires forall i :: 0 <= i < |s| ==> IsSpace(s[i])
    ensures AllInactive(YamlLines(s))
  {
    hide IsSpace, Active;
    forall k | 0 <= k < |YamlLines(s)| ensures !Active(YamlLines(s)[k]) {
      PieceOfSpaces(s, k);
      BlankIsInactive(YamlLines(s)[k]);
    }
  }

  lemma {:induction false} PieceOfSpaces(s: string, k: nat)
    requires k < |YamlLines(s)| && forall i :: 0 <= i < |s| ==> IsSpace(s[i])
    ensures forall i :: 0 <= i < |YamlLines(s)[k]| ==> IsSpace(YamlLines(s)[k][i])
  {
    hide IsSpace;
    if s != "" {
      if s[0] == '\r' && |s| > 1 && s[1] == '\n' {
        if k > 0 {
          PieceOfSpaces(s[2..], k - 1);
        }
      } else if s[0] == '\n' || s[0] == '\r' {
        if k > 0 {
          PieceOfSpaces(s[1..], k - 1);
        }
      } else {
        PieceOfSpaces(s[1..], k);
      }
    }
  }

  lemma {:induction false} BlankIsInactive(s: string)
    requires forall i :: 0 <= i < |s| ==> IsSpace(s[i])
    ensures !Active(s)
  {
    BlankChars(s);
  }

  // ---------------------------------------------------------------------------------------------
  // One line
  // ---------------------------------------------------------------------------------------------

  lemma {:induction false} SameShown(a: string, b: string)
    requires (Active(a) <==> Active(b)) && (Active(a) ==> MatchesIn(a) == MatchesIn(b))
    ensures ActiveMatches([a]) == ActiveMatches([b])
  {
    ActiveMatchesOne(a);
    ActiveMatchesOne(b);
  }

  lemma {:induction false} YamlSpaced(n: nat, t: string)
    ensures YamlLines(Spaces(n) + t) == [Spaces(n) + YamlLines(t)[0]] + YamlLines(t)[1..]
  {
    hide YamlLines;
    if n == 0 {
      assert Spaces(0) + t == t && Spaces(0) + YamlLines(t)[0] == YamlLines(t)[0];
    } else {
      YamlSpaced(n - 1, t);
      assert Spaces(n) + t == [' '] + (Spaces(n - 1) + t);
      YamlNext(' ', Spaces(n - 1) + t);
      assert [' '] + (Spaces(n - 1) + YamlLines(t)[0]) == Spaces(n) + YamlLines(t)[0];
    }
  }

  /** Leading spaces change nothing that the scanner sees. */
  lemma {:induction false} SpacedShows(n: nat, t: string)
    ensures ActiveMatches(YamlLines(Spaces(n) + t)) == ActiveMatches(YamlLines(t))
  {
    hide Active, MatchesIn, YamlLines, ActiveMatches;
    var ys := YamlLines(t);
    YamlSpaced(n, t);
    TrimSpaced(n, ys[0]);
    SpacedMatches(n, ys[0]);
    SameActive(Spaces(n) + ys[0], ys[0]);
    SameShown(Spaces(n) + ys[0], ys[0]);
    ActiveMatchesConcat([Spaces(n) + ys[0]], ys[1..]);
    ActiveMatchesConcat([ys[0]], ys[1..]);
    assert ys == [ys[0]] + ys[1..];
  }

  lemma {:induction false} SameActive(a: string, b: string)
    requires TrimSpace(a) == TrimSpace(b)
    ensures Active(a) <==> Active(b)
  {
  }

  /** Indenting a line changes nothing that the scanner sees in it. */
  lemma {:induction false} PrintedShows(l: string, n: nat)
    ensures ActiveMatches(YamlLines(DropCR(IndentLine(l, n)))) == ActiveMatches(YamlLines(DropCR(l)))
  {
    assert IsSpace(' ');
    hide YamlLines, ActiveMatches, IsSpace;
    if Blank(l) {
      BlankChars(l);
      PiecesOfBlank(DropCR(l));
      PiecesOfBlank(DropCR(Spaces(n)));
      InactiveMatches(YamlLines(DropCR(l)));
      InactiveMatches(YamlLines(DropCR(Spaces(n))));
    } else {
      assert l != "";
      assert DropCR(Spaces(n) + l) == Spaces(n) + DropCR(l);
      SpacedShows(n, DropCR(l));
    }
  }

  lemma {:induction false} PrintedLinesShow(ls: seq<string>, n: nat)
    ensures ActiveMatches(Broken(IndentLines(ls, n))) == ActiveMatches(Broken(ls))
  {
    hide ActiveMatches, IndentLine, DropCR, YamlLines;
    if |ls| > 0 {
      var k := |ls| - 1;
      PrintedLinesShow(ls[..k], n);
      PrintedShows(ls[k], n);
      assert IndentLines(ls, n)[..k] == IndentLines(ls[..k], n);
      ActiveMatchesConcat(Broken(ls[..k]), YamlLines(DropCR(ls[k])));
      ActiveMatchesConcat(Broken(IndentLines(ls, n)[..k]), YamlLines(DropCR(IndentLine(ls[k], n))));
    } else {
      assert IndentLines(ls, n) == ls;
    }
  }

  /** Content is what is left of a line behind m spaces, and shows the same. */
  lemma {:induction false} ContentShows(y: string, m: nat)
    requires EmptyLine(y) || LeadingSpaces(y) >= m
    ensures ActiveMatches([if |y| >= m then y[m..] else ""]) == ActiveMatches([y])
  {
    hide ActiveMatches, MatchesIn;
    var c := if |y| >= m then y[m..] else "";
    if |y| >= m {
      assert LeadingSpaces(y) >= m;
      assert y == Spaces(m) + c;
      TrimSpaced(m, c);
      SpacedMatches(m, c);
    } else {
      EmptyLineIsBlank(y);
    }
    SameShown(c, y);
  }

  ghost predicate Within(ys: seq<string>, m: nat) {
    forall i :: 0 <= i < |ys| ==> EmptyLine(ys[i]) || LeadingSpaces(ys[i]) >= m
  }

  lemma {:induction false} ContentsShow(ys: seq<string>, m: nat)
    requires Within(ys, m)
    ensures ActiveMatches(Contents(ys, m)) == ActiveMatches(ys)
  {
    hide ActiveMatches, EmptyLine;
    if |ys| == 0 {
      assert Contents(ys, m) == ys;
    } else {
      var n := |ys| - 1;
      ContentsShow(ys[..n], m);
      ContentShows(ys[n], m);
      ActiveMatchesConcat(ys[..n], [ys[n]]);
      ActiveMatchesConcat(Contents(ys[..n], m), [if |ys[n]| >= m then ys[n][m..] else ""]);
      assert ys == ys[..n] + [ys[n]];
      assert Contents(ys, m) == Contents(ys[..n], m) + [if |ys[n]| >= m then ys[n][m..] else ""];
    }
  }

  // ---------------------------------------------------------------------------------------------
  // The whole text
  // ---------------------------------------------------------------------------------------------

  /** Clipping changes the active lines of the content as little as reading them again. */
  lemma {:induction false} ClipMatches(cs: seq<string>)
    requires AreLines(cs)
    ensures ActiveMatches(Lines(Clip(cs))) == ActiveMatches(cs)
  {
    hide Active, Lines, Clip;
    ClipKeepsActive(cs);
    ActiveLinesDecide(Lines(Clip(cs)), cs);
    ActiveLinesDecide(cs, Lines(Clip(cs)));
  }

  lemma {:induction false} ActiveLinesAppend(ls: seq<string>)
    ensures ActiveLines(ls + [""]) == ActiveLines(ls)
  {
    assert !Active("");
    assert forall l :: l in ls + [""] <==> l in ls || l == "";
  }

  lemma {:induction false} NoActiveLines()
    ensures Lines("") == [""] && ActiveLines([""]) == {} == ActiveLines([])
  {
    assert !Active("");
  }

  lemma {:induction false} ClipKeepsActive(cs: seq<string>)
    requires AreLines(cs)
    ensures ActiveLines(Lines(Clip(cs))) == ActiveLines(cs)
  {
    hide Active, ActiveLines, Lines, Join;
    if |cs| == 0 {
      NoActiveLines();
    } else if cs[|cs| - 1] == "" {
      var n := |cs| - 1;
      ClipKeepsActive(cs[..n]);
      ActiveLinesAppend(cs[..n]);
      assert cs == cs[..n] + [""];
    } else {
      LinesJoin(cs);
      LinesConcat(Join(cs), "");
      assert Join(cs) + "\n" + "" == Join(cs) + "\n";
      NoActiveLines();
      ActiveLinesAppend(cs);
    }
  }

  lemma {:induction false} ContentsAreLines(ys: seq<string>, m: nat)
    requires AreLines(ys)
    ensures AreLines(Contents(ys, m))
  {
    forall i | 0 <= i < |ys| ensures IsLine(Contents(ys, m)[i]) {
      assert IsLine(ys[i]);
    }
  }

  lemma {:induction false} EmptyLinesShow(ys: seq<string>)
    requires forall i :: 0 <= i < |ys| ==> EmptyLine(ys[i])
    ensures ActiveMatches(ys) == {} == ActiveMatches(Lines(""))
  {
    forall i | 0 <= i < |ys| ensures !Active(ys[i]) {
      EmptyLineIsBlank(ys[i]);
    }
    InactiveMatches(ys);
    assert Lines("") == [""] && AllInactive([""]);
    InactiveMatches([""]);
  }

  /** A literal that takes all lines shows what they show. */
  lemma {:induction false} LiteralShows(ys: seq<string>, parent: nat, rules: string)
    requires AreLines(ys) && ReadLiteral(parent, ys) == Some((rules, []))
    ensures ActiveMatches(Lines(rules)) == ActiveMatches(ys)
  {
    hide Active, Lines, Clip, ActiveMatches, EmptyLine;
    var f := FirstNonEmpty(ys);
    if f == |ys| || LeadingSpaces(ys[f]) <= parent {
      assert ys[f..] == [];
      assert f == |ys|;
      EmptyLinesShow(ys);
    } else {
      var m := LeadingSpaces(ys[f]);
      assert BodyLength(ys, m) == |ys| && ys[..|ys|] == ys;
      ContentsShow(ys, m);
      ContentsAreLines(ys, m);
      ClipMatches(Contents(ys, m));
    }
  }

  lemma {:induction false} LastInactive(ls: seq<string>)
    ensures ActiveMatches(ls + [""]) == ActiveMatches(ls)
  {
    ActiveMatchesConcat(ls, [""]);
    assert !Active("");
    ActiveMatchesOne("");
  }

  lemma {:induction false} YamlIDsOfLines(text: string)
    ensures YamlIDs(text) == Numbers(ActiveMatches(Broken(Lines(text))))
  {
    hide Lines, YamlLines, Terminated, ActiveMatches, Numbers, Broken;
    JoinLines(text);
    TerminatedIsJoin(Lines(text));
    YamlOfTerminated(Lines(text));
    LastInactive(Broken(Lines(text)));
  }

  lemma {:induction false} IndentedAreLines(ls: seq<string>, n: nat)
    requires AreLines(ls)
    ensures AreLines(IndentLines(ls, n))
  {
    forall i | 0 <= i < |ls| ensures IsLine(IndentLine(ls[i], n)) {
      assert IsLine(ls[i]) && ' ' != '\n';
    }
  }

  /** The rule IDs in what a YAML reader makes of a RuleSource are those on the lines that it sees in the printed
      rules. */
  lemma {:induction false} ReadBackExactly(text: string, rules: string)
    requires ReadLast(2, Indented(text, 4) + "\n") == Some(rules)
    ensures ActiveIDs(rules) == YamlIDs(text)
  {
    hide ReadLiteral, Lines, YamlLines, YamlIDs, Terminated, ActiveMatches, Numbers, Broken;
    var ls := IndentLines(Lines(text), 4);
    IndentedAreLines(Lines(text), 4);
    TerminatedIsJoin(ls);
    YamlOfTerminated(ls);
    assert (Broken(ls) + [""])[..|Broken(ls)|] == Broken(ls);
    BrokenAreLines(ls);
    LiteralShows(Broken(ls), 2, rules);
    PrintedLinesShow(Lines(text), 4);
    YamlIDsOfLines(text);
  }

  // ---------------------------------------------------------------------------------------------
  // Carriage returns in line ends, and in comments
  // ---------------------------------------------------------------------------------------------

  lemma {:induction false} EndedLine(l: string)
    requires IsLine(l) && CRAtEnd(l)
    ensures YamlLines(DropCR(l)) == [DropCR(l)]
  {
    YamlOfPlain(DropCR(l));
  }

  /** In line ends carriage returns do no harm. */
  lemma {:induction false} EndedLinesShow(ls: seq<string>)
    requires AreLines(ls) && CRsEndLines(ls)
    ensures ActiveMatches(Broken(ls)) == ActiveMatches(ls)
  {
    hide ActiveMatches, DropCR, YamlLines, CRAtEnd, MatchesIn;
    if |ls| > 0 {
      var k := |ls| - 1;
      EndedLinesShow(ls[..k]);
      EndedLine(ls[k]);
      TrimDropCR(ls[k]);
      SameActive(DropCR(ls[k]), ls[k]);
      DropCRMatches(ls[k]);
      SameShown(DropCR(ls[k]), ls[k]);
      ActiveMatchesConcat(Broken(ls[..k]), [DropCR(ls[k])]);
      ActiveMatchesConcat(ls[..k], [ls[k]]);
      assert ls == ls[..k] + [ls[k]];
    } else {
      assert Broken(ls) == ls;
    }
  }

  /** If all carriage returns of the rules end lines, then the IDs that come back are those that were printed. */
  lemma {:induction false} ReadBackAddsNothing(text: string, rules: string)
    requires CRsEndLines(Lines(text)) && ReadLast(2, Indented(text, 4) + "\n") == Some(rules)
    ensures ActiveIDs(rules) == ActiveIDs(text)
  {
    hide ReadLast, Lines, YamlIDs, Indented, ActiveMatches, Broken, CRsEndLines;
    ReadBackExactly(text, rules);
    YamlIDsOfLines(text);
    EndedLinesShow(Lines(text));
  }

  lemma {:induction false} BrokenOffParts(a: string, b: string)
    ensures var s := a + "\r" + b; Stands(s, 0, a) && Stands(s, |a| + 1, b)
  {
  }

  /** No match crosses a place where a line is broken: every match in a piece is one in the line. */
  lemma {:induction false} PiecesAddNothing(s: string)
    requires IsLine(s)
    ensures ActiveMatches(YamlLines(s)) <= MatchesIn(s)
  {
    hide YamlLines, ActiveMatches, MatchesIn, Stands, Active;
    var n := FirstIndex(s, '\r');
    if n == |s| {
      YamlOfPlain(s);
      ActiveMatchesOne(s);
    } else {
      var a, b := s[..n], s[n + 1..];
      assert s == a + "\r" + b;
      assert b != "" ==> b[0] == s[n + 1] && s[n + 1] in s;
      PiecesAddNothing(b);
      YamlBreaksAtCR(a, b);
      ActiveMatchesConcat([a], YamlLines(b));
      ActiveMatchesOne(a);
      BrokenOffParts(a, b);
      PartMatches(s, 0, a);
      PartMatches(s, n + 1, b);
    }
  }

  /** The IDs that come to light when a YAML reader breaks this comment line. */
  function Revealed(l: string): set<nat> {
    if Active(l) then {} else Numbers(ActiveMatches(YamlLines(DropCR(l))))
  }

  lemma {:induction false} NumbersMonotone(a: set<string>, b: set<string>)
    requires a <= b
    ensures Numbers(a) <= Numbers(b)
  {
  }

  /** What the reader sees of one line: nothing but the IDs that stood there, and those revealed by breaking a
      comment. */
  lemma {:induction false} LineAsRead(l: string)
    requires IsLine(l)
    ensures Revealed(l) <= Numbers(ActiveMatches(YamlLines(DropCR(l)))) <= Numbers(ActiveMatches([l])) + Revealed(l)
  {
    hide YamlLines, ActiveMatches, MatchesIn, Numbers, Active;
    if Active(l) {
      PiecesAddNothing(DropCR(l));
      DropCRMatches(l);
      ActiveMatchesOne(l);
      NumbersMonotone(ActiveMatches(YamlLines(DropCR(l))), MatchesIn(l));
    }
  }

  /** Carriage returns never add an ID to an active line; all that is new comes out of comments. */
  lemma {:induction false} LinesAsRead(ls: seq<string>, n: nat)
    requires AreLines(ls)
    ensures n in Numbers(ActiveMatches(Broken(ls))) ==>
              n in Numbers(ActiveMatches(ls)) || exists i :: 0 <= i < |ls| && n in Revealed(ls[i])
    ensures (exists i :: 0 <= i < |ls| && n in Revealed(ls[i])) ==> n in Numbers(ActiveMatches(Broken(ls)))
  {
    hide YamlLines, ActiveMatches, Numbers, Active, DropCR, Revealed;
    if |ls| == 0 {
      assert Broken(ls) == ls;
    } else {
      var k := |ls| - 1;
      var before := ls[..k];
      LinesAsRead(before, n);
      LineAsRead(ls[k]);
      ActiveMatchesConcat(Broken(before), YamlLines(DropCR(ls[k])));
      NumbersUnion(ActiveMatches(Broken(before)), ActiveMatches(YamlLines(DropCR(ls[k]))));
      ActiveMatchesConcat(before, [ls[k]]);
      NumbersUnion(ActiveMatches(before), ActiveMatches([ls[k]]));
      assert ls == before + [ls[k]];
      assert forall i :: 0 <= i < k ==> before[i] == ls[i];
    }
  }

  lemma {:induction false} EndedLineRevealsNothing(l: string)
    requires IsLine(l) && CRAtEnd(l)
    ensures Revealed(l) == {}
  {
    if !Active(l) {
      EndedLine(l);
      TrimDropCR(l);
      ActiveMatchesOne(DropCR(l));
    }
  }

  // ---------------------------------------------------------------------------------------------
  // When a document can be read at all
  // ---------------------------------------------------------------------------------------------

  lemma {:induction false} EndedBroken(ls: seq<string>)
    requires AreLines(ls) && CRsEndLines(ls)
    ensures |Broken(ls)| == |ls| && forall i :: 0 <= i < |ls| ==> Broken(ls)[i] == DropCR(ls[i])
  {
    hide YamlLines, DropCR, CRAtEnd;
    if |ls| > 0 {
      EndedBroken(ls[..|ls| - 1]);
      EndedLine(ls[|ls| - 1]);
    }
  }

  lemma {:induction false} IndentedEnds(ls: seq<string>, n: nat)
    requires CRsEndLines(ls)
    ensures CRsEndLines(IndentLines(ls, n))
  {
    forall i | 0 <= i < |ls| ensures CRAtEnd(IndentLine(ls[i], n)) {
      assert CRAtEnd(ls[i]) && ' ' != '\r';
    }
  }

  lemma {:induction false} PrintedShape(l: string, n: nat)
    ensures var y := DropCR(IndentLine(l, n));
            && (EmptyLine(y) <==> Blank(l)) && (Blank(l) ==> |y| == n)
            && (!Blank(l) ==> LeadingSpaces(y) == n + LeadingSpaces(l))
  {
    var t := IndentLine(l, n);
    IndentedShape(l, n);
    LeadingSpacesOfPart(t, DropCR(t));
    if !Blank(l) && EmptyLine(DropCR(t)) {
      EmptyLineIsBlank(DropCR(t));
      TrimDropCR(t);
      TrimSpaced(n, l);
    }
  }

  lemma {:induction false} LeadingSpacesOfPart(s: string, t: string)
    requires t == DropCR(s)
    ensures LeadingSpaces(t) == LeadingSpaces(s)
  {
    LeadingSpacesExact(t, LeadingSpaces(s));
  }

  /** No line starts further left than the first line of content. */
  ghost predicate NeverDedents(L: seq<string>) {
    forall f: nat, i: nat :: FirstContent(L, f) && f < i < |L| && !Blank(L[i]) ==>
      LeadingSpaces(L[i]) >= LeadingSpaces(L[f])
  }

  lemma {:induction false} BodyIsAll(ys: seq<string>, m: nat)
    ensures BodyLength(ys, m) == |ys| <==> Within(ys, m)
  {
    var n := BodyLength(ys, m);
  }

  /** When a YAML reader can make anything of a printed RuleSource with line ends of either kind: exactly if the rules
      start as far left as they go on. */
  lemma {:induction false} ReadableExactly(text: string)
    requires CRsEndLines(Lines(text))
    ensures ReadLast(2, Indented(text, 4) + "\n").Some? <==> NeverDedents(Lines(text))
  {
    hide Lines, YamlLines, Terminated, Broken, Blank, IndentLine, DropCR, EmptyLine, Clip, Contents, CRAtEnd;
    var L := Lines(text);
    var ls := IndentLines(L, 4);
    IndentedAreLines(L, 4);
    IndentedEnds(L, 4);
    TerminatedIsJoin(ls);
    YamlOfTerminated(ls);
    assert (Broken(ls) + [""])[..|Broken(ls)|] == Broken(ls);
    EndedBroken(ls);
    LinesReadable(L, Broken(ls));
  }

  lemma {:induction false} FirstContentOnly(L: seq<string>, f: nat)
    requires f < |L| && !Blank(L[f]) && forall i :: 0 <= i < f ==> Blank(L[i])
    ensures FirstContent(L, f) && forall g: nat :: FirstContent(L, g) ==> g == f
  {
    hide Blank;
  }

  lemma {:induction false} WithinOfPrinted(L: seq<string>, ys: seq<string>, f: nat, m: nat)
    requires FirstContent(L, f) && (forall g: nat :: FirstContent(L, g) ==> g == f) && |ys| == |L|
    requires forall i :: 0 <= i < |L| ==> (EmptyLine(ys[i]) <==> Blank(L[i]))
    requires forall i :: 0 <= i < |L| && !Blank(L[i]) ==> LeadingSpaces(ys[i]) == 4 + LeadingSpaces(L[i])
    requires m == LeadingSpaces(ys[f])
    ensures Within(ys, m) <==> NeverDedents(L)
  {
    hide Blank, EmptyLine;
    if NeverDedents(L) {
      forall i | 0 <= i < |ys| ensures EmptyLine(ys[i]) || LeadingSpaces(ys[i]) >= m {
        assert i < f ==> Blank(L[i]);
      }
    }
  }

  lemma {:induction false} LinesReadable(L: seq<string>, ys: seq<string>)
    requires |ys| == |L| && forall i :: 0 <= i < |L| ==> ys[i] == DropCR(IndentLine(L[i], 4))
    ensures (exists rules :: ReadLiteral(2, ys) == Some((rules, []))) <==> NeverDedents(L)
  {
    hide Blank, IndentLine, DropCR, EmptyLine, Clip, Contents;
    forall i | 0 <= i < |L|
      ensures (EmptyLine(ys[i]) <==> Blank(L[i])) && (Blank(L[i]) ==> |ys[i]| == 4)
      ensures !Blank(L[i]) ==> LeadingSpaces(ys[i]) == 4 + LeadingSpaces(L[i])
    {
      PrintedShape(L[i], 4);
    }
    var f := FirstNonEmpty(ys);
    if f == |L| {
      assert |ys[f..]| == 0;
      assert ReadLiteral(2, ys) == Some(("", []));
      assert forall g: nat :: g < |L| ==> Blank(L[g]);
    } else {
      var m := LeadingSpaces(ys[f]);
      BodyIsAll(ys, m);
      FirstContentOnly(L, f);
      assert Within(ys, m) <==> NeverDedents(L) by {
        WithinOfPrinted(L, ys, f, m);
      }
      var n := BodyLength(ys, m);
      assert ys[n..] == [] <==> n == |ys|;
      assert ReadLiteral(2, ys) == Some((Clip(Contents(ys[..n], m)), ys[n..]));
    }
  }
}
