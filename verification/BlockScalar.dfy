/** tools/corerulesetgen/render.go: writing text as YAML literal block scalars, and what a YAML reader makes of them
    (sections 8.1.1.1, 8.1.1.2 and 8.1.2 of YAML 1.2.2). */
module BlockScalar {
  import opened Text

  // ---------------------------------------------------------------------------------------------
  // Writing
  // ---------------------------------------------------------------------------------------------

  predicate Blank(line: string) {
    TrimSpace(line) == ""
  }

  function Spaces(n: nat): string {
    seq(n, _ => ' ')
  }

  function IndentLine(line: string, n: nat): string {
    if Blank(line) then Spaces(n) else Spaces(n) + line
  }

  function IndentLines(ls: seq<string>, n: nat): seq<string> {
    seq(|ls|, i requires 0 <= i < |ls| => IndentLine(ls[i], n))
  }

  /** What indentMultiline returns. */
  function Indented(text: string, n: nat): string {
    Join(IndentLines(Lines(text), n))
  }

  function Terminated(ls: seq<string>): string {
    if |ls| == 0 then "" else Terminated(ls[..|ls| - 1]) + (ls[|ls| - 1] + "\n")
  }

  lemma {:induction false} TerminatedConcat(a: seq<string>, b: seq<string>)
    ensures Terminated(a + b) == Terminated(a) + Terminated(b)
  {
    if |b| == 0 {
      assert a + b == a;
    } else {
      TerminatedConcat(a, b[..|b| - 1]);
      assert (a + b)[..|a + b| - 1] == a + b[..|b| - 1];
    }
  }

  lemma {:induction false} TerminatedIsJoin(ls: seq<string>)
    requires |ls| > 0
    ensures Terminated(ls) == Join(ls) + "\n"
  {
    assert ls == [ls[0]] + ls[1..];
    TerminatedConcat([ls[0]], ls[1..]);
    assert [ls[0]][..0] == [];
    assert Terminated([ls[0]]) == "" + (ls[0] + "\n") == ls[0] + "\n";
    if |ls| > 1 {
      TerminatedIsJoin(ls[1..]);
    } else {
      assert ls[1..] == [];
    }
  }

  /** strings.TrimSuffix(s, "\n"). */
  function TrimNewline(s: string): string {
    if HasSuffix(s, "\n") then s[..|s| - 1] else s
  }

  /** indentMultiline. */
  method IndentMultiline(processed: string, indent: nat) returns (r: string)
    ensures r == Indented(processed, indent)
  {
    var prefix := Spaces(indent);
    var lines := Lines(processed);
    ghost var out := IndentLines(lines, indent);
    var b := "";
    for i := 0 to |lines|
      invariant b == Terminated(out[..i])
    {
      assert out[..i + 1][..i] == out[..i];
      if TrimSpace(lines[i]) == "" {
        b := b + (prefix + "\n");
      } else {
        b := b + (prefix + lines[i] + "\n");
        assert prefix + lines[i] + "\n" == out[i] + "\n";
      }
    }
    assert out[..|lines|] == out;
    TerminatedIsJoin(out);
    assert b[|b| - 1..] == "\n";
    r := TrimNewline(b);
  }

  // ---------------------------------------------------------------------------------------------
  // Reading
  // ---------------------------------------------------------------------------------------------

  function LeadingSpaces(line: string): (n: nat)
    ensures n <= |line|
    ensures forall i :: 0 <= i < n ==> line[i] == ' '
    ensures n < |line| ==> line[n] != ' '
  {
    if line != "" && line[0] == ' ' then 1 + LeadingSpaces(line[1..]) else 0
  }

  /** A line of nothing but spaces. */
  predicate EmptyLine(line: string) {
    LeadingSpaces(line) == |line|
  }

  function FirstNonEmpty(ls: seq<string>): (n: nat)
    ensures n <= |ls|
    ensures forall i :: 0 <= i < n ==> EmptyLine(ls[i])
    ensures n < |ls| ==> !EmptyLine(ls[n])
  {
    if |ls| > 0 && EmptyLine(ls[0]) then 1 + FirstNonEmpty(ls[1..]) else 0
  }

  /** How many lines belong to a scalar whose content is indented by m. */
  function BodyLength(ls: seq<string>, m: nat): (n: nat)
    ensures n <= |ls|
    ensures forall i :: 0 <= i < n ==> EmptyLine(ls[i]) || LeadingSpaces(ls[i]) >= m
    ensures n < |ls| ==> !EmptyLine(ls[n]) && LeadingSpaces(ls[n]) < m
  {
    if |ls| > 0 && (EmptyLine(ls[0]) || LeadingSpaces(ls[0]) >= m) then 1 + BodyLength(ls[1..], m) else 0
  }

  function Contents(ls: seq<string>, m: nat): seq<string> {
    seq(|ls|, i requires 0 <= i < |ls| => if |ls[i]| >= m then ls[i][m..] else "")
  }

  /** Clip chomping: trailing empty lines go, one final line break stays if there is any content. */
  function Clip(cs: seq<string>): string {
    if |cs| == 0 then ""
    else if cs[|cs| - 1] == "" then Clip(cs[..|cs| - 1])
    else Join(cs) + "\n"
  }

  /** Reads a literal scalar below a key at column parent: its value and the lines after it.
      None is the error of a leading empty line that is indented further than the content. */
  function ReadLiteral(parent: nat, ls: seq<string>): Option<(string, seq<string>)> {
    var f := FirstNonEmpty(ls);
    if f == |ls| || LeadingSpaces(ls[f]) <= parent then Some(("", ls[f..]))
    else
      var m := LeadingSpaces(ls[f]);
      if exists i :: 0 <= i < f && |ls[i]| > m then None
      else
        var n := BodyLength(ls, m);
        Some((Clip(Contents(ls[..n], m)), ls[n..]))
  }

  // ---------------------------------------------------------------------------------------------
  // Round trip
  // ---------------------------------------------------------------------------------------------

  function Emptied(ls: seq<string>): seq<string> {
    seq(|ls|, i requires 0 <= i < |ls| => if Blank(ls[i]) then "" else ls[i])
  }

  /** The text with its whitespace-only lines emptied and its trailing newlines clipped to one. */
  function Normalized(text: string): string {
    Clip(Emptied(Lines(text)))
  }

  function FirstNonBlank(ls: seq<string>): (n: nat)
    ensures n <= |ls|
    ensures forall i :: 0 <= i < n ==> Blank(ls[i])
    ensures n < |ls| ==> !Blank(ls[n])
  {
    if |ls| > 0 && Blank(ls[0]) then 1 + FirstNonBlank(ls[1..]) else 0
  }

  /** The text is blank, or its first non-blank line does not start with a space. */
  predicate StartsFlush(text: string) {
    var ls := Lines(text);
    var f := FirstNonBlank(ls);
    f == |ls| || ls[f] == "" || ls[f][0] != ' '
  }

  /** Lines that end a scalar whose key stands at column parent. */
  predicate Dedented(parent: nat, rest: seq<string>) {
    rest == [] || (!EmptyLine(rest[0]) && LeadingSpaces(rest[0]) <= parent)
  }

  lemma {:induction false} EmptyLineIsBlank(line: string)
    requires EmptyLine(line)
    ensures Blank(line)
  {
    if line != "" {
      assert line[0] == ' ';
      EmptyLineIsBlank(line[1..]);
    }
  }

  lemma {:induction false} LeadingSpacesExact(line: string, n: nat)
    requires n <= |line| && (forall i :: 0 <= i < n ==> line[i] == ' ') && (n < |line| ==> line[n] != ' ')
    ensures LeadingSpaces(line) == n
  {
  }

  lemma {:induction false} IndentedShape(line: string, n: nat)
    ensures Blank(line) ==> EmptyLine(IndentLine(line, n)) && |IndentLine(line, n)| == n
    ensures !Blank(line) ==>
            !EmptyLine(IndentLine(line, n)) && LeadingSpaces(IndentLine(line, n)) == n + LeadingSpaces(line)
    ensures |IndentLine(line, n)| >= n && IndentLine(line, n)[n..] == if Blank(line) then "" else line
  {
    if Blank(line) {
      LeadingSpacesExact(Spaces(n), n);
    } else {
      var t := Spaces(n) + line;
      var k := LeadingSpaces(line);
      assert forall i :: n <= i < n + k ==> t[i] == line[i - n];
      LeadingSpacesExact(t, n + k);
      if EmptyLine(line) {
        EmptyLineIsBlank(line);
      }
    }
  }

  lemma {:induction false} FirstNonEmptyExact(ls: seq<string>, n: nat)
    requires n <= |ls| && (forall i :: 0 <= i < n ==> EmptyLine(ls[i])) && (n < |ls| ==> !EmptyLine(ls[n]))
    ensures FirstNonEmpty(ls) == n
  {
    var m := FirstNonEmpty(ls);
  }

  lemma {:induction false} BodyLengthExact(ls: seq<string>, m: nat, n: nat)
    requires n <= |ls| && (forall i :: 0 <= i < n ==> EmptyLine(ls[i]) || LeadingSpaces(ls[i]) >= m)
    requires n < |ls| ==> !EmptyLine(ls[n]) && LeadingSpaces(ls[n]) < m
    ensures BodyLength(ls, m) == n
  {
    var b := BodyLength(ls, m);
  }

  /** f is the first line that is not blank. */
  ghost predicate FirstContent(L: seq<string>, f: nat) {
    f < |L| && !Blank(L[f]) && forall i :: 0 <= i < f ==> Blank(L[i])
  }

  ghost predicate AllBlank(L: seq<string>) {
    forall i :: 0 <= i < |L| ==> Blank(L[i])
  }

  lemma {:induction false} FirstContentIs(L: seq<string>)
    ensures var f := FirstNonBlank(L); if f < |L| then FirstContent(L, f) else AllBlank(L)
  {
  }

  lemma {:induction false} IndentedFirst(L: seq<string>, f: nat, n: nat, rest: seq<string>, parent: nat)
    requires Dedented(parent, rest) && (FirstContent(L, f) || (f == |L| && AllBlank(L)))
    ensures FirstNonEmpty(IndentLines(L, n) + rest) == f
  {
    var ls := IndentLines(L, n) + rest;
    forall i | 0 <= i < |L| ensures ls[i] == IndentLine(L[i], n) && (EmptyLine(ls[i]) <==> Blank(L[i])) {
      IndentedShape(L[i], n);
    }
    FirstNonEmptyExact(ls, f);
  }

  lemma {:induction false} ContentsOfIndented(L: seq<string>, n: nat)
    ensures Contents(IndentLines(L, n), n) == Emptied(L)
  {
    forall i | 0 <= i < |L|
      ensures |IndentLines(L, n)[i]| >= n && IndentLines(L, n)[i][n..] == if Blank(L[i]) then "" else L[i]
    {
      IndentedShape(L[i], n);
    }
  }

  lemma {:induction false} BodyOfIndented(L: seq<string>, n: nat, rest: seq<string>, parent: nat)
    requires parent < n && Dedented(parent, rest)
    ensures BodyLength(IndentLines(L, n) + rest, n) == |L|
  {
    var ls := IndentLines(L, n) + rest;
    forall i | 0 <= i < |L| ensures EmptyLine(ls[i]) || LeadingSpaces(ls[i]) >= n {
      IndentedShape(L[i], n);
      assert ls[i] == IndentLine(L[i], n);
    }
    assert rest != [] ==> ls[|L|] == rest[0];
    BodyLengthExact(ls, n, |L|);
  }

  lemma {:induction false} NothingBeforeIndented(L: seq<string>, n: nat, i: nat, rest: seq<string>)
    requires i < |L| && Blank(L[i])
    ensures |(IndentLines(L, n) + rest)[i]| == n
  {
    IndentedShape(L[i], n);
  }

  /** A flush text is read back, and the reader stops right behind it. */
  lemma {:induction false} FlushIsRead(L: seq<string>, f: nat, n: nat, rest: seq<string>, parent: nat)
    requires parent < n && Dedented(parent, rest)
    requires FirstContent(L, f) && LeadingSpaces(L[f]) == 0
    ensures ReadLiteral(parent, IndentLines(L, n) + rest) == Some((Clip(Emptied(L)), rest))
  {
    hide Blank, EmptyLine, Emptied, Clip, Contents, FirstNonEmpty, BodyLength;
    var ls := IndentLines(L, n) + rest;
    IndentedFirst(L, f, n, rest, parent);
    IndentedShape(L[f], n);
    assert ls[f] == IndentLine(L[f], n);
    forall i | 0 <= i < f ensures |ls[i]| == n {
      NothingBeforeIndented(L, n, i, rest);
    }
    BodyOfIndented(L, n, rest, parent);
    assert ls[..|L|] == IndentLines(L, n) && ls[|L|..] == rest;
    ContentsOfIndented(L, n);
  }

  lemma {:induction false} ClipBlank(cs: seq<string>)
    requires forall i :: 0 <= i < |cs| ==> cs[i] == ""
    ensures Clip(cs) == ""
  {
    if |cs| > 0 {
      ClipBlank(cs[..|cs| - 1]);
    }
  }

  lemma {:induction false} BlankIsRead(L: seq<string>, n: nat, rest: seq<string>, parent: nat)
    requires parent < n && Dedented(parent, rest) && AllBlank(L)
    ensures ReadLiteral(parent, IndentLines(L, n) + rest) == Some((Clip(Emptied(L)), rest))
  {
    var ls := IndentLines(L, n) + rest;
    IndentedFirst(L, |L|, n, rest, parent);
    assert rest != [] ==> ls[|L|] == rest[0];
    assert ls[|L|..] == rest;
    ClipBlank(Emptied(L));
  }

  /** Behind f empty lines a value starts with f line breaks and then the first character of the next line. */
  lemma {:induction false} ClipStart(cs: seq<string>, f: nat)
    requires f < |cs| && cs[f] != "" && forall i :: 0 <= i < f ==> cs[i] == ""
    ensures f < |Clip(cs)| && Clip(cs)[f] == cs[f][0]
    decreases |cs|
  {
    if cs[|cs| - 1] == "" {
      ClipStart(cs[..|cs| - 1], f);
    } else {
      JoinStart(cs, f);
    }
  }

  lemma {:induction false} JoinStart(cs: seq<string>, f: nat)
    requires f < |cs| && cs[f] != "" && forall i :: 0 <= i < f ==> cs[i] == ""
    ensures f < |Join(cs)| && Join(cs)[f] == cs[f][0]
  {
    if f > 0 {
      JoinStart(cs[1..], f - 1);
      assert Join(cs) == "" + "\n" + Join(cs[1..]);
    }
  }

  /** What a reader gets when the first content line is indented by more than n: it does not start with a space. */
  lemma {:induction false} SpacedValue(ls: seq<string>, f: nat, parent: nat)
    requires f < |ls| && FirstNonEmpty(ls) == f && LeadingSpaces(ls[f]) > parent
    requires forall i :: 0 <= i < f ==> |ls[i]| <= LeadingSpaces(ls[f])
    ensures match ReadLiteral(parent, ls)
            case Some((value, _)) => f < |value| && value[f] != ' '
            case None => true
  {
    var m := LeadingSpaces(ls[f]);
    var b := BodyLength(ls, m);
    BodyReaches(ls, m, f);
    var cs := Contents(ls[..b], m);
    assert cs[f] == ls[f][m..] && ls[f][m] != ' ';
    forall i | 0 <= i < f ensures cs[i] == "" {
      assert ls[..b][i] == ls[i];
    }
    ClipStart(cs, f);
  }

  lemma {:induction false} EmptiedStart(L: seq<string>, f: nat)
    requires FirstContent(L, f) && LeadingSpaces(L[f]) > 0
    ensures f < |Clip(Emptied(L))| && Clip(Emptied(L))[f] == ' '
  {
    assert Emptied(L)[f] == L[f] && L[f][0] == ' ';
    ClipStart(Emptied(L), f);
  }

  lemma {:induction false} SpacedInput(L: seq<string>, f: nat, n: nat, rest: seq<string>, parent: nat)
    requires parent < n && Dedented(parent, rest)
    requires FirstContent(L, f) && LeadingSpaces(L[f]) > 0
    ensures var ls := IndentLines(L, n) + rest;
            FirstNonEmpty(ls) == f && LeadingSpaces(ls[f]) > n && forall i :: 0 <= i < f ==> |ls[i]| == n
  {
    var ls := IndentLines(L, n) + rest;
    IndentedFirst(L, f, n, rest, parent);
    IndentedShape(L[f], n);
    assert ls[f] == IndentLine(L[f], n);
    forall i | 0 <= i < f ensures |ls[i]| == n {
      NothingBeforeIndented(L, n, i, rest);
    }
  }

  /** A text that starts with an indented line loses that indentation. */
  lemma {:induction false} SpacedIsNotRead(L: seq<string>, f: nat, n: nat, rest: seq<string>, parent: nat)
    requires parent < n && Dedented(parent, rest)
    requires FirstContent(L, f) && LeadingSpaces(L[f]) > 0
    ensures ReadLiteral(parent, IndentLines(L, n) + rest) != Some((Clip(Emptied(L)), rest))
  {
    SpacedInput(L, f, n, rest, parent);
    SpacedValue(IndentLines(L, n) + rest, f, parent);
    EmptiedStart(L, f);
  }

  lemma {:induction false} BodyReaches(ls: seq<string>, m: nat, f: nat)
    requires f < |ls| && LeadingSpaces(ls[f]) == m && forall i :: 0 <= i < f ==> EmptyLine(ls[i])
    ensures BodyLength(ls, m) > f
  {
    var b := BodyLength(ls, m);
    assert b < |ls| ==> !EmptyLine(ls[b]) && LeadingSpaces(ls[b]) < m;
  }

  lemma {:induction false} LeadingSpacesFlush(l: string)
    ensures LeadingSpaces(l) == 0 <==> l == "" || l[0] != ' '
  {
  }

  /** Block-scalar round trip, on lines: reading what was written gives the normalized text back exactly when the text
      starts flush. */
  lemma {:induction false} RoundTripExactly(text: string, n: nat, rest: seq<string>, parent: nat)
    requires parent < n && Dedented(parent, rest)
    ensures ReadLiteral(parent, IndentLines(Lines(text), n) + rest) == Some((Normalized(text), rest))
            <==> StartsFlush(text)
  {
    hide ReadLiteral, Blank, IndentLines, Lines;
    var L := Lines(text);
    var f := FirstNonBlank(L);
    FirstContentIs(L);
    if f == |L| {
      BlankIsRead(L, n, rest, parent);
    } else {
      LeadingSpacesFlush(L[f]);
      if LeadingSpaces(L[f]) == 0 {
        FlushIsRead(L, f, n, rest, parent);
      } else {
        SpacedIsNotRead(L, f, n, rest, parent);
      }
    }
  }

  // ---------------------------------------------------------------------------------------------
  // Whole documents
  // ---------------------------------------------------------------------------------------------

  /** The lines of a YAML stream: LF, CR and CR LF all end a line. */
  function YamlLines(s: string): (ls: seq<string>)
    ensures |ls| >= 1
    decreases |s|
  {
    if s == "" then [""]
    else if s[0] == '\r' && |s| > 1 && s[1] == '\n' then [""] + YamlLines(s[2..])
    else if s[0] == '\n' || s[0] == '\r' then [""] + YamlLines(s[1..])
    else
      var rest := YamlLines(s[1..]);
      [[s[0]] + rest[0]] + rest[1..]
  }

  lemma {:induction false} YamlLinesWithoutCR(s: string)
    requires '\r' !in s
    ensures YamlLines(s) == Lines(s)
  {
    if s != "" {
      assert s[0] in s && s == [s[0]] + s[1..];
      YamlLinesWithoutCR(s[1..]);
    }
  }

  /** The scalar that stands alone at the end of a document: all lines up to the final line break. */
  function ReadLast(parent: nat, body: string): Option<string> {
    var ls := YamlLines(body);
    match ReadLiteral(parent, ls[..|ls| - 1])
    case Some((value, rest)) => if rest == [] then Some(value) else None
    case None => None
  }

  lemma {:induction false} JoinHasNo(ls: seq<string>, c: char)
    requires c != '\n' && forall i :: 0 <= i < |ls| ==> c !in ls[i]
    ensures c !in Join(ls)
  {
    if |ls| > 1 {
      JoinHasNo(ls[1..], c);
    }
  }

  lemma {:induction false} LinesHaveNo(s: string, c: char)
    requires c !in s
    ensures forall i :: 0 <= i < |Lines(s)| ==> c !in Lines(s)[i]
  {
    if s != "" {
      assert s == [s[0]] + s[1..];
      LinesHaveNo(s[1..], c);
    }
  }

  lemma {:induction false} IndentedIsPlain(text: string, n: nat)
    requires '\r' !in text
    ensures '\r' !in Indented(text, n)
    ensures Lines(Indented(text, n)) == IndentLines(Lines(text), n)
  {
    var L := Lines(text);
    LinesHaveNo(text, '\r');
    forall i | 0 <= i < |L| ensures '\r' !in IndentLine(L[i], n) && IsLine(IndentLine(L[i], n)) {
      assert ' ' != '\r' && ' ' != '\n';
    }
    JoinHasNo(IndentLines(L, n), '\r');
    LinesJoin(IndentLines(L, n));
  }

  /** The rules of a RuleSource document (key at column 2, content at column 4) come back exactly when they start
      flush. */
  lemma {:induction false} RuleSourceRoundTrip(rules: string)
    requires '\r' !in rules
    ensures ReadLast(2, Indented(rules, 4) + "\n") == Some(Normalized(rules)) <==> StartsFlush(rules)
  {
    hide Lines, YamlLines, IndentLines, StartsFlush, ReadLiteral, Normalized;
    var body := Indented(rules, 4) + "\n";
    LinesOfLine("");
    IndentedIsPlain(rules, 4);
    YamlLinesWithoutCR(body);
    LinesConcat(Indented(rules, 4), "");
    assert body == Indented(rules, 4) + "\n" + "";
    var ls := IndentLines(Lines(rules), 4);
    assert Lines(body) == ls + [""];
    assert (ls + [""])[..|ls|] == ls + [];
    RoundTripExactly(rules, 4, [], 2);
  }

  const SPACED := " a"

  lemma {:induction false} SpacedPrinted()
    ensures Lines(SPACED) == [SPACED] && !Blank(SPACED) && Indented(SPACED, 4) == Spaces(4) + SPACED
  {
    assert SPACED[1..] == "a" && IsSpace(' ') && !IsSpace('a');
    TrimSpaceNonSpaceFirst("a");
    assert IsLine(SPACED);
    LinesOfLine(SPACED);
    assert IndentLines([SPACED], 4) == [Spaces(4) + SPACED];
  }

  lemma {:induction false} SpacedRead()
    ensures ReadLiteral(2, [Spaces(4) + SPACED]) == Some(("a\n", []))
  {
    var l := Spaces(4) + SPACED;
    LeadingSpacesExact(l, 5);
    FirstNonEmptyExact([l], 0);
    BodyLengthExact([l], 5, 1);
    var empty: seq<string> := [];
    assert [l][..1] == [l] && [l][1..] == empty && l[5..] == "a";
    assert Contents([l], 5) == ["a"];
    assert Clip(["a"]) == "a\n";
  }

  lemma {:induction false} SpacedDocument()
    ensures var l := Spaces(4) + SPACED; YamlLines(l + "\n") == [l, ""]
  {
    hide Lines, YamlLines;
    var l := Spaces(4) + SPACED;
    assert IsLine(l) && '\r' !in l + "\n";
    YamlLinesWithoutCR(l + "\n");
    LinesOfLine(l);
    LinesConcat(l, "");
    assert l + "\n" + "" == l + "\n";
    LinesOfLine("");
  }

  /** A text that does not come back: its first line is indented, and the reader takes that for indentation of the
      scalar. */
  lemma {:induction false} IndentationIsLost()
    ensures ReadLast(2, Indented(SPACED, 4) + "\n") == Some("a\n") && Normalized(SPACED) == " a\n"
  {
    hide Lines, YamlLines, ReadLiteral, Blank;
    SpacedPrinted();
    SpacedRead();
    SpacedDocument();
    var l := Spaces(4) + SPACED;
    assert [l, ""][..1] == [l];
    assert Emptied([SPACED]) == [SPACED];
  }

  // ---------------------------------------------------------------------------------------------
  // RuleData documents
  // ---------------------------------------------------------------------------------------------

  const KEY_END := ": |"

  function KeyLine(key: string): string {
    Spaces(4) + key + KEY_END
  }

  /** The lines of one entry under spec.files. */
  function FileLines(key: string, text: string): seq<string> {
    [KeyLine(key)] + IndentLines(Lines(text), 6)
  }

  function EmitFiles(keys: seq<string>, files: map<string, string>): seq<string>
    requires forall k :: k in keys ==> k in files
  {
    if |keys| == 0 then [] else FileLines(keys[0], files[keys[0]]) + EmitFiles(keys[1..], files)
  }

  /** A key the apiserver accepts is not empty and holds no blank, colon or line break. */
  predicate ValidKey(key: string) {
    key != "" && forall i :: 0 <= i < |key| ==> !IsSpace(key[i]) && key[i] != ':'
  }

  function ReadKey(line: string): Option<string> {
    var n := LeadingSpaces(line);
    if n == 4 && |line| >= 4 + |KEY_END| && line[|line| - |KEY_END|..] == KEY_END
      && ValidKey(line[4..|line| - |KEY_END|])
    then Some(line[4..|line| - |KEY_END|])
    else None
  }

  /** Reads the entries of a block mapping at column 4; a repeated key is an error. */
  function ReadFiles(ls: seq<string>): Option<map<string, string>>
    decreases |ls|
  {
    if |ls| == 0 then Some(map[])
    else if ReadKey(ls[0]).None? then None
    else
      match ReadLiteral(4, ls[1..])
      case None => None
      case Some((value, rest)) =>
        if |rest| >= |ls| then None
        else
          var others := ReadFiles(rest);
          var key := ReadKey(ls[0]).value;
          if others.None? || key in others.value then None else Some(others.value[key := value])
  }

  lemma {:induction false} KeyLineIsRead(key: string)
    requires ValidKey(key)
    ensures ReadKey(KeyLine(key)) == Some(key)
    ensures !EmptyLine(KeyLine(key)) && LeadingSpaces(KeyLine(key)) == 4
  {
    var line := KeyLine(key);
    assert line[4] == key[0];
    LeadingSpacesExact(line, 4);
    assert line[|line| - 3..] == KEY_END && line[4..|line| - 3] == key;
  }

  predicate NoDuplicates(keys: seq<string>) {
    forall i, j :: 0 <= i < j < |keys| ==> keys[i] != keys[j]
  }

  function NormalizedFiles(keys: seq<string>, files: map<string, string>): map<string, string>
    requires forall k :: k in keys ==> k in files
  {
    map k | k in keys :: Normalized(files[k])
  }

  lemma {:induction false} NormalizedNext(keys: seq<string>, files: map<string, string>)
    requires |keys| > 0 && forall k :: k in keys ==> k in files
    ensures forall k :: k in keys[1..] ==> k in files
    ensures NormalizedFiles(keys, files) == NormalizedFiles(keys[1..], files)[keys[0] := Normalized(files[keys[0]])]
  {
    assert forall k :: k in keys <==> k == keys[0] || k in keys[1..];
  }

  lemma {:induction false} EmitFirst(keys: seq<string>, files: map<string, string>)
    requires |keys| > 0 && forall k :: k in keys ==> k in files
    ensures forall k :: k in keys[1..] ==> k in files
    ensures EmitFiles(keys, files) ==
            [KeyLine(keys[0])] + (IndentLines(Lines(files[keys[0]]), 6) + EmitFiles(keys[1..], files))
  {
    hide KeyLine, IndentLines, Lines;
    var first := IndentLines(Lines(files[keys[0]]), 6);
    var rest := EmitFiles(keys[1..], files);
    assert ([KeyLine(keys[0])] + first) + rest == [KeyLine(keys[0])] + (first + rest);
  }

  /** A file that starts with an indented line does not come back, whatever follows it. */
  lemma {:induction false} SpacedFileIsLost(key: string, text: string, rest: seq<string>, ls: seq<string>)
    requires ValidKey(key) && !StartsFlush(text) && Dedented(4, rest)
    requires ls == [KeyLine(key)] + (IndentLines(Lines(text), 6) + rest)
    ensures ReadFiles(ls).Some? ==> key in ReadFiles(ls).value && ReadFiles(ls).value[key] != Normalized(text)
  {
    hide ReadLiteral;
    var L := Lines(text);
    KeyLineIsRead(key);
    var f := FirstNonBlank(L);
    FirstContentIs(L);
    LeadingSpacesFlush(L[f]);
    SpacedInput(L, f, 6, rest, 4);
    SpacedValue(IndentLines(L, 6) + rest, f, 4);
    EmptiedStart(L, f);
    assert ls[0] == KeyLine(key) && ls[1..] == IndentLines(L, 6) + rest;
  }

  ghost predicate AllFlush(keys: seq<string>, files: map<string, string>)
    requires forall k :: k in keys ==> k in files
  {
    forall k :: k in keys ==> StartsFlush(files[k])
  }

  lemma {:induction false} ReadFirst(key: string, text: string, rest: seq<string>, ls: seq<string>)
    requires ValidKey(key) && StartsFlush(text) && Dedented(4, rest)
    requires ls == [KeyLine(key)] + (IndentLines(Lines(text), 6) + rest)
    ensures ReadFiles(ls) == match ReadFiles(rest)
                             case None => None
                             case Some(others) => if key in others then None else Some(others[key := Normalized(text)])
  {
    hide ReadLiteral, StartsFlush, Normalized, ReadKey, Dedented, ValidKey, KeyLine;
    KeyLineIsRead(key);
    RoundTripExactly(text, 6, rest, 4);
    assert ls[0] == KeyLine(key) && ls[1..] == IndentLines(Lines(text), 6) + rest;
    assert |rest| < |ls|;
  }

  lemma {:induction false} SameWithout<K, V>(a: map<K, V>, b: map<K, V>, k: K, v: V)
    requires k !in a && k !in b
    ensures a[k := v] == b[k := v] <==> a == b
  {
    assert a[k := v] - {k} == a && b[k := v] - {k} == b;
  }

  /** A flush file comes back exactly when the rest does. */
  lemma {:induction false} FlushFileIsRead(key: string, text: string, rest: seq<string>, ls: seq<string>,
          others: map<string, string>)
    requires ValidKey(key) && StartsFlush(text) && Dedented(4, rest) && key !in others
    requires ls == [KeyLine(key)] + (IndentLines(Lines(text), 6) + rest)
    ensures ReadFiles(ls) == Some(others[key := Normalized(text)]) <==> ReadFiles(rest) == Some(others)
  {
    hide ReadFiles, StartsFlush, Normalized, Dedented, ValidKey, KeyLine;
    ReadFirst(key, text, rest, ls);
    var found := ReadFiles(rest);
    if found.Some? && key !in found.value {
      SameWithout(found.value, others, key, Normalized(text));
    }
  }

  /** On lines: every file comes back under its own key, whatever the order of the keys, exactly when all files start
      flush. */
  lemma {:induction false} FilesReadExactly(keys: seq<string>, files: map<string, string>)
    requires forall k :: k in keys ==> k in files && ValidKey(k)
    requires NoDuplicates(keys)
    ensures ReadFiles(EmitFiles(keys, files)) == Some(NormalizedFiles(keys, files)) <==> AllFlush(keys, files)
  {
    hide ReadFiles, StartsFlush, ValidKey, Normalized, KeyLine;
    if |keys| == 0 {
      NoFiles(files);
    } else {
      var key, tail := keys[0], keys[1..];
      NormalizedNext(keys, files);
      FilesReadExactly(tail, files);
      EmittedIsDedented(tail, files);
      assert key !in tail;
      EmitFirst(keys, files);
      assert AllFlush(keys, files) <==> StartsFlush(files[key]) && AllFlush(tail, files);
      if StartsFlush(files[key]) {
        FlushFileIsRead(key, files[key], EmitFiles(tail, files), EmitFiles(keys, files), NormalizedFiles(tail, files));
      } else {
        SpacedFileIsLost(key, files[key], EmitFiles(tail, files), EmitFiles(keys, files));
      }
    }
  }

  lemma {:induction false} NoFiles(files: map<string, string>)
    ensures EmitFiles([], files) == [] && ReadFiles([]) == Some(map[]) && NormalizedFiles([], files) == map[]
  {
  }

  /** What a YAML reader finds below spec.files: all lines up to the final line break. */
  function ReadRuleData(body: string): Option<map<string, string>> {
    var ls := YamlLines(body);
    ReadFiles(ls[..|ls| - 1])
  }

  lemma {:induction false} LinesOfTerminated(ls: seq<string>)
    requires AreLines(ls)
    ensures Lines(Terminated(ls)) == ls + [""]
  {
    if |ls| > 0 {
      TerminatedIsJoin(ls);
      LinesJoin(ls);
      LinesConcat(Join(ls), "");
      assert Join(ls) + "\n" + "" == Join(ls) + "\n";
    }
  }

  lemma {:induction false} TerminatedHasNo(ls: seq<string>, c: char)
    requires c != '\n' && forall i :: 0 <= i < |ls| ==> c !in ls[i]
    ensures c !in Terminated(ls)
  {
    if |ls| > 0 {
      TerminatedHasNo(ls[..|ls| - 1], c);
    }
  }

  predicate PlainLine(line: string) {
    '\n' !in line && '\r' !in line
  }

  lemma {:induction false} FileLinesPlain(key: string, text: string)
    requires ValidKey(key) && '\r' !in text
    ensures forall i :: 0 <= i < |FileLines(key, text)| ==> PlainLine(FileLines(key, text)[i])
  {
    var L := Lines(text);
    LinesHaveNo(text, '\r');
    assert PlainLine(KeyLine(key)) by {
      assert IsSpace('\n') && IsSpace('\r');
      assert forall c :: c in KeyLine(key) ==> c == ' ' || c in key || c in KEY_END;
    }
    forall i | 0 <= i < |L| ensures PlainLine(IndentLine(L[i], 6)) {
      assert IsLine(L[i]);
    }
  }

  lemma {:induction false} EmittedPlain(keys: seq<string>, files: map<string, string>)
    requires forall k :: k in keys ==> k in files && ValidKey(k) && '\r' !in files[k]
    ensures forall i :: 0 <= i < |EmitFiles(keys, files)| ==> PlainLine(EmitFiles(keys, files)[i])
  {
    hide ValidKey, FileLines, PlainLine;
    if |keys| > 0 {
      FileLinesPlain(keys[0], files[keys[0]]);
      EmittedPlain(keys[1..], files);
    }
  }

  /** The printed RuleData document, read back from its text: all files without carriage returns come back, under their
      own keys, exactly when each of them starts flush. */
  lemma {:induction false} RuleDataRoundTrip(keys: seq<string>, files: map<string, string>)
    requires forall k :: k in keys ==> k in files && ValidKey(k) && '\r' !in files[k]
    requires NoDuplicates(keys)
    ensures ReadRuleData(Terminated(EmitFiles(keys, files))) == Some(NormalizedFiles(keys, files))
            <==> AllFlush(keys, files)
  {
    hide ReadFiles, StartsFlush, ValidKey, Normalized, EmitFiles, Lines, YamlLines, Terminated;
    var ls := EmitFiles(keys, files);
    EmittedPlain(keys, files);
    assert AreLines(ls) by {
      assert forall i :: 0 <= i < |ls| ==> PlainLine(ls[i]) ==> IsLine(ls[i]);
    }
    TerminatedHasNo(ls, '\r');
    YamlLinesWithoutCR(Terminated(ls));
    LinesOfTerminated(ls);
    assert (ls + [""])[..|ls|] == ls;
    FilesReadExactly(keys, files);
  }

  lemma {:induction false} EmittedIsDedented(keys: seq<string>, files: map<string, string>)
    requires forall k :: k in keys ==> k in files && ValidKey(k)
    ensures Dedented(4, EmitFiles(keys, files))
  {
    if |keys| > 0 {
      KeyLineIsRead(keys[0]);
    }
  }

  /** The loop of formatRuleDataYAML, for the keys in the order it sorted them into. */
  method FormatFiles(keys: seq<string>, files: map<string, string>) returns (b: string)
    requires forall k :: k in keys ==> k in files
    ensures b == Terminated(EmitFiles(keys, files))
  {
    b := "";
    for i := 0 to |keys|
      invariant b == Terminated(EmitFiles(keys[..i], files))
    {
      var k := keys[i];
      var indented := IndentMultiline(files[k], 6);
      b := b + (Spaces(4) + k + KEY_END + "\n" + indented + "\n");
      EntryText(k, files[k]);
      EmitNext(keys, files, i);
    }
    assert keys[..|keys|] == keys;
  }

  lemma {:induction false} EntryText(key: string, text: string)
    ensures Terminated(FileLines(key, text)) == Spaces(4) + key + KEY_END + "\n" + Indented(text, 6) + "\n"
  {
    var ls := IndentLines(Lines(text), 6);
    TerminatedConcat([KeyLine(key)], ls);
    assert [KeyLine(key)][..0] == [];
    assert Terminated([KeyLine(key)]) == KeyLine(key) + "\n";
    TerminatedIsJoin(ls);
  }

  lemma {:induction false} EmitConcat(a: seq<string>, b: seq<string>, files: map<string, string>)
    requires forall k :: k in a + b ==> k in files
    requires forall k :: k in a ==> k in files
    requires forall k :: k in b ==> k in files
    ensures EmitFiles(a + b, files) == EmitFiles(a, files) + EmitFiles(b, files)
  {
    assert forall k :: k in a + b <==> k in a || k in b;
    if |a| == 0 {
      assert a + b == b;
    } else {
      assert (a + b)[0] == a[0] && (a + b)[1..] == a[1..] + b;
      EmitConcat(a[1..], b, files);
      assert FileLines(a[0], files[a[0]]) + (EmitFiles(a[1..], files) + EmitFiles(b, files))
          == (FileLines(a[0], files[a[0]]) + EmitFiles(a[1..], files)) + EmitFiles(b, files);
    }
  }

  lemma {:induction false} EmitNext(keys: seq<string>, files: map<string, string>, i: nat)
    requires i < |keys| && forall k :: k in keys ==> k in files
    ensures Terminated(EmitFiles(keys[..i + 1], files)) ==
            Terminated(EmitFiles(keys[..i], files)) + Terminated(FileLines(keys[i], files[keys[i]]))
  {
    assert keys[..i + 1] == keys[..i] + [keys[i]];
    EmitConcat(keys[..i], [keys[i]], files);
    assert EmitFiles([keys[i]], files) == FileLines(keys[i], files[keys[i]]) + [] == FileLines(keys[i], files[keys[i]]);
    TerminatedConcat(EmitFiles(keys[..i], files), FileLines(keys[i], files[keys[i]]));
  }
}
