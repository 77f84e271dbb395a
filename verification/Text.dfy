/** The parts of Go's strings package, and the character classes of its regexp package, that the rule tools use.
    Text is a sequence of Unicode characters: the source repairs invalid UTF-8 before it looks at a file. */
module Text {

  datatype Option<+T> = None | Some(value: T)

  /** unicode.IsSpace, as strings.TrimSpace uses it. */
  predicate IsSpace(c: char) {
    var n := c as int;
    9 <= n <= 13 || n == 0x20 || n == 0x85 || n == 0xA0 || n == 0x1680 || 0x2000 <= n <= 0x200A
    || n == 0x2028 || n == 0x2029 || n == 0x202F || n == 0x205F || n == 0x3000
  }

  /** The class \s of package regexp: no vertical tab, nothing beyond ASCII. */
  predicate IsRegexSpace(c: char) {
    c in {'\t', '\n', '\r', ' '} || c as int == 12
  }

  predicate IsDigit(c: char) {
    '0' <= c <= '9'
  }

  /** The ASCII word characters that \b separates from everything else. */
  predicate IsWord(c: char) {
    IsDigit(c) || 'a' <= c <= 'z' || 'A' <= c <= 'Z' || c == '_'
  }

  predicate HasPrefix(s: string, prefix: string) {
    prefix <= s
  }

  predicate HasSuffix(s: string, suffix: string) {
    |suffix| <= |s| && s[|s| - |suffix|..] == suffix
  }

  predicate Contains(s: string, sub: string) {
    exists i :: 0 <= i <= |s| - |sub| && sub <= s[i..]
  }

  function TrimRight(s: string, cutset: set<char>): (r: string)
    ensures r <= s
    ensures r == "" || r[|r| - 1] !in cutset
    ensures forall i :: |r| <= i < |s| ==> s[i] in cutset
  {
    if s != "" && s[|s| - 1] in cutset then TrimRight(s[..|s| - 1], cutset) else s
  }

  function TrimSpaceRight(s: string): (r: string)
    ensures r <= s
  {
    if s != "" && IsSpace(s[|s| - 1]) then TrimSpaceRight(s[..|s| - 1]) else s
  }

  function TrimSpace(s: string): string
  {
    if s != "" && IsSpace(s[0]) then TrimSpace(s[1..]) else TrimSpaceRight(s)
  }

  lemma {:induction false} TrimSpaceNonSpaceFirst(s: string)
    requires s != "" && !IsSpace(s[0])
    ensures TrimSpace(s) != "" && TrimSpace(s)[0] == s[0]
  {
    TrimSpaceRightKeepsFirst(s);
  }

  lemma {:induction false} TrimSpaceRightKeepsFirst(s: string)
    requires s != "" && !IsSpace(s[0])
    ensures TrimSpaceRight(s) != "" && TrimSpaceRight(s)[0] == s[0]
    decreases |s|
  {
    if IsSpace(s[|s| - 1]) {
      TrimSpaceRightKeepsFirst(s[..|s| - 1]);
    }
  }

  predicate IsLine(s: string) {
    '\n' !in s
  }

  predicate AreLines(ls: seq<string>) {
    forall i :: 0 <= i < |ls| ==> IsLine(ls[i])
  }

  /** strings.Split(s, "\n"). */
  function Lines(s: string): (ls: seq<string>)
    ensures |ls| >= 1
    ensures AreLines(ls)
  {
    if s == "" then [""]
    else if s[0] == '\n' then [""] + Lines(s[1..])
    else
      var rest := Lines(s[1..]);
      [[s[0]] + rest[0]] + rest[1..]
  }

  /** strings.Join(ls, "\n"). */
  function Join(ls: seq<string>): string {
    if |ls| == 0 then "" else if |ls| == 1 then ls[0] else ls[0] + "\n" + Join(ls[1..])
  }

  function Flatten<T>(xss: seq<seq<T>>): seq<T> {
    if |xss| == 0 then [] else xss[0] + Flatten(xss[1..])
  }

  lemma {:induction false} FlattenConcat<T>(a: seq<seq<T>>, b: seq<seq<T>>)
    ensures Flatten(a + b) == Flatten(a) + Flatten(b)
  {
    if |a| == 0 {
      assert a + b == b;
    } else {
      FlattenConcat(a[1..], b);
      assert (a + b)[0] == a[0] && (a + b)[1..] == a[1..] + b;
    }
  }

  /** Splitting into lines loses nothing. */
  lemma {:induction false} JoinLines(s: string)
    ensures Join(Lines(s)) == s
  {
    if s != "" {
      JoinLines(s[1..]);
      var rest := Lines(s[1..]);
      if s[0] == '\n' {
        assert Lines(s)[1..] == rest;
      } else {
        assert Lines(s)[1..] == rest[1..];
      }
    }
  }

  lemma {:induction false} LinesNext(c: char, t: string)
    ensures Lines([c] + t) == if c == '\n' then [""] + Lines(t) else [[c] + Lines(t)[0]] + Lines(t)[1..]
  {
    assert ([c] + t)[1..] == t;
  }

  lemma {:induction false} LinesConcat(a: string, b: string)
    ensures Lines(a + "\n" + b) == Lines(a) + Lines(b)
  {
    if a == "" {
      assert a + "\n" + b == ['\n'] + b;
      LinesNext('\n', b);
    } else {
      hide Lines;
      var c, t := a[0], a[1..];
      assert a == [c] + t && a + "\n" + b == [c] + (t + "\n" + b);
      LinesConcat(t, b);
      LinesNext(c, t + "\n" + b);
      LinesNext(c, t);
    }
  }

  lemma {:induction false} LinesOfLine(a: string)
    requires IsLine(a)
    ensures Lines(a) == [a]
  {
    if a != "" {
      LinesOfLine(a[1..]);
      assert a[0] in a && a == [a[0]] + a[1..];
    }
  }

  function AllLines(texts: seq<string>): seq<string> {
    if |texts| == 0 then [] else Lines(texts[0]) + AllLines(texts[1..])
  }

  lemma {:induction false} LinesOfJoin(texts: seq<string>)
    requires |texts| > 0
    ensures Lines(Join(texts)) == AllLines(texts)
  {
    if |texts| == 1 {
      assert AllLines(texts) == Lines(texts[0]) + [];
    } else {
      LinesOfJoin(texts[1..]);
      LinesConcat(texts[0], Join(texts[1..]));
    }
  }

  /** Joining newline-free lines is undone by splitting. */
  lemma {:induction false} LinesJoin(ls: seq<string>)
    requires |ls| > 0 && AreLines(ls)
    ensures Lines(Join(ls)) == ls
  {
    LinesOfLine(ls[0]);
    if |ls| > 1 {
      LinesJoin(ls[1..]);
      LinesConcat(ls[0], Join(ls[1..]));
    }
  }

  function Filter<T>(s: seq<T>, keep: seq<bool>): (r: seq<T>)
    requires |keep| == |s|
    ensures |r| <= |s|
  {
    if |s| == 0 then []
    else
      var n := |s| - 1;
      Filter(s[..n], keep[..n]) + (if keep[n] then [s[n]] else [])
  }

  lemma {:induction false} FilterAll<T>(s: seq<T>, keep: seq<bool>)
    requires |keep| == |s|
    requires forall i :: 0 <= i < |keep| ==> keep[i]
    ensures Filter(s, keep) == s
  {
    if |s| > 0 {
      FilterAll(s[..|s| - 1], keep[..|s| - 1]);
    }
  }

  /** strings.Index for one character: its first position, or the length. */
  function FirstIndex(s: string, c: char): (n: nat)
    ensures n <= |s|
    ensures forall i :: 0 <= i < n ==> s[i] != c
    ensures n < |s| ==> s[n] == c
  {
    if |s| == 0 || s[0] == c then 0 else 1 + FirstIndex(s[1..], c)
  }

  /** Cutting at the first separator finds the parts again, if the first one has none. */
  lemma {:induction false} CutAtFirst(a: string, c: char, b: string)
    requires c !in a
    ensures var s := a + [c] + b; FirstIndex(s, c) == |a| && s[..|a|] == a && s[|a| + 1..] == b
  {
    var s := a + [c] + b;
    assert s[|a|] == c;
    assert forall i :: 0 <= i < |a| ==> s[i] == a[i] && a[i] in a;
  }

  lemma {:induction false} MemberInFlatten<T>(xss: seq<seq<T>>, k: nat, x: T)
    requires k < |xss| && x in xss[k]
    ensures x in Flatten(xss)
  {
    if k > 0 {
      MemberInFlatten(xss[1..], k - 1, x);
    }
  }
}
