/** tools/corerulesetgen/rules.go, first half: cutting a CRS file into blocks of lines. */
module RuleBlocks {
  import opened Text

  const DIRECTIVES: seq<string> := ["SecRule", "SecAction", "SecMarker"]

  /** trimLineEnd. */
  function TrimLineEnd(line: string): string {
    TrimRight(line, {' ', '\t', '\r', '\n'})
  }

  predicate KeywordAtStart(s: string, keyword: string) {
    HasPrefix(s, keyword) && (|s| == |keyword| || !IsWord(s[|keyword|]))
  }

  /** The line opens a directive: ^(SecRule|SecAction|SecMarker)\b on the trimmed line. */
  predicate Starts(line: string) {
    exists k :: 0 <= k < |DIRECTIVES| && KeywordAtStart(TrimLineEnd(line), DIRECTIVES[k])
  }

  /** The line ends in a continuation backslash. */
  predicate Continued(line: string) {
    HasSuffix(TrimLineEnd(line), "\\")
  }

  function ContinuationLength(ls: seq<string>): (n: nat)
    requires |ls| > 0
    ensures 1 <= n <= |ls|
    ensures forall i :: 0 <= i < n - 1 ==> Continued(ls[i])
    ensures n < |ls| ==> !Continued(ls[n - 1])
  {
    if !Continued(ls[0]) || |ls| == 1 then 1 else 1 + ContinuationLength(ls[1..])
  }

  function BlockLength(ls: seq<string>): (n: nat)
    requires |ls| > 0
    ensures 1 <= n <= |ls|
  {
    if Starts(ls[0]) then ContinuationLength(ls) else 1
  }

  /** The blocks of a file, each as the list of its lines. */
  function Parse(ls: seq<string>): seq<seq<string>> {
    if |ls| == 0 then [] else var n := BlockLength(ls); [ls[..n]] + Parse(ls[n..])
  }

  function Texts(bs: seq<seq<string>>): (ts: seq<string>)
    ensures |ts| == |bs|
    ensures forall i :: 0 <= i < |bs| ==> ts[i] == Join(bs[i])
  {
    seq(|bs|, i requires 0 <= i < |bs| => Join(bs[i]))
  }

  /** What splitIntoRules returns. */
  function Blocks(content: string): seq<string> {
    Texts(Parse(Lines(content)))
  }

  /** A complete block: one ordinary line, or a directive whose lines are continued up to the last one. */
  predicate Closed(b: seq<string>) {
    |b| > 0 &&
    if Starts(b[0])
    then (forall i :: 0 <= i < |b| - 1 ==> Continued(b[i])) && !Continued(b[|b| - 1])
    else |b| == 1
  }

  /** A directive whose continuation never ends. */
  predicate Open(b: seq<string>) {
    |b| > 0 && Starts(b[0]) && forall i :: 0 <= i < |b| ==> Continued(b[i])
  }

  /** Reference notion of a parse, independent of the algorithm: only the last block may be unterminated. */
  predicate IsParse(bs: seq<seq<string>>) {
    forall i :: 0 <= i < |bs| ==> Closed(bs[i]) || (i == |bs| - 1 && Open(bs[i]))
  }

  /** The first block is complete, unless it runs to the end of the file. */
  lemma {:induction false} FirstBlock(ls: seq<string>)
    requires |ls| > 0
    ensures Closed(ls[..BlockLength(ls)]) || (BlockLength(ls) == |ls| && Open(ls))
  {
    hide ContinuationLength, Starts, Continued;
    var n := BlockLength(ls);
    if Starts(ls[0]) {
      assert n == ContinuationLength(ls);
    }
  }

  lemma {:induction false} PrependBlock(b: seq<string>, bs: seq<seq<string>>)
    requires IsParse(bs) && (Closed(b) || (bs == [] && Open(b)))
    ensures IsParse([b] + bs) && Flatten([b] + bs) == b + Flatten(bs)
  {
    assert ([b] + bs)[1..] == bs;
    assert forall i :: 0 < i < |[b] + bs| ==> ([b] + bs)[i] == bs[i - 1];
  }

  lemma {:induction false} ParseSound(ls: seq<string>)
    ensures IsParse(Parse(ls))
    ensures Flatten(Parse(ls)) == ls
  {
    if |ls| > 0 {
      hide BlockLength, Closed, Open, IsParse, Flatten;
      var n := BlockLength(ls);
      var first, rest := ls[..n], ls[n..];
      assert ls == first + rest;
      ParseSound(rest);
      FirstBlock(ls);
      assert n == |ls| ==> first == ls;
      PrependBlock(first, Parse(rest));
    } else {
      assert Parse(ls) == [];
    }
  }

  lemma {:induction false} ContinuationOfClosed(b: seq<string>, rest: seq<string>)
    requires |b| > 0 && forall i :: 0 <= i < |b| - 1 ==> Continued(b[i])
    requires !Continued(b[|b| - 1]) || rest == []
    ensures ContinuationLength(b + rest) == |b|
  {
    if |b| > 1 {
      assert (b + rest)[0] == b[0] && (b + rest)[1..] == b[1..] + rest;
      ContinuationOfClosed(b[1..], rest);
    } else {
      assert (b + rest)[0] == b[0];
    }
  }

  lemma {:induction false} ParseFirst(b: seq<string>, rest: seq<string>)
    requires Closed(b) || (Open(b) && rest == [])
    ensures Parse(b + rest) == [b] + Parse(rest)
  {
    var ls := b + rest;
    assert ls[0] == b[0];
    if Starts(b[0]) {
      ContinuationOfClosed(b, rest);
    }
    assert ls[..|b|] == b && ls[|b|..] == rest;
  }

  /** There is only one parse of a list of lines. */
  lemma {:induction false} ParseUnique(bs: seq<seq<string>>)
    requires IsParse(bs)
    ensures Parse(Flatten(bs)) == bs
  {
    if |bs| > 0 {
      if |bs| > 1 {
        assert Closed(bs[0]);
      } else {
        assert Flatten(bs[1..]) == [];
      }
      ParseFirst(bs[0], Flatten(bs[1..]));
      assert IsParse(bs[1..]) by {
        forall i | 0 <= i < |bs[1..]|
          ensures Closed(bs[1..][i]) || (i == |bs[1..]| - 1 && Open(bs[1..][i]))
        {
          assert bs[1..][i] == bs[i + 1];
        }
      }
      ParseUnique(bs[1..]);
    }
  }

  /** splitIntoRules computes the unique parse: a list of line lists is what it finds
      exactly when it is a parse and its lines are the lines of the file. */
  lemma {:induction false} ParseCharacterized(ls: seq<string>, bs: seq<seq<string>>)
    ensures bs == Parse(ls) <==> IsParse(bs) && Flatten(bs) == ls
  {
    ParseSound(ls);
    if IsParse(bs) {
      ParseUnique(bs);
    }
  }

  lemma {:induction false} JoinFlatten(bs: seq<seq<string>>)
    requires forall i :: 0 <= i < |bs| ==> |bs[i]| > 0
    ensures Join(Texts(bs)) == Join(Flatten(bs))
  {
    if |bs| > 0 {
      var tail := bs[1..];
      assert forall i :: 0 <= i < |tail| ==> tail[i] == bs[i + 1];
      JoinFlatten(tail);
      assert Texts(bs)[1..] == Texts(tail);
      if |bs| > 1 {
        assert |Flatten(tail)| > 0 by {
          assert Flatten(tail) == tail[0] + Flatten(tail[1..]);
        }
        JoinConcat(bs[0], Flatten(tail));
      } else {
        assert Flatten(bs) == bs[0] + [] == bs[0];
      }
    }
  }

  lemma {:induction false} JoinConcat(a: seq<string>, b: seq<string>)
    requires |a| > 0 && |b| > 0
    ensures Join(a + b) == Join(a) + "\n" + Join(b)
  {
    if |a| == 1 {
      assert (a + b)[1..] == b;
    } else {
      assert (a + b)[0] == a[0] && (a + b)[1..] == a[1..] + b;
      JoinConcat(a[1..], b);
      assert Join(a + b) == a[0] + "\n" + (Join(a[1..]) + "\n" + Join(b));
      assert Join(a + b) == (a[0] + "\n" + Join(a[1..])) + "\n" + Join(b);
    }
  }

  /** Splitting is lossless for every text, unterminated continuations included. */
  lemma {:induction false} SplitLossless(content: string)
    ensures Join(Blocks(content)) == content
  {
    var ls := Lines(content);
    ParseSound(ls);
    var bs := Parse(ls);
    forall i | 0 <= i < |bs| ensures |bs[i]| > 0 {
      assert Closed(bs[i]) || Open(bs[i]);
    }
    JoinFlatten(bs);
    JoinLines(content);
  }

  lemma {:induction false} FlattenLines(bs: seq<seq<string>>, ls: seq<string>)
    requires Flatten(bs) == ls && AreLines(ls)
    ensures forall i :: 0 <= i < |bs| ==> AreLines(bs[i])
  {
    if |bs| > 0 {
      var tail := bs[1..];
      assert ls == bs[0] + Flatten(tail);
      assert forall i :: 0 <= i < |bs[0]| ==> bs[0][i] == ls[i];
      assert forall i :: 0 <= i < |Flatten(tail)| ==> Flatten(tail)[i] == ls[|bs[0]| + i];
      FlattenLines(tail, Flatten(tail));
      assert forall i :: 1 <= i < |bs| ==> bs[i] == tail[i - 1];
    }
  }

  /** The lines ls have been cut into the closed blocks of parse, and current is still being collected. */
  ghost predicate Collected(blocks: seq<string>, parse: seq<seq<string>>, current: seq<string>, ls: seq<string>) {
    && (forall k :: 0 <= k < |parse| ==> Closed(parse[k]))
    && Flatten(parse) + current == ls
    && blocks == Texts(parse)
    && (current == [] || Open(current))
  }

  lemma {:induction false} CollectLine(blocks: seq<string>, parse: seq<seq<string>>, current: seq<string>,
          ls: seq<string>, line: string)
    requires Collected(blocks, parse, current, ls)
    ensures Open(current + [line]) ==> Collected(blocks, parse, current + [line], ls + [line])
    ensures Closed(current + [line]) ==>
              Collected(blocks + [Join(current + [line])], parse + [current + [line]], [], ls + [line])
  {
    var b := current + [line];
    FlattenConcat(parse, [b]);
    assert Flatten([b]) == b + [] == b;
    assert Flatten(parse) + b == ls + [line];
    assert Texts(parse + [b]) == Texts(parse) + [Join(b)];
  }

  lemma {:induction false} ExtendBlock(current: seq<string>, line: string)
    ensures Open(current) ==> if Continued(line) then Open(current + [line]) else Closed(current + [line])
    ensures current == [] ==> current + [line] == [line]
    ensures Starts(line) && Continued(line) ==> Open([line])
    ensures !(Starts(line) && Continued(line)) ==> Closed([line])
  {
  }

  lemma {:induction false} CollectedAll(blocks: seq<string>, parse: seq<seq<string>>, current: seq<string>,
          ls: seq<string>)
    requires Collected(blocks, parse, current, ls)
    ensures Texts(Parse(ls)) == blocks + if current == [] then [] else [Join(current)]
  {
    if current == [] {
      assert Flatten(parse) == ls;
      assert Texts(parse) + [] == Texts(parse);
      ParseUnique(parse);
    } else {
      FlattenConcat(parse, [current]);
      assert Flatten([current]) == current + [] == current;
      assert Texts(parse + [current]) == Texts(parse) + [Join(current)];
      ParseUnique(parse + [current]);
    }
  }

  /** splitIntoRules. */
  method SplitIntoRules(content: string) returns (blocks: seq<string>)
    ensures blocks == Blocks(content)
  {
    var lines := Lines(content);
    blocks := [];
    var current: seq<string> := [];
    var inMultiline := false;
    ghost var parse: seq<seq<string>> := [];
    for i := 0 to |lines|
      invariant inMultiline <==> current != []
      invariant Collected(blocks, parse, current, lines[..i])
    {
      var line := lines[i];
      assert lines[..i + 1] == lines[..i] + [line];
      CollectLine(blocks, parse, current, lines[..i], line);
      ExtendBlock(current, line);
      if inMultiline {
        current := current + [line];
        if !Continued(line) {
          inMultiline := false;
          blocks, parse := blocks + [Join(current)], parse + [current];
          current := [];
        }
      } else if Starts(line) {
        current := [line];
        if Continued(line) {
          inMultiline := true;
        } else {
          blocks, parse := blocks + [Join(current)], parse + [current];
          current := [];
        }
      } else {
        blocks, parse := blocks + [line], parse + [[line]];
      }
    }
    CollectedAll(blocks, parse, current, lines);
    if |current| > 0 {
      blocks := blocks + [Join(current)];
    }
  }

  // ---------------------------------------------------------------------------------------------
  // Rule IDs and the chain action
  // ---------------------------------------------------------------------------------------------

  function DigitsEnd(s: string, i: nat): (e: nat)
    requires i <= |s|
    ensures i <= e <= |s|
    ensures forall k :: i <= k < e ==> IsDigit(s[k])
    ensures e < |s| ==> !IsDigit(s[e])
    decreases |s| - i
  {
    if i < |s| && IsDigit(s[i]) then DigitsEnd(s, i + 1) else i
  }

  /** "id:" stands at position i. */
  predicate IdColonAt(s: string, i: nat) {
    i + 3 <= |s| && s[i] == 'i' && s[i + 1] == 'd' && s[i + 2] == ':'
  }

  /** The generator's pattern id:(\d+) matches at position i. */
  predicate IdAt(s: string, i: nat) {
    IdColonAt(s, i) && i + 3 < |s| && IsDigit(s[i + 3])
  }

  function RuleIDFrom(s: string, i: nat): string
    requires i <= |s|
    decreases |s| - i
  {
    if i == |s| then "unknown"
    else if IdAt(s, i) then s[i + 3..DigitsEnd(s, i + 3)]
    else RuleIDFrom(s, i + 1)
  }

  /** extractRuleID. */
  function ExtractRuleID(block: string): string {
    RuleIDFrom(block, 0)
  }

  lemma {:induction false} RuleIDFromFirst(s: string, from: nat, i: nat)
    requires from <= i < |s| && IdAt(s, i)
    requires forall k :: from <= k < i ==> !IdAt(s, k)
    ensures RuleIDFrom(s, from) == s[i + 3..DigitsEnd(s, i + 3)]
    decreases i - from
  {
    if from < i {
      RuleIDFromFirst(s, from + 1, i);
    }
  }

  lemma {:induction false} RuleIDFromNone(s: string, from: nat)
    requires from <= |s|
    requires forall k :: from <= k < |s| ==> !IdAt(s, k)
    ensures RuleIDFrom(s, from) == "unknown"
    decreases |s| - from
  {
    if from < |s| {
      RuleIDFromNone(s, from + 1);
    }
  }

  /** extractRuleID returns the whole digit run after the leftmost "id:" that digits follow, and "unknown" without
      one. */
  lemma {:induction false} RuleIDIsLeftmost(s: string)
    ensures (forall k :: 0 <= k < |s| ==> !IdAt(s, k)) ==> ExtractRuleID(s) == "unknown"
    ensures forall i :: 0 <= i < |s| && IdAt(s, i) && (forall k :: 0 <= k < i ==> !IdAt(s, k)) ==>
              ExtractRuleID(s) == s[i + 3..DigitsEnd(s, i + 3)]
  {
    if forall k :: 0 <= k < |s| ==> !IdAt(s, k) {
      RuleIDFromNone(s, 0);
    }
    forall i | 0 <= i < |s| && IdAt(s, i) && forall k :: 0 <= k < i ==> !IdAt(s, k)
      ensures ExtractRuleID(s) == s[i + 3..DigitsEnd(s, i + 3)]
    {
      RuleIDFromFirst(s, 0, i);
    }
  }

  function SkipSpaces(s: string, i: nat): (e: nat)
    requires i <= |s|
    ensures i <= e <= |s|
    ensures forall k :: i <= k < e ==> IsRegexSpace(s[k])
    ensures e < |s| ==> !IsRegexSpace(s[e])
    decreases |s| - i
  {
    if i < |s| && IsRegexSpace(s[i]) then SkipSpaces(s, i + 1) else i
  }

  predicate ChainWordAt(s: string, j: nat) {
    j + 5 <= |s| && s[j] == 'c' && s[j + 1] == 'h' && s[j + 2] == 'a' && s[j + 3] == 'i' && s[j + 4] == 'n'
  }

  /** The pattern ,\s*chain\s*(?:,|") matches at position i. */
  predicate ChainAt(s: string, i: nat)
    requires i < |s|
  {
    s[i] == ',' &&
    var j := SkipSpaces(s, i + 1);
    ChainWordAt(s, j) &&
    var k := SkipSpaces(s, j + 5);
    k < |s| && s[k] in {',', '"'}
  }

  /** secRuleHasChainAction. */
  predicate HasChainAction(block: string) {
    exists i :: 0 <= i < |block| && ChainAt(block, i)
  }

  /** A word of the chain pattern: comma, blanks, "chain", blanks, and a comma or a quote at position k. */
  ghost predicate ChainSpan(s: string, i: nat, j: nat, k: nat) {
    i < j && j + 5 <= k < |s| && s[i] == ',' && s[k] in {',', '"'} && ChainWordAt(s, j)
    && (forall x :: i < x < j ==> IsRegexSpace(s[x])) && (forall x :: j + 5 <= x < k ==> IsRegexSpace(s[x]))
  }

  lemma {:induction false} SkipSpacesOver(s: string, i: nat, e: nat)
    requires i <= e < |s| && !IsRegexSpace(s[e])
    requires forall k :: i <= k < e ==> IsRegexSpace(s[k])
    ensures SkipSpaces(s, i) == e
    decreases e - i
  {
    if i < e {
      SkipSpacesOver(s, i + 1, e);
    }
  }

  /** secRuleHasChainAction says exactly whether some part of the block is a word of the chain pattern. */
  lemma {:induction false} ChainActionMeaning(block: string)
    ensures HasChainAction(block) <==> exists i: nat, j: nat, k: nat :: ChainSpan(block, i, j, k)
  {
    hide SkipSpaces;
    if HasChainAction(block) {
      var i :| 0 <= i < |block| && ChainAt(block, i);
      var j := SkipSpaces(block, i + 1);
      var k := SkipSpaces(block, j + 5);
      assert ChainSpan(block, i, j, k);
    }
    if exists i: nat, j: nat, k: nat :: ChainSpan(block, i, j, k) {
      var i: nat, j: nat, k: nat :| ChainSpan(block, i, j, k);
      SkipSpacesOver(block, i + 1, j);
      SkipSpacesOver(block, j + 5, k);
      assert ChainAt(block, i);
    }
  }
}
