/** internal/rulesets/unsupported.go: finding the rules a text uses that the WASM engine cannot run. */
module UnsupportedRules {
  import opened Text
  import opened RuleBlocks

  datatype Tier = Incompatible | Redundant

  datatype UnsupportedRule = UnsupportedRule(id: nat, category: string, tier: Tier, description: string)

  type Registry = map<nat, UnsupportedRule>

  predicate WellFormed(reg: Registry) {
    forall id :: id in reg ==> reg[id].id == id
  }

  // ---------------------------------------------------------------------------------------------
  // The registry
  // ---------------------------------------------------------------------------------------------

  /** Rules that share a category and a description. */
  datatype Listing = Listing(ids: seq<nat>, category: string, description: string)

  const INCOMPATIBLE: seq<Listing> := [
    Listing([922110], "multipart charset detection",
      "multipart charset detection does not function in Envoy/Kubernetes"),
    Listing([920274], "PL4 false positives", "PL4 false positives from Envoy :path pseudo-header population"),
    Listing([920171], "GET/HEAD body detection", "GET/HEAD with body not detected (coraza-proxy-wasm bug)"),
    Listing([920430], "protocol version detection",
      "invalid HTTP protocol version not detected (coraza-proxy-wasm bug)"),
    Listing([934120], "enclosed alphanumerics HTTP/2",
      "enclosed alphanumerics not detected in HTTP/2 (coraza-proxy-wasm bug)"),
    Listing([932300, 933120], "multiphase evaluation", "fails with multiphase evaluation enabled (Coraza bug)"),
    Listing([920270, 921140], "under investigation", "behavioral difference — blocked at different layer"),
    Listing([921250], "under investigation", "cookie $Version detection not matching"),
    Listing([922130], "under investigation", "match_regex behavior difference"),
    Listing([932200], "under investigation", "detected by earlier rule instead of expected rule"),
    Listing([941210], "under investigation", "HTML entity decoding — transformation chain issue"),
    Listing([944200], "under investigation", "Java deserialization pattern not detected"),
    Listing([959100, 980170], "under investigation", "retry_once mechanism not working in environment")
  ]

  const REDUNDANT: seq<Listing> := [
    Listing([911100, 920100, 949110], "HTTP method handling",
      "some request patterns handled by Envoy before reaching WAF"),
    Listing([920181, 920210], "protocol enforcement", "protocol enforcement handled by Envoy proxy layer"),
    Listing([920280, 920290, 920300, 920310, 920311, 920320, 920330, 920610], "HTTP/2 normalization",
            "header normalization handled by Envoy in HTTP/2"),
    Listing([932161, 932207, 932237, 932239, 941101, 941110, 941120, 942280], "header sanitization",
            "malicious header payloads sanitized by Envoy before reaching WAF")
  ]

  predicate Listed(rows: seq<Listing>, id: nat) {
    exists k :: 0 <= k < |rows| && id in rows[k].ids
  }

  /** The rule was registered from one of these rows. */
  predicate FromRow(rows: seq<Listing>, tier: Tier, r: UnsupportedRule) {
    exists k :: 0 <= k < |rows| && r.id in rows[k].ids
      && r == UnsupportedRule(r.id, rows[k].category, tier, rows[k].description)
  }

  function RegisterRow(reg: Registry, row: Listing, tier: Tier, n: nat): (r: Registry)
    requires WellFormed(reg) && n <= |row.ids|
    ensures WellFormed(r)
    ensures forall id :: id in r <==> id in reg || id in row.ids[..n]
    ensures forall id :: id in row.ids[..n] ==> r[id] == UnsupportedRule(id, row.category, tier, row.description)
    ensures forall id :: id in reg && id !in row.ids[..n] ==> r[id] == reg[id]
  {
    if n == 0 then reg
    else
      assert row.ids[..n] == row.ids[..n - 1] + [row.ids[n - 1]];
      RegisterRow(reg, row, tier, n - 1)[row.ids[n - 1] :=
        UnsupportedRule(row.ids[n - 1], row.category, tier, row.description)]
  }

  function RegisterAll(reg: Registry, rows: seq<Listing>, tier: Tier): (r: Registry)
    requires WellFormed(reg)
    ensures WellFormed(r)
  {
    if |rows| == 0 then reg
    else
      var n := |rows| - 1;
      RegisterRow(RegisterAll(reg, rows[..n], tier), rows[n], tier, |rows[n].ids|)
  }

  /** What is registered is what is listed, as listed; everything else stays. */
  lemma {:induction false} RegisteredExactly(reg: Registry, rows: seq<Listing>, tier: Tier)
    requires WellFormed(reg)
    ensures var r := RegisterAll(reg, rows, tier);
            && (forall id :: id in r <==> id in reg || Listed(rows, id))
            && (forall id :: Listed(rows, id) ==> FromRow(rows, tier, r[id]))
            && (forall id :: id in reg && !Listed(rows, id) ==> r[id] == reg[id])
  {
    if |rows| > 0 {
      var n := |rows| - 1;
      var before, row := RegisterAll(reg, rows[..n], tier), rows[n];
      RegisteredExactly(reg, rows[..n], tier);
      assert row.ids[..|row.ids|] == row.ids;
      forall id ensures Listed(rows, id) <==> Listed(rows[..n], id) || id in row.ids {
        if k :| 0 <= k < |rows| && id in rows[k].ids {
          assert k < n ==> rows[..n][k] == rows[k];
        }
        if k :| 0 <= k < n && id in rows[..n][k].ids {
          assert id in rows[k].ids;
        }
      }
      var r := RegisterAll(reg, rows, tier);
      forall id | Listed(rows, id) ensures FromRow(rows, tier, r[id]) {
        if id !in row.ids {
          var k :| 0 <= k < n && before[id].id in rows[..n][k].ids
                   && before[id] == UnsupportedRule(before[id].id, rows[..n][k].category, tier,
                      rows[..n][k].description);
          assert rows[k] == rows[..n][k];
        }
      }
    }
  }

  /** buildRegistry. */
  function BuildRegistry(): (r: Registry)
    ensures WellFormed(r)
  {
    RegisterAll(RegisterAll(map[], INCOMPATIBLE, Incompatible), REDUNDANT, Redundant)
  }

  /** The registry holds exactly the listed rules, each under its own ID, in the tier and with the text of its row. */
  lemma {:induction false} RegistryExactly(id: nat)
    ensures id in BuildRegistry() <==> Listed(INCOMPATIBLE, id) || Listed(REDUNDANT, id)
    ensures Listed(REDUNDANT, id) ==> FromRow(REDUNDANT, Redundant, BuildRegistry()[id])
    ensures Listed(INCOMPATIBLE, id) && !Listed(REDUNDANT, id) ==>
            FromRow(INCOMPATIBLE, Incompatible, BuildRegistry()[id])
  {
    hide Listed, FromRow, RegisterAll, INCOMPATIBLE, REDUNDANT;
    var first := RegisterAll(map[], INCOMPATIBLE, Incompatible);
    RegisteredExactly(map[], INCOMPATIBLE, Incompatible);
    RegisteredExactly(first, REDUNDANT, Redundant);
  }

  // ---------------------------------------------------------------------------------------------
  // Matches of \bid:['"]?(\d+)['"]?
  // ---------------------------------------------------------------------------------------------

  function DigitStart(s: string, i: nat): nat {
    if i + 3 < |s| && s[i + 3] in {'\'', '"'} then i + 4 else i + 3
  }

  /** The scanner's pattern matches at position i. */
  predicate ScanAt(s: string, i: nat) {
    && IdColonAt(s, i)
    && (i == 0 || !IsWord(s[i - 1]))
    && DigitStart(s, i) < |s| && IsDigit(s[DigitStart(s, i)])
  }

  function DigitsAt(s: string, i: nat): string
    requires ScanAt(s, i)
  {
    s[DigitStart(s, i)..DigitsEnd(s, DigitStart(s, i))]
  }

  function MatchEnd(s: string, i: nat): nat
    requires ScanAt(s, i)
  {
    var e := DigitsEnd(s, DigitStart(s, i));
    if e < |s| && s[e] in {'\'', '"'} then e + 1 else e
  }

  /** Two matches never overlap, so searching on behind each match misses none. */
  lemma {:induction false} MatchesDisjoint(s: string, i: nat, j: nat)
    requires i < j && ScanAt(s, i) && ScanAt(s, j)
    ensures MatchEnd(s, i) <= j
  {
  }

  function MatchesIn(s: string): set<string> {
    set i | 0 <= i < |s| && ScanAt(s, i) :: DigitsAt(s, i)
  }

  /** The captured digits of all matches from position i on. */
  function MatchSeq(s: string, i: nat): seq<string>
    requires i <= |s|
    decreases |s| - i
  {
    if i == |s| then []
    else if ScanAt(s, i) then [DigitsAt(s, i)] + MatchSeq(s, i + 1)
    else MatchSeq(s, i + 1)
  }

  /** FindAllStringSubmatch: after a match the search goes on behind it. */
  function Search(s: string, i: nat): seq<string>
    requires i <= |s|
    decreases |s| - i
  {
    if i == |s| then []
    else if ScanAt(s, i) then [DigitsAt(s, i)] + Search(s, MatchEnd(s, i))
    else Search(s, i + 1)
  }

  lemma {:induction false} NoMatchBetween(s: string, i: nat, j: nat)
    requires i <= j <= |s| && forall k :: i <= k < j ==> !ScanAt(s, k)
    ensures MatchSeq(s, i) == MatchSeq(s, j)
    decreases j - i
  {
    hide ScanAt;
    if i < j {
      NoMatchBetween(s, i + 1, j);
    }
  }

  /** Skipping past each match loses none. */
  lemma {:induction false} SearchFindsAll(s: string, i: nat)
    requires i <= |s|
    ensures Search(s, i) == MatchSeq(s, i)
    decreases |s| - i
  {
    hide ScanAt, DigitsAt, MatchEnd;
    if i < |s| {
      if ScanAt(s, i) {
        MatchEndsLater(s, i);
        var e := MatchEnd(s, i);
        forall k | i < k < e ensures !ScanAt(s, k) {
          if ScanAt(s, k) {
            MatchesDisjoint(s, i, k);
          }
        }
        NoMatchBetween(s, i + 1, e);
        SearchFindsAll(s, e);
      } else {
        SearchFindsAll(s, i + 1);
      }
    }
  }

  lemma {:induction false} MatchEndsLater(s: string, i: nat)
    requires ScanAt(s, i)
    ensures i < MatchEnd(s, i) <= |s|
  {
  }

  /** A match at position i or later has captured d. */
  ghost predicate Captures(s: string, i: nat, d: string) {
    exists k :: i <= k < |s| && ScanAt(s, k) && DigitsAt(s, k) == d
  }

  lemma {:induction false} CapturesNext(s: string, i: nat, d: string)
    requires i < |s|
    ensures Captures(s, i, d) <==> (ScanAt(s, i) && DigitsAt(s, i) == d) || Captures(s, i + 1, d)
  {
    hide ScanAt, DigitsAt;
    if k :| i <= k < |s| && ScanAt(s, k) && DigitsAt(s, k) == d {
      assert k == i || i + 1 <= k;
    }
  }

  lemma {:induction false} MatchSeqExact(s: string, i: nat)
    requires i <= |s|
    ensures forall d :: d in MatchSeq(s, i) <==> Captures(s, i, d)
    decreases |s| - i
  {
    hide ScanAt, DigitsAt;
    if i < |s| {
      hide Captures;
      MatchSeqExact(s, i + 1);
      forall d ensures d in MatchSeq(s, i) <==> Captures(s, i, d) {
        CapturesNext(s, i, d);
      }
    }
  }

  lemma {:induction false} MatchSeqSet(s: string)
    ensures (set d | d in MatchSeq(s, 0)) == MatchesIn(s)
  {
    MatchSeqExact(s, 0);
  }

  lemma {:induction false} DigitsEndLeft(a: string, b: string, j: nat)
    requires j <= |a|
    ensures DigitsEnd(a + "\n" + b, j) == DigitsEnd(a, j)
    decreases |a| - j
  {
    var s := a + "\n" + b;
    if j < |a| {
      assert s[j] == a[j];
      DigitsEndLeft(a, b, j + 1);
    } else {
      assert s[j] == '\n';
    }
  }

  lemma {:induction false} DigitsEndRight(a: string, b: string, j: nat)
    requires j <= |b|
    ensures DigitsEnd(a + "\n" + b, |a| + 1 + j) == |a| + 1 + DigitsEnd(b, j)
    decreases |b| - j
  {
    var s := a + "\n" + b;
    if j < |b| {
      assert s[|a| + 1 + j] == b[j];
      DigitsEndRight(a, b, j + 1);
    }
  }

  lemma {:induction false} ScanLeft(a: string, b: string, i: nat)
    requires i < |a|
    ensures ScanAt(a + "\n" + b, i) <==> ScanAt(a, i)
    ensures ScanAt(a, i) ==> DigitsAt(a + "\n" + b, i) == DigitsAt(a, i)
  {
    var s := a + "\n" + b;
    assert forall k :: 0 <= k < |a| ==> s[k] == a[k];
    assert s[|a|] == '\n';
    assert IdColonAt(s, i) <==> IdColonAt(a, i);
    if IdColonAt(a, i) {
      assert DigitStart(s, i) == DigitStart(a, i) <= |a|;
    }
    if ScanAt(a, i) {
      DigitsEndLeft(a, b, DigitStart(a, i));
      assert s[DigitStart(a, i)..DigitsEnd(a, DigitStart(a, i))] == a[DigitStart(a, i)..DigitsEnd(a, DigitStart(a, i))];
    }
  }

  /** The tail t of s begins behind a line break, at p. */
  ghost predicate TailAt(s: string, p: nat, t: string) {
    0 < p <= |s| && s[p..] == t && s[p - 1] == '\n'
  }

  lemma {:induction false} TailScan(s: string, p: nat, t: string, i: nat)
    requires TailAt(s, p, t) && i < |t|
    ensures ScanAt(s, p + i) <==> ScanAt(t, i)
    ensures DigitStart(s, p + i) == p + DigitStart(t, i)
  {
    assert s[p + i] == t[i] && (i > 0 ==> s[p + i - 1] == t[i - 1]);
    assert i + 1 < |t| ==> s[p + i + 1] == t[i + 1];
    assert i + 2 < |t| ==> s[p + i + 2] == t[i + 2];
    assert i + 3 < |t| ==> s[p + i + 3] == t[i + 3];
    assert i + 4 < |t| ==> s[p + i + 4] == t[i + 4];
  }

  lemma {:induction false} TailSlice(s: string, p: nat, t: string, d: nat, e: nat)
    requires TailAt(s, p, t) && d <= e <= |t|
    ensures s[p + d..p + e] == t[d..e]
  {
    hide IsWord, IsDigit;
    var x, y := s[p + d..p + e], t[d..e];
    assert |x| == |y|;
    assert forall k :: 0 <= k < |x| ==> x[k] == s[p + (d + k)] && y[k] == t[d + k] && t[d + k] == s[p + (d + k)];
  }

  lemma {:induction false} ScanRight(a: string, b: string, i: nat)
    requires i < |b|
    ensures ScanAt(a + "\n" + b, |a| + 1 + i) <==> ScanAt(b, i)
    ensures ScanAt(b, i) ==> DigitsAt(a + "\n" + b, |a| + 1 + i) == DigitsAt(b, i)
  {
    hide ScanAt, DigitsEnd, DigitStart;
    var s, p := a + "\n" + b, |a| + 1;
    assert TailAt(s, p, b);
    hide TailAt;
    TailScan(s, p, b, i);
    if ScanAt(b, i) {
      StartsInside(b, i);
      StartsInside(s, p + i);
      DigitsEndRight(a, b, DigitStart(b, i));
      TailSlice(s, p, b, DigitStart(b, i), DigitsEnd(b, DigitStart(b, i)));
    }
  }

  lemma {:induction false} StartsInside(s: string, i: nat)
    requires ScanAt(s, i)
    ensures DigitStart(s, i) < |s|
  {
  }

  lemma {:induction false} MatchesOfLeft(a: string, b: string)
    ensures MatchesIn(a) <= MatchesIn(a + "\n" + b)
  {
    forall i | 0 <= i < |a| && ScanAt(a, i) ensures DigitsAt(a, i) in MatchesIn(a + "\n" + b) {
      ScanLeft(a, b, i);
    }
  }

  lemma {:induction false} MatchesOfRight(a: string, b: string)
    ensures MatchesIn(b) <= MatchesIn(a + "\n" + b)
  {
    forall i | 0 <= i < |b| && ScanAt(b, i) ensures DigitsAt(b, i) in MatchesIn(a + "\n" + b) {
      ScanRight(a, b, i);
      MatchIntro(a + "\n" + b, |a| + 1 + i);
    }
  }

  lemma {:induction false} MatchIntro(s: string, i: nat)
    requires i < |s| && ScanAt(s, i)
    ensures DigitsAt(s, i) in MatchesIn(s)
  {
  }

  lemma {:induction false} MatchInPart(a: string, b: string, i: nat)
    requires i < |a + "\n" + b| && ScanAt(a + "\n" + b, i)
    ensures DigitsAt(a + "\n" + b, i) in MatchesIn(a) + MatchesIn(b)
  {
    assert (a + "\n" + b)[|a|] == '\n';
    if i < |a| {
      ScanLeft(a, b, i);
      MatchIntro(a, i);
    } else {
      ScanRight(a, b, i - |a| - 1);
      MatchIntro(b, i - |a| - 1);
    }
  }

  lemma {:induction false} MatchesOfWhole(a: string, b: string)
    ensures MatchesIn(a + "\n" + b) <= MatchesIn(a) + MatchesIn(b)
  {
    var s := a + "\n" + b;
    forall i | 0 <= i < |s| && ScanAt(s, i) ensures DigitsAt(s, i) in MatchesIn(a) + MatchesIn(b) {
      MatchInPart(a, b, i);
    }
  }

  /** A match never crosses a line break. */
  lemma {:induction false} MatchesConcat(a: string, b: string)
    ensures MatchesIn(a + "\n" + b) == MatchesIn(a) + MatchesIn(b)
  {
    MatchesOfLeft(a, b);
    MatchesOfRight(a, b);
    MatchesOfWhole(a, b);
  }

  // ---------------------------------------------------------------------------------------------
  // Numbers
  // ---------------------------------------------------------------------------------------------

  const MAX_INT := 0x7FFF_FFFF_FFFF_FFFF

  function Value(digits: string): nat {
    if digits == "" then 0
    else
      var n := |digits| - 1;
      10 * Value(digits[..n]) + if IsDigit(digits[n]) then digits[n] as int - '0' as int else 0
  }

  /** strconv.Atoi on a run of digits: it fails beyond the 64-bit range. */
  function Atoi(digits: string): Option<nat> {
    if Value(digits) <= MAX_INT then Some(Value(digits)) else None
  }

  function Numbers(ms: set<string>): set<nat> {
    set m | m in ms && Atoi(m).Some? :: Atoi(m).value
  }

  lemma {:induction false} NumbersUnion(a: set<string>, b: set<string>)
    ensures Numbers(a + b) == Numbers(a) + Numbers(b)
  {
  }

  // ---------------------------------------------------------------------------------------------
  // Active lines
  // ---------------------------------------------------------------------------------------------

  /** The line is neither blank nor a comment. */
  predicate Active(line: string) {
    var trimmed := TrimSpace(line);
    |trimmed| > 0 && trimmed[0] != '#'
  }

  /** stripCommentLines, on lines. */
  function Strip(ls: seq<string>): string {
    if |ls| == 0 then ""
    else
      var n := |ls| - 1;
      Strip(ls[..n]) + (if Active(ls[n]) then ls[n] + "\n" else "")
  }

  function ActiveMatches(ls: seq<string>): set<string> {
    set l, i | l in ls && Active(l) && 0 <= i < |l| && ScanAt(l, i) :: DigitsAt(l, i)
  }

  lemma {:induction false} ActiveMatchesConcat(a: seq<string>, b: seq<string>)
    ensures ActiveMatches(a + b) == ActiveMatches(a) + ActiveMatches(b)
  {
    assert forall l :: l in a + b <==> l in a || l in b;
  }

  lemma {:induction false} ActiveMatchesOne(l: string)
    ensures ActiveMatches([l]) == if Active(l) then MatchesIn(l) else {}
  {
    assert forall k :: k in [l] <==> k == l;
  }

  lemma {:induction false} MatchesOfEmpty()
    ensures MatchesIn("") == {}
  {
  }

  /** Scanning the stripped text finds what the active lines hold. */
  lemma {:induction false} StripMatches(ls: seq<string>)
    ensures MatchesIn(Strip(ls)) == ActiveMatches(ls)
  {
    if |ls| > 0 {
      var n := |ls| - 1;
      StripMatches(ls[..n]);
      assert ls == ls[..n] + [ls[n]];
      ActiveMatchesConcat(ls[..n], [ls[n]]);
      ActiveMatchesOne(ls[n]);
      if Active(ls[n]) {
        StripEndsInNewline(ls[..n]);
        AppendLine(Strip(ls[..n]), ls[n]);
      } else {
        assert Strip(ls) == Strip(ls[..n]);
      }
    }
  }

  lemma {:induction false} StripEndsInNewline(ls: seq<string>)
    ensures Strip(ls) == "" || Strip(ls)[|Strip(ls)| - 1] == '\n'
  {
    if |ls| > 0 {
      StripEndsInNewline(ls[..|ls| - 1]);
    }
  }

  lemma {:induction false} AppendLine(t: string, l: string)
    requires t == "" || t[|t| - 1] == '\n'
    ensures MatchesIn(t + (l + "\n")) == MatchesIn(t) + MatchesIn(l)
  {
    MatchesConcat(l, "");
    assert l + "\n" + "" == l + "\n";
    MatchesOfEmpty();
    if t == "" {
      assert t + (l + "\n") == l + "\n";
    } else {
      var h := t[..|t| - 1];
      assert t == h + "\n" + "";
      MatchesConcat(h, "");
      MatchesConcat(h, l + "\n");
      assert t + (l + "\n") == h + "\n" + (l + "\n");
    }
  }

  /** The numbers that stand as rule IDs on the active lines of a text. */
  function ActiveIDs(text: string): set<nat> {
    Numbers(ActiveMatches(Lines(text)))
  }

  // ---------------------------------------------------------------------------------------------
  // The result
  // ---------------------------------------------------------------------------------------------

  predicate Increasing(s: seq<nat>) {
    forall i, j :: 0 <= i < j < |s| ==> s[i] < s[j]
  }

  ghost function Elements<T>(s: seq<T>): set<T> {
    set x | x in s
  }

  lemma {:induction false} AllButLast(a: seq<nat>)
    requires Increasing(a) && |a| > 0
    ensures Elements(a[..|a| - 1]) == Elements(a) - {a[|a| - 1]}
    ensures a[|a| - 1] in Elements(a) && forall x :: x in Elements(a) ==> x <= a[|a| - 1]
  {
    var m := |a| - 1;
    assert a == a[..m] + [a[m]];
    forall x | x in a[..m] ensures x in a && x != a[m] {
      var k :| 0 <= k < m && a[..m][k] == x;
      assert a[k] == x && a[k] < a[m];
    }
  }

  lemma {:induction false} IncreasingUnique(a: seq<nat>, b: seq<nat>)
    requires Increasing(a) && Increasing(b) && Elements(a) == Elements(b)
    ensures a == b
  {
    assert |a| > 0 ==> a[0] in Elements(b);
    assert |b| > 0 ==> b[0] in Elements(a);
    if |a| > 0 {
      var m, n := |a| - 1, |b| - 1;
      AllButLast(a);
      AllButLast(b);
      IncreasingUnique(a[..m], b[..n]);
      assert a == a[..m] + [a[m]] && b == b[..n] + [b[n]];
    }
  }

  /** A set has a largest element. */
  lemma {:induction false} MaxExists(s: set<nat>)
    requires s != {}
    ensures exists m :: m in s && forall x :: x in s ==> x <= m
  {
    var y :| y in s;
    var t := s - {y};
    var top := y;
    if t != {} {
      MaxExists(t);
      var m :| m in t && forall x :: x in t ==> x <= m;
      top := if y > m then y else m;
    }
    assert forall x :: x in s ==> x == y || x in t;
    assert top in s && forall x :: x in s ==> x <= top;
  }

  ghost function Max(s: set<nat>): (m: nat)
    requires s != {}
    ensures m in s && forall x :: x in s ==> x <= m
  {
    MaxExists(s);
    var m :| m in s && forall x :: x in s ==> x <= m;
    m
  }

  /** The elements of a set in increasing order. */
  ghost function Ascending(s: set<nat>): (r: seq<nat>)
    ensures Increasing(r) && Elements(r) == s
  {
    if s == {} then []
    else
      var m := Max(s);
      var r := Ascending(s - {m});
      assert forall k :: 0 <= k < |r| ==> r[k] in Elements(r);
      assert forall x :: x in r + [m] <==> x in Elements(r) || x == m;
      r + [m]
  }

  ghost function RulesFor(reg: Registry, ids: seq<nat>): seq<UnsupportedRule>
    requires forall k :: 0 <= k < |ids| ==> ids[k] in reg
  {
    seq(|ids|, k requires 0 <= k < |ids| => reg[ids[k]])
  }

  /** The registry's rules among the active IDs of a text, in ascending order. */
  ghost function Check(reg: Registry, text: string): seq<UnsupportedRule> {
    var ids := Ascending(ActiveIDs(text) * reg.Keys);
    assert forall k :: 0 <= k < |ids| ==> ids[k] in Elements(ids);
    RulesFor(reg, ids)
  }

  predicate SortedByID(found: seq<UnsupportedRule>) {
    forall i, j :: 0 <= i < j < |found| ==> found[i].id < found[j].id
  }

  /** Exactness: strictly ascending, and precisely the registry rules whose ID stands on an active line. */
  ghost predicate IsScanResult(reg: Registry, text: string, found: seq<UnsupportedRule>) {
    SortedByID(found) &&
    forall r :: r in found <==> r.id in reg && reg[r.id] == r && r.id in ActiveIDs(text)
  }

  lemma {:induction false} CheckExact(reg: Registry, text: string)
    requires WellFormed(reg)
    ensures IsScanResult(reg, text, Check(reg, text))
  {
    var ids := Ascending(ActiveIDs(text) * reg.Keys);
    var found := Check(reg, text);
    assert |found| == |ids| && forall k :: 0 <= k < |ids| ==> ids[k] in Elements(ids) && found[k] == reg[ids[k]];
    forall r ensures r in found <==> r.id in reg && reg[r.id] == r && r.id in ActiveIDs(text) {
      if r in found {
        var k :| 0 <= k < |found| && found[k] == r;
      }
      if r.id in reg && reg[r.id] == r && r.id in ActiveIDs(text) {
        assert r.id in Elements(ids);
        var k :| 0 <= k < |ids| && ids[k] == r.id;
        assert found[k] == r;
      }
    }
  }

  ghost function IDs(found: seq<UnsupportedRule>): seq<nat> {
    seq(|found|, i requires 0 <= i < |found| => found[i].id)
  }

  lemma {:induction false} IDsOfResult(reg: Registry, text: string, found: seq<UnsupportedRule>)
    requires WellFormed(reg) && IsScanResult(reg, text, found)
    ensures Increasing(IDs(found)) && Elements(IDs(found)) == ActiveIDs(text) * reg.Keys
    ensures forall i :: 0 <= i < |found| ==> found[i] == reg[IDs(found)[i]]
  {
    assert forall i :: 0 <= i < |found| ==> found[i] in found;
    forall n | n in ActiveIDs(text) * reg.Keys ensures n in Elements(IDs(found)) {
      assert reg[n] in found;
      var i :| 0 <= i < |found| && found[i] == reg[n];
      assert IDs(found)[i] == n;
    }
  }

  lemma {:induction false} ScanResultUnique(reg: Registry, text: string, a: seq<UnsupportedRule>,
          b: seq<UnsupportedRule>)
    requires WellFormed(reg) && IsScanResult(reg, text, a) && IsScanResult(reg, text, b)
    ensures a == b
  {
    IDsOfResult(reg, text, a);
    IDsOfResult(reg, text, b);
    IncreasingUnique(IDs(a), IDs(b));
  }

  /** A list is the scan's result exactly when it is ascending and holds just the registry rules that occur. */
  lemma {:induction false} CheckCharacterized(reg: Registry, text: string, found: seq<UnsupportedRule>)
    requires WellFormed(reg)
    ensures found == Check(reg, text) <==> IsScanResult(reg, text, found)
  {
    CheckExact(reg, text);
    if IsScanResult(reg, text, found) {
      ScanResultUnique(reg, text, found, Check(reg, text));
    }
  }

  function ActiveLines(ls: seq<string>): set<string> {
    set l | l in ls && Active(l)
  }

  lemma {:induction false} ActiveLinesDecide(a: seq<string>, b: seq<string>)
    requires ActiveLines(a) <= ActiveLines(b)
    ensures ActiveMatches(a) <= ActiveMatches(b)
  {
    forall l, i | l in a && Active(l) && 0 <= i < |l| && ScanAt(l, i) ensures DigitsAt(l, i) in ActiveMatches(b) {
      assert l in ActiveLines(a);
    }
  }

  /** Only the set of active lines counts: comments, blank lines, order and repetition of lines change nothing. */
  lemma {:induction false} OnlyActiveLinesCount(reg: Registry, s: string, t: string)
    requires ActiveLines(Lines(s)) == ActiveLines(Lines(t))
    ensures Check(reg, s) == Check(reg, t)
  {
    ActiveLinesDecide(Lines(s), Lines(t));
    ActiveLinesDecide(Lines(t), Lines(s));
    assert ActiveIDs(s) == ActiveIDs(t);
  }

  lemma {:induction false} ActiveMatchesOfAll(texts: seq<string>, d: string)
    ensures d in ActiveMatches(AllLines(texts)) <==> exists k :: 0 <= k < |texts| && d in ActiveMatches(Lines(texts[k]))
  {
    if |texts| > 0 {
      ActiveMatchesConcat(Lines(texts[0]), AllLines(texts[1..]));
      ActiveMatchesOfAll(texts[1..], d);
      if k :| 0 <= k < |texts[1..]| && d in ActiveMatches(Lines(texts[1..][k])) {
        assert texts[k + 1] == texts[1..][k];
      }
      if k :| 1 <= k < |texts| && d in ActiveMatches(Lines(texts[k])) {
        assert texts[1..][k - 1] == texts[k];
      }
    }
  }

  lemma {:induction false} ActiveIDsOfFragments(fragments: seq<string>, n: nat)
    requires |fragments| > 0
    ensures n in ActiveIDs(Join(fragments)) <==> exists k :: 0 <= k < |fragments| && n in ActiveIDs(fragments[k])
  {
    LinesOfJoin(fragments);
    if n in ActiveIDs(Join(fragments)) {
      var d :| d in ActiveMatches(AllLines(fragments)) && Atoi(d) == Some(n);
      ActiveMatchesOfAll(fragments, d);
    }
    if k :| 0 <= k < |fragments| && n in ActiveIDs(fragments[k]) {
      var d :| d in ActiveMatches(Lines(fragments[k])) && Atoi(d) == Some(n);
      ActiveMatchesOfAll(fragments, d);
    }
  }

  /** Checking newline-joined fragments finds exactly what checking them one by one finds. */
  lemma {:induction false} CheckFragments(reg: Registry, fragments: seq<string>, r: UnsupportedRule)
    requires WellFormed(reg) && |fragments| > 0
    ensures r in Check(reg, Join(fragments)) <==> exists k :: 0 <= k < |fragments| && r in Check(reg, fragments[k])
  {
    CheckExact(reg, Join(fragments));
    ActiveIDsOfFragments(fragments, r.id);
    forall k | 0 <= k < |fragments|
      ensures r in Check(reg, fragments[k]) <==> r.id in reg && reg[r.id] == r && r.id in ActiveIDs(fragments[k])
    {
      CheckExact(reg, fragments[k]);
    }
  }

  // ---------------------------------------------------------------------------------------------
  // The source's loops
  // ---------------------------------------------------------------------------------------------

  /** stripCommentLines. */
  method StripCommentLines(rules: string) returns (b: string)
    ensures b == Strip(Lines(rules))
  {
    var lines := Lines(rules);
    b := "";
    for i := 0 to |lines|
      invariant b == Strip(lines[..i])
    {
      var trimmed := TrimSpace(lines[i]);
      assert lines[..i + 1][..i] == lines[..i];
      if |trimmed| == 0 || trimmed[0] == '#' {
        continue;
      }
      b := b + (lines[i] + "\n");
    }
    assert lines[..|lines|] == lines;
  }

  /** Where the ascending order wants a new rule. */
  function InsertByID(found: seq<UnsupportedRule>, r: UnsupportedRule): (s: seq<UnsupportedRule>)
    requires SortedByID(found) && forall q :: q in found ==> q.id != r.id
    ensures SortedByID(s)
    ensures forall q :: q in s <==> q in found || q == r
  {
    if |found| == 0 then [r]
    else if r.id < found[0].id then [r] + found
    else
      assert forall q :: q in found <==> q == found[0] || q in found[1..];
      var t := InsertByID(found[1..], r);
      assert forall k :: 0 <= k < |t| ==> t[k] in t;
      [found[0]] + t
  }

  predicate DistinctIDs(found: seq<UnsupportedRule>) {
    forall i, j :: 0 <= i < j < |found| ==> found[i].id != found[j].id
  }

  /** sort.Slice on the IDs, which are distinct here. */
  function SortByID(found: seq<UnsupportedRule>): (s: seq<UnsupportedRule>)
    requires DistinctIDs(found)
    ensures SortedByID(s)
    ensures forall q :: q in s <==> q in found
  {
    if |found| == 0 then []
    else
      assert forall q :: q in found <==> q == found[0] || q in found[1..];
      InsertByID(SortByID(found[1..]), found[0])
  }

  /** What the loop has collected from the first matches. */
  ghost predicate Collected(reg: Registry, ms: seq<string>, seen: set<nat>, found: seq<UnsupportedRule>) {
    && DistinctIDs(found)
    && seen == Numbers(Elements(ms)) * reg.Keys
    && forall r :: r in found <==> r.id in seen && reg[r.id] == r
  }

  lemma {:induction false} NumbersNext(ms: seq<string>, m: string)
    ensures Numbers(Elements(ms + [m])) == Numbers(Elements(ms)) + if Atoi(m).Some? then {Atoi(m).value} else {}
  {
    assert Elements(ms + [m]) == Elements(ms) + {m};
    NumbersUnion(Elements(ms), {m});
  }

  lemma {:induction false} CollectNext(reg: Registry, ms: seq<string>, m: string, seen: set<nat>,
          found: seq<UnsupportedRule>)
    requires WellFormed(reg) && Collected(reg, ms, seen, found)
    ensures Atoi(m).None? ==> Collected(reg, ms + [m], seen, found)
    ensures Atoi(m).Some? ==>
              var id := Atoi(m).value;
              if id !in seen && id in reg then Collected(reg, ms + [m], seen + {id}, found + [reg[id]])
              else Collected(reg, ms + [m], seen, found)
  {
    NumbersNext(ms, m);
    if Atoi(m).Some? && Atoi(m).value !in seen && Atoi(m).value in reg {
      var r := reg[Atoi(m).value];
      assert forall q :: q in found + [r] <==> q in found || q == r;
      assert forall i :: 0 <= i < |found| ==> found[i] in found;
    }
  }

  /** CheckUnsupportedRules. */
  method CheckUnsupportedRules(reg: Registry, rules: string) returns (found: seq<UnsupportedRule>)
    requires WellFormed(reg)
    ensures found == Check(reg, rules)
  {
    hide Search, MatchSeq, MatchesIn, Strip, Lines;
    var active := StripCommentLines(rules);
    var matches := Search(active, 0);
    SearchFindsAll(active, 0);
    StripMatches(Lines(rules));
    MatchSeqSet(active);
    assert Elements(matches) == ActiveMatches(Lines(rules));
    CheckExact(reg, rules);
    if |matches| == 0 {
      assert ActiveIDs(rules) == {};
      return [];
    }
    var seen: set<nat> := {};
    found := [];
    for i := 0 to |matches|
      invariant Collected(reg, matches[..i], seen, found)
    {
      assert matches[..i + 1] == matches[..i] + [matches[i]];
      CollectNext(reg, matches[..i], matches[i], seen, found);
      var id := Atoi(matches[i]);
      if id.None? {
        continue;
      }
      if id.value in seen {
        continue;
      }
      if id.value in reg {
        seen := seen + {id.value};
        found := found + [reg[id.value]];
      }
    }
    assert matches[..|matches|] == matches;
    found := SortByID(found);
    CheckCharacterized(reg, rules, found);
  }
}
