/** Python string operations the pipeline relies on: `str.replace`,
    `str.split`, `sep.join`, `"*" * n` and `str(n)` for a non-negative integer. */
module Text {

  /** `pat` occurs in `s` at index `i`. */
  predicate OccursAt(s: string, pat: string, i: int) {
    0 <= i && i + |pat| <= |s| && s[i..i + |pat|] == pat
  }

  /** Python's `pat in s`. */
  ghost predicate Contains(s: string, pat: string) {
    exists i :: OccursAt(s, pat, i)
  }

  /** `s.replace("", rep)`: `rep` before every character and once at the end. */
  function Interleave(s: string, rep: string): (r: string)
    ensures |r| == |s| + (|s| + 1) * |rep|
    ensures rep == [] ==> r == s
  {
    if s == [] then rep else rep + [s[0]] + Interleave(s[1..], rep)
  }

  /** Python's `s.replace(pat, rep)`: scanning left to right, every
      non-overlapping occurrence of `pat` is replaced by `rep`. */
  function ReplaceAll(s: string, pat: string, rep: string): (r: string)
    ensures pat == rep ==> r == s
    ensures |pat| == |rep| ==> |r| == |s|
    decreases |s|
  {
    if pat == [] then Interleave(s, rep)
    else if |s| < |pat| then s
    else if s[..|pat|] == pat then rep + ReplaceAll(s[|pat|..], pat, rep)
    else [s[0]] + ReplaceAll(s[1..], pat, rep)
  }

  /** A text in which a (non-empty) pattern does not occur is left unchanged. */
  lemma {:induction false} ReplaceAllAbsent(s: string, pat: string, rep: string)
    requires |pat| > 0 && !Contains(s, pat)
    ensures ReplaceAll(s, pat, rep) == s
    decreases |s|
  {
    if |s| >= |pat| {
      assert !OccursAt(s, pat, 0);
      assert s[..|pat|] != pat;
      forall i | OccursAt(s[1..], pat, i) ensures OccursAt(s, pat, i + 1) {
        assert s[1..][i..i + |pat|] == s[i + 1..i + 1 + |pat|];
      }
      ReplaceAllAbsent(s[1..], pat, rep);
    }
  }

  /** `sep.join(parts)`. */
  function Join(parts: seq<string>, sep: string): (r: string)
    ensures |parts| == 1 ==> r == parts[0]
  {
    if |parts| == 0 then []
    else if |parts| == 1 then parts[0]
    else parts[0] + sep + Join(parts[1..], sep)
  }

  /** `s.split(pat)` for a non-empty `pat`, with `cur` the piece collected so far. */
  function SplitFrom(s: string, pat: string, cur: string): (parts: seq<string>)
    requires |pat| > 0
    ensures |parts| >= 1
    decreases |s|
  {
    if |s| < |pat| then [cur + s]
    else if s[..|pat|] == pat then [cur] + SplitFrom(s[|pat|..], pat, [])
    else SplitFrom(s[1..], pat, cur + [s[0]])
  }

  function Split(s: string, pat: string): seq<string>
    requires |pat| > 0
  {
    SplitFrom(s, pat, [])
  }

  lemma {:induction false} ReplaceAllIsJoinOfSplitFrom(s: string, pat: string, rep: string, cur: string)
    requires |pat| > 0
    ensures cur + ReplaceAll(s, pat, rep) == Join(SplitFrom(s, pat, cur), rep)
    decreases |s|
  {
    if |s| < |pat| {
    } else if s[..|pat|] == pat {
      var rest := SplitFrom(s[|pat|..], pat, []);
      ReplaceAllIsJoinOfSplitFrom(s[|pat|..], pat, rep, []);
      assert [] + ReplaceAll(s[|pat|..], pat, rep) == ReplaceAll(s[|pat|..], pat, rep);
      assert ([cur] + rest)[1..] == rest;
    } else {
      ReplaceAllIsJoinOfSplitFrom(s[1..], pat, rep, cur + [s[0]]);
      assert cur + ([s[0]] + ReplaceAll(s[1..], pat, rep)) == (cur + [s[0]]) + ReplaceAll(s[1..], pat, rep);
    }
  }

  /** Python's identity `s.replace(pat, rep) == rep.join(s.split(pat))`. */
  lemma ReplaceAllIsJoinOfSplit(s: string, pat: string, rep: string)
    requires |pat| > 0
    ensures ReplaceAll(s, pat, rep) == Join(Split(s, pat), rep)
  {
    ReplaceAllIsJoinOfSplitFrom(s, pat, rep, []);
    assert [] + ReplaceAll(s, pat, rep) == ReplaceAll(s, pat, rep);
  }

  /** Joining the pieces back with the pattern restores the text. */
  lemma SplitJoinRoundTrip(s: string, pat: string)
    requires |pat| > 0
    ensures Join(Split(s, pat), pat) == s
  {
    ReplaceAllIsJoinOfSplit(s, pat, pat);
  }

  lemma {:induction false} SplitFromPiecesFree(s: string, pat: string, cur: string)
    requires |pat| > 0
    requires forall i :: 0 <= i < |cur| ==> !OccursAt(cur + s, pat, i)
    ensures forall p :: p in SplitFrom(s, pat, cur) ==> !Contains(p, pat)
    decreases |s|
  {
    if |s| < |pat| {
      forall i ensures !OccursAt(cur + s, pat, i) {
      }
    } else if s[..|pat|] == pat {
      forall i | 0 <= i < |cur| ensures !OccursAt(cur, pat, i) {
        if i + |pat| <= |cur| {
          OccursAtPrefix(cur, s, pat, i);
        }
      }
      SplitFromPiecesFree(s[|pat|..], pat, []);
    } else {
      var cur' := cur + [s[0]];
      assert cur' + s[1..] == cur + s;
      assert !OccursAt(cur + s, pat, |cur|) by {
        assert (cur + s)[|cur|..|cur| + |pat|] == s[..|pat|];
      }
      SplitFromPiecesFree(s[1..], pat, cur');
    }
  }

  lemma OccursAtPrefix(a: string, b: string, pat: string, i: int)
    requires 0 <= i && i + |pat| <= |a|
    ensures OccursAt(a, pat, i) <==> OccursAt(a + b, pat, i)
  {
    assert (a + b)[i..i + |pat|] == a[i..i + |pat|];
  }

  /** The pieces between the replaced occurrences contain no occurrence of
      the pattern: `replace` leaves no occurrence of `pat` from the original
      text behind. */
  lemma SplitPiecesFree(s: string, pat: string)
    requires |pat| > 0
    ensures forall p :: p in Split(s, pat) ==> !Contains(p, pat)
  {
    SplitFromPiecesFree(s, pat, []);
  }

  /** `c * n` for a one-character string `c`. */
  function Repeat(c: char, n: nat): (r: string)
    ensures |r| == n && forall i :: 0 <= i < n ==> r[i] == c
  {
    seq(n, _ => c)
  }

  predicate IsDigit(c: char) {
    '0' <= c <= '9'
  }

  predicate AllDigits(s: string) {
    forall i :: 0 <= i < |s| ==> IsDigit(s[i])
  }

  function DigitChar(d: nat): (c: char)
    requires d < 10
    ensures IsDigit(c)
  {
    "0123456789"[d]
  }

  function DigitValue(c: char): nat
    requires IsDigit(c)
  {
    c as nat - '0' as nat
  }

  /** `str(n)` for a non-negative integer: decimal digits, no leading zero. */
  function Decimal(n: nat): (r: string)
    ensures |r| >= 1 && AllDigits(r)
    ensures r[0] == '0' ==> n == 0
    decreases n
  {
    if n < 10 then [DigitChar(n)] else Decimal(n / 10) + [DigitChar(n % 10)]
  }

  /** `int(s)` for a string of decimal digits. */
  function ParseDecimal(s: string): nat
    requires AllDigits(s)
  {
    if s == [] then 0 else 10 * ParseDecimal(s[..|s| - 1]) + DigitValue(s[|s| - 1])
  }

  lemma {:induction false} ParseDecimalOfDecimal(n: nat)
    ensures ParseDecimal(Decimal(n)) == n
    decreases n
  {
    var r := Decimal(n);
    if n >= 10 {
      ParseDecimalOfDecimal(n / 10);
      assert r[..|r| - 1] == Decimal(n / 10);
    }
  }

  /** Numbers below 10^k take at most k digits (k >= 1: zero takes one). */
  lemma {:induction false} DecimalLength(n: nat, k: nat)
    requires k >= 1 && n < Pow10(k)
    ensures |Decimal(n)| <= k
    decreases k
  {
    if n >= 10 {
      assert k >= 2;
      assert n / 10 < Pow10(k - 1);
      DecimalLength(n / 10, k - 1);
    }
  }

  function Pow10(k: nat): (p: nat)
    ensures p >= 1
  {
    if k == 0 then 1 else 10 * Pow10(k - 1)
  }
}
