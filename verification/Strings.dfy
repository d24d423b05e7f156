/**
 * The handful of JavaScript string operations the command-line tool relies
 * on, written out over `seq<char>`: `startsWith`, `indexOf`, `split` on a
 * one-character separator, `join`, `replace` with a string pattern, the
 * global-regex replace of a literal pattern, `trim`, and decimal rendering of
 * numbers (`String(n)`, template-literal interpolation).
 */
module Strings {
  import opened Wrappers

  predicate StartsWith(s: string, prefix: string) {
    |prefix| <= |s| && s[..|prefix|] == prefix
  }

  /** `pat` occurs in `s` starting at index `i`. */
  predicate OccursAt(s: string, pat: string, i: int) {
    0 <= i && i + |pat| <= |s| && s[i..i + |pat|] == pat
  }

  predicate Contains(s: string, pat: string) {
    exists i | 0 <= i <= |s| :: OccursAt(s, pat, i)
  }

  /** First index at or after `from` where `pat` occurs. */
  function IndexFrom(s: string, pat: string, from: nat): (r: Option<nat>)
    ensures r.Some? ==> from <= r.value && OccursAt(s, pat, r.value)
    ensures r.Some? ==> forall j :: from <= j < r.value ==> !OccursAt(s, pat, j)
    ensures r.None? ==> forall j :: from <= j ==> !OccursAt(s, pat, j)
    decreases |s| - from
  {
    if from + |pat| > |s| then None
    else if s[from..from + |pat|] == pat then Some(from)
    else IndexFrom(s, pat, from + 1)
  }

  /** JavaScript's `s.indexOf(pat)`, with `None` for -1. */
  function IndexOf(s: string, pat: string): (r: Option<nat>)
    ensures r.Some? <==> Contains(s, pat)
    ensures r.Some? ==> OccursAt(s, pat, r.value) && forall j :: 0 <= j < r.value ==> !OccursAt(s, pat, j)
  {
    IndexFrom(s, pat, 0)
  }

  /** First index of the character `c` in `s`. */
  function IndexOfChar(s: string, c: char): (r: Option<nat>)
    ensures r.Some? ==> r.value < |s| && s[r.value] == c && c !in s[..r.value]
    ensures r.None? <==> c !in s
  {
    if |s| == 0 then None
    else if s[0] == c then Some(0)
    else match IndexOfChar(s[1..], c)
      case None => None
      case Some(i) => Some(i + 1)
  }

  /** JavaScript's `s.split(sep)` for a one-character separator. */
  function Split(s: string, sep: char): (parts: seq<string>)
    ensures |parts| >= 1
    ensures forall k :: 0 <= k < |parts| ==> sep !in parts[k]
    decreases |s|
  {
    match IndexOfChar(s, sep)
    case None => [s]
    case Some(i) => [s[..i]] + Split(s[i + 1..], sep)
  }

  /** JavaScript's `parts.join(sep)`. */
  function Join(parts: seq<string>, sep: string): string {
    if |parts| == 0 then ""
    else if |parts| == 1 then parts[0]
    else parts[0] + sep + Join(parts[1..], sep)
  }

  /** Joining the pieces of a split with the separator gives back the original text. */
  lemma {:induction false} JoinSplit(s: string, sep: char)
    ensures Join(Split(s, sep), [sep]) == s
    decreases |s|
  {
    match IndexOfChar(s, sep)
    case None =>
    case Some(i) =>
      var rest := Split(s[i + 1..], sep);
      JoinSplit(s[i + 1..], sep);
      assert Split(s, sep) == [s[..i]] + rest;
      assert s == s[..i] + [sep] + s[i + 1..];
  }

  /** The first occurrence of `c` is the position before which `c` does not appear. */
  lemma {:induction false} IndexOfCharAt(s: string, c: char, k: nat)
    requires k < |s| && s[k] == c && c !in s[..k]
    ensures IndexOfChar(s, c) == Some(k)
  {
    if k > 0 {
      assert s[0] in s[..k];
      assert s[1..][k - 1] == s[k];
      assert s[1..][..k - 1] == s[1..k];
      IndexOfCharAt(s[1..], c, k - 1);
    }
  }

  /** Splitting at the first separator. */
  lemma SplitAt(s: string, sep: char, i: nat)
    requires IndexOfChar(s, sep) == Some(i)
    ensures Split(s, sep) == [s[..i]] + Split(s[i + 1..], sep)
  {
  }

  /** The first separator of `a + sep + b` is the first of `a`, or the one added. */
  lemma FirstSeparator(a: string, sep: char, b: string)
    ensures IndexOfChar(a, sep).None? ==> IndexOfChar(a + [sep] + b, sep) == Some(|a|)
    ensures IndexOfChar(a, sep).Some? ==> IndexOfChar(a + [sep] + b, sep) == IndexOfChar(a, sep)
  {
    var s := a + [sep] + b;
    match IndexOfChar(a, sep)
    case None =>
      assert s[..|a|] == a;
      IndexOfCharAt(s, sep, |a|);
    case Some(i) =>
      assert s[..i] == a[..i];
      IndexOfCharAt(s, sep, i);
  }

  /** A split of `a + sep + b` is the split of `a` followed by the split of `b`. */
  lemma {:induction false} SplitAround(a: string, sep: char, b: string)
    ensures Split(a + [sep] + b, sep) == Split(a, sep) + Split(b, sep)
    decreases |a|
  {
    var s := a + [sep] + b;
    FirstSeparator(a, sep, b);
    match IndexOfChar(a, sep)
    case None =>
      SplitAt(s, sep, |a|);
      assert s[..|a|] == a;
      assert s[|a| + 1..] == b;
    case Some(i) =>
      SplitAt(s, sep, i);
      SplitAt(a, sep, i);
      var tail := a[i + 1..];
      assert s[..i] == a[..i];
      assert s[i + 1..] == tail + [sep] + b;
      SplitAround(tail, sep, b);
      ConsAssoc(a[..i], Split(tail, sep), Split(b, sep));
  }

  lemma ConsAssoc<T>(x: T, p: seq<T>, q: seq<T>)
    ensures [x] + (p + q) == ([x] + p) + q
  {
  }

  /** JavaScript's `s.replace(pat, val)` with a string pattern: only the first occurrence is replaced. */
  function ReplaceFirst(s: string, pat: string, val: string): (r: string)
    ensures !Contains(s, pat) ==> r == s
    ensures Contains(s, pat) ==> exists i :: OccursAt(s, pat, i)
                                           && (forall j :: 0 <= j < i ==> !OccursAt(s, pat, j))
                                           && r == s[..i] + val + s[i + |pat|..]
  {
    match IndexOf(s, pat)
    case None => s
    case Some(i) => s[..i] + val + s[i + |pat|..]
  }

  /**
   * `s.replace(new RegExp(pat, "g"), val)` for a pattern that matches
   * literally: every occurrence, scanning left to right without overlap;
   * replacement text is never rescanned.
   */
  function ReplaceAll(s: string, pat: string, val: string): string
    requires |pat| > 0
    decreases |s|
  {
    if |s| < |pat| then s
    else if s[..|pat|] == pat then val + ReplaceAll(s[|pat|..], pat, val)
    else [s[0]] + ReplaceAll(s[1..], pat, val)
  }

  /** Text with no occurrence of the pattern passes through a global replace unchanged. */
  lemma {:induction false} ReplaceAllAbsent(s: string, pat: string, val: string)
    requires |pat| > 0
    requires !Contains(s, pat)
    ensures ReplaceAll(s, pat, val) == s
    decreases |s|
  {
    if |s| >= |pat| {
      assert !OccursAt(s, pat, 0);
      assert !Contains(s[1..], pat) by {
        forall i | OccursAt(s[1..], pat, i)
          ensures false
        {
          assert s[1..][i..i + |pat|] == s[i + 1..i + 1 + |pat|];
          assert OccursAt(s, pat, i + 1);
        }
      }
      ReplaceAllAbsent(s[1..], pat, val);
    }
  }

  /** Replacing every occurrence of a pattern by itself changes nothing. */
  lemma {:induction false} ReplaceAllSelf(s: string, pat: string)
    requires |pat| > 0
    ensures ReplaceAll(s, pat, pat) == s
    decreases |s|
  {
    if |s| >= |pat| {
      if s[..|pat|] == pat {
        ReplaceAllSelf(s[|pat|..], pat);
        assert s == s[..|pat|] + s[|pat|..];
      } else {
        ReplaceAllSelf(s[1..], pat);
        assert s == [s[0]] + s[1..];
      }
    }
  }

  predicate IsDigit(c: char) {
    '0' <= c <= '9'
  }

  predicate AllDigits(s: string) {
    forall k :: 0 <= k < |s| ==> IsDigit(s[k])
  }

  function DigitChar(d: nat): char
    requires d < 10
  {
    ['0', '1', '2', '3', '4', '5', '6', '7', '8', '9'][d]
  }

  function DigitValue(c: char): nat
    requires IsDigit(c)
  {
    (c as int - '0' as int) as nat
  }

  /** Value of a string of decimal digits. */
  function DigitsValue(s: string): nat
    requires AllDigits(s)
  {
    if |s| == 0 then 0 else DigitsValue(s[..|s| - 1]) * 10 + DigitValue(s[|s| - 1])
  }

  /** Decimal digits without a superfluous leading zero: how JavaScript prints an integer. */
  predicate CanonicalDecimal(s: string) {
    |s| >= 1 && AllDigits(s) && (s[0] != '0' || |s| == 1)
  }

  /** `String(n)` for a non-negative integer. */
  function NatToDecimal(n: nat): (r: string)
    ensures CanonicalDecimal(r)
    ensures DigitsValue(r) == n
  {
    if n < 10 then [DigitChar(n)]
    else
      var prefix := NatToDecimal(n / 10);
      var r := prefix + [DigitChar(n % 10)];
      assert r[..|r| - 1] == prefix;
      r
  }

  /** `String(i)` for any integer. */
  function IntToDecimal(i: int): string {
    if i < 0 then "-" + NatToDecimal(-i) else NatToDecimal(i)
  }

  /** The array index a property key names, when it is a canonical decimal. */
  function ParseIndex(key: string): (r: Option<nat>)
    ensures r.Some? <==> CanonicalDecimal(key)
  {
    if CanonicalDecimal(key) then Some(DigitsValue(key)) else None
  }

  /** Rendering an index and parsing it back gives the index. */
  lemma IndexRoundTrip(n: nat)
    ensures ParseIndex(NatToDecimal(n)) == Some(n)
  {
  }

  /** Different indices render as different keys. */
  lemma NatToDecimalInjective(m: nat, n: nat)
    requires NatToDecimal(m) == NatToDecimal(n)
    ensures m == n
  {
    IndexRoundTrip(m);
    IndexRoundTrip(n);
  }

  /** The characters JavaScript's `trim` removes: WhiteSpace and LineTerminator. */
  predicate IsJsSpace(c: char) {
    c == '\t' || c == '\n' || c == '\U{B}' || c == '\U{C}' || c == '\r' || c == ' '
    || c == '\U{A0}' || c == '\U{1680}' || ('\U{2000}' <= c <= '\U{200A}')
    || c == '\U{2028}' || c == '\U{2029}' || c == '\U{202F}' || c == '\U{205F}'
    || c == '\U{3000}' || c == '\U{FEFF}'
  }

  /** Index of the first non-space character of `s` at or after `i` (or `|s|`). */
  function SkipSpace(s: string, i: nat): (r: nat)
    requires i <= |s|
    ensures i <= r <= |s|
    ensures forall k :: i <= k < r ==> IsJsSpace(s[k])
    ensures r < |s| ==> !IsJsSpace(s[r])
    decreases |s| - i
  {
    if i == |s| || !IsJsSpace(s[i]) then i else SkipSpace(s, i + 1)
  }

  /** One past the last non-space character of `s` before `j` and at or after `lo` (or `lo`). */
  function SkipSpaceBack(s: string, lo: nat, j: nat): (r: nat)
    requires lo <= j <= |s|
    ensures lo <= r <= j
    ensures forall k :: r <= k < j ==> IsJsSpace(s[k])
    ensures r > lo ==> !IsJsSpace(s[r - 1])
    decreases j
  {
    if j == lo || !IsJsSpace(s[j - 1]) then j else SkipSpaceBack(s, lo, j - 1)
  }

  /** JavaScript's `s.trim()`. */
  function Trim(s: string): (r: string)
    ensures exists i, j :: 0 <= i <= j <= |s| && r == s[i..j]
                        && (forall k :: 0 <= k < i ==> IsJsSpace(s[k]))
                        && (forall k :: j <= k < |s| ==> IsJsSpace(s[k]))
    ensures |r| > 0 ==> !IsJsSpace(r[0]) && !IsJsSpace(r[|r| - 1])
  {
    var i := SkipSpace(s, 0);
    var j := SkipSpaceBack(s, i, |s|);
    assert forall k :: j <= k < |s| ==> IsJsSpace(s[k]);
    s[i..j]
  }
}
