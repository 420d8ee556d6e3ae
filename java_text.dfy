/**
 * The few java.lang.String operations the pipeline relies on, over strings
 * taken as sequences of chars. Case mapping is the ASCII one.
 */
module JavaText {

  /** String.trim() treats every char at or below U+0020 as whitespace. */
  predicate IsWs(c: char) {
    c <= ' '
  }

  /** No whitespace at either end (what trim() leaves behind). */
  predicate Trimmed(s: string) {
    s == [] || (!IsWs(s[0]) && !IsWs(s[|s| - 1]))
  }

  /** Every char of s is whitespace. */
  predicate AllWs(s: string) {
    forall k :: 0 <= k < |s| ==> IsWs(s[k])
  }

  /** r occurs in s starting at position i. */
  predicate OccursAt(r: string, s: string, i: int) {
    0 <= i <= |s| - |r| && s[i..i + |r|] == r
  }

  /** r occurs in s as a contiguous run of chars. */
  ghost predicate IsInfix(r: string, s: string) {
    exists i :: OccursAt(r, s, i)
  }

  /** r is s without some whitespace at its start and some at its end. */
  ghost predicate StripsOnlyEnds(r: string, s: string) {
    exists i :: OccursAt(r, s, i) && AllWs(s[..i]) && AllWs(s[i + |r|..])
  }

  /** How many whitespace chars open s. */
  function LeadingWs(s: string): (n: nat)
    ensures n <= |s|
    ensures forall k :: 0 <= k < n ==> IsWs(s[k])
    ensures n < |s| ==> !IsWs(s[n])
  {
    if s != [] && IsWs(s[0]) then 1 + LeadingWs(s[1..]) else 0
  }

  /** How many whitespace chars close s. */
  function TrailingWs(s: string): (n: nat)
    ensures n <= |s|
    ensures forall k :: |s| - n <= k < |s| ==> IsWs(s[k])
    ensures n < |s| ==> !IsWs(s[|s| - 1 - n])
  {
    if s != [] && IsWs(s[|s| - 1]) then 1 + TrailingWs(s[..|s| - 1]) else 0
  }

  /** String.trim(): the run of s between its leading and its trailing whitespace. */
  function Trim(s: string): (r: string)
    ensures Trimmed(r)
    ensures r == [] <==> AllWs(s)
    ensures IsInfix(r, s)
  {
    var i := LeadingWs(s);
    var t := s[i..];
    var r := t[..|t| - TrailingWs(t)];
    assert OccursAt(r, s, i);
    r
  }

  /** trim() removes whitespace at the two ends of s and nothing else. */
  lemma TrimStripsOnlyEnds(s: string)
    ensures StripsOnlyEnds(Trim(s), s)
  {
    var i := LeadingWs(s);
    var t := s[i..];
    var r := t[..|t| - TrailingWs(t)];
    assert r == Trim(s);
    assert OccursAt(r, s, i);
    assert s[i + |r|..] == t[|r|..];
  }

  /** trim() leaves a string with no whitespace at either end as it is. */
  lemma TrimOfTrimmed(s: string)
    requires Trimmed(s)
    ensures Trim(s) == s
  {
  }

  /** IsInfix is transitive. */
  lemma InfixTransitive(a: string, b: string, c: string)
    requires IsInfix(a, b) && IsInfix(b, c)
    ensures IsInfix(a, c)
  {
    var i :| OccursAt(a, b, i);
    var j :| OccursAt(b, c, j);
    forall k | 0 <= k < |a| ensures c[j + i + k] == a[k] {
      assert a[k] == b[i + k] == c[j + i + k];
    }
    assert c[j + i..j + i + |a|] == a;
    assert OccursAt(a, c, j + i);
  }

  /** An infix of b is an infix of b followed by anything. */
  lemma InfixOfExtension(a: string, b: string, c: string)
    requires IsInfix(a, b)
    ensures IsInfix(a, b + c)
  {
    var i :| OccursAt(a, b, i);
    assert (b + c)[i..i + |a|] == b[i..i + |a|];
    assert OccursAt(a, b + c, i);
  }

  /** Every suffix of a string is an infix of it. */
  lemma SuffixIsInfix(s: string, i: nat)
    requires i <= |s|
    ensures IsInfix(s[i..], s)
  {
    assert OccursAt(s[i..], s, i);
  }

  /** String.startsWith(p). */
  predicate StartsWith(s: string, p: string) {
    |p| <= |s| && s[..|p|] == p
  }

  /** String.indexOf(c): the position of the first c, or -1 when there is none. */
  function IndexOf(s: string, c: char): (r: int)
    ensures -1 <= r < |s|
    ensures r == -1 <==> c !in s
    ensures r >= 0 ==> s[r] == c && c !in s[..r]
  {
    if s == [] then -1
    else if s[0] == c then 0
    else
      var k := IndexOf(s[1..], c);
      assert k >= 0 ==> s[..k + 1] == [s[0]] + s[1..][..k];
      if k == -1 then -1 else k + 1
  }

  /** Character.toUpperCase restricted to ASCII. */
  function UpperChar(c: char): char {
    if 'a' <= c <= 'z' then (c as int - 32) as char else c
  }

  /** String.toUpperCase() under ASCII case mapping. */
  function ToUpper(s: string): (r: string)
    ensures |r| == |s|
    ensures forall k :: 0 <= k < |s| ==> r[k] == UpperChar(s[k])
  {
    seq(|s|, k requires 0 <= k < |s| => UpperChar(s[k]))
  }

  /** String.equalsIgnoreCase under ASCII case mapping: same length, same chars up to case. */
  predicate EqualsIgnoreCase(a: string, b: string) {
    |a| == |b| && forall k :: 0 <= k < |a| ==> UpperChar(a[k]) == UpperChar(b[k])
  }

  /** Upper-casing twice is upper-casing once. */
  lemma ToUpperIdempotent(s: string)
    ensures ToUpper(ToUpper(s)) == ToUpper(s)
  {
  }

  /** Strings equal up to case have the same upper-case form. */
  lemma EqualsIgnoreCaseUpper(a: string, b: string)
    requires EqualsIgnoreCase(a, b)
    ensures ToUpper(a) == ToUpper(b)
  {
  }

  /** The decimal digit for d. */
  function DigitChar(d: nat): (c: char)
    requires d < 10
    ensures '0' <= c <= '9'
  {
    (d + '0' as int) as char
  }

  /** Decimal rendering of a natural number, as StringBuilder.append(int) prints it. */
  function NatToString(n: nat): (r: string)
    ensures r != []
    ensures forall k :: 0 <= k < |r| ==> '0' <= r[k] <= '9'
  {
    if n < 10 then [DigitChar(n)] else NatToString(n / 10) + [DigitChar(n % 10)]
  }

  /** The number a string of decimal digits denotes, most significant digit first. */
  function DecimalValue(s: string): int
    decreases |s|
  {
    if s == [] then 0 else 10 * DecimalValue(s[..|s| - 1]) + (s[|s| - 1] as int - '0' as int)
  }

  /** NatToString reads back to its number, and has no leading zero beyond the lone "0". */
  lemma {:induction false} NatToStringReadsBack(n: nat)
    ensures DecimalValue(NatToString(n)) == n
    ensures NatToString(n)[0] == '0' ==> n == 0
  {
    if n >= 10 {
      NatToStringReadsBack(n / 10);
      var r := NatToString(n);
      assert r[..|r| - 1] == NatToString(n / 10);
      assert r[0] == NatToString(n / 10)[0];
    }
  }

  /** Decimal rendering of an integer, with a leading minus sign when negative. */
  function IntToString(i: int): string {
    if i < 0 then "-" + NatToString(-i) else NatToString(i)
  }

  /** String.join(sep, xs). */
  function Join(xs: seq<string>, sep: string): string
    decreases |xs|
  {
    if xs == [] then ""
    else if |xs| == 1 then xs[0]
    else xs[0] + sep + Join(xs[1..], sep)
  }

  /** Java's string concatenation prints a null reference as "null". */
  function NullToString(v: string, isNull: bool): string {
    if isNull then "null" else v
  }
}
