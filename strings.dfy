/**
 * The pieces of Python string building the model needs: `str()` of an integer,
 * `s * k` repetition, and the facts that let a concatenation be split back into its parts.
 */
module Strings {

  predicate IsDigit(c: char) {
    '0' <= c <= '9'
  }

  function DigitChar(d: nat): (c: char)
    requires d < 10
    ensures IsDigit(c) && (c as int) - ('0' as int) == d
  {
    (('0' as int) + d) as char
  }

  function DigitValue(c: char): nat
    requires IsDigit(c)
  {
    (c as int) - ('0' as int)
  }

  /** Python's `str(n)` for a non-negative integer: decimal digits, no leading zero. */
  function NatToString(n: nat): (s: string)
    ensures |s| >= 1
    ensures forall i :: 0 <= i < |s| ==> IsDigit(s[i])
    decreases n
  {
    if n < 10 then [DigitChar(n)] else NatToString(n / 10) + [DigitChar(n % 10)]
  }

  /** Python's `str(i)` for any integer: a minus sign, then the digits of the magnitude. */
  function IntToString(i: int): (s: string)
    ensures s != [] && (s[0] == '-' <==> i < 0) && (s[0] == '-' ==> |s| >= 2)
    ensures s[0] == '-' || IsDigit(s[0])
    ensures forall k :: 1 <= k < |s| ==> IsDigit(s[k])
    ensures forall k :: 0 <= k < |s| ==> IsNumeralChar(s[k])
  {
    if i < 0 then "-" + NatToString(-i) else NatToString(i)
  }

  /** The characters `str()` of an integer can contain. */
  predicate IsNumeralChar(c: char) {
    c == '-' || IsDigit(c)
  }

  /** Reads decimal digits back into their value. */
  function ParseNat(s: string): nat
    requires forall i :: 0 <= i < |s| ==> IsDigit(s[i])
    decreases |s|
  {
    if s == [] then 0 else 10 * ParseNat(s[..|s| - 1]) + DigitValue(s[|s| - 1])
  }

  /** Reads `str(i)` back: an optional minus sign, then digits. */
  function ParseInt(s: string): int
    requires s != [] && (s[0] == '-' ==> |s| >= 2)
    requires s[0] == '-' || IsDigit(s[0])
    requires forall i :: 1 <= i < |s| ==> IsDigit(s[i])
  {
    if s[0] == '-' then -(ParseNat(s[1..]) as int) else ParseNat(s)
  }

  lemma {:induction false} NatToStringRoundTrip(n: nat)
    ensures ParseNat(NatToString(n)) == n
    decreases n
  {
    var s := NatToString(n);
    if n >= 10 {
      NatToStringRoundTrip(n / 10);
      assert s[..|s| - 1] == NatToString(n / 10);
    }
  }

  /** `str()` of an integer reads back as the same integer. */
  lemma IntToStringRoundTrip(i: int)
    ensures ParseInt(IntToString(i)) == i
  {
    var s := IntToString(i);
    if i < 0 {
      assert s[1..] == NatToString(-i);
      NatToStringRoundTrip(-i);
    } else {
      NatToStringRoundTrip(i);
    }
  }

  /** Different integers print differently. */
  lemma IntToStringInjective(a: int, b: int)
    requires IntToString(a) == IntToString(b)
    ensures a == b
  {
    IntToStringRoundTrip(a);
    IntToStringRoundTrip(b);
  }

  /** The length of the longest prefix made of numeral characters. */
  function NumeralPrefixLength(t: string): (k: nat)
    ensures k <= |t|
    decreases |t|
  {
    if t == [] || !IsNumeralChar(t[0]) then 0 else 1 + NumeralPrefixLength(t[1..])
  }

  lemma {:induction false} NumeralPrefixOf(s: string, x: string)
    requires forall k :: 0 <= k < |s| ==> IsNumeralChar(s[k])
    requires x != [] ==> !IsNumeralChar(x[0])
    ensures NumeralPrefixLength(s + x) == |s|
    decreases |s|
  {
    if s != [] {
      assert (s + x)[1..] == s[1..] + x;
      NumeralPrefixOf(s[1..], x);
    }
  }

  /** If two strings made only of numeral characters are each followed by a rest that is empty
      or starts with a non-numeral character, the split points agree. */
  lemma SplitAfterNumeral(s1: string, x: string, s2: string, y: string)
    requires forall k :: 0 <= k < |s1| ==> IsNumeralChar(s1[k])
    requires forall k :: 0 <= k < |s2| ==> IsNumeralChar(s2[k])
    requires x != [] ==> !IsNumeralChar(x[0])
    requires y != [] ==> !IsNumeralChar(y[0])
    requires s1 + x == s2 + y
    ensures s1 == s2 && x == y
  {
    NumeralPrefixOf(s1, x);
    NumeralPrefixOf(s2, y);
    assert s1 == (s1 + x)[..|s1|];
    assert s2 == (s2 + y)[..|s2|];
  }

  /** `str(a) + x == str(b) + y`, with rests that do not continue the numeral, splits uniquely. */
  lemma SplitAfterInt(a: int, x: string, b: int, y: string)
    requires x != [] ==> !IsNumeralChar(x[0])
    requires y != [] ==> !IsNumeralChar(y[0])
    requires IntToString(a) + x == IntToString(b) + y
    ensures a == b && x == y
  {
    SplitAfterNumeral(IntToString(a), x, IntToString(b), y);
    IntToStringInjective(a, b);
  }

  /** Python's `c * k` for a one-character string `c`: empty when `k <= 0`. */
  function Repeat(c: char, k: int): (s: string)
    ensures |s| == if k <= 0 then 0 else k
    ensures forall i :: 0 <= i < |s| ==> s[i] == c
    decreases k
  {
    if k <= 0 then "" else [c] + Repeat(c, k - 1)
  }
}
