/**
 * The C library behaviour the core relies on: integer division as C99
 * defines it (truncation toward zero), `atoi` and `strcasecmp`.
 * Strings are `seq<char>` without a terminating NUL.
 */
module CLib {

  /**
   * C's `a / b` for a positive divisor: the quotient is truncated toward
   * zero, so the remainder takes the sign of the dividend.
   */
  function TruncDiv(a: int, b: int): (q: int)
    requires b > 0
    ensures a >= 0 ==> q >= 0 && 0 <= a - q * b < b
    ensures a < 0 ==> q <= 0 && -b < a - q * b <= 0
  {
    if a >= 0 then DivFacts(a, b); a / b
    else DivFacts(-a, b); -((-a) / b)
  }

  /** Euclidean division of a natural number by a positive one. */
  lemma DivFacts(n: nat, b: int)
    requires b > 0
    ensures n / b >= 0 && (n / b) * b + n % b == n && 0 <= n % b < b
  {
  }

  /** isspace in the C locale: blank, \t, \n, \v, \f, \r. */
  predicate IsSpace(c: char)
  {
    c == ' ' || ('\t' <= c <= '\r')
  }

  predicate IsDigit(c: char)
  {
    '0' <= c <= '9'
  }

  function DigitValue(c: char): (d: nat)
    requires IsDigit(c)
    ensures d < 10
  {
    (c as int) - ('0' as int)
  }

  function DigitChar(d: nat): (c: char)
    requires d < 10
    ensures IsDigit(c) && DigitValue(c) == d
  {
    (('0' as int) + d) as char
  }

  /** Leading white space removed. */
  function SkipSpace(s: string): (r: string)
    ensures |r| <= |s| && r == s[|s| - |r|..]
    ensures r == [] || !IsSpace(r[0])
    ensures forall i :: 0 <= i < |s| - |r| ==> IsSpace(s[i])
  {
    if s != [] && IsSpace(s[0]) then SkipSpace(s[1..]) else s
  }

  /** The longest prefix made of decimal digits. */
  function DigitPrefix(s: string): (r: string)
    ensures |r| <= |s| && r == s[..|r|]
    ensures forall i :: 0 <= i < |r| ==> IsDigit(r[i])
    ensures |r| == |s| || !IsDigit(s[|r|])
  {
    if s != [] && IsDigit(s[0]) then [s[0]] + DigitPrefix(s[1..]) else []
  }

  /** The value of a string of decimal digits, most significant first. */
  function DecimalValue(d: string): nat
    requires forall i :: 0 <= i < |d| ==> IsDigit(d[i])
  {
    if d == [] then 0 else 10 * DecimalValue(d[..|d| - 1]) + DigitValue(d[|d| - 1])
  }

  /**
   * atoi: skip white space, take an optional sign, then as many digits as
   * follow.  Overflow, which C leaves undefined, is not modelled.
   */
  function Atoi(s: string): (r: int)
    ensures var t := SkipSpace(s);
      (t == [] || !(IsDigit(t[0]) || t[0] == '-' || t[0] == '+')) ==> r == 0
    ensures r < 0 ==> SkipSpace(s) != [] && SkipSpace(s)[0] == '-'
  {
    SignedValue(SkipSpace(s))
  }

  /** An optional sign, then the value of the digits that follow it. */
  function SignedValue(t: string): int
  {
    if t != [] && t[0] == '-' then -(UnsignedValue(t[1..]) as int)
    else if t != [] && t[0] == '+' then UnsignedValue(t[1..])
    else UnsignedValue(t)
  }

  /** The value of the digits at the start of `t`; 0 when there are none. */
  function UnsignedValue(t: string): nat
  {
    DecimalValue(DigitPrefix(t))
  }

  /** The decimal rendering of a natural number, without leading zeros. */
  function NatToDecimal(n: nat): (r: string)
    ensures r != [] && forall i :: 0 <= i < |r| ==> IsDigit(r[i])
  {
    if n < 10 then [DigitChar(n)] else NatToDecimal(n / 10) + [DigitChar(n % 10)]
  }

  /** The decimal rendering of an integer, with a '-' for negative values. */
  function IntToDecimal(i: int): string
  {
    if i < 0 then "-" + NatToDecimal(-i) else NatToDecimal(i)
  }

  lemma {:induction false} DecimalValueOfNat(n: nat)
    ensures DecimalValue(NatToDecimal(n)) == n
  {
    if n >= 10 {
      var r := NatToDecimal(n);
      assert r[..|r| - 1] == NatToDecimal(n / 10);
      DecimalValueOfNat(n / 10);
    }
  }

  lemma {:induction false} DigitPrefixOfDigits(d: string, rest: string)
    requires forall i :: 0 <= i < |d| ==> IsDigit(d[i])
    requires rest == [] || !IsDigit(rest[0])
    ensures DigitPrefix(d + rest) == d
  {
    if d != [] {
      assert (d + rest)[1..] == d[1..] + rest;
      DigitPrefixOfDigits(d[1..], rest);
    } else {
      assert d + rest == rest;
    }
  }

  /** The digits of a numeral followed by a non-digit have the numeral's value. */
  lemma UnsignedOfDigits(d: string, rest: string)
    requires forall i :: 0 <= i < |d| ==> IsDigit(d[i])
    requires rest == [] || !IsDigit(rest[0])
    ensures UnsignedValue(d + rest) == DecimalValue(d)
  {
    DigitPrefixOfDigits(d, rest);
  }

  /** A string that starts with a digit or a sign has no white space to skip. */
  lemma NoSpaceToSkip(s: string)
    requires s != [] && (IsDigit(s[0]) || s[0] == '-')
    ensures SkipSpace(s) == s
  {
  }

  /** Without a sign, the value is that of the leading digits. */
  lemma SignedOfDigitStart(t: string)
    requires t != [] && IsDigit(t[0])
    ensures SignedValue(t) == UnsignedValue(t)
  {
  }

  /** atoi of a numeral without sign, followed by a non-digit, is the numeral's value. */
  lemma AtoiOfDigits(d: string, rest: string)
    requires d != [] && forall i :: 0 <= i < |d| ==> IsDigit(d[i])
    requires rest == [] || !IsDigit(rest[0])
    ensures Atoi(d + rest) == DecimalValue(d)
  {
    var s := d + rest;
    assert IsDigit(s[0]) by {
      assert s[0] == d[0];
    }
    NoSpaceToSkip(s);
    SignedOfDigitStart(s);
    UnsignedOfDigits(d, rest);
  }

  /** atoi of '-' and a numeral, followed by a non-digit, is minus the numeral's value. */
  lemma AtoiOfNegative(d: string, rest: string)
    requires forall i :: 0 <= i < |d| ==> IsDigit(d[i])
    requires rest == [] || !IsDigit(rest[0])
    ensures Atoi(['-'] + (d + rest)) == -(DecimalValue(d) as int)
  {
    var s := ['-'] + (d + rest);
    NoSpaceToSkip(s);
    assert s[1..] == d + rest;
    UnsignedOfDigits(d, rest);
  }

  /**
   * atoi reads back what the decimal rendering of an integer writes, and
   * stops at the first character that is not a digit.
   */
  lemma {:induction false} AtoiReadsDecimal(i: int, rest: string)
    requires rest == [] || !IsDigit(rest[0])
    ensures Atoi(IntToDecimal(i) + rest) == i
  {
    if i < 0 {
      var d := NatToDecimal(-i);
      DecimalValueOfNat(-i);
      assert IntToDecimal(i) + rest == ['-'] + (d + rest) by {
        assert IntToDecimal(i) == ['-'] + d;
      }
      AtoiOfNegative(d, rest);
    } else {
      DecimalValueOfNat(i);
      AtoiOfDigits(NatToDecimal(i), rest);
    }
  }

  /** tolower in the C locale: only 'A'..'Z' change. */
  function ToLower(c: char): (r: char)
    ensures !('A' <= r <= 'Z')
    ensures 'a' <= r <= 'z' <==> 'A' <= c <= 'Z' || 'a' <= c <= 'z'
    ensures !('A' <= c <= 'Z') ==> r == c
  {
    if 'A' <= c <= 'Z' then (c as int + 32) as char else c
  }

  /** `strcasecmp(a, b) == 0`: compare character by character after tolower. */
  function StrCaseEqual(a: string, b: string): (r: bool)
    ensures r ==> |a| == |b|
    ensures a == b ==> r
  {
    if a == [] || b == [] then a == [] && b == []
    else ToLower(a[0]) == ToLower(b[0]) && StrCaseEqual(a[1..], b[1..])
  }

  /** Two strings compare equal ignoring case exactly when they agree position by position after tolower. */
  lemma {:induction false} StrCaseEqualMeans(a: string, b: string)
    ensures StrCaseEqual(a, b) <==> |a| == |b| && forall i :: 0 <= i < |a| ==> ToLower(a[i]) == ToLower(b[i])
  {
    if a != [] && b != [] {
      StrCaseEqualMeans(a[1..], b[1..]);
      if |a| == |b| && forall i :: 0 <= i < |a| ==> ToLower(a[i]) == ToLower(b[i]) {
        assert forall i :: 0 <= i < |a| - 1 ==> ToLower(a[1..][i]) == ToLower(b[1..][i]) by {
          forall i | 0 <= i < |a| - 1 ensures ToLower(a[1..][i]) == ToLower(b[1..][i]) {
            assert ToLower(a[i + 1]) == ToLower(b[i + 1]);
          }
        }
      }
    }
  }
}
