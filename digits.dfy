/** Rendering and reading decimal numerals (Python's `str(n)` and `f"{n:05d}"`), and upper-casing
    hexadecimal text (`str.upper` on the output of `uuid.hex`). */
module Digits {

  predicate IsDigit(c: char)
  {
    '0' <= c <= '9'
  }

  predicate AllDigits(s: string)
  {
    forall i :: 0 <= i < |s| ==> IsDigit(s[i])
  }

  function DigitChar(d: nat): (c: char)
    requires d < 10
    ensures IsDigit(c)
  {
    ('0' as int + d) as char
  }

  function DigitValue(c: char): (d: nat)
    requires IsDigit(c)
    ensures d < 10 && DigitChar(d) == c
  {
    c as int - '0' as int
  }

  /** The decimal numeral of n, without leading zeros. */
  function Decimal(n: nat): (s: string)
    ensures |s| >= 1 && AllDigits(s)
    ensures n >= 10 ==> s[0] != '0'
    decreases n
  {
    if n < 10 then [DigitChar(n)] else Decimal(n / 10) + [DigitChar(n % 10)]
  }

  /** The number a numeral denotes, read most significant digit first. */
  function Value(s: string): nat
    requires AllDigits(s)
  {
    if s == [] then 0 else Value(s[..|s| - 1]) * 10 + DigitValue(s[|s| - 1])
  }

  /** Reading back a rendered numeral gives the number. */
  lemma {:induction false} ValueOfDecimal(n: nat)
    ensures Value(Decimal(n)) == n
  {
    if n >= 10 {
      ValueOfDecimal(n / 10);
      var s := Decimal(n);
      assert s[..|s| - 1] == Decimal(n / 10);
    }
  }

  /** Rendering is injective: distinct numbers have distinct numerals. */
  lemma DecimalInjective(m: nat, n: nat)
    requires Decimal(m) == Decimal(n)
    ensures m == n
  {
    ValueOfDecimal(m);
    ValueOfDecimal(n);
  }

  /** `s` left-padded with zeros to at least `width` characters (the `0N` format spec). */
  function ZeroPad(s: string, width: nat): (r: string)
    ensures |r| == if |s| >= width then |s| else width
    ensures r[|r| - |s|..] == s
    ensures forall i :: 0 <= i < |r| - |s| ==> r[i] == '0'
    decreases width - |s|
  {
    if |s| >= width then s
    else
      var t := ['0'] + s;
      var r := ZeroPad(t, width);
      var k := |r| - |t|;
      assert r[k..] == t;
      assert r[k + 1..] == t[1..] == s;
      assert r[k] == '0' by {
        assert r[k..][0] == t[0];
      }
      r
  }

  /** A leading zero does not change the value of a numeral. */
  lemma {:induction false} ValueLeadingZero(s: string)
    requires AllDigits(s)
    ensures AllDigits(['0'] + s) && Value(['0'] + s) == Value(s)
  {
    if s != [] {
      var t := ['0'] + s;
      assert t[..|t| - 1] == ['0'] + s[..|s| - 1];
      ValueLeadingZero(s[..|s| - 1]);
    }
  }

  /** Zero padding keeps the value of a numeral. */
  lemma {:induction false} ValueOfZeroPad(s: string, width: nat)
    requires AllDigits(s)
    ensures AllDigits(ZeroPad(s, width)) && Value(ZeroPad(s, width)) == Value(s)
    decreases width - |s|
  {
    if |s| < width {
      ValueLeadingZero(s);
      ValueOfZeroPad(['0'] + s, width);
    }
  }

  predicate IsLowerHex(c: char)
  {
    IsDigit(c) || 'a' <= c <= 'f'
  }

  predicate IsUpperHex(c: char)
  {
    IsDigit(c) || 'A' <= c <= 'F'
  }

  function UpperChar(c: char): (u: char)
    requires IsLowerHex(c)
    ensures IsUpperHex(u)
    ensures IsDigit(c) ==> u == c
    ensures 'a' <= c <= 'f' ==> u == (c as int - 32) as char
  {
    match c
    case 'a' => 'A'
    case 'b' => 'B'
    case 'c' => 'C'
    case 'd' => 'D'
    case 'e' => 'E'
    case 'f' => 'F'
    case _ => c
  }

  /** Python's `str.upper`, restricted to the characters that `uuid.hex` produces. */
  function UpperHex(s: string): (r: string)
    requires forall i :: 0 <= i < |s| ==> IsLowerHex(s[i])
    ensures |r| == |s|
    ensures forall i :: 0 <= i < |r| ==> IsUpperHex(r[i])
    ensures forall i :: 0 <= i < |r| ==> (IsDigit(s[i]) ==> r[i] == s[i])
    ensures forall i :: 0 <= i < |r| ==> ('a' <= s[i] <= 'f' ==> r[i] == (s[i] as int - 32) as char)
  {
    if s == [] then []
    else
      [UpperChar(s[0])] + UpperHex(s[1..])
  }
}
