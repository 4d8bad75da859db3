/**
 * Decimal rendering of integers, as JavaScript template literals print them
 * (`${404}` is "404", `${-7}` is "-7"), together with the inverse parser used
 * to prove that the rendering loses nothing. The rendering agrees with
 * JavaScript for magnitudes up to 2^53; above that JavaScript prints the
 * rounded digits of the nearest double (and from 1e21 exponent notation),
 * which is outside this model.
 */
module Decimal {

  predicate IsDigit(c: char) {
    '0' <= c <= '9'
  }

  predicate AllDigits(s: string) {
    forall i :: 0 <= i < |s| ==> IsDigit(s[i])
  }

  function DigitValue(c: char): (d: nat)
    requires IsDigit(c)
    ensures d < 10
  {
    c as int - '0' as int
  }

  function DigitChar(d: nat): (c: char)
    requires d < 10
    ensures IsDigit(c) && DigitValue(c) == d
  {
    ('0' as int + d) as char
  }

  /** The shortest decimal numeral of `n`: no leading zero except for 0 itself. */
  function FromNat(n: nat): (s: string)
    ensures |s| >= 1
    ensures AllDigits(s)
    ensures s[0] == '0' ==> n == 0
    decreases n
  {
    if n < 10 then [DigitChar(n)] else FromNat(n / 10) + [DigitChar(n % 10)]
  }

  /** Reads a string of digits as a number (the inverse of FromNat). */
  function ToNat(s: string): nat
    requires AllDigits(s)
    decreases |s|
  {
    if |s| == 0 then 0 else ToNat(s[..|s| - 1]) * 10 + DigitValue(s[|s| - 1])
  }

  lemma {:induction false} ToNatFromNat(n: nat)
    ensures ToNat(FromNat(n)) == n
    decreases n
  {
    if n >= 10 {
      var s := FromNat(n);
      assert s[..|s| - 1] == FromNat(n / 10);
      ToNatFromNat(n / 10);
    }
  }

  /** Distinct numbers are printed differently. */
  lemma FromNatInjective(a: nat, b: nat)
    ensures FromNat(a) == FromNat(b) ==> a == b
  {
    ToNatFromNat(a);
    ToNatFromNat(b);
  }

  /** A JavaScript integer in a template literal: a minus sign, then the magnitude. */
  function FromInt(i: int): (s: string)
    ensures |s| >= 1
    ensures i >= 0 <==> IsDigit(s[0])
  {
    if i < 0 then "-" + FromNat(-i) else FromNat(i)
  }

  lemma FromIntInjective(a: int, b: int)
    ensures FromInt(a) == FromInt(b) ==> a == b
  {
    if FromInt(a) == FromInt(b) {
      if a < 0 {
        assert FromInt(a)[1..] == FromNat(-a);
        assert FromInt(b)[1..] == FromNat(-b);
        FromNatInjective(-a, -b);
      } else {
        FromNatInjective(a, b);
      }
    }
  }
}
