/** Decimal digits of integers: the digit count that Money::getDigit computes
    with its division loop, and the plain decimal text that the default "C"
    locale of std::cout produces for an int64_t population. */
module Digits {

  function Pow10(k: nat): (r: nat)
    ensures r >= 1
  {
    if k == 0 then 1 else 10 * Pow10(k - 1)
  }

  /** How many times n can be divided by 10 before it reaches 0 (0 for n == 0). */
  function NumDigits(n: nat): nat
  {
    if n == 0 then 0 else 1 + NumDigits(n / 10)
  }

  /** NumDigits is the decimal length: n has d digits exactly when 10^(d-1) <= n < 10^d. */
  lemma {:induction false} NumDigitsBounds(n: nat)
    ensures NumDigits(n) == 0 <==> n == 0
    ensures n > 0 ==> Pow10(NumDigits(n) - 1) <= n < Pow10(NumDigits(n))
  {
    if n >= 10 {
      var q := n / 10;
      var d := NumDigits(q);
      NumDigitsBounds(q);
      assert NumDigits(n) == d + 1;
      assert 10 * q <= n < 10 * q + 10;
      assert Pow10(d) == 10 * Pow10(d - 1);
      assert Pow10(d + 1) == 10 * Pow10(d);
    } else if n > 0 {
      assert NumDigits(n) == 1 + NumDigits(0);
      assert Pow10(1) == 10;
    }
  }

  /** The bounds determine the digit count: any d with 10^(d-1) <= n < 10^d is NumDigits(n). */
  lemma {:induction false} NumDigitsUnique(n: nat, d: nat)
    requires d >= 1 && Pow10(d - 1) <= n < Pow10(d)
    ensures NumDigits(n) == d
  {
    if d == 1 {
      assert n < 10;
      assert n / 10 == 0;
    } else {
      assert Pow10(d - 1) == 10 * Pow10(d - 2);
      assert Pow10(d) == 10 * Pow10(d - 1);
      assert Pow10(d - 2) <= n / 10 < Pow10(d - 1);
      NumDigitsUnique(n / 10, d - 1);
    }
  }

  predicate IsDigit(c: char)
  {
    '0' <= c <= '9'
  }

  function DigitChar(d: nat): (c: char)
    requires d < 10
    ensures IsDigit(c) && c as int - '0' as int == d
  {
    ('0' as int + d) as char
  }

  /** The decimal text of n, most significant digit first, without leading zeros. */
  function NatDecimal(n: nat): (s: string)
    ensures |s| >= 1
    ensures forall k :: 0 <= k < |s| ==> IsDigit(s[k])
    ensures s[0] == '0' ==> n == 0
  {
    if n < 10 then [DigitChar(n)] else NatDecimal(n / 10) + [DigitChar(n % 10)]
  }

  /** The number a string of decimal digits denotes (the partner of NatDecimal). */
  function DecimalValue(s: string): nat
    requires forall k :: 0 <= k < |s| ==> IsDigit(s[k])
  {
    if s == [] then 0
    else
      assert IsDigit(s[|s| - 1]);
      DecimalValue(s[..|s| - 1]) * 10 + (s[|s| - 1] as int - '0' as int)
  }

  lemma {:induction false} DecimalRoundTrip(n: nat)
    ensures DecimalValue(NatDecimal(n)) == n
  {
    if n >= 10 {
      var s := NatDecimal(n);
      assert s[..|s| - 1] == NatDecimal(n / 10);
      DecimalRoundTrip(n / 10);
    }
  }

  /** The decimal text is as long as getDigit's count (one digit for 0). */
  lemma {:induction false} DecimalLength(n: nat)
    ensures |NatDecimal(n)| == if n == 0 then 1 else NumDigits(n)
  {
    if n >= 10 {
      DecimalLength(n / 10);
    } else if n > 0 {
      assert NumDigits(n) == 1 + NumDigits(0);
    }
  }

  /** operator<< of an int64_t on a stream in the "C" locale: a '-' sign, then the digits. */
  function IntDecimal(n: int): (s: string)
    ensures |s| >= 1
    ensures s[0] == '-' <==> n < 0
    ensures forall k :: 0 <= k < |s| ==> IsDigit(s[k]) || (k == 0 && s[k] == '-')
  {
    if n < 0 then "-" + NatDecimal(-n) else NatDecimal(n)
  }

  lemma IntDecimalRoundTrip(n: int)
    ensures n >= 0 ==> DecimalValue(IntDecimal(n)) == n
    ensures n < 0 ==> DecimalValue(IntDecimal(n)[1..]) == -n
  {
    if n < 0 {
      assert IntDecimal(n)[1..] == NatDecimal(-n);
      DecimalRoundTrip(-n);
    } else {
      DecimalRoundTrip(n);
    }
  }
}
