/** The Money fixed-point value type: a whole amount (int64_t m_money) and a
    cent part (int16_t m_cent). Its only constructor validates and normalises,
    and every operator builds its result through that constructor, so every
    Money value in a program satisfies Valid. A thrown NegativeValueException
    is the Failure result; in `+` and `-`, which are noexcept, the throw would
    terminate the program, and it is a Failure here too. */
module Currency {
  import opened Digits

  const INT16_MIN: int := -0x8000
  const INT16_MAX: int := 0x7FFF
  const INT64_MIN: int := -0x8000_0000_0000_0000
  const INT64_MAX: int := 0x7FFF_FFFF_FFFF_FFFF

  /** Cents per whole unit: the constructor carries cents above 99. */
  const CentsPerUnit: int := 100

  predicate IsInt16(x: int) { INT16_MIN <= x <= INT16_MAX }
  predicate IsInt64(x: int) { INT64_MIN <= x <= INT64_MAX }

  /** NegativeValueException, the program's single error kind. */
  datatype Error = NegativeValue

  datatype Result<T> = Success(value: T) | Failure(error: Error)

  /** The two private fields of Money. */
  datatype Money = Money(money: int, cent: int)

  /** What every constructed Money satisfies. */
  predicate Valid(m: Money)
  {
    0 <= m.money <= INT64_MAX && 0 <= m.cent < CentsPerUnit
  }

  /** The amount counted in cents. */
  function Total(m: Money): int
  {
    m.money * CentsPerUnit + m.cent
  }

  /** The constructor's arguments have their C++ types (int64_t, int16_t) and the
      carry `m_money += cent / 100` does not overflow int64_t. */
  predicate CreateDefined(money: int, cent: int)
  {
    IsInt64(money) && IsInt16(cent) && (cent > 99 ==> money + cent / CentsPerUnit <= INT64_MAX)
  }

  /** Money(money, cent): fails exactly when a part is negative; otherwise keeps
      the total and brings the cent part into 0..99, leaving a cent part of at
      most 99 as it is. */
  function Create(money: int, cent: int := 0): (r: Result<Money>)
    requires CreateDefined(money, cent)
    ensures r.Failure? <==> money < 0 || cent < 0
    ensures r.Success? ==> Valid(r.value) && Total(r.value) == money * CentsPerUnit + cent
    ensures r.Success? && cent <= 99 ==> r.value == Money(money, cent)
  {
    if money < 0 || cent < 0 then Failure(NegativeValue)
    else if cent > 99 then Success(Money(money + cent / CentsPerUnit, cent % CentsPerUnit))
    else Success(Money(money, cent))
  }

  /** Rebuilding a valid value from its own parts gives it back: the
      normalisation is idempotent. */
  lemma CreateKeepsValid(m: Money)
    requires Valid(m)
    ensures CreateDefined(m.money, m.cent)
    ensures Create(m.money, m.cent) == Success(m)
  {
  }

  /** The constructor's result is the one valid value with the given total:
      two valid values with the same total are equal. */
  lemma CreateUnique(money: int, cent: int, m: Money)
    requires CreateDefined(money, cent) && money >= 0 && cent >= 0
    requires Valid(m) && Total(m) == money * CentsPerUnit + cent
    ensures Create(money, cent) == Success(m)
  {
  }

  /** operator+: component sums rebuilt through the constructor. The cent sum is
      at most 198, so the int16_t cast never truncates, and the addition of two
      valid values never fails. */
  function Add(a: Money, b: Money): (r: Result<Money>)
    requires Valid(a) && Valid(b)
    requires a.money + b.money + (a.cent + b.cent) / CentsPerUnit <= INT64_MAX
    ensures r.Success? && Valid(r.value)
    ensures Total(r.value) == Total(a) + Total(b)
  {
    Create(a.money + b.money, a.cent + b.cent)
  }

  /** operator-: component differences rebuilt through the constructor. There is
      no borrow, so it fails whenever either component of b is larger than a's. */
  function Sub(a: Money, b: Money): (r: Result<Money>)
    requires Valid(a) && Valid(b)
    ensures r.Failure? <==> a.money < b.money || a.cent < b.cent
    ensures r.Success? ==> Valid(r.value) && Total(r.value) == Total(a) - Total(b)
  {
    Create(a.money - b.money, a.cent - b.cent)
  }

  lemma AddCommutes(a: Money, b: Money)
    requires Valid(a) && Valid(b)
    requires a.money + b.money + (a.cent + b.cent) / CentsPerUnit <= INT64_MAX
    ensures Add(a, b) == Add(b, a)
  {
  }

  /** Subtracting what was added gives back the first operand exactly when the
      addition carried no cent into the whole amount. */
  lemma SubUndoesAdd(a: Money, b: Money)
    requires Valid(a) && Valid(b)
    requires a.money + b.money + (a.cent + b.cent) / CentsPerUnit <= INT64_MAX
    ensures Sub(Add(a, b).value, b) == Success(a) <==> a.cent + b.cent <= 99
  {
    var s := Add(a, b).value;
    if a.cent + b.cent > 99 {
      assert (a.cent + b.cent) / CentsPerUnit == 1;
      assert s.cent == a.cent + b.cent - CentsPerUnit < b.cent;
    }
  }

  /** Without a borrow, a subtraction whose true result is positive still fails. */
  lemma SubHasNoBorrow()
    ensures Total(Money(2, 0)) > Total(Money(1, 50))
    ensures Sub(Money(2, 0), Money(1, 50)).Failure?
  {
  }

  /** operator==: both components equal, which is equality of the values. */
  predicate Equal(a: Money, b: Money)
    ensures Equal(a, b) <==> a == b
  {
    a.money == b.money && a.cent == b.cent
  }

  /** operator!= as written: true only when BOTH components differ. */
  predicate NotEqual(a: Money, b: Money)
    ensures NotEqual(a, b) ==> !Equal(a, b)
  {
    a.money != b.money && a.cent != b.cent
  }

  /** Values that differ in exactly one component are neither == nor !=. */
  lemma NotEqualIsNotNegation(a: Money, b: Money)
    ensures !Equal(a, b) && !NotEqual(a, b) <==> (a.money == b.money) != (a.cent == b.cent)
  {
  }

  lemma NotEqualCounterexample()
    ensures Valid(Money(1, 0)) && Valid(Money(2, 0))
    ensures !Equal(Money(1, 0), Money(2, 0)) && !NotEqual(Money(1, 0), Money(2, 0))
  {
  }

  /** operator!= as evidently intended: the negation of operator==. */
  predicate Distinct(a: Money, b: Money)
    ensures Distinct(a, b) <==> a != b
  {
    !Equal(a, b)
  }

  /** Exactly one of == and the corrected != holds for any two values. */
  lemma EqualOrDistinct(a: Money, b: Money)
    ensures Equal(a, b) != Distinct(a, b)
  {
  }

  /** The number whose digits getDigit counts: m_money * mul + m_cent, with mul
      1 when there are no cents and 10 otherwise. */
  function DigitNumber(m: Money): int
  {
    m.money * (if m.cent == 0 then 1 else 10) + m.cent
  }

  /** getDigit: counts the divisions by 10 that bring DigitNumber(m) to 0. The
      int64_t product must not overflow. */
  method GetDigit(m: Money) returns (digit: nat)
    requires Valid(m) && DigitNumber(m) <= INT64_MAX
    ensures digit == NumDigits(DigitNumber(m))
  {
    var mul := if m.cent == 0 then 1 else 10;
    var num := m.money * mul + m.cent;
    digit := 0;
    while num != 0
      invariant num >= 0
      invariant digit + NumDigits(num) == NumDigits(DigitNumber(m))
      decreases num
    {
      num := num / 10;
      digit := digit + 1;
    }
  }

  /** What getDigit counts is the decimal length of DigitNumber: 0 for the zero
      value, otherwise the d with 10^(d-1) <= DigitNumber(m) < 10^d. */
  lemma GetDigitIsDecimalLength(m: Money)
    requires Valid(m)
    ensures DigitNumber(m) == 0 <==> m == Money(0, 0)
    ensures m != Money(0, 0) ==> NumDigits(DigitNumber(m)) == |NatDecimal(DigitNumber(m))|
    ensures m != Money(0, 0) ==>
      Pow10(NumDigits(DigitNumber(m)) - 1) <= DigitNumber(m) < Pow10(NumDigits(DigitNumber(m)))
  {
    NumDigitsBounds(DigitNumber(m));
    DecimalLength(DigitNumber(m));
  }

  /** The count is not the number of digits of the amount in cents: 5.25 counts
      the digits of 5 * 10 + 25 = 75, and 5.00 those of 5. */
  lemma GetDigitQuirk()
    ensures NumDigits(DigitNumber(Money(5, 25))) == 2 && NumDigits(Total(Money(5, 25))) == 3
    ensures NumDigits(DigitNumber(Money(5, 0))) == 1 && NumDigits(Total(Money(5, 0))) == 3
  {
    NumDigitsUnique(75, 2);
    NumDigitsUnique(525, 3);
    NumDigitsUnique(5, 1);
    NumDigitsUnique(500, 3);
  }
}
