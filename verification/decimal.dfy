/** Numbers as text: how a double is printed and how the text is read again, for whole numbers too large to
    have a fraction. The printer writes the fewest digits that determine the number. The reader rounds the
    digits to a double and then multiplies by a rounded power of ten, so it does not always return what was
    printed. */
module Decimal {
  import opened Arithmetic
  import opened Numbers

  /** Positive doubles so large that they are whole. */
  predicate Whole(b: Bits) {
    Finite(b) && b < TWO63 && b / TWO52 >= 1075
  }

  function WholeNumber(b: Bits): nat
    requires Whole(b)
  {
    (TWO52 + b % TWO52) * Pow2(b / TWO52 - 1075)
  }

  lemma {:induction false} ShiftIsProduct(n: nat, k: nat)
    ensures Shift(n, k) == n * Pow2(k)
  {
    if k > 0 {
      ShiftIsProduct(n, k - 1);
      assert n * (2 * Pow2(k - 1)) == 2 * (n * Pow2(k - 1));
    }
  }

  lemma Associate(a: nat, b: nat, c: nat)
    ensures a * (b * c) == a * b * c
  {}

  lemma WholeValue(b: Bits)
    requires Whole(b)
    ensures Value(b) == WholeNumber(b) * Pow2(1074)
  {
    var digits, exponent: nat := TWO52 + b % TWO52, b / TWO52 - 1075;
    ShiftIsProduct(digits, exponent + 1074);
    Regrouped(digits, exponent, 1074);
  }

  function Pow10(n: nat): (r: nat)
    ensures r > 0
  {
    if n == 0 then 1 else 10 * Pow10(n - 1)
  }

  // ---------------------------------------------------------------------------------------------
  // Rounding

  function Distance(a: nat, b: nat): nat {
    if a < b then b - a else a - b
  }

  /** The nearest number of 53 binary digits, ties to even. */
  function Rounded(n: nat): nat {
    if n == 0 || Log2(n) <= 52 then n else RoundEven(n, Pow2(Log2(n) - 52)) * Pow2(Log2(n) - 52)
  }

  lemma RoundEvenNearest(n: nat, unit: nat)
    requires unit > 0
    ensures 2 * Distance(RoundEven(n, unit) * unit, n) <= unit
  {
    var q, r := n / unit, n % unit;
    assert n == q * unit + r;
    Distribute(q, unit);
  }

  lemma Log2Is(n: nat, k: nat)
    requires Pow2(k) <= n < 2 * Pow2(k)
    ensures Log2(n) == k
  {
    OneExponent(n, Log2(n), k);
    OneExponent(n, k, Log2(n));
  }

  lemma OneExponent(n: nat, j: nat, k: nat)
    requires Pow2(j) <= n < 2 * Pow2(j) && Pow2(k) <= n
    ensures j >= k
  {
    if j < k { Pow2Monotone(j + 1, k); }
  }

  lemma Log2Scaled(n: nat, unit: nat, k: nat)
    requires unit == Pow2(k) && TWO52 * unit <= n < 2 * (TWO52 * unit)
    ensures Log2(n) == 52 + k
  {
    Pow2Constants();
    Pow2Add(52, k);
    Log2Is(n, 52 + k);
  }

  lemma RoundedBy(n: nat, unit: nat, k: nat)
    requires k > 0 && unit == Pow2(k) && TWO52 * unit <= n < 2 * (TWO52 * unit)
    ensures Rounded(n) == RoundEven(n, unit) * unit
  {
    Log2Scaled(n, unit, k);
  }

  /** What rounds to a number between two powers of two is no further from it than half a unit. */
  lemma RoundedNear(n: nat, x: nat, unit: nat, k: nat)
    requires unit == Pow2(k) && TWO52 * unit < x < 2 * TWO52 * unit && Rounded(n) == x
    ensures 2 * Distance(n, x) <= unit
  {
    if n > 0 && Log2(n) > 52 {
      var j := Log2(n) - 52;
      Pow2Constants();
      Pow2Add(52, j);
      RoundEvenNearest(n, Pow2(j));
      RoundedBetween(n, Pow2(j));
      SameUnit(x, j, k);
    }
  }

  lemma SameUnit(x: nat, j: nat, k: nat)
    requires TWO52 * Pow2(j) <= x <= 2 * TWO52 * Pow2(j) && TWO52 * Pow2(k) < x < 2 * TWO52 * Pow2(k)
    ensures j == k
  {
    if j < k { Pow2Monotone(j + 1, k); }
    if k < j { Pow2Monotone(k + 1, j); }
  }

  lemma RoundedBetween(n: nat, unit: nat)
    requires unit > 0 && TWO52 * unit <= n < 2 * (TWO52 * unit)
    ensures TWO52 * unit <= RoundEven(n, unit) * unit <= 2 * TWO52 * unit
  {
    QuotientBound(n, unit);
    Monotone(TWO52, RoundEven(n, unit), unit);
    Monotone(RoundEven(n, unit), 2 * TWO52, unit);
  }

  /** An integer becomes the double nearest to it, ties to even. */
  lemma FromNatRounds(n: nat)
    requires n < TWO64
    ensures Value(FromNat(n)) == Rounded(n) * Pow2(1074)
  {
    if n > 0 {
      Log2Bound(n);
      FiniteEncoding(Log2(n), Digits(n));
      EncodedValue(Log2(n), Digits(n));
      DigitsRound(n);
    }
  }

  lemma DigitsRound(n: nat)
    requires 0 < n < TWO64
    ensures Digits(n) * Pow2(1022 + Log2(n)) == Rounded(n) * Pow2(1074)
  {
    var e := Log2(n);
    if e <= 52 {
      FewDigits(n);
      Regrouped(n, 52 - e, 1022 + e);
    } else {
      ManyDigits(n);
      Regrouped(Digits(n), e - 52, 1074);
    }
  }

  lemma FewDigits(n: nat)
    requires n > 0 && Log2(n) <= 52
    ensures Digits(n) == n * Pow2(52 - Log2(n)) && Rounded(n) == n
  {}

  lemma ManyDigits(n: nat)
    requires n > 0 && Log2(n) > 52
    ensures Rounded(n) == Digits(n) * Pow2(Log2(n) - 52)
  {}

  lemma Regrouped(n: nat, a: nat, b: nat)
    ensures n * Pow2(a) * Pow2(b) == n * Pow2(a + b)
  {
    Pow2Add(a, b);
    Associate(n, Pow2(a), Pow2(b));
  }

  lemma EncodedValue(e: nat, digits: nat)
    requires e < 64 && TWO52 <= digits <= 2 * TWO52
    ensures Magnitude((1022 + e) * TWO52 + digits) == digits * Pow2(1022 + e)
  {
    var b := (1022 + e) * TWO52 + digits;
    if digits < 2 * TWO52 {
      assert b / TWO52 == 1023 + e && b % TWO52 == digits - TWO52;
      ShiftIsProduct(digits, 1022 + e);
    } else {
      assert b / TWO52 == 1024 + e && b % TWO52 == 0;
      ShiftIsProduct(TWO52, 1023 + e);
    }
  }

  /** Rounding moves a number by half a unit at most, and not at all when its digits fit. */
  lemma RoundedNearest(n: nat)
    requires n > 0
    ensures Log2(n) <= 52 ==> Rounded(n) == n
    ensures Log2(n) > 52 ==> 2 * Distance(Rounded(n), n) <= Pow2(Log2(n) - 52)
  {
    if Log2(n) > 52 { RoundEvenNearest(n, Pow2(Log2(n) - 52)); }
  }

  // ---------------------------------------------------------------------------------------------
  // Printing and reading

  /** The number that digits and an exponent of ten stand for. */
  function Scaled(digits: nat, exponent: nat): nat {
    digits * Pow10(exponent)
  }

  function Length(digits: nat): nat {
    if digits < 10 then 1 else 1 + Length(digits / 10)
  }

  /** What the printer writes: digits that determine the number, as few as there can be, and the closest among
      as few. */
  ghost predicate Printed(x: nat, digits: nat, exponent: nat) {
    && Rounded(Scaled(digits, exponent)) == x
    && forall d: nat, e: nat :: Rounded(Scaled(d, e)) == x ==>
         && Length(digits) <= Length(d)
         && (Length(digits) == Length(d) ==> Distance(Scaled(digits, exponent), x) <= Distance(Scaled(d, e), x))
  }

  function Product(a: nat, b: nat): nat {
    a * b
  }

  /** What the reader makes of digits and an exponent. */
  function Read(digits: nat, exponent: nat): nat {
    Rounded(Product(Rounded(digits), Rounded(Pow10(exponent))))
  }

  lemma {:induction false} Pow10Add(a: nat, b: nat)
    ensures Pow10(a + b) == Pow10(a) * Pow10(b)
  {
    if a > 0 {
      Pow10Add(a - 1, b);
      assert 10 * (Pow10(a - 1) * Pow10(b)) == 10 * Pow10(a - 1) * Pow10(b);
    }
  }

  lemma {:induction false} LengthBound(digits: nat, k: nat)
    requires Length(digits) <= k
    ensures digits < Pow10(k)
  {
    if digits >= 10 { LengthBound(digits / 10, k - 1); }
    if digits < 10 && k > 1 { Pow10Grows(1, k); }
  }

  lemma {:induction false} Pow10Grows(a: nat, b: nat)
    requires a <= b
    ensures Pow10(a) <= Pow10(b)
    decreases b
  {
    if a < b { Pow10Grows(a, b - 1); }
  }

  lemma PowersOfTen()
    ensures Pow10(9) == 1_000_000_000 && Pow10(10) == 10_000_000_000
    ensures Pow10(15) == 1_000_000_000_000_000 && Pow10(16) == 10_000_000_000_000_000
    ensures Pow10(23) == 100_000_000_000_000_000_000_000
    ensures Pow10(24) == 1_000_000_000_000_000_000_000_000
  {
    assert Pow10(4) == 10_000;
    Pow10Add(4, 4);
    assert Pow10(9) == 10 * Pow10(8);
    Pow10Add(8, 8);
    assert Pow10(16) == 10 * Pow10(15);
    Pow10Add(16, 8);
    assert Pow10(24) == 10 * Pow10(23);
  }

  // ---------------------------------------------------------------------------------------------
  // Two neighbours that are read as each other

  const UNIT: nat := 0x4000_0000
  const UPPER: Bits := 4980635288560951534         // 9.3e24
  const LOWER: Bits := 4980635288560951533         // 9.299999999999999e24
  const UPPER_NUMBER: nat := 9_299_999_999_999_999_790_284_800
  const LOWER_NUMBER: nat := 9_299_999_999_999_998_716_542_976

  lemma Unit()
    ensures UNIT == Pow2(30) && 0x100_0000 == Pow2(24)
  {
    assert Pow2(6) == 64;
    Pow2Add(6, 6);
    Pow2Add(12, 12);
    Pow2Add(24, 6);
  }

  lemma Neighbours()
    ensures Whole(UPPER) && WholeNumber(UPPER) == UPPER_NUMBER
    ensures Whole(LOWER) && WholeNumber(LOWER) == LOWER_NUMBER
  {
    Unit();
    assert UPPER / TWO52 == 1105 && LOWER / TWO52 == 1105;
    assert TWO52 + UPPER % TWO52 == 8661299943923950 && TWO52 + LOWER % TWO52 == 8661299943923949;
  }

  lemma RoundedPower()
    ensures Rounded(Pow10(23)) == 99_999_999_999_999_991_611_392
  {
    Unit();
    PowersOfTen();
    RoundedBy(Pow10(23), 0x100_0000, 24);
  }

  /** Rounding where the unit is that of the two neighbours. */
  lemma RoundedHere(n: nat)
    requires TWO52 * UNIT <= n < 2 * (TWO52 * UNIT)
    ensures Rounded(n) == RoundEven(n, UNIT) * UNIT
  {
    Unit();
    RoundedBy(n, UNIT, 30);
  }

  lemma UpperRead()
    ensures Rounded(Scaled(93, 23)) == UPPER_NUMBER && Read(93, 23) == LOWER_NUMBER
  {
    PowersOfTen();
    RoundedPower();
    Unrounded(93);
    RoundedHere(9_300_000_000_000_000_000_000_000);
    RoundedHere(9_299_999_999_999_999_219_859_456);
  }

  lemma LowerRead()
    ensures Rounded(Scaled(9_299_999_999_999_999, 9)) == LOWER_NUMBER
    ensures Read(9_299_999_999_999_999, 9) == UPPER_NUMBER
  {
    PowersOfTen();
    RoundedDigits();
    Unrounded(Pow10(9));
    RoundedHere(9_299_999_999_999_999_000_000_000);
    RoundedHere(9_300_000_000_000_000_000_000_000);
  }

  lemma RoundedDigits()
    ensures Rounded(9_299_999_999_999_999) == 9_300_000_000_000_000
  {
    assert Pow2(1) == 2;
    RoundedBy(9_299_999_999_999_999, 2, 1);
  }

  lemma Unrounded(n: nat)
    requires n < TWO52
    ensures Rounded(n) == n
  {
    if n > 0 && Log2(n) > 52 {
      Pow2Constants();
      Pow2Monotone(52, Log2(n));
    }
  }

  lemma UpperPrinted()
    ensures Printed(UPPER_NUMBER, 93, 23)
  {
    Unit();
    UpperRead();
    PowersOfTen();
    forall d: nat, e: nat | Rounded(Scaled(d, e)) == UPPER_NUMBER
      ensures 2 <= Length(d)
      ensures Length(d) == 2 ==> Distance(Scaled(93, 23), UPPER_NUMBER) <= Distance(Scaled(d, e), UPPER_NUMBER)
    {
      RoundedNear(Scaled(d, e), UPPER_NUMBER, UNIT, 30);
      if Length(d) <= 2 {
        LengthBound(d, 2);
        UpperDigits(d, e);
      }
    }
  }

  lemma UpperDigits(d: nat, e: nat)
    requires d < 100 && 2 * Distance(Scaled(d, e), UPPER_NUMBER) <= UNIT
    ensures d == 93 && e == 23
  {
    PowersOfTen();
    if e < 23 {
      Pow10Grows(e + 1, 23);
      Monotone(d, 99, Pow10(e));
    } else if e > 23 {
      Pow10Grows(24, e);
      if d >= 10 { Monotone(10, d, Pow10(e)); } else { Multiples(d, e, 24); }
    }
  }

  /** A multiple of a power of ten is one of each smaller power. */
  lemma Multiples(d: nat, e: nat, k: nat)
    requires k <= e
    ensures Scaled(d, e) == Scaled(d * Pow10(e - k), k)
  {
    Pow10Add(e - k, k);
    assert d * (Pow10(e - k) * Pow10(k)) == d * Pow10(e - k) * Pow10(k);
  }

  lemma LowerPrinted()
    ensures Printed(LOWER_NUMBER, 9_299_999_999_999_999, 9)
  {
    Unit();
    LowerRead();
    PowersOfTen();
    assert Length(9_299_999_999_999_999) == 16;
    forall d: nat, e: nat | Rounded(Scaled(d, e)) == LOWER_NUMBER
      ensures 16 <= Length(d)
      ensures Length(d) == 16 ==>
                Distance(Scaled(9_299_999_999_999_999, 9), LOWER_NUMBER) <= Distance(Scaled(d, e), LOWER_NUMBER)
    {
      RoundedNear(Scaled(d, e), LOWER_NUMBER, UNIT, 30);
      if Length(d) <= 16 {
        LengthBound(d, 16);
        LowerDigits(d, e);
      }
    }
  }

  lemma LowerDigits(d: nat, e: nat)
    requires d < Pow10(16) && 2 * Distance(Scaled(d, e), LOWER_NUMBER) <= UNIT
    ensures d == 9_299_999_999_999_999 && e == 9
  {
    PowersOfTen();
    if e < 9 {
      Pow10Grows(e, 8);
      Monotone(d, Pow10(16), Pow10(e));
    } else if e > 9 {
      Multiples(d, e, 10);
    }
  }

  /** There is no other way to print them. */
  lemma UpperOnly(digits: nat, exponent: nat)
    requires Printed(UPPER_NUMBER, digits, exponent)
    ensures digits == 93 && exponent == 23
  {
    Unit();
    UpperRead();
    assert Length(93) == 2;
    RoundedNear(Scaled(digits, exponent), UPPER_NUMBER, UNIT, 30);
    LengthBound(digits, 2);
    PowersOfTen();
    UpperDigits(digits, exponent);
  }

  lemma LowerOnly(digits: nat, exponent: nat)
    requires Printed(LOWER_NUMBER, digits, exponent)
    ensures digits == 9_299_999_999_999_999 && exponent == 9
  {
    Unit();
    LowerRead();
    assert Length(9_299_999_999_999_999) == 16;
    RoundedNear(Scaled(digits, exponent), LOWER_NUMBER, UNIT, 30);
    LengthBound(digits, 16);
    LowerDigits(digits, exponent);
  }

  lemma WholeInjective(a: Bits, b: Bits)
    requires Whole(a) && Whole(b) && WholeNumber(a) == WholeNumber(b)
    ensures a == b
  {
    WholeValue(a);
    WholeValue(b);
    ValueInjective(a, b);
  }

  /** The number printed as 9.3e24 is read as its lower neighbour, and that one, printed as 9.299999999999999e24,
      is read as the number again. */
  lemma NeighboursSwap()
    ensures Whole(UPPER) && Whole(LOWER)
    ensures Printed(WholeNumber(UPPER), 93, 23) && Read(93, 23) == WholeNumber(LOWER)
    ensures Printed(WholeNumber(LOWER), 9_299_999_999_999_999, 9)
    ensures Read(9_299_999_999_999_999, 9) == WholeNumber(UPPER)
  {
    Neighbours();
    UpperPrinted();
    UpperRead();
    LowerPrinted();
    LowerRead();
  }
}
