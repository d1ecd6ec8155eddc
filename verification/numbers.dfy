/** Binary64 values as bit patterns, their numeric order, and the sortable text keys of
    numeric postings. */
module Numbers {
  import opened Arithmetic
  import opened Order
  import opened Wrappers

  const TWO52 := 0x10_0000_0000_0000
  const TWO63 := 0x8000_0000_0000_0000
  const TWO64 := 0x1_0000_0000_0000_0000

  type Bits = n: nat | n < TWO64

  /** Section 3.4 of IEEE 754-2019: an exponent field of all ones is not a number or infinite. */
  predicate Finite(b: Bits) {
    (b % TWO63) / TWO52 != 2047
  }

  function Pow2(n: nat): (r: nat)
    ensures r > 0
  {
    if n == 0 then 1 else 2 * Pow2(n - 1)
  }

  /** n doubled k times. */
  function Shift(n: nat, k: nat): nat {
    if k == 0 then n else 2 * Shift(n, k - 1)
  }

  /** Magnitude of the finite number with sign-free pattern m, in units of 2^-1074. */
  function Magnitude(m: nat): nat {
    var exponent, fraction := m / TWO52, m % TWO52;
    if exponent == 0 then fraction else Shift(TWO52 + fraction, exponent - 1)
  }

  /** The pattern without its sign bit. */
  function Low(b: Bits): (r: nat)
    ensures r < TWO63
  {
    if b < TWO63 then b else b - TWO63
  }

  function Value(b: Bits): int {
    if b < TWO63 then Magnitude(Low(b)) else 0 - Magnitude(Low(b))
  }

  predicate Zero(b: Bits) {
    b == 0 || b == TWO63
  }

  lemma {:induction false} ShiftMonotone(a: nat, b: nat, k: nat)
    requires a < b
    ensures Shift(a, k) < Shift(b, k)
  {
    if k > 0 { ShiftMonotone(a, b, k - 1); }
  }

  lemma {:induction false} ShiftDouble(n: nat, k: nat)
    ensures Shift(2 * n, k) == Shift(n, k + 1)
  {
    if k > 0 { ShiftDouble(n, k - 1); }
  }

  lemma MagnitudeStep(m: nat)
    ensures Magnitude(m) < Magnitude(m + 1)
  {
    var e, f := m / TWO52, m % TWO52;
    if f + 1 < TWO52 {
      assert (m + 1) / TWO52 == e && (m + 1) % TWO52 == f + 1;
      if e > 0 { ShiftMonotone(TWO52 + f, TWO52 + f + 1, e - 1); }
    } else {
      assert (m + 1) / TWO52 == e + 1 && (m + 1) % TWO52 == 0;
      if e > 0 {
        ShiftMonotone(TWO52 + f, 2 * TWO52, e - 1);
        ShiftDouble(TWO52, e - 1);
      }
    }
  }

  lemma {:induction false} MagnitudeMonotone(m: nat, n: nat)
    requires m < n
    ensures Magnitude(m) < Magnitude(n)
    decreases n
  {
    MagnitudeStep(n - 1);
    if m < n - 1 { MagnitudeMonotone(m, n - 1); }
  }

  lemma MagnitudeOrder(m: nat, n: nat)
    ensures Magnitude(m) < Magnitude(n) <==> m < n
    ensures Magnitude(m) == Magnitude(n) <==> m == n
  {
    if m < n { MagnitudeMonotone(m, n); }
    if n < m { MagnitudeMonotone(n, m); }
  }

  /** Equal values have equal patterns, except for the two zeros. */
  lemma ValueInjective(x: Bits, y: Bits)
    ensures Value(x) == Value(y) <==> x == y || (Zero(x) && Zero(y))
    ensures Value(x) == 0 <==> Zero(x)
  {
    MagnitudeOrder(0, Low(x));
    MagnitudeOrder(0, Low(y));
    MagnitudeOrder(Low(x), Low(y));
  }

  function Digit(d: nat): (b: byte)
    requires d < 16
  {
    if d < 10 then (48 + d) as byte else (87 + d) as byte
  }

  /** Lower-case hexadecimal, zero-padded to the given number of digits. */
  function Hex(n: nat, digits: nat): (r: Bytes)
    ensures |r| == digits
  {
    if digits == 0 then [] else Hex(n / 16, digits - 1) + [Digit(n % 16)]
  }

  function Pow16(n: nat): (r: nat)
    ensures r > 0
  {
    if n == 0 then 1 else 16 * Pow16(n - 1)
  }

  lemma {:induction false} HexOrder(m: nat, n: nat, digits: nat)
    requires m < Pow16(digits) && n < Pow16(digits)
    ensures Below(Hex(m, digits), Hex(n, digits)) <==> m < n
    ensures Hex(m, digits) == Hex(n, digits) <==> m == n
  {
    if digits > 0 {
      HexOrder(m / 16, n / 16, digits - 1);
      var a, b := Hex(m / 16, digits - 1), Hex(n / 16, digits - 1);
      BelowOfEqualLengths(a, [Digit(m % 16)], b, [Digit(n % 16)]);
      assert Below([Digit(m % 16)], [Digit(n % 16)]) <==> m % 16 < n % 16;
      assert Hex(m, digits)[..digits - 1] == a && Hex(n, digits)[..digits - 1] == b;
      assert Hex(m, digits)[digits - 1] == Digit(m % 16) && Hex(n, digits)[digits - 1] == Digit(n % 16);
    }
  }

  /** The pattern, with one representation of zero, mapped so that unsigned order is numeric order. */
  function Sortable(value: Bits): (r: nat)
    ensures r < TWO64
  {
    var bits := if Zero(value) then 0 else value;
    if bits >= TWO63 then TWO64 - 1 - bits else bits + TWO63
  }

  function NumberKey(value: Bits): (r: Bytes)
    ensures |r| == 16
  {
    Hex(Sortable(value), 16)
  }

  lemma SortableOrder(x: Bits, y: Bits)
    ensures Sortable(x) < Sortable(y) <==> Value(x) < Value(y)
  {
    MagnitudeOrder(0, Low(x));
    MagnitudeOrder(0, Low(y));
    MagnitudeOrder(Low(x), Low(y));
    MagnitudeOrder(Low(y), Low(x));
  }

  lemma Pow16At16()
    ensures Pow16(16) == TWO64
  {
    assert Pow16(4) == 0x1_0000;
    assert Pow16(8) == 0x1_0000_0000;
    assert Pow16(12) == 0x1_0000_0000_0000;
  }

  /** Keys compare as the numbers they stand for; the two zeros share one key. */
  lemma NumberKeyOrder(x: Bits, y: Bits)
    requires Finite(x) && Finite(y)
    ensures Below(NumberKey(x), NumberKey(y)) <==> Value(x) < Value(y)
    ensures NumberKey(x) == NumberKey(y) <==> Value(x) == Value(y)
  {
    Pow16At16();
    HexOrder(Sortable(x), Sortable(y), 16);
    SortableOrder(x, y);
    SortableOrder(y, x);
  }

  const SLASH: byte := 47
  const TILDE: byte := 126

  /** The subrange of a posting scan, from the optional bounds of a numeric predicate. */
  function LowBound(gte: Option<Bits>): Bytes {
    if gte.None? then [] else NumberKey(gte.value)
  }

  function HighBound(lte: Option<Bits>): Bytes {
    if lte.None? then [TILDE] else NumberKey(lte.value) + [TILDE]
  }

  predicate InScan(tail: Bytes, gte: Option<Bits>, lte: Option<Bits>) {
    !Below(tail, LowBound(gte)) && Below(tail, HighBound(lte))
  }

  predicate Within(v: Bits, gte: Option<Bits>, lte: Option<Bits>) {
    && (gte.Some? ==> Value(gte.value) <= Value(v))
    && (lte.Some? ==> Value(v) <= Value(lte.value))
  }

  lemma HexDigitsBelowTilde(n: nat, digits: nat)
    requires digits > 0
    ensures Hex(n, digits)[0] < TILDE
  {
    if digits > 1 { HexDigitsBelowTilde(n / 16, digits - 1); }
  }

  /** The scan from `low` to `high~` selects exactly the posting blocks of the values inside the
      inclusive bounds, whatever block number follows the value. */
  lemma ScanSelectsRange(v: Bits, block: Bytes, gte: Option<Bits>, lte: Option<Bits>)
    requires Finite(v) && (gte.Some? ==> Finite(gte.value)) && (lte.Some? ==> Finite(lte.value))
    ensures InScan(NumberKey(v) + [SLASH] + block, gte, lte) <==> Within(v, gte, lte)
  {
    var key, rest := NumberKey(v), [SLASH] + block;
    assert key + [SLASH] + block == key + rest;
    if gte.Some? {
      var low := NumberKey(gte.value);
      NumberKeyOrder(v, gte.value);
      BelowOfEqualLengths(key, rest, low, []);
      assert low + [] == low;
    }
    if lte.Some? {
      NumberKeyOrder(v, lte.value);
      NumberKeyOrder(lte.value, v);
      BelowOfEqualLengths(key, rest, NumberKey(lte.value), [TILDE]);
      assert Below(rest, [TILDE]);
    } else {
      HexDigitsBelowTilde(Sortable(v), 16);
    }
  }

  /** The leading digit and 52 more. Rounding can carry into one more. */
  function Digits(n: nat): (d: nat)
    requires n > 0
    ensures TWO52 <= d <= 2 * TWO52
  {
    DigitsBound(n);
    if Log2(n) <= 52 then n * Pow2(52 - Log2(n)) else RoundEven(n, Pow2(Log2(n) - 52))
  }

  /** Binary64 pattern nearest to an unsigned integer, ties to even, as Decimal.FromNatRounds proves. The leading
      digit is left out. */
  function FromNat(n: nat): (b: Bits)
    requires n < TWO64
    ensures Finite(b) && b < TWO63
  {
    if n == 0 then 0 else
      Log2Bound(n);
      FiniteEncoding(Log2(n), Digits(n));
      (1022 + Log2(n)) * TWO52 + Digits(n)
  }

  lemma FiniteEncoding(e: nat, digits: nat)
    requires e < 64 && TWO52 <= digits <= 2 * TWO52
    ensures var b := (1022 + e) * TWO52 + digits; b < TWO63 && Finite(b)
  {}

  /** The sign bit does not matter to finiteness. */
  lemma NegatedFinite(b: Bits)
    requires Finite(b) && b < TWO63
    ensures TWO63 + b < TWO64 && Finite(TWO63 + b)
  {}

  function RoundEven(n: nat, unit: nat): nat
    requires unit > 0
  {
    var q, r := n / unit, n % unit;
    if 2 * r > unit || (2 * r == unit && q % 2 == 1) then q + 1 else q
  }

  function Log2(n: nat): (e: nat)
    requires n > 0
    ensures Pow2(e) <= n < 2 * Pow2(e)
  {
    if n == 1 then 0 else 1 + Log2(n / 2)
  }

  lemma {:induction false} Pow2Monotone(a: nat, b: nat)
    requires a <= b
    ensures Pow2(a) <= Pow2(b)
    decreases b
  {
    if a < b { Pow2Monotone(a, b - 1); }
  }

  lemma {:induction false} Pow2Add(a: nat, b: nat)
    ensures Pow2(a + b) == Pow2(a) * Pow2(b)
  {
    if a > 0 { Pow2Add(a - 1, b); }
  }

  lemma Pow2Constants()
    ensures Pow2(52) == TWO52 && Pow2(64) == TWO64
  {
    assert Pow2(13) == 8192;
    Pow2Add(13, 13);
    Pow2Add(26, 26);
    assert Pow2(12) == 4096;
    Pow2Add(52, 12);
  }

  lemma Log2Bound(n: nat)
    requires 0 < n < TWO64
    ensures Log2(n) < 64
  {
    Pow2Constants();
    if Log2(n) >= 64 { Pow2Monotone(64, Log2(n)); }
  }

  lemma DigitsBound(n: nat)
    requires n > 0
    ensures var e := Log2(n);
            TWO52 <= if e <= 52 then n * Pow2(52 - e) else RoundEven(n, Pow2(e - 52))
    ensures var e := Log2(n);
            (if e <= 52 then n * Pow2(52 - e) else RoundEven(n, Pow2(e - 52))) <= 2 * TWO52
  {
    var e := Log2(n);
    Pow2Constants();
    if e <= 52 {
      Pow2Add(e, 52 - e);
      ScaledBound(n, Pow2(e), Pow2(52 - e));
    } else {
      Pow2Add(52, e - 52);
      QuotientBound(n, Pow2(e - 52));
    }
  }

  lemma ScaledBound(n: nat, p: nat, u: nat)
    requires p <= n < 2 * p && p * u == TWO52
    ensures TWO52 <= n * u <= 2 * TWO52
  {
    Monotone(p, n, u);
    Monotone(n, 2 * p, u);
    assert 2 * p * u == 2 * (p * u);
  }

  lemma QuotientBound(n: nat, u: nat)
    requires u > 0 && TWO52 * u <= n < 2 * (TWO52 * u)
    ensures TWO52 <= n / u < 2 * TWO52
  {
    QuotientAtLeast(TWO52, u, n);
    Quotient(n, u);
    if 2 * TWO52 <= n / u { Monotone(2 * TWO52, n / u, u); }
  }
}
