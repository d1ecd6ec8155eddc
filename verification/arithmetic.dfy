/** Products and quotients of natural numbers. */
module Arithmetic {
  lemma Distribute(n: nat, d: nat)
    ensures (n + 1) * d == n * d + d
  {}

  lemma Monotone(a: nat, b: nat, d: nat)
    requires a <= b
    ensures a * d <= b * d
  {
    assert b * d == a * d + (b - a) * d;
  }

  lemma Quotient(n: nat, d: nat)
    requires d > 0
    ensures n / d * d <= n < (n / d + 1) * d
  {
    assert n == d * (n / d) + n % d;
    Distribute(n / d, d);
  }

  /** Multiples of the divisor up to the number do not exceed its quotient. */
  lemma QuotientAtLeast(count: nat, d: nat, n: nat)
    requires d > 0 && count * d <= n
    ensures count <= n / d
  {
    Quotient(n, d);
    if count > n / d { Monotone(n / d + 1, count, d); }
  }

  lemma QuotientAtMost(n: nat, d: nat)
    requires d > 0
    ensures n / d <= n
  {
    ProductAtLeast(d, n / d);
  }

  lemma ProductAtLeast(d: nat, q: nat)
    requires d > 0
    ensures d * q >= q
  {
    assert d * q == q + (d - 1) * q;
    assert (d - 1) * q >= 0;
  }
}
