/** Facts about products, quotients and powers of ten that several models share. */
module Arithmetic {

  function Pow10(k: nat): (p: nat)
    ensures p > 0
  {
    if k == 0 then 1 else 10 * Pow10(k - 1)
  }

  lemma {:induction false} PowSum(a: nat, b: nat)
    ensures Pow10(a + b) == Pow10(a) * Pow10(b)
  {
    if a > 0 {
      PowSum(a - 1, b);
      assert Pow10(a + b) == 10 * (Pow10(a - 1) * Pow10(b)) == (10 * Pow10(a - 1)) * Pow10(b);
    }
  }

  lemma ProductMonotone(x: nat, y: nat, z: nat)
    requires x <= y
    ensures x * z <= y * z
  {
  }

  lemma Distribute(u: nat, b: nat, v: nat, a: nat)
    ensures (u * b + v) * a == u * (a * b) + v * a
  {
  }

  /** Quotient and remainder are unique. */
  lemma DivisionIs(x: nat, d: nat, q: nat, r: nat)
    requires d > 0 && x == q * d + r && r < d
    ensures x / d == q && x % d == r
  {
    var q', r' := x / d, x % d;
    assert x == q' * d + r';
    if q + 1 <= q' {
      ProductMonotone(q + 1, q', d);
    } else if q' + 1 <= q {
      ProductMonotone(q' + 1, q, d);
    }
  }

  /** Two truncating divisions are one by the product. */
  lemma DivTwice(x: nat, a: nat, b: nat)
    requires a > 0 && b > 0
    ensures a * b > 0 && x / a / b == x / (a * b)
  {
    var q, r := x / a, x % a;
    var q2, r2 := q / b, q % b;
    assert x == q * a + r;
    Distribute(q2, b, r2, a);
    ProductMonotone(r2 + 1, b, a);
    Distribute(0, 0, r2 + 1, a);
    assert (r2 + 1) * a == r2 * a + a;
    assert x == q2 * (a * b) + (r2 * a + r);
    DivisionIs(x, a * b, q2, r2 * a + r);
  }

  /** A truncated quotient is the only number whose multiple is this close from below. */
  lemma Truncated(x: nat, d: nat)
    requires d > 0
    ensures x / d * d <= x < (x / d + 1) * d
  {
    var q := x / d;
    assert (q + 1) * d == q * d + d;
  }
}
