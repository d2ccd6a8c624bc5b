/** Facts about products of reals, each stated over named values. */
module Reals {

  lemma ProductOfPositives(a: real, b: real, p: real)
    requires p == a * b && a > 0.0 && b > 0.0
    ensures p > 0.0
  {
  }

  lemma ProductOfNegatives(a: real, b: real, p: real)
    requires p == a * b && a < 0.0 && b < 0.0
    ensures p > 0.0
  {
    ProductOfPositives(-a, -b, p);
  }

  lemma SquareSign(d: real, sq: real)
    requires sq == d * d
    ensures d != 0.0 ==> sq > 0.0
    ensures d == 0.0 ==> sq == 0.0
  {
    if d > 0.0 { ProductOfPositives(d, d, sq); }
    if d < 0.0 { ProductOfNegatives(d, d, sq); }
  }

  /** The sign of a quotient by a positive number is the sign of what it divides. */
  lemma QuotientSign(a: real, b: real, q: real)
    requires b > 0.0 && q == a / b
    ensures q * b == a
    ensures q > 0.0 <==> a > 0.0
    ensures q < 0.0 <==> a < 0.0
  {
    assert q * b == a;
    if q > 0.0 { ProductOfPositives(q, b, a); }
    if q < 0.0 { ProductOfPositives(-q, b, -a); }
  }

  lemma Monotone(m: real, a: real, b: real)
    requires m >= 0.0 && a <= b
    ensures m * a <= m * b
  {
  }

  lemma Distribute(k: real, a: real, b: real)
    ensures k * a + k * b == k * (a + b)
  {
  }
}
