/** Facts about products and quotients that the solver needs told. */
module Arith {

  lemma MulMono(p: nat, a: int, b: int)
    requires a <= b
    ensures p * a <= p * b
  {
    assert p * b == p * a + p * (b - a);
    MulNat(p, b - a);
  }

  lemma MulNat(p: nat, a: nat)
    ensures p * a >= 0
  {
  }

  /** A quotient and remainder are the only ones. */
  lemma Quotient(n: int, p: nat, d: int, r: nat)
    requires r < p && n == p * d + r
    ensures n / p == d && n % p == r
  {
    if n / p > d {
      MulMono(p, d + 1, n / p);
    } else if n / p < d {
      MulMono(p, n / p + 1, d);
    }
  }
}
