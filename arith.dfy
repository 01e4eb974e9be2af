/** Small facts about products of reals that the solver does not find on its
    own once other nonlinear terms are in scope. */
module Arith {

  lemma MulNonNeg(a: real, b: real)
    requires 0.0 <= a && 0.0 <= b
    ensures 0.0 <= a * b
  {
  }

  lemma MulNonPositive(a: real, b: real)
    requires a <= 0.0 && 0.0 <= b
    ensures a * b <= 0.0
  {
  }

  lemma MulMono(a: real, b: real, x: real, y: real)
    requires 0.0 <= a <= b && 0.0 <= x <= y
    ensures a * x <= b * y
  {
    assert a * x <= b * x;
    assert b * x <= b * y;
  }

  /** A non-negative `base` scaled by a factor in [lo, hi] lands in
      [lo * base, hi * base]. */
  lemma ScaleBetween(base: real, k: real, lo: real, hi: real, scaled: real)
    requires 0.0 <= base && lo <= k <= hi && scaled == base * k
    ensures lo * base <= scaled <= hi * base
  {
    MulNonNeg(k - lo, base);
    MulNonNeg(hi - k, base);
  }
}
