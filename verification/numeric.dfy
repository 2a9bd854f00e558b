/** Scalar helpers the stress evaluator relies on: Python's built-in `max` and
    `min` on two or three reals, and `limit(vmin, vmax, v)` from the PCSE
    utility module, which is modelled here as a clamp of `v` to `[vmin, vmax]`. */
module Numeric {

  /** The larger of two reals. */
  function Max(a: real, b: real): (r: real)
    ensures r >= a && r >= b
    ensures r == a || r == b
  {
    if b > a then b else a
  }

  /** The smaller of two reals. */
  function Min(a: real, b: real): (r: real)
    ensures r <= a && r <= b
    ensures r == a || r == b
  {
    if b < a then b else a
  }

  /** The smallest of three reals, as `min(a, b, c)`. */
  function Min3(a: real, b: real, c: real): (r: real)
    ensures r <= a && r <= b && r <= c
    ensures r == a || r == b || r == c
  {
    Min(Min(a, b), c)
  }

  /** `limit(lo, hi, v)`: `v` forced into `[lo, hi]`. The utility refuses an
      empty interval, hence the precondition. */
  function Clamp(lo: real, hi: real, v: real): (r: real)
    requires lo <= hi
    ensures lo <= r <= hi
    ensures lo <= v <= hi ==> r == v
    ensures v < lo ==> r == lo
    ensures v > hi ==> r == hi
  {
    if v < lo then lo else if v < hi then v else hi
  }

  /* Facts of ordered-field arithmetic the proofs use, each kept to one
     nonlinear step so that the solver meets it in isolation. */

  lemma MulNonneg(x: real, y: real)
    requires x >= 0.0 && y >= 0.0
    ensures x * y >= 0.0
  {
  }

  lemma MulNonzero(x: real, y: real)
    requires x != 0.0 && y != 0.0
    ensures x * y != 0.0
  {
  }

  lemma MulMonotone(a: real, b: real, c: real)
    requires a <= b && c >= 0.0
    ensures c * a <= c * b
  {
    MulNonneg(c, b - a);
  }

  /** Multiplying by a positive factor preserves the sign. */
  lemma SignOfScaled(x: real, t: real)
    requires t > 0.0
    ensures x > 0.0 <==> x * t > 0.0
    ensures x >= 0.0 <==> x * t >= 0.0
  {
  }

  lemma CancelFactor(x: real, y: real, t: real)
    requires t != 0.0 && x * t == y * t
    ensures x == y
  {
    assert (x - y) * t == 0.0;
  }

  lemma SquareMonotone(a: real, b: real)
    requires 0.0 <= a <= b
    ensures a * a <= b * b
  {
    MulMonotone(a, b, a);
    MulMonotone(a, b, b);
  }

  /** Scaling numerator and denominator by the same positive factor leaves a
      quotient unchanged. */
  lemma QuotientScales(x: real, y: real, t: real)
    requires y != 0.0 && t > 0.0
    ensures (x * t) / (y * t) == x / y
  {
    assert (x / y) * (y * t) == x * t;
  }

  /** Division by a positive real preserves order. */
  lemma QuotientMonotone(a: real, b: real, d: real)
    requires a <= b && d > 0.0
    ensures a / d <= b / d
  {
    SignOfScaled(b / d - a / d, d);
  }

  lemma ClampMonotone(lo: real, hi: real, u: real, v: real)
    requires lo <= hi && u <= v
    ensures Clamp(lo, hi, u) <= Clamp(lo, hi, v)
  {
  }
}
