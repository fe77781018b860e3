/** Small facts about products of reals that the geometry and physics proofs share. */
module RealArith {
  lemma MulPos(a: real, b: real)
    requires a > 0.0 && b > 0.0
    ensures a * b > 0.0
  {
  }

  lemma MulNonNeg(a: real, b: real)
    requires a >= 0.0 && b >= 0.0
    ensures a * b >= 0.0
  {
  }

  /**
   * The product a·b as a term of its own, so that a fact stated about
   * Times(u, hi - lo) applies wherever that product appears.
   */
  function Times(a: real, b: real): real
  {
    a * b
  }

  /** A fraction in [0, 1) of a positive d lies in [0, d). */
  lemma FractionOf(u: real, d: real)
    requires 0.0 <= u < 1.0 && d > 0.0
    ensures 0.0 <= Times(u, d) < d
  {
    MulNonNeg(u, d);
    MulPos(1.0 - u, d);
    assert (1.0 - u) * d == d - u * d;
  }

  /** A positive value times a non-positive one, times a positive one, is not positive. */
  lemma MulNonPos(v: real, a: real, b: real)
    requires v > 0.0 && a <= 0.0 && b > 0.0
    ensures v * a * b <= 0.0
  {
    MulNonNeg(v, -a);
    MulNonNeg(v * -a, b);
    assert v * a * b == -(v * -a * b);
  }

  /** Scaling a half-open range by two positive factors. */
  lemma ScaledRange(v: real, lo: real, hi: real, a: real, b: real)
    requires lo <= v < hi && a > 0.0 && b > 0.0
    ensures lo * a * b <= v * a * b < hi * a * b
  {
    MulPos(a, b);
    var k := a * b;
    MulNonNeg(v - lo, k);
    MulPos(hi - v, k);
    assert (v - lo) * k == v * k - lo * k;
    assert (hi - v) * k == hi * k - v * k;
    assert v * a * b == v * k && lo * a * b == lo * k && hi * a * b == hi * k;
  }

  /** (m - 1)·a + a = m·a. */
  lemma OneMore(a: real, m: real)
    ensures (m - 1.0) * a + a == m * a
  {
  }

  /** The arithmetic step of the closed form for a falling particle's height. */
  lemma FallDistance(v: real, g: real, m: real)
    ensures (m - 1.0) * v + g * (m - 1.0) * m / 2.0 + (v + (m - 1.0) * g + g) == m * v + g * m * (m + 1.0) / 2.0
  {
  }

  /** e / d < 1 compares e with d, the comparison flipping for a negative divisor. */
  lemma QuotientBelowOne(e: real, d: real)
    requires d != 0.0
    ensures d > 0.0 ==> (e / d < 1.0 <==> e < d)
    ensures d < 0.0 ==> (e / d < 1.0 <==> e > d)
  {
    var q := e / d;
    assert e == q * d;
    assert e - d == (q - 1.0) * d;
  }

  /** a · (b / a) = b for a non-zero a. */
  lemma MulDivCancel(a: real, b: real)
    requires a != 0.0
    ensures a * (b / a) == b
  {
  }

  /** Multiplying both sides of s <= t by a non-negative a. */
  lemma MulLe(a: real, s: real, t: real)
    requires a >= 0.0 && s <= t
    ensures a * s <= a * t
  {
    MulNonNeg(a, t - s);
    assert a * (t - s) == a * t - a * s;
  }

  /** b / a is non-negative when a is positive and b non-negative. */
  lemma DivNonNeg(b: real, a: real)
    requires a > 0.0 && b >= 0.0
    ensures b / a >= 0.0
  {
    var q := b / a;
    assert q * a == b;
    if q < 0.0 {
      MulPos(-q, a);
    }
  }
}
