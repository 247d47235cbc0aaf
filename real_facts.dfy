/**
 * Small facts of real arithmetic that the solver does not find on its own.
 * They support the proofs of the other modules and model nothing of the
 * program themselves.
 */
module RealFacts {

  lemma MulMonotone(x: real, y: real, p: real)
    requires x <= y && p > 0.0
    ensures x * p <= y * p
  {
  }

  lemma MulStrict(x: real, y: real, p: real)
    requires x < y && p > 0.0
    ensures x * p < y * p
  {
  }

  lemma MulDivCancel(a: real, p: real)
    requires p != 0.0
    ensures a * p / p == a
  {
  }

  lemma DivMonotone(a: real, b: real, p: real)
    requires a <= b && p > 0.0
    ensures a / p <= b / p
  {
  }

  lemma DivBounds(e: real, h: real, p: real)
    requires p > 0.0 && -h < e <= h
    ensures -h / p < e / p <= h / p
  {
  }

  /** a / b < 1 when 0 < a < b. */
  lemma DivBelowOne(a: real, b: real)
    requires 0.0 < a < b
    ensures a / b < 1.0
  {
    var q := a / b;
    assert q * b == a;
    if q >= 1.0 {
      MulMonotone(1.0, q, b);
      assert false;
    }
  }

  /** 0 < a / b * 100 <= 100 when 0 < a <= b. */
  lemma PercentAtMostWhole(a: real, b: real)
    requires 0.0 < a <= b
    ensures 0.0 < a / b * 100.0 <= 100.0
  {
    if a < b {
      DivBelowOne(a, b);
    }
  }

  /** Taking a percentage of b and then that share of b again gives back a. */
  lemma PercentOf(a: real, b: real)
    requires b != 0.0
    ensures a / b * 100.0 / 100.0 * b == a
  {
    assert a / b * 100.0 / 100.0 == a / b;
  }

  /** (a / p) * q < c when a / p < c / q, for positive q. */
  lemma ScaledRatio(a: real, p: real, c: real, q: real)
    requires p > 0.0 && q > 0.0 && a / p < c / q
    ensures a / p * q < c
  {
    MulStrict(a / p, c / q, q);
  }

  lemma ScaledRatioAtMost(a: real, p: real, c: real, q: real)
    requires p > 0.0 && q > 0.0 && a / p <= c / q
    ensures a / p * q <= c
  {
    MulMonotone(a / p, c / q, q);
  }

  /** (a / p * q) * p = a * q. */
  lemma CrossMultiply(a: real, p: real, q: real)
    requires p != 0.0
    ensures (a / p * q) * p == a * q
  {
    assert a / p * p == a;
  }

  /** i * (100 / n) stays strictly inside (0, 100) for 0 < i < n. */
  lemma PartInside(i: real, n: real)
    requires 0.0 < i < n
    ensures 0.0 < i * (100.0 / n) < 100.0
  {
    DivBelowOne(i, n);
    assert i * (100.0 / n) == 100.0 * (i / n);
  }

  /** n * (100 / n) = 100. */
  lemma WholePart(n: real)
    requires n > 0.0
    ensures n * (100.0 / n) == 100.0
  {
  }
}
