/** Facts about multiplication of reals that the solver does not find on
    its own once several products are in play. */
module RealArith {

  /** Multiplying by a nonnegative factor preserves order. */
  lemma MulMonotone(a: real, x: real, y: real)
    requires a >= 0.0 && x <= y
    ensures a * x <= a * y
  {
    assert a * (y - x) >= 0.0;
    assert a * y - a * x == a * (y - x);
  }

  /** A nonnegative k multiplied by a fraction in [0, 1] stays in [0, k]. */
  lemma ScaledByFraction(k: real, w: real)
    requires k >= 0.0 && 0.0 <= w <= 1.0
    ensures 0.0 <= k * w <= k
  {
    MulMonotone(k, 0.0, w);
    MulMonotone(k, w, 1.0);
  }

  /** Scaling both arguments of a contact term b*s*i by c scales it by c*c. */
  lemma ScaledContact(b: real, c: real, s: real, i: real)
    ensures b * (c * s) * (c * i) == c * c * (b * s * i)
  {
  }

  /** Scaling s, i and n by c != 0 scales the normalised contact term
      b*s*i/n by c. */
  lemma ScaledQuotient(b: real, c: real, s: real, i: real, n: real)
    requires c != 0.0 && n != 0.0
    ensures b * (c * s) * (c * i) / (c * n) == c * (b * s * i / n)
  {
    ScaledContact(b, c, s, i);
    CancelCommonFactor(c, b * s * i, n);
  }

  /** Dividing a contact term b*s*i by n is the same as using the rate b/n. */
  lemma QuotientAsRate(b: real, s: real, i: real, n: real)
    requires n != 0.0
    ensures b * s * i / n == b / n * s * i
  {
    assert b / n * s * i * n == b * s * i;
  }

  /** A common factor c cancels from a quotient: (c*c*p) / (c*n) == c * (p/n). */
  lemma CancelCommonFactor(c: real, p: real, n: real)
    requires c != 0.0 && n != 0.0
    ensures c * c * p / (c * n) == c * (p / n)
  {
    assert c * (p / n) * (c * n) == c * c * p;
  }
}
