/** Elementary algebra of the reals. A product is written `Times(a, b)`, so that a proof can hide
    what multiplication is and use only the laws stated here. */
module Algebra {
  function Times(a: real, b: real): real { a * b }

  lemma Commute(a: real, b: real)
    ensures Times(a, b) == Times(b, a)
  {
  }

  lemma Associate(a: real, b: real, c: real)
    ensures Times(Times(a, b), c) == Times(a, Times(b, c))
  {
    assert (a * b) * c == a * (b * c);
  }

  /** Products of three factors do not depend on which two are grouped. */
  lemma Exchange(a: real, b: real, c: real)
    ensures Times(a, Times(b, c)) == Times(b, Times(a, c))
  {
    hide Times;
    Associate(a, b, c);
    Commute(a, b);
    Associate(b, a, c);
  }

  lemma Distribute(a: real, b: real, c: real)
    ensures Times(a, b + c) == Times(a, b) + Times(a, c)
    ensures Times(a, b - c) == Times(a, b) - Times(a, c)
  {
  }

  lemma DistributeLeft(a: real, b: real, c: real)
    ensures Times(a + b, c) == Times(a, c) + Times(b, c)
    ensures Times(a - b, c) == Times(a, c) - Times(b, c)
  {
  }

  lemma Units(a: real)
    ensures Times(a, 0.0) == 0.0 && Times(0.0, a) == 0.0
    ensures Times(a, 1.0) == a && Times(1.0, a) == a
    ensures Times(a, -1.0) == -a && Times(-1.0, a) == -a
  {
  }

  lemma BothPositive(a: real, b: real)
    requires a > 0.0 && b > 0.0
    ensures Times(a, b) > 0.0
  {
  }

  lemma NonNegative(a: real, b: real)
    requires a >= 0.0 && b >= 0.0
    ensures Times(a, b) >= 0.0
  {
  }

  /** A positive factor keeps the sign of the other. */
  lemma CancelPositive(a: real, b: real)
    requires a > 0.0
    ensures Times(a, b) >= 0.0 <==> b >= 0.0
    ensures Times(a, b) == 0.0 <==> b == 0.0
  {
    hide Times;
    Units(a);
    if b > 0.0 {
      BothPositive(a, b);
    } else if b < 0.0 {
      BothPositive(a, -b);
      Distribute(a, 0.0, b);
    }
  }

  lemma Quotient(n: real, s: real)
    requires n != 0.0
    ensures Times(n, s / n) == s
  {
  }

  lemma SquareMonotone(c: real, d: real)
    requires c > d >= 0.0
    ensures Times(c, c) > Times(d, d)
  {
    hide Times;
    BothPositive(c, c - d);
    NonNegative(d, c - d);
    Distribute(c, c, d);
    Distribute(d, c, d);
    Commute(c, d);
  }

  lemma DifferenceOfSquares(c: real, d: real)
    ensures Times(c - d, c + d) == Times(c, c) - Times(d, d)
  {
    hide Times;
    DistributeLeft(c, d, c + d);
    Distribute(c, c, d);
    Distribute(d, c, d);
    Commute(c, d);
  }

  lemma NegateBoth(c: real)
    ensures Times(-c, -c) == Times(c, c)
  {
    hide Times;
    DifferenceOfSquares(c, -c);
    Units(c + c);
  }

  lemma SquareSign(r: real)
    ensures r != 0.0 ==> Times(r, r) > 0.0
    ensures r == 0.0 ==> Times(r, r) == 0.0
  {
    hide Times;
    Units(r);
    if r > 0.0 {
      BothPositive(r, r);
    } else if r < 0.0 {
      BothPositive(-r, -r);
      NegateBoth(r);
    }
  }

  /** Comparing squares compares sizes. */
  lemma SizeBounded(c: real, d: real)
    requires d >= 0.0 && Times(c, c) <= Times(d, d)
    ensures -d <= c <= d
  {
    hide Times;
    if c > d { SquareMonotone(c, d); }
    if -c > d {
      SquareMonotone(-c, d);
      NegateBoth(c);
    }
  }

  lemma RatioBounded(c: real, d: real)
    requires d > 0.0 && Times(c, c) <= Times(d, d)
    ensures -1.0 <= c / d <= 1.0
  {
    SizeBounded(c, d);
    RatioInRange(c, d);
  }

  lemma RatioInRange(c: real, d: real)
    requires d > 0.0 && -d <= c <= d
    ensures -1.0 <= c / d <= 1.0
  {
  }

  lemma FractionInRange(c: real, d: real)
    requires d > 0.0 && 0.0 <= c <= d
    ensures 0.0 <= c / d <= 1.0
  {
  }

  lemma UnitRatio(c: real, d: real)
    requires d > 0.0
    ensures c / d == 1.0 || c / d == -1.0 <==> Times(c, c) == Times(d, d)
  {
    hide Times;
    Quotient(d, c);
    Units(d);
    NegateBoth(d);
    if Times(c, c) == Times(d, d) {
      SizeBounded(c, d);
      SquareFits(c, d);
    }
  }

  /** Dividing by a positive number keeps the sign. */
  lemma RatioSign(c: real, d: real)
    requires d > 0.0
    ensures (c / d > 0.0 <==> c > 0.0) && (c / d < 0.0 <==> c < 0.0)
  {
    hide Times;
    Quotient(d, c);
    CancelPositive(d, c / d);
  }

  lemma SquareFits(c: real, d: real)
    requires d > 0.0 && -d <= c <= d && Times(c, c) == Times(d, d)
    ensures c / d == 1.0 || c / d == -1.0
  {
    hide Times;
    DifferenceOfSquares(c, d);
    if -d < c < d {
      BothPositive(d - c, c + d);
      DistributeLeft(c, d, c + d);
      DistributeLeft(d, c, c + d);
    }
    SelfRatio(d);
  }

  lemma SelfRatio(d: real)
    requires d != 0.0
    ensures d / d == 1.0 && -d / d == -1.0
  {
  }
}
