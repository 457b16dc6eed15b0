/** Pearson correlation (src/commands/compare.ts), over the reals. */
module Pearson {
  import opened Algebra
  import opened Sums

  /** `n * sumXY - sumX * sumY`. */
  function Covariation(x: seq<real>, y: seq<real>): real
    requires |x| == |y|
  {
    Times(|x| as real, Dot(x, y)) - Times(Sum(x), Sum(y))
  }

  /** `d` is what `Math.sqrt` returns for `v`. */
  predicate IsSqrt(d: real, v: real) { d >= 0.0 && Times(d, d) == v }

  /** The value under the square root. */
  function Radicand(x: seq<real>, y: seq<real>): real
    requires |x| == |y|
  {
    Times(Covariation(x, x), Covariation(y, y))
  }

  /** `pearsonCorrelation` when the square root comes out as `d`. */
  function PearsonCorrelation(x: seq<real>, y: seq<real>, d: real): real {
    if |x| != |y| || |x| == 0 then 0.0
    else if d == 0.0 then 0.0
    else Covariation(x, y) / d
  }

  ghost predicate Constant(x: seq<real>) {
    forall i, j :: 0 <= i < |x| && 0 <= j < |x| ==> x[i] == x[j]
  }

  // ---------------------------------------------- the bilinear form underneath

  lemma CovariationSymmetric(x: seq<real>, y: seq<real>)
    requires |x| == |y|
    ensures Covariation(x, y) == Covariation(y, x)
  {
    hide Times, Sum, Dot;
    DotSymmetric(x, y);
    Commute(Sum(x), Sum(y));
  }

  /** Covariation is linear in its first series. */
  lemma CovariationLinear(z: seq<real>, p: real, x: seq<real>, q: real, y: seq<real>, w: seq<real>)
    requires Combines(z, p, x, q, y) && |w| == |x|
    ensures Covariation(z, w) == Times(p, Covariation(x, w)) - Times(q, Covariation(y, w))
  {
    hide Times, Sum, Dot;
    var n, s, t, u := |x| as real, Sum(x), Sum(y), Sum(w);
    SumLinear(z, p, x, q, y);
    DotLinear(z, p, x, q, y, w);
    Distribute(n, Times(p, Dot(x, w)), Times(q, Dot(y, w)));
    Exchange(n, p, Dot(x, w));
    Exchange(n, q, Dot(y, w));
    DistributeLeft(Times(p, s), Times(q, t), u);
    Associate(p, s, u);
    Associate(q, t, u);
    Distribute(p, Times(n, Dot(x, w)), Times(s, u));
    Distribute(q, Times(n, Dot(y, w)), Times(t, u));
  }

  lemma Centred(x: seq<real>, m: real)
    requires Times(|x| as real, m) == Sum(x)
    ensures Covariation(x, x) == Times(|x| as real, Dot(Distances(x, m), Distances(x, m)))
  {
    hide Times, Sum, Dot;
    var n, d, s := |x| as real, Distances(x, m), Sum(x);
    DistancesSum(x, m);
    Commute(m, n);
    DistancesDot(x, m, d);
    DotSymmetric(x, d);
    DistancesDot(x, m, x);
    Units(m);
    Distribute(n, Dot(x, x), Times(m, s));
    Associate(n, m, s);
  }

  lemma ConstantMean(x: seq<real>, m: real)
    requires |x| > 0 && Times(|x| as real, m) == Sum(x) && Constant(x)
    ensures forall i :: 0 <= i < |x| ==> x[i] == m
  {
    hide Times, Sum, Dot;
    var n, c, one := |x| as real, x[0], Ones(|x|);
    forall i | 0 <= i < |x| ensures x[i] == Times(c, one[i]) - Times(0.0, one[i]) {
      Units(c);
      Units(one[i]);
    }
    SumLinear(x, c, one, 0.0, one);
    SumOnes(|x|);
    Units(n);
    Commute(c, n);
    Distribute(n, c, m);
    CancelPositive(n, c - m);
  }

  /** Neither factor under the root is negative, and one is zero exactly for a constant series. */
  lemma FactorSign(x: seq<real>)
    ensures Covariation(x, x) >= 0.0
    ensures Covariation(x, x) == 0.0 <==> Constant(x)
  {
    hide Times, Dot;
    if |x| == 0 {
      Units(0.0);
      Units(Dot(x, x));
    } else {
      var n := |x| as real;
      var m := Sum(x) / n;
      var d := Distances(x, m);
      Quotient(n, Sum(x));
      Centred(x, m);
      DotSelf(d);
      CancelPositive(n, Dot(d, d));
      if Constant(x) { ConstantMean(x, m); }
      assert forall i :: 0 <= i < |x| ==> (d[i] == 0.0 <==> x[i] == m);
    }
  }

  // ------------------------------------------------------------ Cauchy-Schwarz

  /** The series that vanishes when the points lie on a line. */
  function Residual(x: seq<real>, y: seq<real>): seq<real>
    requires |x| == |y|
  {
    Combine(Covariation(x, y), x, Covariation(x, x), y)
  }

  lemma ResidualSpread(x: seq<real>, y: seq<real>)
    requires |x| == |y|
    ensures var z := Residual(x, y);
      Covariation(z, z) == Times(Covariation(x, x), Radicand(x, y) - Times(Covariation(x, y), Covariation(x, y)))
  {
    hide Times, Covariation;
    var c, v, w, z := Covariation(x, y), Covariation(x, x), Covariation(y, y), Residual(x, y);
    CovariationLinear(z, c, x, v, y, z);
    CovariationLinear(z, c, x, v, y, x);
    CovariationLinear(z, c, x, v, y, y);
    CovariationSymmetric(x, z);
    CovariationSymmetric(y, z);
    CovariationSymmetric(y, x);
    Commute(c, v);
    Units(c);
    Distribute(v, Times(c, c), Times(v, w));
    Distribute(v, Times(v, w), Times(c, c));
  }

  lemma ZeroFactor(x: seq<real>, y: seq<real>)
    requires |x| == |y| && Covariation(x, x) == 0.0
    ensures Covariation(x, y) == 0.0
  {
    hide Times, Covariation;
    var c, w := Covariation(x, y), Covariation(y, y);
    FactorSign(y);
    var p := (w + 1.0) / (if c == 0.0 then 1.0 else c);
    var z := Combine(p, x, 1.0, y);
    CovariationLinear(z, p, x, 1.0, y, z);
    CovariationLinear(z, p, x, 1.0, y, x);
    CovariationLinear(z, p, x, 1.0, y, y);
    CovariationSymmetric(x, z);
    CovariationSymmetric(y, z);
    CovariationSymmetric(y, x);
    FactorSign(z);
    Units(p);
    Units(c);
    Units(w);
    Units(Covariation(z, y));
    Distribute(p, 0.0, c);
    if c != 0.0 {
      Quotient(c, w + 1.0);
      Commute(p, c);
    }
  }

  /** Cauchy-Schwarz: the numerator never exceeds the root in size. */
  lemma CauchySchwarz(x: seq<real>, y: seq<real>)
    requires |x| == |y|
    ensures Times(Covariation(x, y), Covariation(x, y)) <= Radicand(x, y)
  {
    hide Times, Covariation;
    var v, c, w := Covariation(x, x), Covariation(x, y), Covariation(y, y);
    FactorSign(x);
    if v == 0.0 {
      ZeroFactor(x, y);
      Units(c);
      Units(w);
    } else {
      ResidualSpread(x, y);
      FactorSign(Residual(x, y));
      CancelPositive(v, Radicand(x, y) - Times(c, c));
    }
  }

  /** The correlation lies in [-1, 1]; the square root is taken of a non-negative number, and is
      zero exactly when a series is constant. */
  lemma PearsonBounded(x: seq<real>, y: seq<real>, d: real)
    requires |x| == |y| ==> IsSqrt(d, Radicand(x, y))
    ensures -1.0 <= PearsonCorrelation(x, y, d) <= 1.0
    ensures |x| == |y| ==> Radicand(x, y) >= 0.0
    ensures |x| == |y| ==> (d == 0.0 <==> Constant(x) || Constant(y))
  {
    hide Times, Covariation;
    if |x| == |y| {
      var v, w := Covariation(x, x), Covariation(y, y);
      FactorSign(x);
      FactorSign(y);
      CauchySchwarz(x, y);
      if v > 0.0 { CancelPositive(v, w); } else { Units(w); }
      SquareSign(d);
      if d > 0.0 { RatioBounded(Covariation(x, y), d); }
    }
  }

  /** `y` is the image of `x` under a sloping line. */
  ghost predicate OnALine(x: seq<real>, y: seq<real>, slope: real, offset: real) {
    |x| == |y| && slope != 0.0 && forall i :: 0 <= i < |x| ==> y[i] == Times(slope, x[i]) + offset
  }

  ghost predicate OnARisingLine(x: seq<real>, y: seq<real>) {
    exists slope, offset :: slope > 0.0 && OnALine(x, y, slope, offset)
  }

  ghost predicate OnAFallingLine(x: seq<real>, y: seq<real>) {
    exists slope, offset :: slope < 0.0 && OnALine(x, y, slope, offset)
  }

  /** The value is 1 exactly for points on a rising line, and -1 exactly for points on a falling one. */
  lemma PearsonExtreme(x: seq<real>, y: seq<real>, d: real)
    requires |x| == |y| && IsSqrt(d, Radicand(x, y)) && !Constant(x) && !Constant(y)
    ensures PearsonCorrelation(x, y, d) == 1.0 <==> OnARisingLine(x, y)
    ensures PearsonCorrelation(x, y, d) == -1.0 <==> OnAFallingLine(x, y)
  {
    hide Times, Covariation, Residual, OnALine;
    var v, c := Covariation(x, x), Covariation(x, y);
    PearsonBounded(x, y, d);
    FactorSign(x);
    UnitRatio(c, d);
    RatioSign(c, d);
    RatioSign(c, v);
    if Times(c, c) == Radicand(x, y) { ExtremeOnLine(x, y); }
    if slope, offset :| OnALine(x, y, slope, offset) { LineSlope(x, y); }
  }

  /** Equality in the Cauchy-Schwarz bound puts the points on the line of slope c/v. */
  lemma ExtremeOnLine(x: seq<real>, y: seq<real>)
    requires |x| == |y| > 0 && !Constant(y) && Covariation(x, x) > 0.0
    requires Times(Covariation(x, y), Covariation(x, y)) == Radicand(x, y)
    ensures OnALine(x, y, Covariation(x, y) / Covariation(x, x), -Residual(x, y)[0] / Covariation(x, x))
  {
    hide Times, Covariation, Residual;
    ResidualSpread(x, y);
    FactorSign(Residual(x, y));
    Units(Covariation(x, x));
    LineThrough(x, y);
  }

  /** On a sloping line the bound is reached, and the covariation has the sign of the slope. */
  lemma LineSlope(x: seq<real>, y: seq<real>)
    requires |x| == |y| && Covariation(x, x) > 0.0
    ensures forall slope, offset :: OnALine(x, y, slope, offset) ==>
      Times(Covariation(x, y), Covariation(x, y)) == Radicand(x, y)
      && (Covariation(x, y) > 0.0 <==> slope > 0.0) && (Covariation(x, y) < 0.0 <==> slope < 0.0)
  {
    hide Times, Covariation, OnALine, Radicand;
    var v := Covariation(x, x);
    forall slope, offset | OnALine(x, y, slope, offset)
      ensures Times(Covariation(x, y), Covariation(x, y)) == Radicand(x, y)
      ensures (Covariation(x, y) > 0.0 <==> slope > 0.0) && (Covariation(x, y) < 0.0 <==> slope < 0.0)
    {
      LineIsExtreme(x, y, slope, offset);
      Commute(slope, v);
      CancelPositive(v, slope);
    }
  }

  lemma LineThrough(x: seq<real>, y: seq<real>)
    requires |x| == |y| > 0 && !Constant(y) && Covariation(x, x) > 0.0 && Constant(Residual(x, y))
    ensures OnALine(x, y, Covariation(x, y) / Covariation(x, x), -Residual(x, y)[0] / Covariation(x, x))
  {
    hide Times, Covariation;
    var c, v, z := Covariation(x, y), Covariation(x, x), Residual(x, y);
    var slope, offset := c / v, -z[0] / v;
    Quotient(v, c);
    Quotient(v, -z[0]);
    forall i | 0 <= i < |x| ensures y[i] == Times(slope, x[i]) + offset {
      assert z[i] == z[0];
      Associate(v, slope, x[i]);
      Distribute(v, Times(slope, x[i]), offset);
      Distribute(v, y[i], Times(slope, x[i]) + offset);
      CancelPositive(v, y[i] - (Times(slope, x[i]) + offset));
    }
    if slope == 0.0 { Level(x, y, offset); }
  }

  lemma Level(x: seq<real>, y: seq<real>, offset: real)
    requires |x| == |y| && forall i :: 0 <= i < |x| ==> y[i] == Times(0.0, x[i]) + offset
    ensures Constant(y)
  {
    hide Times;
    forall i | 0 <= i < |x| ensures y[i] == offset { Units(x[i]); }
  }

  lemma LineIsExtreme(x: seq<real>, y: seq<real>, slope: real, offset: real)
    requires OnALine(x, y, slope, offset)
    ensures Times(Covariation(x, y), Covariation(x, y)) == Radicand(x, y)
    ensures Covariation(x, y) == Times(slope, Covariation(x, x))
  {
    hide Times, Covariation;
    var v, c, w := Covariation(x, x), Covariation(x, y), Covariation(y, y);
    var z := Combine(slope, x, 1.0, y);
    forall i | 0 <= i < |x| ensures z[i] == -offset { Units(y[i]); }
    FactorSign(z);
    ZeroFactor(z, x);
    ZeroFactor(z, y);
    CovariationLinear(z, slope, x, 1.0, y, x);
    CovariationLinear(z, slope, x, 1.0, y, y);
    CovariationSymmetric(x, y);
    Units(c);
    Units(w);
    Exchange(v, slope, c);
    Associate(slope, v, c);
  }
}
