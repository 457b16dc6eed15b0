/** Aggregation of number series (src/experiment/stats.ts), over the reals. */
module Stats {
  import opened Algebra
  import opened Order
  import opened Sums

  predicate RealLeq(a: real, b: real) { a <= b }

  /** `numberStats`: nothing but the count for an empty series. */
  datatype NumberStats =
    | NoValues
    | NumberStats(count: nat, mean: real, median: real, stddev: real, min: real, max: real)

  function SortedValues(values: seq<real>): (s: seq<real>)
    ensures multiset(s) == multiset(values) && |s| == |values| && Sorted(RealLeq, s)
  {
    RealsOrdered();
    SortByCorrect(RealLeq, values);
    SortBy(RealLeq, values)
  }

  lemma RealsOrdered()
    ensures TotalPreorder(RealLeq)
    ensures forall s: seq<real> :: NoTies(RealLeq, s)
  {
  }

  function Mean(values: seq<real>): real
    requires values != []
  {
    Sum(values) / (|values| as real)
  }

  /** `sum((v - mean) ** 2) / n`. */
  function Variance(values: seq<real>): real
    requires values != []
  {
    var d := Distances(values, Mean(values));
    Dot(d, d) / (|values| as real)
  }

  function Median(sorted: seq<real>): real
    requires sorted != []
  {
    var n := |sorted|;
    if n % 2 == 1 then sorted[(n - 1) / 2] else (sorted[n / 2 - 1] + sorted[n / 2]) / 2.0
  }

  /** `numberStats(values)` when `Math.sqrt` of the variance comes out as `root`. */
  function StatsOf(values: seq<real>, root: real): NumberStats {
    if values == [] then NoValues
    else
      var s := SortedValues(values);
      NumberStats(|s|, Mean(s), Median(s), root, s[0], s[|s| - 1])
  }

  predicate IsRoot(values: seq<real>, root: real) {
    values == [] || (root >= 0.0 && Times(root, root) == Variance(SortedValues(values)))
  }

  /** No field depends on the order of the values. */
  lemma StatsIgnoreOrder(values: seq<real>, others: seq<real>, root: real)
    requires multiset(values) == multiset(others)
    ensures StatsOf(values, root) == StatsOf(others, root)
    ensures IsRoot(values, root) <==> IsRoot(others, root)
  {
    assert |multiset(values)| == |multiset(others)|;
    hide Mean, Median, Variance;
    SameSorted(values, others);
  }

  lemma SameSorted(values: seq<real>, others: seq<real>)
    requires multiset(values) == multiset(others)
    ensures SortedValues(values) == SortedValues(others)
  {
    RealsOrdered();
    hide SortBy;
    SortCanonical(RealLeq, values, others);
  }

  /** Both distances from the extremes are non-negative, so their products sum to at least zero. */
  lemma ExtremesProduct(s: seq<real>, lo: real, hi: real)
    requires forall i :: 0 <= i < |s| ==> lo <= s[i] <= hi
    ensures Dot(Distances(s, lo), Distances(s, hi)) <= 0.0
  {
    hide Times, Sum;
    var d, e := Distances(s, lo), Distances(s, hi);
    var f := Combine(-1.0, e, 0.0, e);
    forall i | 0 <= i < |s| ensures Products(f, d)[i] >= 0.0 {
      Units(e[i]);
      NonNegative(f[i], d[i]);
    }
    SumNonNegative(Products(f, d));
    DotLinear(f, -1.0, e, 0.0, e, d);
    Units(Dot(e, d));
    DotSymmetric(e, d);
  }

  lemma AroundMean(s: seq<real>, m: real, lo: real, hi: real)
    requires Times(|s| as real, m) == Sum(s)
    ensures var d := Distances(s, m);
      Dot(Distances(s, lo), Distances(s, hi)) == Dot(d, d) + Times(|s| as real, Times(m - lo, m - hi))
  {
    hide Times, Sum, Dot;
    var n, d, a, b, sum := |s| as real, Distances(s, m), Distances(s, lo), Distances(s, hi), Sum(s);
    DistancesDot(s, lo, b);
    DotSymmetric(s, b);
    DistancesDot(s, hi, s);
    DistancesSum(s, hi);
    DistancesDot(s, m, d);
    DotSymmetric(s, d);
    DistancesDot(s, m, s);
    DistancesSum(s, m);
    Commute(n, m);
    Units(m);
    ExpandMeans(n, m, lo, hi, sum);
  }

  lemma ExpandMeans(n: real, m: real, lo: real, hi: real, sum: real)
    requires Times(n, m) == sum
    ensures -Times(hi, sum) - Times(lo, sum - Times(hi, n)) == -Times(m, sum) + Times(n, Times(m - lo, m - hi))
  {
    hide Times;
    DistributeLeft(m, lo, m - hi);
    Distribute(m, m, hi);
    Distribute(lo, m, hi);
    Distribute(n, Times(m, m) - Times(m, hi), Times(lo, m) - Times(lo, hi));
    Distribute(n, Times(m, m), Times(m, hi));
    Distribute(n, Times(lo, m), Times(lo, hi));
    Exchange(n, m, m);
    Exchange(n, lo, m);
    Exchange(n, lo, hi);
    Commute(m, hi);
    Exchange(n, hi, m);
    Commute(n, hi);
    Distribute(lo, sum, Times(hi, n));
  }

  lemma MeanBetween(s: seq<real>, lo: real, hi: real)
    requires s != [] && forall i :: 0 <= i < |s| ==> lo <= s[i] <= hi
    ensures lo <= Mean(s) <= hi
    ensures Times(|s| as real, Mean(s)) == Sum(s)
  {
    hide Times, Sum;
    var n, m := |s| as real, Mean(s);
    Quotient(n, Sum(s));
    DistancesSum(s, lo);
    DistancesSum(s, hi);
    SumNonNegative(Distances(s, lo));
    var f := Combine(-1.0, Distances(s, hi), 0.0, s);
    forall i | 0 <= i < |s| ensures f[i] >= 0.0 {
      Units(Distances(s, hi)[i]);
      Units(s[i]);
    }
    SumNonNegative(f);
    SumLinear(f, -1.0, Distances(s, hi), 0.0, s);
    Units(Sum(Distances(s, hi)));
    Units(Sum(s));
    Commute(n, lo);
    Commute(n, hi);
    Distribute(n, m, lo);
    Distribute(n, hi, m);
    CancelPositive(n, m - lo);
    CancelPositive(n, hi - m);
  }

  /** The variance of values in [lo, hi] is at most (mean - lo) * (hi - mean). */
  lemma VarianceBounded(s: seq<real>, lo: real, hi: real)
    requires s != [] && forall i :: 0 <= i < |s| ==> lo <= s[i] <= hi
    ensures 0.0 <= Variance(s) <= Times(Mean(s) - lo, hi - Mean(s))
    ensures Variance(s) == 0.0 <==> forall i :: 0 <= i < |s| ==> s[i] == Mean(s)
  {
    hide Times, Sum, Dot;
    var n, m := |s| as real, Mean(s);
    var d := Distances(s, m);
    var v, p := Dot(d, d) / n, Times(m - lo, m - hi);
    MeanBetween(s, lo, hi);
    ExtremesProduct(s, lo, hi);
    AroundMean(s, m, lo, hi);
    DotSelf(d);
    Quotient(n, Dot(d, d));
    Distribute(n, 0.0 - p, v);
    Distribute(n, 0.0, p);
    Units(n);
    CancelPositive(n, (0.0 - p) - v);
    CancelPositive(n, v);
    Distribute(m - lo, 0.0, m - hi);
    Units(m - lo);
    assert forall i :: 0 <= i < |s| ==> (d[i] == 0.0 <==> s[i] == m);
  }

  /** (m - lo) * (hi - m) is at most a quarter of the squared range. */
  lemma ProductOfParts(a: real, b: real)
    ensures 4.0 * Times(a, b) <= Times(a + b, a + b)
  {
    hide Times;
    SquareSign(a - b);
    Distribute(a - b, a, b);
    DistributeLeft(a, b, a);
    DistributeLeft(a, b, b);
    Distribute(a + b, a, b);
    Commute(a, b);
  }

  lemma HalfSquare(r: real, h: real)
    requires r >= 0.0 && h >= 0.0 && 4.0 * Times(r, r) <= Times(h, h)
    ensures 2.0 * r <= h
  {
    hide Times;
    DistributeLeft(r, r, r + r);
    Distribute(r, r, r);
    SizeBounded(r + r, h);
  }

  /** Minimum, mean, median and maximum are in order, the variance is at most
      (mean - min)(max - mean), and so the standard deviation is at most half the range; it is
      zero exactly when all values agree. */
  lemma StatsBounds(values: seq<real>, root: real)
    requires values != [] && IsRoot(values, root)
    ensures var r := StatsOf(values, root);
      && r.count == |values|
      && r.min in values && r.max in values && (forall v :: v in values ==> r.min <= v <= r.max)
      && r.min <= r.mean <= r.max && r.min <= r.median <= r.max
      && Times(r.stddev, r.stddev) <= Times(r.mean - r.min, r.max - r.mean)
      && 2.0 * r.stddev <= r.max - r.min
      && (r.stddev == 0.0 <==> r.min == r.max)
  {
    var s := SortedValues(values);
    ExtremesOf(values, s);
    SpreadBounds(s, root);
    MedianBetween(s);
    hide Times, Mean, Variance, Median, SortedValues;
  }

  lemma ExtremesOf(values: seq<real>, s: seq<real>)
    requires s == SortedValues(values) && values != []
    ensures s != [] && s[0] in values && s[|s| - 1] in values
    ensures forall v :: v in values ==> s[0] <= v <= s[|s| - 1]
    ensures forall i :: 0 <= i < |s| ==> s[0] <= s[i] <= s[|s| - 1]
  {
    SameElements(values, s);
    hide SortedValues;
    forall i | 0 <= i < |s| ensures s[0] <= s[i] <= s[|s| - 1] {
      assert RealLeq(s[0], s[i]) || i == 0;
      assert RealLeq(s[i], s[|s| - 1]) || i == |s| - 1;
    }
    forall v | v in values ensures s[0] <= v <= s[|s| - 1] {
      var i :| 0 <= i < |s| && s[i] == v;
    }
  }

  lemma MedianBetween(s: seq<real>)
    requires s != [] && forall i :: 0 <= i < |s| ==> s[0] <= s[i] <= s[|s| - 1]
    ensures s[0] <= Median(s) <= s[|s| - 1]
  {
  }

  lemma SpreadBounds(s: seq<real>, root: real)
    requires s != [] && forall i :: 0 <= i < |s| ==> s[0] <= s[i] <= s[|s| - 1]
    requires root >= 0.0 && Times(root, root) == Variance(s)
    ensures var lo, hi, m := s[0], s[|s| - 1], Mean(s);
      && lo <= m <= hi && Times(root, root) <= Times(m - lo, hi - m) && 2.0 * root <= hi - lo
      && (root == 0.0 <==> lo == hi)
  {
    hide Times, Mean, Variance;
    var lo, hi, m := s[0], s[|s| - 1], Mean(s);
    MeanBetween(s, lo, hi);
    VarianceBounded(s, lo, hi);
    ProductOfParts(m - lo, hi - m);
    HalfSquare(root, hi - lo);
    SquareSign(root);
  }

  // ------------------------------------------------------------------- rates

  function Rate(numerator: nat, denominator: nat): (r: real)
    ensures numerator <= denominator ==> 0.0 <= r <= 1.0
  {
    if denominator == 0 then 0.0 else (numerator as real) / (denominator as real)
  }

  function MinOf(s: seq<real>): (m: real)
    requires s != []
    ensures m in s && forall v :: v in s ==> m <= v
  {
    if |s| == 1 then s[0]
    else
      assert s == s[..|s| - 1] + [s[|s| - 1]];
      var m := MinOf(s[..|s| - 1]);
      if s[|s| - 1] < m then s[|s| - 1] else m
  }

  function MaxOf(s: seq<real>): (m: real)
    requires s != []
    ensures m in s && forall v :: v in s ==> v <= m
  {
    if |s| == 1 then s[0]
    else
      assert s == s[..|s| - 1] + [s[|s| - 1]];
      var m := MaxOf(s[..|s| - 1]);
      if s[|s| - 1] > m then s[|s| - 1] else m
  }

  predicate Comparable(scores: seq<real>) { |scores| >= 2 }

  function Disagrees(threshold: real): seq<real> -> bool {
    (scores: seq<real>) => scores != [] && MaxOf(scores) - MinOf(scores) > threshold
  }

  /** `disagreementRate(perRunJudgeScores, threshold)`. */
  function DisagreementRate(runs: seq<seq<real>>, threshold: real): (r: real) {
    var comparable := Filter(Comparable, runs);
    if comparable == [] then 0.0 else Rate(|Filter(Disagrees(threshold), comparable)|, |comparable|)
  }
}
