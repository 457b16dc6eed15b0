/** Rank correlation (src/blind/analysis.ts), over the reals. */
module Spearman {
  import opened Algebra
  import opened Js
  import opened Order
  import opened Sums

  /** A value with its position. */
  datatype Placed = Placed(value: real, index: nat)

  predicate ByValue(a: Placed, b: Placed) { a.value <= b.value }

  predicate ByIndex(a: Placed, b: Placed) { a.index < b.index }

  function Place(values: seq<real>): (r: seq<Placed>)
    ensures |r| == |values| && forall i :: 0 <= i < |values| ==> r[i] == Placed(values[i], i)
  {
    seq(|values|, i requires 0 <= i < |values| => Placed(values[i], i))
  }

  /** Position `i` comes before position `j`: smaller value, or equal value and earlier. */
  predicate Before(values: seq<real>, i: nat, j: nat)
    requires i < |values| && j < |values|
  {
    values[i] < values[j] || (values[i] == values[j] && i < j)
  }

  /** The positions that come before `j`. */
  function Ahead(values: seq<real>, j: nat): set<nat>
    requires j < |values|
  {
    set i | 0 <= i < |values| && Before(values, i, j)
  }

  /** The rank of position `j`: one more than the number of positions before it. */
  function Rank(values: seq<real>, j: nat): nat
    requires j < |values|
  {
    1 + |Ahead(values, j)|
  }

  function Ranks(values: seq<real>): (r: seq<nat>)
    ensures |r| == |values| && forall j :: 0 <= j < |values| ==> r[j] == Rank(values, j)
  {
    seq(|values|, j requires 0 <= j < |values| => Rank(values, j))
  }

  // ------------------------------------------------- what the stable sort gives

  /** The positions in sorted order. */
  function ByRank(values: seq<real>): seq<Placed> { SortBy(ByValue, Place(values)) }

  lemma ByValueTotal()
    ensures TotalPreorder(ByValue)
  {
  }

  ghost predicate IsOrdering(values: seq<real>, s: seq<Placed>) {
    && |s| == |values|
    && (forall k :: 0 <= k < |s| ==> s[k].index < |values| && s[k].value == values[s[k].index])
    && (forall k, l :: 0 <= k < l < |s| ==> Before(values, s[k].index, s[l].index))
    && (forall i :: 0 <= i < |values| ==> Listed(s, i))
  }

  ghost predicate Listed(s: seq<Placed>, i: nat) {
    exists k :: 0 <= k < |s| && s[k].index == i
  }

  lemma SlotOf(values: seq<real>, s: seq<Placed>, i: nat) returns (k: nat)
    requires IsOrdering(values, s) && i < |values|
    ensures k < |s| && s[k].index == i && Rank(values, i) == k + 1
  {
    assert Listed(s, i);
    k :| 0 <= k < |s| && s[k].index == i;
    SlotRank(values, s, k);
  }

  /** Sorting by value alone, stably, orders the positions strictly by `Before`. */
  lemma SortOrders(values: seq<real>)
    ensures IsOrdering(values, ByRank(values))
  {
    var p, s := Place(values), ByRank(values);
    ByValueTotal();
    SortByCorrect(ByValue, p);
    SortStable(ByValue, ByIndex, p);
    SameElements(p, s);
    forall k | 0 <= k < |s| ensures s[k].index < |values| && s[k].value == values[s[k].index] {
      assert s[k] in p;
    }
    forall k, l | 0 <= k < l < |s| ensures Before(values, s[k].index, s[l].index) {
      assert ByValue(s[k], s[l]);
      assert !ByValue(s[l], s[k]) || ByIndex(s[k], s[l]);
    }
    forall i | 0 <= i < |values| ensures Listed(s, i) {
      assert p[i] in s;
    }
  }

  function Prefix(s: seq<Placed>, k: nat): set<nat>
    requires k <= |s|
  {
    set l | 0 <= l < k :: s[l].index
  }

  lemma {:induction false} PrefixSize(values: seq<real>, s: seq<Placed>, k: nat)
    requires IsOrdering(values, s) && k <= |s|
    ensures |Prefix(s, k)| == k
  {
    if k > 0 {
      PrefixSize(values, s, k - 1);
      assert Prefix(s, k) == Prefix(s, k - 1) + {s[k - 1].index};
      assert s[k - 1].index !in Prefix(s, k - 1);
    }
  }

  /** The position sorted to slot `k` has rank `k + 1`. */
  lemma SlotRank(values: seq<real>, s: seq<Placed>, k: nat)
    requires IsOrdering(values, s) && k < |s|
    ensures Rank(values, s[k].index) == k + 1
  {
    var j := s[k].index;
    forall i | i in Ahead(values, j) ensures i in Prefix(s, k) {
      assert Listed(s, i);
      var l :| 0 <= l < |s| && s[l].index == i;
      assert l > k ==> Before(values, s[k].index, s[l].index);
    }
    forall i | i in Prefix(s, k) ensures i in Ahead(values, j) {
      var l :| 0 <= l < k && s[l].index == i;
      assert Before(values, s[l].index, s[k].index);
    }
    assert Ahead(values, j) == Prefix(s, k);
    PrefixSize(values, s, k);
  }

  /** `rank(values)`: sort the positions, then number them. */
  method ComputeRanks(values: seq<real>) returns (ranks: array<nat>)
    ensures fresh(ranks) && ranks[..] == Ranks(values)
  {
    var sorted := ByRank(values);
    SortOrders(values);
    ranks := new nat[|values|](_ => 0);
    for i := 0 to |values|
      invariant forall k :: 0 <= k < i ==> ranks[sorted[k].index] == k + 1
    {
      assert forall k :: 0 <= k < i ==> Before(values, sorted[k].index, sorted[i].index);
      ranks[sorted[i].index] := i + 1;
    }
    forall j | 0 <= j < |values| ensures ranks[j] == Rank(values, j) {
      var k := SlotOf(values, sorted, j);
    }
  }

  // ------------------------------------------------- ranks are 1 .. n, in some order

  function Reals(s: seq<nat>): (r: seq<real>)
    ensures |r| == |s| && forall i :: 0 <= i < |s| ==> r[i] == s[i] as real
  {
    seq(|s|, i requires 0 <= i < |s| => s[i] as real)
  }

  function UpTo(n: nat): (r: seq<nat>)
    ensures |r| == n && forall i :: 0 <= i < n ==> r[i] == i + 1
  {
    seq(n, i => i + 1)
  }

  lemma RanksPermute(values: seq<real>)
    ensures multiset(Ranks(values)) == multiset(UpTo(|values|))
  {
    var s, r, u := ByRank(values), Ranks(values), UpTo(|values|);
    SortOrders(values);
    forall i, j | 0 <= i < j < |r| ensures r[i] != r[j] {
      var k := SlotOf(values, s, i);
      var l := SlotOf(values, s, j);
    }
    forall x ensures x in r <==> x in u {
      if x in r {
        var i :| 0 <= i < |r| && r[i] == x;
        var k := SlotOf(values, s, i);
        assert u[k] == x;
      }
      if x in u {
        var k :| 0 <= k < |u| && u[k] == x;
        SlotRank(values, s, k);
        assert r[s[k].index] == x;
      }
    }
    DistinctSameSet(r, u);
  }

  // ------------------------------------------------------------ sums of ranks

  function Mul(a: nat, b: nat): nat { a * b }

  /** Twice the sum of 1 .. n. */
  function Line(n: nat): nat { n * (n + 1) }

  /** Six times the sum of the squares of 1 .. n. */
  function Pyramid(n: nat): nat { n * (n + 1) * (2 * n + 1) }

  /** The denominator `n * (n * n - 1)`. */
  function Denominator(n: nat): int { n * (n * n - 1) }

  /** Integer products and real products agree. */
  lemma {:induction false} CastProduct(a: nat, b: nat)
    ensures Times(a as real, b as real) == Mul(a, b) as real
  {
    hide Times;
    Units(a as real);
    if b > 0 {
      CastProduct(a, b - 1);
      Distribute(a as real, (b - 1) as real, 1.0);
      assert a * b == a * (b - 1) + a;
    }
  }

  lemma SumSteps(n: nat)
    requires n > 0
    ensures Line(n - 1) + 2 * n == Line(n)
    ensures Pyramid(n - 1) + 6 * Mul(n, n) == Pyramid(n)
  {
    assert (n - 1) * n * (2 * n - 1) + 6 * (n * n) == n * (n + 1) * (2 * n + 1);
  }

  /** The products below, in powers of `n`. */
  lemma Powers(n: nat)
    ensures Line(n) == n * n + n
    ensures Pyramid(n) == 2 * (n * n * n) + 3 * (n * n) + n
    ensures Denominator(n) == n * n * n - n
  {
    assert (n * n + n) * (2 * n + 1) == 2 * (n * n * n) + 3 * (n * n) + n;
  }

  lemma Balance(n: nat)
    ensures 2 * Pyramid(n) - 3 * Mul(n + 1, Line(n)) == Denominator(n)
    ensures Mul(n + 1, n) == Line(n)
    ensures n >= 2 ==> Denominator(n) != 0
  {
    Powers(n);
    assert (n + 1) * (n * n + n) == n * n * n + 2 * (n * n) + n;
  }

  lemma {:induction false} SumUpTo(n: nat)
    ensures 2.0 * Sum(Reals(UpTo(n))) == Line(n) as real
    ensures 6.0 * Dot(Reals(UpTo(n)), Reals(UpTo(n))) == Pyramid(n) as real
  {
    hide Times, Mul;
    if n > 0 {
      hide Line, Pyramid;
      var r, q := Reals(UpTo(n)), Reals(UpTo(n - 1));
      SumUpTo(n - 1);
      assert r[..n - 1] == q;
      assert Products(r, r)[..n - 1] == Products(q, q);
      CastProduct(n, n);
      SumSteps(n);
    }
  }

  lemma RealsAreMaps(k: seq<nat>)
    ensures Reals(k) == Map(AsReal, k)
    ensures Products(Reals(k), Reals(k)) == Map(SquareOf, k)
  {
    hide Times, Sum;
    assert Reals(k) == Map(AsReal, k);
    assert Products(Reals(k), Reals(k)) == Map(SquareOf, k);
  }

  /** The ranks of any series have the sum and the square sum of 1 .. n. */
  lemma RankSums(values: seq<real>)
    ensures var n, r := |values|, Reals(Ranks(values));
      2.0 * Sum(r) == Line(n) as real && 6.0 * Dot(r, r) == Pyramid(n) as real
  {
    hide Sum, Times, Map, Reals, Line, Pyramid;
    var k, u := Ranks(values), UpTo(|values|);
    RanksPermute(values);
    SumUpTo(|values|);
    MapPermutes(AsReal, k, u);
    MapPermutes(SquareOf, k, u);
    RealsAreMaps(k);
    RealsAreMaps(u);
    SumPermutes(Reals(k), Reals(u));
    SumPermutes(Products(Reals(k), Reals(k)), Products(Reals(u), Reals(u)));
  }

  function AsReal(k: nat): real { k as real }

  function SquareOf(k: nat): real { Times(k as real, k as real) }

  // ---------------------------------------------------------- the coefficient

  /** Differences of the two rankings, position by position. */
  function Differences(x: seq<nat>, y: seq<nat>): (d: seq<real>)
    requires |x| == |y|
    ensures |d| == |x|
  {
    Combine(1.0, Reals(x), 1.0, Reals(y))
  }

  /** How far the two rankings are from being each other's reversal. */
  function ReversalGaps(x: seq<nat>, y: seq<nat>): seq<real>
    requires |x| == |y|
  {
    Distances(Combine(1.0, Reals(x), -1.0, Reals(y)), (|x| + 1) as real)
  }

  /** `1 - (6 * d2) / (n * (n * n - 1))`, or null for fewer than two values. */
  function SpearmanOf(xs: seq<real>, ys: seq<real>): Option<real>
    requires |xs| == |ys|
  {
    var n := |xs|;
    if n < 2 then None
    else
      var d := Differences(Ranks(xs), Ranks(ys));
      Balance(n);
      Some(1.0 - 6.0 * Dot(d, d) / (Denominator(n) as real))
  }

  /** Squared differences and squared reversal gaps share a fixed total. */
  lemma SharedTotal(xs: seq<real>, ys: seq<real>)
    requires |xs| == |ys| >= 1
    ensures var n, d, e := |xs|, Differences(Ranks(xs), Ranks(ys)), ReversalGaps(Ranks(xs), Ranks(ys));
      3.0 * (Dot(d, d) + Dot(e, e)) == Denominator(n) as real
  {
    hide Times, Sum, Dot, Mul, Line, Pyramid, Denominator;
    var n, x, y := |xs|, Reals(Ranks(xs)), Reals(Ranks(ys));
    var m := (n + 1) as real;
    var d, f := Combine(1.0, x, 1.0, y), Combine(1.0, x, -1.0, y);
    var e := Distances(f, m);
    RankSums(xs);
    RankSums(ys);
    Units(Dot(x, y));
    SelfDot(d, x, 1.0, y);
    SelfDot(f, x, -1.0, y);
    SumLinear(f, 1.0, x, -1.0, y);
    Units(Sum(x));
    Units(Sum(y));
    DistancesDot(f, m, e);
    DistancesDot(f, m, f);
    DotSymmetric(f, e);
    DistancesSum(f, m);
    CastProduct(n + 1, n);
    Units(m);
    CastProduct(n + 1, Line(n));
    Balance(n);
  }

  lemma SelfDot(z: seq<real>, x: seq<real>, q: real, y: seq<real>)
    requires Combines(z, 1.0, x, q, y) && (q == 1.0 || q == -1.0)
    ensures Dot(z, z) == Dot(x, x) - 2.0 * Times(q, Dot(x, y)) + Dot(y, y)
  {
    hide Times, Sum, Dot;
    DotLinear(z, 1.0, x, q, y, z);
    DotLinear(z, 1.0, x, q, y, x);
    DotLinear(z, 1.0, x, q, y, y);
    DotSymmetric(x, z);
    DotSymmetric(y, z);
    DotSymmetric(y, x);
    Units(Dot(x, z));
    Units(Dot(x, x));
    Units(Dot(x, y));
    Units(Dot(y, z));
    Units(Dot(y, y));
  }

  /** The coefficient lies in [-1, 1]; it is 1 exactly for equal rankings and -1 exactly for
      reversed ones. */
  lemma SpearmanBounded(xs: seq<real>, ys: seq<real>)
    requires |xs| == |ys| >= 2
    ensures var r, x, y, n := SpearmanOf(xs, ys).value, Ranks(xs), Ranks(ys), |xs|;
      && -1.0 <= r <= 1.0
      && (r == 1.0 <==> x == y)
      && (r == -1.0 <==> forall i :: 0 <= i < n ==> x[i] + y[i] == n + 1)
  {
    hide Times, Sum, Dot, Denominator;
    var n, x, y := |xs|, Ranks(xs), Ranks(ys);
    var d, e := Differences(x, y), ReversalGaps(x, y);
    SharedTotal(xs, ys);
    Balance(n);
    DotSelf(d);
    DotSelf(e);
    Fraction(Dot(d, d), Dot(e, e), Denominator(n) as real);
    forall i | 0 <= i < n
      ensures d[i] == x[i] as real - y[i] as real && e[i] == (x[i] + y[i]) as real - (n + 1) as real
    {
      Units(x[i] as real);
      Units(y[i] as real);
    }
    assert x == y <==> forall i :: 0 <= i < n ==> d[i] == 0.0;
  }

  lemma Fraction(d: real, e: real, total: real)
    requires d >= 0.0 && e >= 0.0 && total > 0.0 && 3.0 * (d + e) == total
    ensures -1.0 <= 1.0 - 6.0 * d / total <= 1.0
    ensures 1.0 - 6.0 * d / total == 1.0 <==> d == 0.0
    ensures 1.0 - 6.0 * d / total == -1.0 <==> e == 0.0
  {
    hide Times;
    var q := 6.0 * d / total;
    Quotient(total, 6.0 * d);
    Distribute(total, 2.0, q);
    Commute(total, 2.0);
    Double(total);
    CancelPositive(total, q);
    CancelPositive(total, 2.0 - q);
  }

  lemma Double(t: real)
    ensures Times(2.0, t) == 2.0 * t
  {
  }

  lemma GapAt(x: seq<nat>, y: seq<nat>, i: nat)
    requires |x| == |y| && i < |x|
    ensures Differences(x, y)[i] == x[i] as real - y[i] as real
  {
    Units(x[i] as real);
    Units(y[i] as real);
  }

  lemma SumEmpty(s: seq<real>)
    ensures Sum(s[..0]) == 0.0
  {
  }

  lemma SumGrows(s: seq<real>, i: nat)
    requires i < |s|
    ensures Sum(s[..i + 1]) == Sum(s[..i]) + s[i]
  {
    assert s[..i + 1][..i] == s[..i];
  }

  /** `spearman(xs, ys)` for series of one length. */
  method ComputeSpearman(xs: seq<real>, ys: seq<real>) returns (r: Option<real>)
    requires |xs| == |ys|
    ensures r == SpearmanOf(xs, ys)
  {
    hide Times, Sum, Differences, Ranks;
    var n := |xs|;
    if n < 2 { return None; }
    var rankX := ComputeRanks(xs);
    var rankY := ComputeRanks(ys);
    var rx, ry := rankX[..], rankY[..];
    var d2 := 0.0;
    ghost var d := Differences(rx, ry);
    SumEmpty(Products(d, d));
    for i := 0 to n
      invariant d2 == Sum(Products(d, d)[..i])
    {
      var gap := rx[i] as real - ry[i] as real;
      GapAt(rx, ry, i);
      SumGrows(Products(d, d), i);
      d2 := d2 + Times(gap, gap);
    }
    assert Products(d, d)[..n] == Products(d, d);
    Balance(n);
    r := Some(1.0 - 6.0 * d2 / ((n * (n * n - 1)) as real));
  }
}
