/** Sums over lists of reals, as left folds, and the laws the statistics rest on: linearity, scalar
    products, and independence of the order of the terms. */
module Sums {
  import opened Algebra
  import opened Order

  /** `values.reduce((a, b) => a + b, 0)`. */
  function Sum(s: seq<real>): real {
    if s == [] then 0.0 else Sum(s[..|s| - 1]) + s[|s| - 1]
  }

  function Products(x: seq<real>, y: seq<real>): (r: seq<real>)
    requires |x| == |y|
    ensures |r| == |x| && forall i :: 0 <= i < |x| ==> r[i] == Times(x[i], y[i])
  {
    seq(|x|, i requires 0 <= i < |x| => Times(x[i], y[i]))
  }

  /** `x.reduce((sum, xi, i) => sum + xi * y[i], 0)`. */
  function Dot(x: seq<real>, y: seq<real>): real
    requires |x| == |y|
  {
    Sum(Products(x, y))
  }

  function Ones(n: nat): (r: seq<real>)
    ensures |r| == n && forall i :: 0 <= i < n ==> r[i] == 1.0
  {
    seq(n, i => 1.0)
  }

  /** The series `p * x - q * y`. */
  function Combine(p: real, x: seq<real>, q: real, y: seq<real>): (z: seq<real>)
    requires |x| == |y|
    ensures |z| == |x| && forall i :: 0 <= i < |x| ==> z[i] == Times(p, x[i]) - Times(q, y[i])
  {
    seq(|x|, i requires 0 <= i < |x| => Times(p, x[i]) - Times(q, y[i]))
  }

  /** The distances of the values from `m`. */
  function Distances(x: seq<real>, m: real): (d: seq<real>)
    ensures |d| == |x| && forall i :: 0 <= i < |x| ==> d[i] == x[i] - m
  {
    seq(|x|, i requires 0 <= i < |x| => x[i] - m)
  }

  ghost predicate Combines(z: seq<real>, p: real, x: seq<real>, q: real, y: seq<real>) {
    |z| == |x| == |y| && forall i :: 0 <= i < |x| ==> z[i] == Times(p, x[i]) - Times(q, y[i])
  }

  /** Summing is linear. */
  lemma {:induction false} SumLinear(z: seq<real>, p: real, x: seq<real>, q: real, y: seq<real>)
    requires Combines(z, p, x, q, y)
    ensures Sum(z) == Times(p, Sum(x)) - Times(q, Sum(y))
  {
    hide Times;
    if z == [] {
      Units(p);
      Units(q);
    } else {
      var k := |z| - 1;
      SumLinear(z[..k], p, x[..k], q, y[..k]);
      Distribute(p, Sum(x[..k]), x[k]);
      Distribute(q, Sum(y[..k]), y[k]);
    }
  }

  /** The inner product is linear in its first series. */
  lemma DotLinear(z: seq<real>, p: real, x: seq<real>, q: real, y: seq<real>, w: seq<real>)
    requires Combines(z, p, x, q, y) && |w| == |x|
    ensures Dot(z, w) == Times(p, Dot(x, w)) - Times(q, Dot(y, w))
  {
    hide Times, Sum;
    var zw, xw, yw := Products(z, w), Products(x, w), Products(y, w);
    forall i | 0 <= i < |z| ensures zw[i] == Times(p, xw[i]) - Times(q, yw[i]) {
      DistributeLeft(Times(p, x[i]), Times(q, y[i]), w[i]);
      Associate(p, x[i], w[i]);
      Associate(q, y[i], w[i]);
    }
    SumLinear(zw, p, xw, q, yw);
  }

  lemma DotSymmetric(x: seq<real>, y: seq<real>)
    requires |x| == |y|
    ensures Dot(x, y) == Dot(y, x)
  {
    hide Times, Sum;
    forall i | 0 <= i < |x| ensures Products(x, y)[i] == Products(y, x)[i] { Commute(x[i], y[i]); }
    assert Products(x, y) == Products(y, x);
  }

  lemma {:induction false} SumOnes(n: nat)
    ensures Sum(Ones(n)) == n as real
  {
    if n > 0 {
      SumOnes(n - 1);
      assert Ones(n)[..n - 1] == Ones(n - 1);
    }
  }

  lemma DotOnes(x: seq<real>)
    ensures Dot(x, Ones(|x|)) == Sum(x)
    ensures Dot(Ones(|x|), x) == Sum(x)
  {
    hide Times, Sum;
    forall i | 0 <= i < |x| ensures Products(x, Ones(|x|))[i] == x[i] { Units(x[i]); }
    assert Products(x, Ones(|x|)) == x;
    DotSymmetric(x, Ones(|x|));
  }

  lemma {:induction false} SumNonNegative(s: seq<real>)
    requires forall i :: 0 <= i < |s| ==> s[i] >= 0.0
    ensures Sum(s) >= 0.0
    ensures Sum(s) == 0.0 <==> forall i :: 0 <= i < |s| ==> s[i] == 0.0
  {
    if s != [] {
      var k := |s| - 1;
      SumNonNegative(s[..k]);
      assert forall i :: 0 <= i < k ==> s[..k][i] == s[i];
    }
  }

  /** A series times itself sums to at least zero, and to zero only if it vanishes. */
  lemma DotSelf(x: seq<real>)
    ensures Dot(x, x) >= 0.0
    ensures Dot(x, x) == 0.0 <==> forall i :: 0 <= i < |x| ==> x[i] == 0.0
  {
    hide Times, Sum;
    var r := Products(x, x);
    forall i | 0 <= i < |x| ensures r[i] >= 0.0 && (r[i] == 0.0 <==> x[i] == 0.0) { SquareSign(x[i]); }
    SumNonNegative(r);
  }

  /** Distances from `m`: their sum, and their inner product with any series. */
  lemma DistancesAs(x: seq<real>, m: real)
    ensures Combines(Distances(x, m), 1.0, x, m, Ones(|x|))
  {
    hide Times;
    forall i | 0 <= i < |x| ensures Distances(x, m)[i] == Times(1.0, x[i]) - Times(m, Ones(|x|)[i]) {
      Units(x[i]);
      Units(m);
    }
  }

  lemma DistancesSum(x: seq<real>, m: real)
    ensures Sum(Distances(x, m)) == Sum(x) - Times(m, |x| as real)
  {
    hide Times, Sum;
    DistancesAs(x, m);
    SumLinear(Distances(x, m), 1.0, x, m, Ones(|x|));
    SumOnes(|x|);
    Units(Sum(x));
  }

  lemma DistancesDot(x: seq<real>, m: real, w: seq<real>)
    requires |w| == |x|
    ensures Dot(Distances(x, m), w) == Dot(x, w) - Times(m, Sum(w))
  {
    hide Times, Sum, Dot;
    DistancesAs(x, m);
    DotLinear(Distances(x, m), 1.0, x, m, Ones(|x|), w);
    DotOnes(w);
    Units(Dot(x, w));
  }

  lemma {:induction false} SumSplits(s: seq<real>, i: nat)
    requires i < |s|
    ensures Sum(s) == Sum(s[..i] + s[i + 1..]) + s[i]
  {
    var k := |s| - 1;
    if i == k {
      assert s[..i] + s[i + 1..] == s[..k];
    } else {
      SumSplits(s[..k], i);
      var r := s[..i] + s[i + 1..];
      assert r[..|r| - 1] == s[..k][..i] + s[..k][i + 1..];
    }
  }

  /** A sum does not depend on the order of its terms. */
  lemma {:induction false} SumPermutes(s: seq<real>, t: seq<real>)
    requires multiset(s) == multiset(t)
    ensures Sum(s) == Sum(t)
  {
    if s == [] {
      assert |multiset(t)| == 0;
    } else {
      var i := IndexIn(s[0], s, t);
      RemoveOne(s, t, i);
      SumPermutes(s[1..], t[..i] + t[i + 1..]);
      SumSplits(t, i);
      SumSplits(s, 0);
      assert s[..0] + s[1..] == s[1..];
    }
  }

  lemma {:induction false} SumAppend(a: seq<real>, b: seq<real>)
    ensures Sum(a + b) == Sum(a) + Sum(b)
  {
    if b == [] {
      assert a + b == a;
    } else {
      var n := |b| - 1;
      SumAppend(a, b[..n]);
      assert (a + b)[..|a + b| - 1] == a + b[..n];
    }
  }
}
