/** The seeded generator and the Fisher-Yates shuffle (src/blind/rng.ts). */
module Shuffle {
  import opened Order

  // ------------------------------------------------------------- generators

  type U32 = x: int | 0 <= x < 0x1_0000_0000

  /** A generator is a state, a state step, and an output read off the new state. The value the
      modelled code sees is the output divided by 2^32. */
  datatype Source = Source(step: U32 -> U32, output: U32 -> U32)

  function MulberryStep(a: U32): U32 { (a + 0x6d2b79f5) % 0x1_0000_0000 }

  /** The mixing of the state: `Math.imul` and the xor-shifts on 32 bits. */
  function Mix(a: bv32): bv32 {
    var t := (a ^ (a >> 15)) * (1 | a);
    var u := (t + (t ^ (t >> 7)) * (61 | t)) ^ t;
    u ^ (u >> 14)
  }

  function ToBits(a: U32): bv32 { a as bv32 }

  function ToNumber(b: bv32): U32 { b as U32 }

  function MulberryOutput(a: U32): U32 { ToNumber(Mix(ToBits(a))) }

  const MULBERRY32 := Source(MulberryStep, MulberryOutput)

  function Increments(k: int): int { k * 0x6d2b79f5 }

  lemma Residue(x: int, y: int)
    ensures (x % 0x1_0000_0000 + y) % 0x1_0000_0000 == (x + y) % 0x1_0000_0000
  {
    var q := x / 0x1_0000_0000;
    assert x + y == x % 0x1_0000_0000 + y + 0x1_0000_0000 * q;
  }

  /** `k` outputs advance the state by `k` increments. */
  lemma {:induction false} MulberryAfter(a: U32, k: nat)
    ensures After(MULBERRY32, a, k) == (a + Increments(k)) % 0x1_0000_0000
    decreases k
  {
    hide MulberryOutput;
    if k > 0 {
      MulberryAfter(MulberryStep(a), k - 1);
      Residue(a + 0x6d2b79f5, Increments(k - 1));
      assert After(MULBERRY32, a, k) == After(MULBERRY32, MulberryStep(a), k - 1);
    }
  }

  lemma CongruentIffDivides(x: int, y: int)
    ensures x % 0x1_0000_0000 == y % 0x1_0000_0000 <==> (x - y) % 0x1_0000_0000 == 0
  {
  }

  /** The increment is odd: times its inverse 0xdc58aa5d it leaves remainder 1. */
  lemma Undone(d: int)
    ensures Increments(d) * 0xdc58aa5d == d + 0x1_0000_0000 * (d * 0x5df72c67)
  {
  }

  lemma Multiple(x: int, k: int)
    requires x == 0x1_0000_0000 * k
    ensures x % 0x1_0000_0000 == 0
  {
  }

  lemma IncrementsOfMultiple(p: int)
    ensures Increments(0x1_0000_0000 * p) == 0x1_0000_0000 * Increments(p)
  {
  }

  lemma DividesIncrements(d: int)
    ensures Increments(d) % 0x1_0000_0000 == 0 <==> d % 0x1_0000_0000 == 0
  {
    hide Increments;
    var e := Increments(d);
    if d % 0x1_0000_0000 == 0 {
      var p := d / 0x1_0000_0000;
      IncrementsOfMultiple(p);
      Multiple(e, Increments(p));
    } else if e % 0x1_0000_0000 == 0 {
      Undone(d);
      var q := e / 0x1_0000_0000;
      Multiple(d, q * 0xdc58aa5d - d * 0x5df72c67);
    }
  }

  /** The states repeat after 2^32 outputs and not before. */
  lemma MulberryPeriod(a: U32, j: nat, k: nat)
    ensures After(MULBERRY32, a, j) == After(MULBERRY32, a, k) <==> j % 0x1_0000_0000 == k % 0x1_0000_0000
  {
    MulberryAfter(a, j);
    MulberryAfter(a, k);
    assert Increments(j) - Increments(k) == Increments(j - k);
    hide After, Increments;
    CongruentIffDivides(a + Increments(j), a + Increments(k));
    CongruentIffDivides(j, k);
    DividesIncrements(j - k);
  }

  class Rng {
    const source: Source
    var a: U32

    constructor (source: Source, seed: U32)
      ensures this.source == source && a == seed
    {
      this.source := source;
      a := seed;
    }

    method Next() returns (t: U32)
      modifies this
      ensures a == source.step(old(a)) && t == source.output(a)
    {
      a := source.step(a);
      t := source.output(a);
    }
  }

  /** `makeRng`, from the first 32 bits of the seed's digest. */
  method MakeRng(seed: U32) returns (rng: Rng)
    ensures fresh(rng) && rng.source == MULBERRY32 && rng.a == seed
  {
    rng := new Rng(MULBERRY32, seed);
  }

  /** `Math.floor(rng() * n)` for the output `t`. */
  function Draw(t: U32, n: nat): nat { t * n / 0x1_0000_0000 }

  lemma Times(a: nat, b: nat, n: nat)
    requires a <= b
    ensures a * n <= b * n
  {
  }

  /** Every draw lands in range. */
  lemma DrawInRange(t: U32, n: nat)
    requires n > 0
    ensures Draw(t, n) < n
  {
    Times(t, 0xFFFF_FFFF, n);
    var p := t * n;
    assert p < 0x1_0000_0000 * n;
  }

  /** The state after `k` outputs. */
  function After(g: Source, a: U32, k: nat): U32
    decreases k
  {
    if k == 0 then a else After(g, g.step(a), k - 1)
  }

  function NextDraw(g: Source, a: U32, n: nat): (j: nat)
    requires n > 0
    ensures j < n
  {
    DrawInRange(g.output(g.step(a)), n);
    Draw(g.output(g.step(a)), n)
  }

  /** The draws a shuffle of `n` items makes from state `a`: entry `i` is the partner of slot `i`. */
  function Draws(g: Source, a: U32, n: nat): (d: seq<nat>)
    ensures IsDraws(d, n)
    decreases n
  {
    if n <= 1 then seq(n, _ => 0) else Draws(g, g.step(a), n - 1) + [NextDraw(g, a, n)]
  }

  // ----------------------------------------------------------- Fisher-Yates

  /** Slot `i` may be swapped with any slot up to and including itself. */
  predicate IsDraws(d: seq<nat>, n: nat) {
    |d| == n && forall i :: 0 <= i < n ==> d[i] <= i
  }

  function Swap<T>(s: seq<T>, i: nat, j: nat): (r: seq<T>)
    requires i < |s| && j < |s|
    ensures |r| == |s|
  {
    s[i := s[j]][j := s[i]]
  }

  /** Fill the last slot by its draw, then shuffle the rest. */
  function Shuffled<T>(s: seq<T>, d: seq<nat>): (r: seq<T>)
    requires IsDraws(d, |s|)
    ensures |r| == |s|
    decreases |s|
  {
    var n := |s|;
    if n <= 1 then s
    else Shuffled(Swap(s, n - 1, d[n - 1])[..n - 1], d[..n - 1]) + [s[d[n - 1]]]
  }

  lemma SwapKeeps<T>(s: seq<T>, i: nat, j: nat)
    requires i < |s| && j < |s|
    ensures multiset(Swap(s, i, j)) == multiset(s)
  {
  }

  lemma SwapRest<T>(s: seq<T>, j: nat)
    requires j < |s|
    ensures var n := |s| - 1; multiset(Swap(s, n, j)[..n]) == multiset(s) - multiset{s[j]}
  {
    var n := |s| - 1;
    var r := Swap(s, n, j);
    SwapKeeps(s, n, j);
    assert r == r[..n] + [s[j]];
  }

  /** A shuffle rearranges: whatever the draws, the contents stay. */
  lemma {:induction false} ShuffledKeeps<T>(s: seq<T>, d: seq<nat>)
    requires IsDraws(d, |s|)
    ensures multiset(Shuffled(s, d)) == multiset(s)
    decreases |s|
  {
    var n := |s|;
    if n > 1 {
      var j := d[n - 1];
      ShuffledKeeps(Swap(s, n - 1, j)[..n - 1], d[..n - 1]);
      SwapRest(s, j);
      assert s[j] in multiset(s);
    }
  }

  lemma RestDistinct<T(!new)>(s: seq<T>, j: nat)
    requires j < |s| && Distinct(s)
    ensures Distinct(Swap(s, |s| - 1, j)[..|s| - 1])
  {
    SwapKeeps(s, |s| - 1, j);
    DistinctPermutes(s, Swap(s, |s| - 1, j));
  }

  /** Different draws give different orders. */
  lemma {:induction false} ShuffledInjective<T(!new)>(s: seq<T>, d: seq<nat>, e: seq<nat>)
    requires IsDraws(d, |s|) && IsDraws(e, |s|) && Distinct(s)
    requires Shuffled(s, d) == Shuffled(s, e)
    ensures d == e
    decreases |s|
  {
    var n := |s|;
    if n > 1 {
      var j, k := d[n - 1], e[n - 1];
      assert Shuffled(s, d)[n - 1] == s[j] && Shuffled(s, e)[n - 1] == s[k];
      assert j == k;
      var r := Swap(s, n - 1, j)[..n - 1];
      assert Shuffled(s, d)[..n - 1] == Shuffled(r, d[..n - 1]);
      assert Shuffled(s, e)[..n - 1] == Shuffled(r, e[..n - 1]);
      RestDistinct(s, j);
      ShuffledInjective(r, d[..n - 1], e[..n - 1]);
      assert d == d[..n - 1] + [j] && e == e[..n - 1] + [k];
    }
  }

  lemma LastComesFrom<T>(s: seq<T>, p: seq<T>) returns (j: nat)
    requires multiset(p) == multiset(s) && |p| == |s| > 0
    ensures j < |s| && s[j] == p[|s| - 1]
    ensures multiset(Swap(s, |s| - 1, j)[..|s| - 1]) == multiset(p[..|s| - 1])
  {
    var n := |s|;
    assert p[n - 1] in multiset(s);
    j :| 0 <= j < n && s[j] == p[n - 1];
    SwapRest(s, j);
    assert p == p[..n - 1] + [p[n - 1]];
    assert multiset(p[..n - 1]) == multiset(p) - multiset{p[n - 1]};
  }

  /** Every order is reached by some draws. */
  lemma {:induction false} ShuffledReaches<T>(s: seq<T>, p: seq<T>) returns (d: seq<nat>)
    requires multiset(p) == multiset(s)
    ensures IsDraws(d, |s|) && Shuffled(s, d) == p
    decreases |s|
  {
    var n := |s|;
    assert |multiset(p)| == |multiset(s)|;
    if n <= 1 {
      d := seq(n, _ => 0);
      if n == 1 { assert s[0] in multiset(p); }
    } else {
      var j := LastComesFrom(s, p);
      var e := ShuffledReaches(Swap(s, n - 1, j)[..n - 1], p[..n - 1]);
      d := e + [j];
      LastDraw(s, e, j);
      assert p == p[..n - 1] + [p[n - 1]];
    }
  }

  lemma LastDraw<T>(s: seq<T>, e: seq<nat>, j: nat)
    requires |s| > 1 && IsDraws(e, |s| - 1) && j < |s|
    ensures IsDraws(e + [j], |s|)
    ensures Shuffled(s, e + [j]) == Shuffled(Swap(s, |s| - 1, j)[..|s| - 1], e) + [s[j]]
  {
    assert (e + [j])[..|s| - 1] == e;
  }

  ghost predicate Rearranges<T>(p: seq<T>, s: seq<T>) {
    multiset(p) == multiset(s)
  }

  /** Draw sequences and orders of distinct items correspond one to one. */
  lemma ShuffleIsBijection<T(!new)>(s: seq<T>)
    requires Distinct(s)
    ensures forall d :: IsDraws(d, |s|) ==> Rearranges(Shuffled(s, d), s)
    ensures forall p :: Rearranges(p, s) ==> exists d :: IsDraws(d, |s|) && Shuffled(s, d) == p
    ensures forall d, e :: IsDraws(d, |s|) && IsDraws(e, |s|) && Shuffled(s, d) == Shuffled(s, e) ==> d == e
  {
    forall d | IsDraws(d, |s|) ensures Rearranges(Shuffled(s, d), s) { ShuffledKeeps(s, d); }
    forall p | Rearranges(p, s) ensures exists d :: IsDraws(d, |s|) && Shuffled(s, d) == p {
      var d := ShuffledReaches(s, p);
    }
    forall d, e | IsDraws(d, |s|) && IsDraws(e, |s|) && Shuffled(s, d) == Shuffled(s, e) ensures d == e {
      ShuffledInjective(s, d, e);
    }
  }

  /** The loop with its lowest `n` slots still to fill and generator state `a`, one swap a step. */
  function Run<T>(g: Source, o: seq<T>, n: nat, a: U32): (r: (seq<T>, U32))
    requires n <= |o|
    decreases n
  {
    if n <= 1 then (o, a) else Run(g, Swap(o, n - 1, NextDraw(g, a, n)), n - 1, g.step(a))
  }

  /** The loop shuffles the open slots by their draws and leaves the slots above alone. */
  lemma {:induction false} RunShuffles<T>(g: Source, o: seq<T>, n: nat, a: U32)
    requires n <= |o|
    ensures Run(g, o, n, a).0 == Shuffled(o[..n], Draws(g, a, n)) + o[n..]
    ensures Run(g, o, n, a).1 == After(g, a, if n == 0 then 0 else n - 1)
    decreases n
  {
    if n > 1 {
      var d, b := Draws(g, a, n), g.step(a);
      FirstDraw(g, a, n);
      FillSlot(o, n - 1, d);
      RunShuffles(g, Swap(o, n - 1, d[n - 1]), n - 1, b);
    }
  }

  lemma FirstDraw(g: Source, a: U32, n: nat)
    requires n > 1
    ensures Draws(g, a, n)[n - 1] == NextDraw(g, a, n)
    ensures Draws(g, a, n)[..n - 1] == Draws(g, g.step(a), n - 1)
  {
  }

  lemma FillSlot<T>(o: seq<T>, i: nat, d: seq<nat>)
    requires 0 < i < |o| && IsDraws(d, i + 1)
    ensures Shuffled(o[..i + 1], d) + o[i + 1..] == Shuffled(Swap(o, i, d[i])[..i], d[..i]) + Swap(o, i, d[i])[i..]
  {
    var r := Swap(o, i, d[i]);
    assert Swap(o[..i + 1], i, d[i])[..i] == r[..i];
    assert r[i..] == [o[d[i]]] + o[i + 1..];
    assert Shuffled(o[..i + 1], d) == Shuffled(r[..i], d[..i]) + [o[d[i]]];
  }

  /** `shuffle` returns the reordering its draws describe and leaves the input as it was. */
  method ShuffleItems<T>(items: array<T>, rng: Rng) returns (out: array<T>)
    modifies rng
    ensures fresh(out)
    ensures out[..] == Shuffled(items[..], Draws(rng.source, old(rng.a), items.Length))
    ensures rng.a == After(rng.source, old(rng.a), if items.Length == 0 then 0 else items.Length - 1)
  {
    out := CopyOf(items);
    ghost var s, n := items[..], items.Length;
    RunShuffles(rng.source, s, n, rng.a);
    assert s[..n] == s;
    ShuffleInPlace(out, rng);
  }

  method ShuffleInPlace<T>(out: array<T>, rng: Rng)
    modifies out, rng
    ensures (out[..], rng.a) == Run(rng.source, old(out[..]), out.Length, old(rng.a))
  {
    var i := out.Length - 1;
    while i > 0
      invariant -1 <= i < out.Length
      invariant Run(rng.source, out[..], i + 1, rng.a) == Run(rng.source, old(out[..]), out.Length, old(rng.a))
    {
      var t := rng.Next();
      var j := Draw(t, i + 1);
      DrawInRange(t, i + 1);
      SwapSlots(out, i, j);
      i := i - 1;
    }
  }

  method CopyOf<T>(items: array<T>) returns (out: array<T>)
    ensures fresh(out) && out[..] == items[..]
  {
    out := new T[items.Length](k requires 0 <= k < items.Length reads items => items[k]);
  }

  method SwapSlots<T>(out: array<T>, i: nat, j: nat)
    requires i < out.Length && j < out.Length
    modifies out
    ensures out[..] == Swap(old(out[..]), i, j)
  {
    out[i], out[j] := out[j], out[i];
  }
}
