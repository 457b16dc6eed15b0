/** Stable sorting under a comparison, and when a sorted list is determined by its contents.

    JavaScript's `sort` is stable; `SortBy` is its specification for a comparison `leq(a, b)`
    standing for "the comparator returns at most zero on (a, b)". */
module Order {

  ghost predicate TotalPreorder<T(!new)>(leq: (T, T) -> bool) {
    && (forall a, b :: leq(a, b) || leq(b, a))
    && (forall a, b, c :: leq(a, b) && leq(b, c) ==> leq(a, c))
  }

  /** Compare by a key. */
  function Through<T, K>(leq: (K, K) -> bool, key: T -> K): (T, T) -> bool {
    (a: T, b: T) => leq(key(a), key(b))
  }

  lemma ThroughOrdered<T(!new), K(!new)>(leq: (K, K) -> bool, key: T -> K)
    requires TotalPreorder(leq)
    ensures TotalPreorder(Through(leq, key))
  {
    forall a, b ensures Through(leq, key)(a, b) || Through(leq, key)(b, a) {
      assert leq(key(a), key(b)) || leq(key(b), key(a));
    }
    forall a, b, c | Through(leq, key)(a, b) && Through(leq, key)(b, c) ensures Through(leq, key)(a, c) {
      var x, y, z := key(a), key(b), key(c);
      assert leq(x, y) && leq(y, z) ==> leq(x, z);
    }
  }

  ghost predicate Sorted<T>(leq: (T, T) -> bool, s: seq<T>) {
    forall i, j :: 0 <= i < j < |s| ==> leq(s[i], s[j])
  }

  /** No two different elements of `s` tie. */
  ghost predicate NoTies<T>(leq: (T, T) -> bool, s: seq<T>) {
    forall a, b :: a in s && b in s && leq(a, b) && leq(b, a) ==> a == b
  }

  ghost predicate Distinct<T>(s: seq<T>) {
    forall i, j :: 0 <= i < j < |s| ==> s[i] != s[j]
  }

  /** No ties between elements means no ties between their keys, unless they are one element. */
  lemma ThroughUntied<T(!new), K(!new)>(leq: (K, K) -> bool, key: T -> K, s: seq<T>)
    requires forall a, b :: a in s && b in s && leq(key(a), key(b)) && leq(key(b), key(a)) ==> a == b
    ensures NoTies(Through(leq, key), s)
  {
    forall a, b | a in s && b in s && Through(leq, key)(a, b) && Through(leq, key)(b, a) ensures a == b {
      assert leq(key(a), key(b)) && leq(key(b), key(a));
    }
  }

  function Insert<T>(leq: (T, T) -> bool, x: T, s: seq<T>): seq<T> {
    if s == [] then [x]
    else if leq(x, s[0]) then [x] + s
    else [s[0]] + Insert(leq, x, s[1..])
  }

  function SortBy<T>(leq: (T, T) -> bool, s: seq<T>): seq<T> {
    if s == [] then [] else Insert(leq, s[0], SortBy(leq, s[1..]))
  }

  lemma {:induction false} InsertKeeps<T>(leq: (T, T) -> bool, x: T, s: seq<T>)
    ensures multiset(Insert(leq, x, s)) == multiset(s) + multiset{x}
    ensures |Insert(leq, x, s)| == |s| + 1
  {
    if s != [] && !leq(x, s[0]) {
      InsertKeeps(leq, x, s[1..]);
      assert s == [s[0]] + s[1..];
    }
  }

  lemma {:induction false} InsertSorted<T(!new)>(leq: (T, T) -> bool, x: T, s: seq<T>)
    requires TotalPreorder(leq) && Sorted(leq, s)
    ensures Sorted(leq, Insert(leq, x, s))
  {
    if s != [] {
      if leq(x, s[0]) {
        assert forall j :: 0 <= j < |s| ==> leq(s[0], s[j]);
      } else {
        InsertSorted(leq, x, s[1..]);
        InsertKeeps(leq, x, s[1..]);
        var r := Insert(leq, x, s[1..]);
        forall k | 0 <= k < |r| ensures leq(s[0], r[k]) {
          assert r[k] in multiset(s[1..]) + multiset{x};
        }
      }
    }
  }

  lemma {:induction false} SortKeeps<T>(leq: (T, T) -> bool, s: seq<T>)
    ensures multiset(SortBy(leq, s)) == multiset(s)
    ensures |SortBy(leq, s)| == |s|
  {
    if s != [] {
      SortKeeps(leq, s[1..]);
      InsertKeeps(leq, s[0], SortBy(leq, s[1..]));
      assert s == [s[0]] + s[1..];
    }
  }

  lemma {:induction false} SortSorts<T(!new)>(leq: (T, T) -> bool, s: seq<T>)
    requires TotalPreorder(leq)
    ensures Sorted(leq, SortBy(leq, s))
  {
    hide TotalPreorder, Sorted;
    if s == [] {
      NothingUnsorted(leq);
    } else {
      SortSorts(leq, s[1..]);
      InsertSorted(leq, s[0], SortBy(leq, s[1..]));
    }
  }

  lemma NothingUnsorted<T(!new)>(leq: (T, T) -> bool)
    ensures Sorted(leq, [])
  {
  }

  /** Sorting keeps the contents and sorts them. */
  lemma SortByCorrect<T(!new)>(leq: (T, T) -> bool, s: seq<T>)
    requires TotalPreorder(leq)
    ensures Sorted(leq, SortBy(leq, s))
    ensures multiset(SortBy(leq, s)) == multiset(s)
    ensures |SortBy(leq, s)| == |s|
  {
    SortKeeps(leq, s);
    SortSorts(leq, s);
  }

  lemma SameElements<T(!new)>(s: seq<T>, t: seq<T>)
    requires multiset(s) == multiset(t)
    ensures |s| == |t|
    ensures forall x :: x in s <==> x in t
  {
    assert |multiset(s)| == |multiset(t)|;
    forall x ensures x in s <==> x in t {
      assert x in s <==> x in multiset(s);
      assert x in t <==> x in multiset(t);
    }
  }

  lemma HeadsAgree<T(!new)>(leq: (T, T) -> bool, s: seq<T>, t: seq<T>)
    requires TotalPreorder(leq) && NoTies(leq, s)
    requires Sorted(leq, s) && Sorted(leq, t)
    requires multiset(s) == multiset(t) && s != []
    ensures t != [] && s[0] == t[0]
  {
    SameElements(s, t);
    assert t[0] in s && s[0] in t;
    var i :| 0 <= i < |s| && s[i] == t[0];
    var j :| 0 <= j < |t| && t[j] == s[0];
    assert leq(s[0], s[i]) && leq(t[0], t[j]);
  }

  lemma TailsAgree<T>(s: seq<T>, t: seq<T>)
    requires s != [] && t != [] && s[0] == t[0] && multiset(s) == multiset(t)
    ensures multiset(s[1..]) == multiset(t[1..])
  {
    assert s == [s[0]] + s[1..] && t == [t[0]] + t[1..];
    assert multiset(s[1..]) == multiset(s) - multiset{s[0]};
    assert multiset(t[1..]) == multiset(t) - multiset{t[0]};
  }

  /** A sorted list without ties is determined by its contents. */
  lemma {:induction false} SortedUnique<T(!new)>(leq: (T, T) -> bool, s: seq<T>, t: seq<T>)
    requires TotalPreorder(leq) && NoTies(leq, s)
    requires Sorted(leq, s) && Sorted(leq, t)
    requires multiset(s) == multiset(t)
    ensures s == t
  {
    if s == [] {
      SameElements(s, t);
    } else {
      HeadsAgree(leq, s, t);
      TailsAgree(s, t);
      SortedUnique(leq, s[1..], t[1..]);
      assert s == [s[0]] + s[1..] && t == [t[0]] + t[1..];
    }
  }

  /** Two orderings of the same tie-free contents sort to the same list. */
  lemma SortCanonical<T(!new)>(leq: (T, T) -> bool, s: seq<T>, t: seq<T>)
    requires TotalPreorder(leq) && NoTies(leq, s)
    requires multiset(s) == multiset(t)
    ensures SortBy(leq, s) == SortBy(leq, t)
  {
    SortByCorrect(leq, s);
    SortByCorrect(leq, t);
    SameElements(s, SortBy(leq, s));
    SortedUnique(leq, SortBy(leq, s), SortBy(leq, t));
  }

  ghost predicate TiesKeep<T>(leq: (T, T) -> bool, before: (T, T) -> bool, r: seq<T>) {
    forall i, j :: 0 <= i < j < |r| ==> !leq(r[j], r[i]) || before(r[i], r[j])
  }

  /** Stability: a relation that holds from every earlier to every later input element
      still holds between tied output elements. */
  lemma {:induction false} SortStable<T(!new)>(leq: (T, T) -> bool, before: (T, T) -> bool, s: seq<T>)
    requires TotalPreorder(leq)
    requires forall i, j :: 0 <= i < j < |s| ==> before(s[i], s[j])
    ensures TiesKeep(leq, before, SortBy(leq, s))
  {
    if s != [] {
      var rest := SortBy(leq, s[1..]);
      SortStable(leq, before, s[1..]);
      SortByCorrect(leq, s[1..]);
      SameElements(rest, s[1..]);
      forall y | y in rest ensures before(s[0], y) {
        var j :| 0 <= j < |s[1..]| && s[1..][j] == y;
        assert before(s[0], s[j + 1]);
      }
      InsertStable(leq, before, s[0], rest);
      assert SortBy(leq, s) == Insert(leq, s[0], rest);
    }
  }

  lemma {:induction false} InsertStable<T(!new)>(leq: (T, T) -> bool, before: (T, T) -> bool, x: T, s: seq<T>)
    requires TotalPreorder(leq)
    requires forall y :: y in s ==> before(x, y)
    requires TiesKeep(leq, before, s)
    ensures TiesKeep(leq, before, Insert(leq, x, s))
  {
    if s != [] && !leq(x, s[0]) {
      InsertStable(leq, before, x, s[1..]);
      InsertKeeps(leq, x, s[1..]);
      var r := Insert(leq, x, s[1..]);
      forall k | 0 <= k < |r| ensures !leq(r[k], s[0]) || before(s[0], r[k]) {
        assert r[k] in multiset(s[1..]) + multiset{x};
        if r[k] != x {
          var j :| 0 <= j < |s[1..]| && s[1..][j] == r[k];
          assert s[j + 1] == r[k];
        }
      }
    }
  }

  /** Lists without repetition and with the same members have the same contents. */
  lemma {:induction false} DistinctSameSet<T(!new)>(s: seq<T>, t: seq<T>)
    requires Distinct(s) && Distinct(t)
    requires forall x :: x in s <==> x in t
    ensures multiset(s) == multiset(t)
  {
    DistinctCounts(s);
    DistinctCounts(t);
    forall x ensures multiset(s)[x] == multiset(t)[x] {
      assert x in multiset(s) <==> x in s;
      assert x in multiset(t) <==> x in t;
    }
  }

  lemma {:induction false} DistinctCounts<T(!new)>(s: seq<T>)
    requires Distinct(s)
    ensures forall x :: x in s ==> multiset(s)[x] == 1
  {
    if s != [] {
      DistinctCounts(s[1..]);
      assert s == [s[0]] + s[1..];
      assert s[0] !in s[1..];
      assert s[0] !in multiset(s[1..]);
      forall x | x in s ensures multiset(s)[x] == 1 {
        if x != s[0] { assert x in s[1..]; }
      }
    }
  }

  lemma TwiceCounted<T>(s: seq<T>, i: nat, j: nat)
    requires i < j < |s| && s[i] == s[j]
    ensures multiset(s)[s[i]] >= 2
  {
    assert s == s[..i] + [s[i]] + s[i + 1..j] + [s[j]] + s[j + 1..];
  }

  lemma CountsDistinct<T(!new)>(s: seq<T>)
    requires forall x :: x in s ==> multiset(s)[x] == 1
    ensures Distinct(s)
  {
    forall i, j | 0 <= i < j < |s| ensures s[i] != s[j] {
      if s[i] == s[j] { TwiceCounted(s, i, j); }
    }
  }

  /** Being free of repetition survives rearrangement. */
  lemma DistinctPermutes<T(!new)>(s: seq<T>, t: seq<T>)
    requires Distinct(s) && multiset(s) == multiset(t)
    ensures Distinct(t)
  {
    DistinctCounts(s);
    SameElements(s, t);
    CountsDistinct(t);
  }

  /** Mapping commutes with taking contents: rearranged inputs have rearranged images. */
  lemma {:induction false} MapPermutes<T, U>(f: T -> U, s: seq<T>, t: seq<T>)
    requires multiset(s) == multiset(t)
    ensures multiset(Map(f, s)) == multiset(Map(f, t))
  {
    if s == [] {
      assert |multiset(t)| == 0;
    } else {
      var i := IndexIn(s[0], s, t);
      var u := t[..i] + t[i + 1..];
      RemoveOne(s, t, i);
      MapPermutes(f, s[1..], u);
      MapSplit(f, t, i);
      assert multiset(Map(f, s)) == multiset(Map(f, u)) + multiset{f(s[0])};
    }
  }

  lemma IndexIn<T>(x: T, s: seq<T>, t: seq<T>) returns (i: nat)
    requires multiset(s) == multiset(t) && x in s
    ensures i < |t| && t[i] == x
  {
    assert x in multiset(s);
    assert x in t;
    i :| 0 <= i < |t| && t[i] == x;
  }

  lemma MapSplit<T, U>(f: T -> U, t: seq<T>, i: nat)
    requires i < |t|
    ensures multiset(Map(f, t)) == multiset(Map(f, t[..i] + t[i + 1..])) + multiset{f(t[i])}
  {
    assert t[..i] + t[i..] == t;
    MapAppend(f, t[..i], t[i..]);
    MapAppend(f, t[..i], t[i + 1..]);
    assert Map(f, t[i..]) == [f(t[i])] + Map(f, t[i + 1..]);
  }

  lemma MapAppend<T, U>(f: T -> U, a: seq<T>, b: seq<T>)
    ensures Map(f, a + b) == Map(f, a) + Map(f, b)
  {
    var l, r := Map(f, a + b), Map(f, a) + Map(f, b);
    forall k | 0 <= k < |l| ensures l[k] == r[k] { }
  }

  lemma RemoveOne<T>(s: seq<T>, t: seq<T>, i: nat)
    requires multiset(s) == multiset(t) && s != [] && i < |t| && t[i] == s[0]
    ensures multiset(s[1..]) == multiset(t[..i] + t[i + 1..])
  {
    assert t == t[..i] + [t[i]] + t[i + 1..];
    assert s == [s[0]] + s[1..];
    assert multiset(s[1..]) == multiset(s) - multiset{s[0]};
    assert multiset(t[..i] + t[i + 1..]) == multiset(t) - multiset{s[0]};
  }

  function Map<T, U>(f: T -> U, s: seq<T>): (r: seq<U>)
    ensures |r| == |s| && forall i :: 0 <= i < |s| ==> r[i] == f(s[i])
  {
    if s == [] then [] else [f(s[0])] + Map(f, s[1..])
  }

  function Filter<T>(p: T -> bool, s: seq<T>): seq<T> {
    if s == [] then []
    else if p(s[0]) then [s[0]] + Filter(p, s[1..])
    else Filter(p, s[1..])
  }

  lemma {:induction false} FilterMembers<T(!new)>(p: T -> bool, s: seq<T>)
    ensures forall x :: x in Filter(p, s) <==> x in s && p(x)
  {
    if s != [] {
      FilterMembers(p, s[1..]);
      assert s == [s[0]] + s[1..];
    }
  }

  lemma {:induction false} FilterAppend<T>(p: T -> bool, s: seq<T>, t: seq<T>)
    ensures Filter(p, s + t) == Filter(p, s) + Filter(p, t)
  {
    if s == [] {
      assert s + t == t;
    } else {
      FilterAppend(p, s[1..], t);
      assert (s + t)[1..] == s[1..] + t;
    }
  }

  lemma {:induction false} FilterCounts<T>(p: T -> bool, s: seq<T>, x: T)
    ensures multiset(Filter(p, s))[x] == if p(x) then multiset(s)[x] else 0
  {
    if s != [] {
      FilterCounts(p, s[1..], x);
      assert s == [s[0]] + s[1..];
    }
  }

  lemma FilterPermutes<T(!new)>(p: T -> bool, s: seq<T>, t: seq<T>)
    requires multiset(s) == multiset(t)
    ensures multiset(Filter(p, s)) == multiset(Filter(p, t))
  {
    var a, b := multiset(Filter(p, s)), multiset(Filter(p, t));
    forall x ensures a[x] == b[x] {
      FilterCounts(p, s, x);
      FilterCounts(p, t, x);
      assert multiset(s)[x] == multiset(t)[x];
    }
    assert a == b;
  }

  lemma {:induction false} FilterSorted<T(!new)>(leq: (T, T) -> bool, p: T -> bool, s: seq<T>)
    requires Sorted(leq, s)
    ensures Sorted(leq, Filter(p, s))
  {
    if s != [] {
      FilterSorted(leq, p, s[1..]);
      FilterMembers(p, s[1..]);
      forall x | x in Filter(p, s[1..]) ensures leq(s[0], x) {
        var j :| 0 <= j < |s[1..]| && s[1..][j] == x;
        assert leq(s[0], s[j + 1]);
      }
    }
  }

  lemma {:induction false} FilterAll<T(!new)>(p: T -> bool, s: seq<T>)
    requires forall x :: x in s ==> p(x)
    ensures Filter(p, s) == s
  {
    if s != [] { FilterAll(p, s[1..]); }
  }

  lemma {:induction false} FilterNone<T(!new)>(p: T -> bool, s: seq<T>)
    requires forall x :: x in s ==> !p(x)
    ensures Filter(p, s) == []
  {
    if s != [] { FilterNone(p, s[1..]); }
  }

  lemma {:induction false} FilterShorter<T>(p: T -> bool, s: seq<T>)
    ensures |Filter(p, s)| <= |s|
  {
    if s != [] { FilterShorter(p, s[1..]); }
  }

  lemma FilterSplit<T>(p: T -> bool, s: seq<T>, n: nat)
    requires n <= |s|
    ensures Filter(p, s) == Filter(p, s[..n]) + Filter(p, s[n..])
  {
    assert s == s[..n] + s[n..];
    FilterAppend(p, s[..n], s[n..]);
  }

  lemma FirstIsLeast<T(!new)>(leq: (T, T) -> bool, s: seq<T>, n: nat, x: T)
    requires TotalPreorder(leq) && Sorted(leq, s) && n < |s| && x in s[n..]
    ensures leq(s[n], x)
  {
    var t := s[n..];
    var i :| 0 <= i < |t| && t[i] == x;
    assert s[n + i] == x;
    assert leq(x, x);
  }

  /** In a sorted list at most `n` elements are below `v` if element `n` is not. */
  lemma FewBelow<T(!new)>(leq: (T, T) -> bool, s: seq<T>, n: nat, v: T)
    requires TotalPreorder(leq) && Sorted(leq, s) && n < |s| && !leq(s[n], v)
    ensures |Filter((x: T) => leq(x, v), s)| <= n
  {
    var p, first := (x: T) => leq(x, v), s[n];
    forall x | x in s[n..] ensures !p(x) {
      FirstIsLeast(leq, s, n, x);
      assert leq(first, x) && leq(x, v) ==> leq(first, v);
    }
    FilterNone(p, s[n..]);
    FilterShorter(p, s[..n]);
    FilterSplit(p, s, n);
  }

  lemma ManyBelow<T(!new)>(leq: (T, T) -> bool, s: seq<T>, n: nat)
    requires TotalPreorder(leq) && Sorted(leq, s) && n < |s|
    ensures |Filter((x: T) => leq(x, s[n]), s)| > n
  {
    var p := (x: T) => leq(x, s[n]);
    var k := n + 1;
    forall x | x in s[..k] ensures p(x) {
      var i :| 0 <= i < k && s[i] == x;
      assert leq(s[n], s[n]);
    }
    FilterAll(p, s[..k]);
    FilterSplit(p, s, k);
  }

  /** Two sorted lists with the same contents tie at every position. */
  lemma SortedTied<T(!new)>(leq: (T, T) -> bool, s: seq<T>, t: seq<T>, n: nat)
    requires TotalPreorder(leq) && Sorted(leq, s) && Sorted(leq, t) && multiset(s) == multiset(t)
    requires n < |s|
    ensures |t| == |s| && leq(s[n], t[n])
  {
    SameElements(s, t);
    if !leq(s[n], t[n]) {
      var p := (x: T) => leq(x, t[n]);
      FewBelow(leq, s, n, t[n]);
      ManyBelow(leq, t, n);
      FilterPermutes(p, s, t);
      SameElements(Filter(p, s), Filter(p, t));
    }
  }

  lemma {:induction false} DistinctFiltered<T(!new)>(p: T -> bool, s: seq<T>)
    requires Distinct(s)
    ensures Distinct(Filter(p, s))
  {
    if s != [] {
      DistinctFiltered(p, s[1..]);
      FilterMembers(p, s[1..]);
      assert s[0] !in s[1..];
    }
  }

  lemma FilterSingle<T>(p: T -> bool, x: T)
    ensures Filter(p, [x]) == if p(x) then [x] else []
  {
    var one := [x];
    assert |one[1..]| == 0;
    assert Filter(p, one[1..]) == [];
  }
}
