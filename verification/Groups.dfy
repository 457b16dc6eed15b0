/** Grouping by key in order of first occurrence, as an insertion-ordered `Map` of lists does it, and
    concatenating groups again. */
module Groups {
  import opened Order

  function HasKey<T, K(==)>(key: T -> K, k: K): T -> bool { x => key(x) == k }

  /** The items with key `k`, in their original order. */
  function Group<T, K(==)>(key: T -> K, s: seq<T>, k: K): seq<T> { Filter(HasKey(key, k), s) }

  /** The keys in order of first occurrence. */
  function Keys<T, K(==)>(key: T -> K, s: seq<T>): seq<K> {
    if s == [] then []
    else
      var ks, k := Keys(key, s[..|s| - 1]), key(s[|s| - 1]);
      if k in ks then ks else ks + [k]
  }

  ghost predicate HasItem<T(!new), K(!new)>(key: T -> K, s: seq<T>, k: K) {
    exists x :: x in s && key(x) == k
  }

  lemma {:induction false} KeysDistinct<T(!new), K(!new)>(key: T -> K, s: seq<T>)
    ensures Distinct(Keys(key, s))
    ensures forall k :: k in Keys(key, s) ==> HasItem(key, s, k)
    ensures forall x :: x in s ==> key(x) in Keys(key, s)
  {
    if s != [] {
      KeysDistinct(key, s[..|s| - 1]);
      assert s == s[..|s| - 1] + [s[|s| - 1]];
    }
  }

  /** Rearranged items have rearranged keys. */
  lemma KeysPermute<T(!new), K(!new)>(key: T -> K, s: seq<T>, t: seq<T>)
    requires multiset(s) == multiset(t)
    ensures multiset(Keys(key, s)) == multiset(Keys(key, t))
  {
    KeysDistinct(key, s);
    KeysDistinct(key, t);
    SameElements(s, t);
    forall k ensures k in Keys(key, s) <==> k in Keys(key, t) {
      if k in Keys(key, s) { var x :| x in s && key(x) == k; assert x in t; }
      if k in Keys(key, t) { var x :| x in t && key(x) == k; assert x in s; }
    }
    DistinctSameSet(Keys(key, s), Keys(key, t));
  }

  lemma GroupMembers<T(!new), K(!new)>(key: T -> K, s: seq<T>, k: K)
    ensures forall x :: x in Group(key, s, k) <==> x in s && key(x) == k
  {
    FilterMembers(HasKey(key, k), s);
  }

  function Concat<T>(lists: seq<seq<T>>): seq<T> {
    if lists == [] then [] else Concat(lists[..|lists| - 1]) + lists[|lists| - 1]
  }

  lemma {:induction false} ConcatMembers<T(!new)>(lists: seq<seq<T>>)
    ensures forall x :: x in Concat(lists) <==> exists i :: 0 <= i < |lists| && x in lists[i]
  {
    if lists != [] {
      var n := |lists| - 1;
      ConcatMembers(lists[..n]);
      forall x | x in Concat(lists) ensures exists i :: 0 <= i < |lists| && x in lists[i] {
        if x in Concat(lists[..n]) {
          var i :| 0 <= i < |lists[..n]| && x in lists[..n][i];
          assert x in lists[i];
        } else {
          assert x in lists[n];
        }
      }
      forall i, x | 0 <= i < |lists| && x in lists[i] ensures x in Concat(lists) {
        if i < n { assert lists[..n][i] == lists[i]; }
      }
    }
  }

  /** Each list holds items of one key only, and no two lists share a key. */
  ghost predicate Keyed<T(!new), K(!new)>(key: T -> K, ks: seq<K>, lists: seq<seq<T>>) {
    && |ks| == |lists| && Distinct(ks)
    && forall i :: 0 <= i < |ks| ==> AllHaveKey(key, lists[i], ks[i])
  }

  ghost predicate AllHaveKey<T(!new), K(!new)>(key: T -> K, s: seq<T>, k: K) {
    forall x :: x in s ==> key(x) == k
  }

  lemma KeyedInit<T(!new), K(!new)>(key: T -> K, ks: seq<K>, lists: seq<seq<T>>)
    requires Keyed(key, ks, lists) && ks != []
    ensures Keyed(key, ks[..|ks| - 1], lists[..|ks| - 1])
    ensures ks[|ks| - 1] !in ks[..|ks| - 1]
  {
  }

  lemma GroupOfList<T(!new), K(!new)>(key: T -> K, s: seq<T>, k: K, j: K)
    requires AllHaveKey(key, s, j)
    ensures Group(key, s, k) == if k == j then s else []
  {
    if k == j { FilterAll(HasKey(key, k), s); } else { FilterNone(HasKey(key, k), s); }
  }

  lemma GroupOfConcat<T(!new), K(!new)>(key: T -> K, ks: seq<K>, lists: seq<seq<T>>, k: K)
    requires Keyed(key, ks, lists) && ks != []
    ensures Keyed(key, ks[..|ks| - 1], lists[..|ks| - 1])
    ensures Group(key, Concat(lists), k)
      == Group(key, Concat(lists[..|ks| - 1]), k) + if k == ks[|ks| - 1] then lists[|ks| - 1] else []
  {
    var n := |ks| - 1;
    KeyedInit(key, ks, lists);
    GroupOfList(key, lists[n], k, ks[n]);
    FilterAppend(HasKey(key, k), Concat(lists[..n]), lists[n]);
  }

  lemma {:induction false} GroupOutside<T(!new), K(!new)>(key: T -> K, ks: seq<K>, lists: seq<seq<T>>, k: K)
    requires Keyed(key, ks, lists) && k !in ks
    ensures Group(key, Concat(lists), k) == []
  {
    if ks != [] {
      var n := |ks| - 1;
      GroupOfConcat(key, ks, lists, k);
      GroupOutside(key, ks[..n], lists[..n], k);
    }
  }

  /** Grouping a concatenation of keyed lists gives those lists back. */
  lemma {:induction false} GroupInside<T(!new), K(!new)>(key: T -> K, ks: seq<K>, lists: seq<seq<T>>, i: nat)
    requires Keyed(key, ks, lists) && i < |ks|
    ensures Group(key, Concat(lists), ks[i]) == lists[i]
    decreases |ks|
  {
    var n := |ks| - 1;
    GroupOfConcat(key, ks, lists, ks[i]);
    hide Group, Concat;
    if i == n {
      KeyedInit(key, ks, lists);
      GroupOutside(key, ks[..n], lists[..n], ks[i]);
    } else {
      assert ks[..n][i] == ks[i] && lists[..n][i] == lists[i];
      GroupInside(key, ks[..n], lists[..n], i);
    }
  }

  /** Lists that rearrange the groups of `s`, over all its keys, together rearrange `s`. */
  lemma GroupsRearrange<T(!new), K(!new)>(key: T -> K, s: seq<T>, ks: seq<K>, lists: seq<seq<T>>)
    requires Keyed(key, ks, lists)
    requires forall x :: x in s ==> key(x) in ks
    requires forall i :: 0 <= i < |ks| ==> multiset(lists[i]) == multiset(Group(key, s, ks[i]))
    ensures multiset(Concat(lists)) == multiset(s)
  {
    var a, b := multiset(Concat(lists)), multiset(s);
    forall x ensures a[x] == b[x] {
      FilterCounts(HasKey(key, key(x)), Concat(lists), x);
      FilterCounts(HasKey(key, key(x)), s, x);
      if key(x) in ks {
        var i :| 0 <= i < |ks| && ks[i] == key(x);
        GroupInside(key, ks, lists, i);
      } else {
        GroupOutside(key, ks, lists, key(x));
        assert x !in s;
      }
    }
    assert a == b;
  }

  function GroupLists<T, K(==)>(key: T -> K, s: seq<T>, ks: seq<K>): (r: seq<seq<T>>)
    ensures |r| == |ks| && forall i :: 0 <= i < |ks| ==> r[i] == Group(key, s, ks[i])
  {
    if ks == [] then [] else GroupLists(key, s, ks[..|ks| - 1]) + [Group(key, s, ks[|ks| - 1])]
  }

  /** The groups of all keys, in any order, hold every item exactly as often as `s` does. */
  lemma GroupListsRearrange<T(!new), K(!new)>(key: T -> K, s: seq<T>, ks: seq<K>)
    requires multiset(ks) == multiset(Keys(key, s))
    ensures multiset(Concat(GroupLists(key, s, ks))) == multiset(s)
    ensures |Concat(GroupLists(key, s, ks))| == |s|
  {
    var lists := GroupLists(key, s, ks);
    KeysDistinct(key, s);
    DistinctPermutes(Keys(key, s), ks);
    SameElements(Keys(key, s), ks);
    forall i | 0 <= i < |ks| ensures AllHaveKey(key, lists[i], ks[i]) { GroupMembers(key, s, ks[i]); }
    GroupsRearrange(key, s, ks, lists);
    SameElements(Concat(lists), s);
  }

  lemma GroupListsInit<T(!new), K(!new)>(key: T -> K, s: seq<T>, ks: seq<K>)
    requires ks != []
    ensures Concat(GroupLists(key, s, ks)) == Concat(GroupLists(key, s, ks[..|ks| - 1])) + Group(key, s, ks[|ks| - 1])
  {
    hide Group;
    assert GroupLists(key, s, ks)[..|ks| - 1] == GroupLists(key, s, ks[..|ks| - 1]);
  }

  /** Items with the same key stand together. */
  ghost predicate Contiguous<T(!new), K(!new)>(key: T -> K, s: seq<T>) {
    forall i, j, k :: 0 <= i < j < k < |s| && key(s[i]) == key(s[k]) ==> key(s[j]) == key(s[i])
  }

  lemma {:induction false} ConcatContiguous<T(!new), K(!new)>(key: T -> K, ks: seq<K>, lists: seq<seq<T>>)
    requires Keyed(key, ks, lists)
    ensures Contiguous(key, Concat(lists))
  {
    if ks != [] {
      var n := |ks| - 1;
      KeyedInit(key, ks, lists);
      ConcatContiguous(key, ks[..n], lists[..n]);
      GroupOutside(key, ks[..n], lists[..n], ks[n]);
      GroupMembers(key, Concat(lists[..n]), ks[n]);
      assert forall x :: x in Concat(lists[..n]) && key(x) == ks[n] ==> x in Group(key, Concat(lists[..n]), ks[n]);
      AppendContiguous(key, Concat(lists[..n]), lists[n], ks[n]);
    }
  }

  lemma AppendContiguous<T(!new), K(!new)>(key: T -> K, a: seq<T>, b: seq<T>, k: K)
    requires Contiguous(key, a) && AllHaveKey(key, b, k)
    requires forall x :: x in a ==> key(x) != k
    ensures Contiguous(key, a + b)
  {
    assert forall i :: 0 <= i < |a| ==> (a + b)[i] == a[i] && key(a[i]) != k;
    assert forall i :: |a| <= i < |a + b| ==> (a + b)[i] in b && key((a + b)[i]) == k;
  }

  lemma {:induction false} GroupGrows<T(!new), K(!new)>(key: T -> K, s: seq<T>, k: K)
    requires s != []
    ensures var x := s[|s| - 1];
      Group(key, s, k) == Group(key, s[..|s| - 1], k) + if key(x) == k then [x] else []
  {
    var n := |s| - 1;
    assert s == s[..n] + [s[n]];
    FilterAppend(HasKey(key, k), s[..n], [s[n]]);
  }

  lemma GroupExtends<T(!new), K(!new)>(key: T -> K, s: seq<T>, x: T, k: K)
    ensures Group(key, s + [x], k) == if key(x) == k then Group(key, s, k) + [x] else Group(key, s, k)
  {
    FilterAppend(HasKey(key, k), s, [x]);
  }

  lemma KeysExtend<T(!new), K(!new)>(key: T -> K, s: seq<T>, x: T)
    ensures Keys(key, s + [x]) == if key(x) in Keys(key, s) then Keys(key, s) else Keys(key, s) + [key(x)]
  {
    assert (s + [x])[..|s|] == s;
  }

  ghost predicate IsGrouping<T(!new), K(!new)>(key: T -> K, s: seq<T>, keys: seq<K>, lists: map<K, seq<T>>) {
    && keys == Keys(key, s)
    && (forall k :: k in keys ==> k in lists)
    && forall k :: k in lists ==> k in keys && lists[k] == Group(key, s, k)
  }

  lemma NoGroup<T(!new), K(!new)>(key: T -> K, s: seq<T>, k: K)
    requires k !in Keys(key, s)
    ensures Group(key, s, k) == []
  {
    KeysDistinct(key, s);
    FilterNone(HasKey(key, k), s);
  }

  lemma GroupingStep<T(!new), K(!new)>(key: T -> K, s: seq<T>, keys: seq<K>, lists: map<K, seq<T>>)
    requires s != [] && IsGrouping(key, s[..|s| - 1], keys, lists)
    ensures var x := s[|s| - 1]; var k := key(x);
      IsGrouping(key, s, if k in lists then keys else keys + [k],
                 lists[k := (if k in lists then lists[k] else []) + [x]])
  {
    var k := key(s[|s| - 1]);
    if k !in lists { NoGroup(key, s[..|s| - 1], k); }
    forall j ensures Group(key, s, j) == Group(key, s[..|s| - 1], j) + if k == j then [s[|s| - 1]] else [] {
      GroupGrows(key, s, j);
    }
  }

  /** The grouping loop: append each item to its key's list, starting the list on first sight. */
  method GroupBy<T(!new), K(==, !new)>(key: T -> K, s: seq<T>) returns (keys: seq<K>, lists: map<K, seq<T>>)
    ensures IsGrouping(key, s, keys, lists)
  {
    keys, lists := [], map[];
    for i := 0 to |s|
      invariant IsGrouping(key, s[..i], keys, lists)
    {
      var k := key(s[i]);
      assert s[..i + 1][..i] == s[..i];
      GroupingStep(key, s[..i + 1], keys, lists);
      var list := if k in lists then lists[k] else [];
      if k !in lists { keys := keys + [k]; }
      lists := lists[k := list + [s[i]]];
    }
    assert s[..|s|] == s;
  }
}
