/** Catalog snapshot ids (src/catalog/snapshot.ts). */
module Snapshot {
  import opened Js
  import opened Order
  import opened CanonicalJson

  /** A normalized model: its id, and the whole object including the id. */
  datatype Model = Model(id: JsString, doc: Json)

  type Collation = (JsString, JsString) -> bool

  function IdOf(m: Model): JsString { m.id }

  function ById(leq: Collation): (Model, Model) -> bool { Through(leq, IdOf) }

  function Doc(m: Model): Json { m.doc }

  function SortedDocs(leq: Collation, models: seq<Model>): Json {
    Arr(Map(Doc, SortBy(ById(leq), models)))
  }

  /** `snap-` and the first 16 digits of the digest of the canonical text. */
  function SnapshotId(digest: JsString -> JsString, leq: Collation, models: seq<Model>): JsString {
    var hex := digest(TextOf(leq, models));
    Lit("snap-") + if |hex| <= 16 then hex else hex[..16]
  }

  ghost predicate Tied(leq: Collation, m: Model, n: Model) {
    leq(m.id, n.id) && leq(n.id, m.id)
  }

  /** Models whose ids tie have equal content. */
  ghost predicate TiesAreEqual(leq: Collation, models: seq<Model>) {
    forall m, n :: m in models && n in models && Tied(leq, m, n) ==> EqualExcept({PROTO}, m.doc, n.doc)
  }

  ghost predicate AllValid(models: seq<Model>) {
    forall m :: m in models ==> Valid(m.doc)
  }

  function TextOf(leq: Collation, models: seq<Model>): JsString { Canonicalize(SortedDocs(leq, models)) }

  ghost predicate Alike(m: Model, n: Model) {
    m.id == n.id && Canonical(m.doc) == Canonical(n.doc)
  }

  ghost predicate AllAlike(ms: seq<Model>, ns: seq<Model>) {
    |ms| == |ns| && forall i :: 0 <= i < |ms| ==> Alike(ms[i], ns[i])
  }

  lemma {:induction false} InsertAlike(leq: Collation, m: Model, n: Model, ms: seq<Model>, ns: seq<Model>)
    requires Alike(m, n) && AllAlike(ms, ns)
    ensures AllAlike(Insert(ById(leq), m, ms), Insert(ById(leq), n, ns))
  {
    if ms != [] {
      assert Alike(ms[0], ns[0]);
      assert ById(leq)(m, ms[0]) == leq(IdOf(m), IdOf(ms[0])) && ById(leq)(n, ns[0]) == leq(IdOf(n), IdOf(ns[0]));
      if !ById(leq)(m, ms[0]) {
        assert AllAlike(ms[1..], ns[1..]);
        InsertAlike(leq, m, n, ms[1..], ns[1..]);
      }
    }
  }

  lemma {:induction false} SortAlike(leq: Collation, ms: seq<Model>, ns: seq<Model>)
    requires AllAlike(ms, ns)
    ensures AllAlike(SortBy(ById(leq), ms), SortBy(ById(leq), ns))
  {
    if ms != [] {
      assert Alike(ms[0], ns[0]) && AllAlike(ms[1..], ns[1..]);
      SortAlike(leq, ms[1..], ns[1..]);
      InsertAlike(leq, ms[0], ns[0], SortBy(ById(leq), ms[1..]), SortBy(ById(leq), ns[1..]));
    }
  }

  lemma ByIdMeans(leq: Collation, m: Model, n: Model)
    ensures ById(leq)(m, n) == leq(m.id, n.id)
  {
    assert ById(leq)(m, n) == leq(IdOf(m), IdOf(n));
  }

  /** Equal documents position by position print alike. */
  lemma SameDocsSameText(leq: Collation, ms: seq<Model>, ns: seq<Model>)
    requires |SortBy(ById(leq), ms)| == |SortBy(ById(leq), ns)|
    requires forall i :: 0 <= i < |SortBy(ById(leq), ms)| ==>
      Canonical(SortBy(ById(leq), ms)[i].doc) == Canonical(SortBy(ById(leq), ns)[i].doc)
    ensures TextOf(leq, ms) == TextOf(leq, ns)
  {
    hide SortBy, Canonical;
    var s, t := SortBy(ById(leq), ms), SortBy(ById(leq), ns);
    SameItems(Map(Doc, s), Map(Doc, t));
  }

  lemma SameItems(s: seq<Json>, t: seq<Json>)
    requires |s| == |t| && forall i :: 0 <= i < |s| ==> Canonical(s[i]) == Canonical(t[i])
    ensures Canonical(Arr(s)) == Canonical(Arr(t))
  {
    assert Canonical(Arr(s)).items == Canonical(Arr(t)).items;
  }

  /** Where tied models have equal content, rearranging the models keeps the text. */
  lemma RearrangedText(leq: Collation, ms: seq<Model>, moved: seq<Model>)
    requires TotalPreorder(leq) && AllValid(ms) && TiesAreEqual(leq, ms)
    requires multiset(ms) == multiset(moved)
    ensures TextOf(leq, ms) == TextOf(leq, moved)
  {
    var atMost := ById(leq);
    var s, t := SortBy(atMost, ms), SortBy(atMost, moved);
    ThroughOrdered(leq, IdOf);
    SortByCorrect(atMost, ms);
    SortByCorrect(atMost, moved);
    SameElements(ms, s);
    SameElements(ms, t);
    SameElements(s, t);
    hide SortBy, Canonical;
    forall i | 0 <= i < |s| ensures Canonical(s[i].doc) == Canonical(t[i].doc) {
      SortedTied(atMost, s, t, i);
      SortedTied(atMost, t, s, i);
      ByIdMeans(leq, s[i], t[i]);
      ByIdMeans(leq, t[i], s[i]);
      assert s[i] in s && t[i] in t;
      assert Tied(leq, s[i], t[i]);
      EqualSortsEqual(s[i].doc, t[i].doc);
    }
    SameDocsSameText(leq, ms, moved);
  }

  /** The snapshot id depends neither on the order of the models nor on key order inside them:
      `ns` is any rearrangement `moved` of `ms` with keys reordered inside each model. */
  lemma SnapshotIdCanonical(digest: JsString -> JsString, leq: Collation, ms: seq<Model>, moved: seq<Model>,
                            ns: seq<Model>)
    requires TotalPreorder(leq) && AllValid(ms) && TiesAreEqual(leq, ms)
    requires multiset(ms) == multiset(moved)
    requires |ns| == |moved| && AllValid(ns)
    requires forall i :: 0 <= i < |ns| ==> ns[i].id == moved[i].id && EqualExcept({PROTO}, ns[i].doc, moved[i].doc)
    ensures SnapshotId(digest, leq, ms) == SnapshotId(digest, leq, ns)
  {
    RearrangedText(leq, ms, moved);
    SameElements(ms, moved);
    hide Canonical;
    forall i | 0 <= i < |ns| ensures Alike(ns[i], moved[i]) {
      assert ns[i] in ns && moved[i] in moved;
      EqualSortsEqual(ns[i].doc, moved[i].doc);
    }
    SortAlike(leq, ns, moved);
    hide SortBy;
    assert forall i :: 0 <= i < |ns| ==> Alike(SortBy(ById(leq), ns)[i], SortBy(ById(leq), moved)[i]) by {
      ThroughOrdered(leq, IdOf);
      SortByCorrect(ById(leq), ns);
    }
    SameDocsSameText(leq, ns, moved);
  }

  // ------------------------------------------------------------ the exact condition

  /** Two tied elements go in at one place, the one inserted last in front. */
  lemma {:induction false} InsertTied(leq: Collation, a: Model, b: Model, s: seq<Model>) returns (k: nat)
    requires TotalPreorder(leq) && Tied(leq, a, b)
    ensures k <= |s|
    ensures Insert(ById(leq), a, Insert(ById(leq), b, s)) == s[..k] + [a, b] + s[k..]
    ensures Insert(ById(leq), b, Insert(ById(leq), a, s)) == s[..k] + [b, a] + s[k..]
  {
    ByIdMeans(leq, a, b);
    ByIdMeans(leq, b, a);
    k := 0;
    if s != [] {
      ByIdMeans(leq, a, s[0]);
      ByIdMeans(leq, b, s[0]);
      assert leq(a.id, s[0].id) == leq(b.id, s[0].id);
      if !leq(a.id, s[0].id) {
        var j := InsertTied(leq, a, b, s[1..]);
        InsertBehind(leq, a, b, s);
        InsertBehind(leq, b, a, s);
        k := j + 1;
        assert s[..k] == [s[0]] + s[1..][..j] && s[k..] == s[1..][j..];
      }
    }
  }

  lemma InsertBehind(leq: Collation, a: Model, b: Model, s: seq<Model>)
    requires s != [] && !ById(leq)(a, s[0]) && !ById(leq)(b, s[0])
    ensures Insert(ById(leq), a, Insert(ById(leq), b, s)) == [s[0]] + Insert(ById(leq), a, Insert(ById(leq), b, s[1..]))
  {
    var rest := Insert(ById(leq), b, s[1..]);
    assert ([s[0]] + rest)[1..] == rest;
  }

  /** Bringing two elements to the front keeps the contents. */
  lemma ToFront(ms: seq<Model>, i: nat, j: nat) returns (rest: seq<Model>)
    requires i < j < |ms|
    ensures multiset([ms[i], ms[j]] + rest) == multiset(ms) && multiset([ms[j], ms[i]] + rest) == multiset(ms)
  {
    rest := ms[..i] + ms[i + 1..j] + ms[j + 1..];
    assert ms == ms[..i] + [ms[i]] + ms[i + 1..j] + [ms[j]] + ms[j + 1..];
  }

  lemma SortTwoInFront(leq: Collation, a: Model, b: Model, rest: seq<Model>)
    ensures SortBy(ById(leq), [a, b] + rest) == Insert(ById(leq), a, Insert(ById(leq), b, SortBy(ById(leq), rest)))
  {
    var s := [a, b] + rest;
    assert s[1..] == [b] + rest && s[1..][1..] == rest;
  }

  /** A list of any length with two tied models of different content has two orders with
      different texts. */
  lemma TiedModelsKeepTheirOrder(leq: Collation, ms: seq<Model>, i: nat, j: nat) returns (p: seq<Model>, q: seq<Model>)
    requires TotalPreorder(leq) && AllValid(ms)
    requires i < j < |ms| && Tied(leq, ms[i], ms[j]) && !EqualExcept({PROTO}, ms[i].doc, ms[j].doc)
    ensures multiset(p) == multiset(ms) && multiset(q) == multiset(ms)
    ensures TextOf(leq, p) != TextOf(leq, q)
  {
    var a, b := ms[i], ms[j];
    var rest := ToFront(ms, i, j);
    p, q := [a, b] + rest, [b, a] + rest;
    SortTwoInFront(leq, a, b, rest);
    SortTwoInFront(leq, b, a, rest);
    var k := InsertTied(leq, a, b, SortBy(ById(leq), rest));
    SortedValid(leq, ms, p);
    SortedValid(leq, ms, q);
    DifferAt(SortedDocs(leq, p), SortedDocs(leq, q), k);
  }

  lemma SortedValid(leq: Collation, ms: seq<Model>, p: seq<Model>)
    requires TotalPreorder(leq) && AllValid(ms) && multiset(p) == multiset(ms)
    ensures Valid(SortedDocs(leq, p))
  {
    hide SortBy;
    var s := SortBy(ById(leq), p);
    ThroughOrdered(leq, IdOf);
    SortByCorrect(ById(leq), p);
    SameElements(ms, s);
    forall i | 0 <= i < |s| ensures Valid(s[i].doc) {
      assert s[i] in s;
    }
  }

  lemma DifferAt(x: Json, y: Json, k: nat)
    requires Valid(x) && Valid(y) && x.Arr? && y.Arr? && k < |x.items| && k < |y.items|
    requires !EqualExcept({PROTO}, x.items[k], y.items[k])
    ensures Canonicalize(x) != Canonicalize(y)
  {
    hide Canonicalize, Valid;
    CanonicalTextIdentifies(x, y);
  }

  ghost predicate SameTextAs(leq: Collation, ms: seq<Model>, p: seq<Model>) {
    multiset(p) == multiset(ms) ==> TextOf(leq, p) == TextOf(leq, ms)
  }

  lemma PositionOf(m: Model, ms: seq<Model>) returns (i: nat)
    requires m in ms
    ensures i < |ms| && ms[i] == m
  {
    i :| 0 <= i < |ms| && ms[i] == m;
  }

  /** The text behind the snapshot id is the same for every order of the models exactly when models
      whose ids tie have equal content. */
  lemma OrderIndependentIffTiesEqual(leq: Collation, ms: seq<Model>)
    requires TotalPreorder(leq) && AllValid(ms)
    ensures (forall p :: SameTextAs(leq, ms, p)) <==> TiesAreEqual(leq, ms)
  {
    if TiesAreEqual(leq, ms) {
      forall p ensures SameTextAs(leq, ms, p) {
        if multiset(p) == multiset(ms) { RearrangedText(leq, ms, p); }
      }
    } else {
      var m, n :| m in ms && n in ms && Tied(leq, m, n) && !EqualExcept({PROTO}, m.doc, n.doc);
      var i := PositionOf(m, ms);
      var j := PositionOf(n, ms);
      SelfEqual(m.doc);
      EqualBothWays(m.doc, n.doc);
      var p, q := TiedModelsKeepTheirOrder(leq, ms, if i < j then i else j, if i < j then j else i);
      assert SameTextAs(leq, ms, p) && SameTextAs(leq, ms, q) ==> TextOf(leq, p) == TextOf(leq, q);
    }
  }

  lemma SelfEqual(v: Json)
    requires Valid(v)
    ensures EqualExcept({PROTO}, v, v)
  {
    CanonicalTextIdentifies(v, v);
  }

  lemma EqualBothWays(v: Json, w: Json)
    requires Valid(v) && Valid(w)
    ensures EqualExcept({PROTO}, v, w) <==> EqualExcept({PROTO}, w, v)
  {
    hide EqualExcept;
    CanonicalTextIdentifies(v, w);
    CanonicalTextIdentifies(w, v);
  }
}
