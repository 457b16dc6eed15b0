/** Canonical JSON and content hashes (src/suite/hash.ts). */
module CanonicalJson {
  // Recursive key sorting followed by printing. An object is the list of its own members in
  // JavaScript's enumeration order. A number is the text `JSON.stringify` prints for it; printing
  // is injective on finite numbers, except that 0 and -0 are one numeral.

  import opened Js
  import opened Order

  predicate NumeralUnit(u: Unit) {
    0x30 <= u <= 0x39 || u in {0x2B, 0x2D, 0x2E, 0x45, 0x65}
  }

  predicate IsNumeral(s: JsString) {
    s != [] && (0x30 <= s[0] <= 0x39 || s[0] == 0x2D) && forall i :: 0 <= i < |s| ==> NumeralUnit(s[i])
  }

  type Numeral = s: JsString | IsNumeral(s) witness [0x30]

  datatype Json =
    | Null
    | Bool(b: bool)
    | Num(text: Numeral)
    | Str(s: JsString)
    | Arr(items: seq<Json>)
    | Obj(fields: seq<Field>)

  datatype Field = Field(key: JsString, value: Json)

  ghost predicate DistinctKeys(fields: seq<Field>) {
    forall i, j :: 0 <= i < j < |fields| ==> fields[i].key != fields[j].key
  }

  /** What `JSON.parse` or an object literal can produce: no object has a key twice. */
  ghost predicate Valid(v: Json) {
    match v
    case Arr(items) => forall i :: 0 <= i < |items| ==> Valid(items[i])
    case Obj(fields) => DistinctKeys(fields) && forall i :: 0 <= i < |fields| ==> Valid(fields[i].value)
    case _ => true
  }

  /** Equal up to the order of object keys at every depth, with keys in `ignored` treated as
      absent. `EqualExcept({}, a, b)` is plain equality up to key order. */
  ghost predicate EqualExcept(ignored: set<JsString>, a: Json, b: Json)
    decreases a
  {
    match (a, b)
    case (Arr(s), Arr(t)) =>
      |s| == |t| && forall i :: 0 <= i < |s| ==> EqualExcept(ignored, s[i], t[i])
    case (Obj(f), Obj(g)) =>
      && (forall i :: 0 <= i < |f| && f[i].key !in ignored ==> HasEqual(ignored, f[i], g))
      && (forall j :: 0 <= j < |g| && g[j].key !in ignored ==> HasKey(f, g[j].key))
    case _ => a == b
  }

  ghost predicate HasEqual(ignored: set<JsString>, x: Field, g: seq<Field>)
    decreases x
  {
    exists j :: 0 <= j < |g| && g[j].key == x.key && EqualExcept(ignored, x.value, g[j].value)
  }

  ghost predicate HasKey(f: seq<Field>, key: JsString) {
    exists i :: 0 <= i < |f| && f[i].key == key
  }

  // ---------------------------------------------------------------- sortValue

  predicate ByKey(a: Field, b: Field) { LexLeq(a.key, b.key) }

  predicate OwnKey(f: Field) { f.key != PROTO }

  predicate IsDigit(u: Unit) { 0x30 <= u <= 0x39 }

  function DigitsValue(s: JsString): nat
    requires forall i :: 0 <= i < |s| ==> IsDigit(s[i])
  {
    if s == [] then 0 else assert IsDigit(s[|s| - 1]); 10 * DigitsValue(s[..|s| - 1]) + (s[|s| - 1] - 0x30)
  }

  /** Array-index keys, which are enumerated first and in numeric order. */
  predicate IsIndex(key: JsString) {
    && key != [] && (forall i :: 0 <= i < |key| ==> IsDigit(key[i]))
    && (key[0] == 0x30 ==> |key| == 1)
    && DigitsValue(key) < 0xFFFF_FFFF
  }

  function InsertIndex(fields: seq<Field>, f: Field): seq<Field>
    requires IsIndex(f.key)
  {
    if fields == [] || !IsIndex(fields[0].key) || DigitsValue(f.key) < DigitsValue(fields[0].key)
    then [f] + fields
    else [fields[0]] + InsertIndex(fields[1..], f)
  }

  /** `sorted[key] = value` for a key the object does not have yet. */
  function SetOwn(fields: seq<Field>, f: Field): seq<Field> {
    if !OwnKey(f) then fields
    else if IsIndex(f.key) then InsertIndex(fields, f)
    else fields + [f]
  }

  function Place(fs: seq<Field>): seq<Field> {
    if fs == [] then [] else SetOwn(Place(fs[..|fs| - 1]), fs[|fs| - 1])
  }

  /** The value `sortValue` returns. */
  function Canonical(v: Json): Json {
    match v
    case Arr(items) => Arr(seq(|items|, i requires 0 <= i < |items| => Canonical(items[i])))
    case Obj(fields) => Obj(Place(SortBy(ByKey, CanonicalFields(fields))))
    case _ => v
  }

  function CanonicalFields(fields: seq<Field>): (r: seq<Field>)
    ensures |r| == |fields|
    ensures forall i :: 0 <= i < |fields| ==> r[i] == Field(fields[i].key, Canonical(fields[i].value))
  {
    seq(|fields|, i requires 0 <= i < |fields| => Field(fields[i].key, Canonical(fields[i].value)))
  }

  lemma ByKeyTotal()
    ensures TotalPreorder(ByKey)
  {
    LexIsTotalOrder();
    forall a, b ensures ByKey(a, b) || ByKey(b, a) { assert LexLeq(a.key, b.key) || LexLeq(b.key, a.key); }
    forall a, b, c | ByKey(a, b) && ByKey(b, c) ensures ByKey(a, c) { LexTransitive(a.key, b.key, c.key); }
  }

  lemma KeysNeverTie(s: seq<Field>)
    requires DistinctKeys(s)
    ensures NoTies(ByKey, s)
  {
    forall a, b | a in s && b in s && ByKey(a, b) && ByKey(b, a) ensures a == b {
      LexTotal(a.key, b.key);
      var i :| 0 <= i < |s| && s[i] == a;
      var j :| 0 <= j < |s| && s[j] == b;
      assert i == j;
    }
  }

  lemma {:induction false} InsertIndexKeeps(fields: seq<Field>, f: Field)
    requires IsIndex(f.key)
    ensures multiset(InsertIndex(fields, f)) == multiset(fields) + multiset{f}
  {
    if !(fields == [] || !IsIndex(fields[0].key) || DigitsValue(f.key) < DigitsValue(fields[0].key)) {
      InsertIndexKeeps(fields[1..], f);
      assert InsertIndex(fields, f) == [fields[0]] + InsertIndex(fields[1..], f);
      hide InsertIndex, IsIndex;
      assert fields == [fields[0]] + fields[1..];
    }
  }

  /** Placing the members keeps all of them but `__proto__`. */
  lemma {:induction false} PlaceKeeps(fs: seq<Field>)
    ensures multiset(Place(fs)) == multiset(Filter(OwnKey, fs))
  {
    if fs != [] {
      var init, last := fs[..|fs| - 1], fs[|fs| - 1];
      PlaceKeeps(init);
      assert fs == init + [last];
      FilterAppend(OwnKey, init, [last]);
      if OwnKey(last) && IsIndex(last.key) { InsertIndexKeeps(Place(init), last); }
    }
  }

  lemma {:induction false} PlaceIgnoresProto(fs: seq<Field>)
    ensures Place(fs) == Place(Filter(OwnKey, fs))
  {
    if fs != [] {
      var init, last := fs[..|fs| - 1], fs[|fs| - 1];
      PlaceIgnoresProto(init);
      assert fs == init + [last];
      FilterAppend(OwnKey, init, [last]);
      var own := Filter(OwnKey, fs);
      if OwnKey(last) {
        assert Filter(OwnKey, [last]) == [last];
        assert own == Filter(OwnKey, init) + [last];
        assert own[..|own| - 1] == Filter(OwnKey, init);
      } else {
        assert Filter(OwnKey, [last]) == [];
        assert own == Filter(OwnKey, init);
      }
    }
  }

  // ------------------------------------------------- sorting is canonical

  lemma KeysStayDistinct(fields: seq<Field>)
    requires DistinctKeys(fields)
    ensures DistinctKeys(CanonicalFields(fields))
    ensures Distinct(CanonicalFields(fields))
  {
  }

  lemma {:induction false} FilterDistinct(fs: seq<Field>)
    requires Distinct(fs)
    ensures Distinct(Filter(OwnKey, fs))
  {
    DistinctCounts(fs);
    var own := Filter(OwnKey, fs);
    forall x | x in own ensures multiset(own)[x] == 1 {
      FilterMembers(OwnKey, fs);
      FilterCounts(OwnKey, fs, x);
    }
    CountsDistinct(own);
  }

  /** Objects with the same canonical members, `__proto__` aside, become the same object. */
  lemma SameMembersSameObject(f: seq<Field>, g: seq<Field>)
    requires DistinctKeys(f) && DistinctKeys(g)
    requires forall x :: x in f && OwnKey(x) <==> x in g && OwnKey(x)
    ensures Place(SortBy(ByKey, f)) == Place(SortBy(ByKey, g))
  {
    ByKeyTotal();
    var s, t := SortBy(ByKey, f), SortBy(ByKey, g);
    SortByCorrect(ByKey, f);
    SortByCorrect(ByKey, g);
    FilterPermutes(OwnKey, s, f);
    FilterPermutes(OwnKey, t, g);
    FilterMembers(OwnKey, f);
    FilterMembers(OwnKey, g);
    FilterDistinct(f);
    FilterDistinct(g);
    DistinctSameSet(Filter(OwnKey, f), Filter(OwnKey, g));
    FilterSorted(ByKey, OwnKey, s);
    FilterSorted(ByKey, OwnKey, t);
    KeysNeverTie(f);
    SameElements(Filter(OwnKey, f), Filter(OwnKey, s));
    SortedUnique(ByKey, Filter(OwnKey, s), Filter(OwnKey, t));
    PlaceIgnoresProto(s);
    PlaceIgnoresProto(t);
  }

  /** The members of a sorted object are exactly the canonical members other than `__proto__`. */
  lemma ObjectMembers(fields: seq<Field>)
    ensures forall x :: x in Place(SortBy(ByKey, CanonicalFields(fields)))
                        <==> x in CanonicalFields(fields) && OwnKey(x)
  {
    ByKeyTotal();
    var c := CanonicalFields(fields);
    var s := SortBy(ByKey, c);
    SortByCorrect(ByKey, c);
    PlaceKeeps(s);
    SameElements(Place(s), Filter(OwnKey, s));
    FilterMembers(OwnKey, s);
    SameElements(s, c);
  }

  /** Invariance: reordering keys at any depth does not change the sorted value. */
  lemma {:induction false} EqualSortsEqual(a: Json, b: Json)
    requires Valid(a) && Valid(b) && EqualExcept({PROTO}, a, b)
    ensures Canonical(a) == Canonical(b)
    decreases a
  {
    match (a, b)
    case (Arr(s), Arr(t)) =>
      forall i | 0 <= i < |s| ensures Canonical(s[i]) == Canonical(t[i]) { EqualSortsEqual(s[i], t[i]); }
      assert Canonical(a).items == Canonical(b).items;
    case (Obj(f), Obj(g)) =>
      EqualMembers(f, g);
      KeysStayDistinct(f);
      KeysStayDistinct(g);
      SameMembersSameObject(CanonicalFields(f), CanonicalFields(g));
    case _ =>
  }

  lemma {:induction false} EqualMembers(f: seq<Field>, g: seq<Field>)
    requires Valid(Obj(f)) && Valid(Obj(g)) && EqualExcept({PROTO}, Obj(f), Obj(g))
    ensures forall x :: x in CanonicalFields(f) && OwnKey(x) <==> x in CanonicalFields(g) && OwnKey(x)
    decreases f
  {
    var cf, cg := CanonicalFields(f), CanonicalFields(g);
    forall x | x in cf && OwnKey(x) ensures x in cg {
      var i :| 0 <= i < |cf| && cf[i] == x;
      var j := EqualMember(f, g, i);
      assert cg[j] == x;
    }
    forall x | x in cg && OwnKey(x) ensures x in cf {
      var j :| 0 <= j < |cg| && cg[j] == x;
      assert g[j].key !in {PROTO};
      assert HasKey(f, g[j].key);
      var i :| 0 <= i < |f| && f[i].key == g[j].key;
      var k := EqualMember(f, g, i);
      assert k == j;
      assert cf[i] == x;
    }
  }

  lemma {:induction false} EqualMember(f: seq<Field>, g: seq<Field>, i: nat) returns (j: nat)
    requires Valid(Obj(f)) && Valid(Obj(g)) && EqualExcept({PROTO}, Obj(f), Obj(g))
    requires i < |f| && f[i].key != PROTO
    ensures j < |g| && g[j].key == f[i].key && Canonical(f[i].value) == Canonical(g[j].value)
    decreases f[i]
  {
    assert f[i].key !in {PROTO};
    assert HasEqual({PROTO}, f[i], g);
    j :| 0 <= j < |g| && g[j].key == f[i].key && EqualExcept({PROTO}, f[i].value, g[j].value);
    EqualSortsEqual(f[i].value, g[j].value);
  }

  /** The sorted value determines the value up to key order. */
  lemma {:induction false} SortedDetermines(a: Json, b: Json)
    requires Canonical(a) == Canonical(b)
    ensures EqualExcept({PROTO}, a, b)
    decreases a
  {
    match (a, b)
    case (Arr(s), Arr(t)) =>
      assert |Canonical(a).items| == |Canonical(b).items|;
      forall i | 0 <= i < |s| ensures EqualExcept({PROTO}, s[i], t[i]) {
        assert Canonical(a).items[i] == Canonical(b).items[i];
        SortedDetermines(s[i], t[i]);
      }
    case (Obj(f), Obj(g)) =>
      ObjectMembers(f);
      ObjectMembers(g);
      var cf, cg := CanonicalFields(f), CanonicalFields(g);
      forall i | 0 <= i < |f| && f[i].key !in {PROTO} ensures HasEqual({PROTO}, f[i], g) {
        assert OwnKey(cf[i]) && cf[i] in cf;
        assert cf[i] in cg;
        var j :| 0 <= j < |cg| && cg[j] == cf[i];
        SortedDetermines(f[i].value, g[j].value);
      }
      forall j | 0 <= j < |g| && g[j].key !in {PROTO} ensures HasKey(f, g[j].key) {
        assert OwnKey(cg[j]) && cg[j] in cg;
        assert cg[j] in cf;
        var i :| 0 <= i < |cf| && cf[i] == cg[j];
        assert f[i].key == g[j].key;
      }
    case _ =>
  }

  // ----------------------------------------------------------------- printing

  const BACKSLASH: Unit := 0x5C
  const LBRACK: Unit := 0x5B
  const RBRACK: Unit := 0x5D
  const LBRACE: Unit := 0x7B
  const RBRACE: Unit := 0x7D

  function HexDigit(d: nat): Unit
    requires d < 16
  {
    if d < 10 then 0x30 + d else 0x57 + d
  }

  function Hex4(u: Unit): JsString {
    [HexDigit(u / 0x1000), HexDigit(u / 0x100 % 16), HexDigit(u / 0x10 % 16), HexDigit(u % 16)]
  }

  /** One code unit that is not half of a surrogate pair (section 7 of RFC 8259). */
  function EscapeUnit(u: Unit): JsString {
    if u == QUOTE || u == BACKSLASH then [BACKSLASH, u]
    else if u == 0x08 then [BACKSLASH, 0x62]
    else if u == 0x09 then [BACKSLASH, 0x74]
    else if u == 0x0A then [BACKSLASH, 0x6E]
    else if u == 0x0C then [BACKSLASH, 0x66]
    else if u == 0x0D then [BACKSLASH, 0x72]
    else if u < 0x20 || HighSurrogate(u) || LowSurrogate(u) then [BACKSLASH, 0x75] + Hex4(u)
    else [u]
  }

  predicate StartsWithPair(s: JsString) {
    |s| >= 2 && HighSurrogate(s[0]) && LowSurrogate(s[1])
  }

  function Width(s: JsString): (w: nat)
    requires s != []
    ensures 1 <= w <= |s|
  {
    if StartsWithPair(s) then 2 else 1
  }

  function Chunk(s: JsString): JsString
    requires s != []
  {
    if StartsWithPair(s) then s[..2] else EscapeUnit(s[0])
  }

  function Escape(s: JsString): JsString {
    if s == [] then [] else Chunk(s) + Escape(s[Width(s)..])
  }

  function Quoted(s: JsString): JsString {
    [QUOTE] + Escape(s) + [QUOTE]
  }

  /** `JSON.stringify` without indentation. */
  function Print(v: Json): JsString
    decreases v, 0
  {
    match v
    case Null => Lit("null")
    case Bool(b) => if b then Lit("true") else Lit("false")
    case Num(text) => text
    case Str(s) => Quoted(s)
    case Arr(items) => if items == [] then [LBRACK, RBRACK] else [LBRACK] + (Print(items[0]) + PrintItems(items[1..]))
    case Obj(fields) =>
      if fields == [] then [LBRACE, RBRACE] else [LBRACE] + (PrintField(fields[0]) + PrintFields(fields[1..]))
  }

  function PrintItems(items: seq<Json>): JsString {
    if items == [] then [RBRACK] else [COMMA] + (Print(items[0]) + PrintItems(items[1..]))
  }

  function PrintField(f: Field): JsString {
    Quoted(f.key) + ([COLON] + Print(f.value))
  }

  function PrintFields(fields: seq<Field>): JsString {
    if fields == [] then [RBRACE] else [COMMA] + (PrintField(fields[0]) + PrintFields(fields[1..]))
  }

  function Canonicalize(v: Json): JsString { Print(Canonical(v)) }

  // ----------------------------------------------------- printing is injective

  lemma Cancel(p: JsString, x: JsString, y: JsString)
    requires p + x == p + y
    ensures x == y
  {
    assert (p + x)[|p|..] == x && (p + y)[|p|..] == y;
  }

  lemma HexDigits(u: Unit)
    ensures u == 0x1000 * (u / 0x1000) + 0x100 * (u / 0x100 % 16) + 0x10 * (u / 0x10 % 16) + u % 16
  {
    assert u / 0x100 / 16 == u / 0x1000 && u / 0x10 / 16 == u / 0x100;
  }

  lemma HexInjective(u: Unit, w: Unit)
    requires Hex4(u) == Hex4(w)
    ensures u == w
  {
    HexDigits(u);
    HexDigits(w);
    HexDigitInjective(u / 0x1000, w / 0x1000, Hex4(u)[0], Hex4(w)[0]);
    HexDigitInjective(u / 0x100 % 16, w / 0x100 % 16, Hex4(u)[1], Hex4(w)[1]);
    HexDigitInjective(u / 0x10 % 16, w / 0x10 % 16, Hex4(u)[2], Hex4(w)[2]);
    HexDigitInjective(u % 16, w % 16, Hex4(u)[3], Hex4(w)[3]);
  }

  lemma HexDigitInjective(d: nat, e: nat, x: Unit, y: Unit)
    requires d < 16 && e < 16 && x == HexDigit(d) && y == HexDigit(e) && x == y
    ensures d == e
  {
  }

  lemma EscapeUnitPrefixFree(u: Unit, w: Unit, x: JsString, y: JsString)
    requires EscapeUnit(u) + x == EscapeUnit(w) + y
    ensures u == w && x == y
  {
    var p, q := EscapeUnit(u) + x, EscapeUnit(w) + y;
    assert p[0] == q[0];
    if p[0] == BACKSLASH {
      assert p[1] == q[1];
      if p[1] == 0x75 {
        assert p[2..6] == Hex4(u) && q[2..6] == Hex4(w);
        HexInjective(u, w);
      }
    }
    assert u == w;
    Cancel(EscapeUnit(u), x, y);
  }

  lemma ChunkPrefixFree(s: JsString, t: JsString, x: JsString, y: JsString)
    requires s != [] && t != [] && Chunk(s) + x == Chunk(t) + y
    ensures Width(s) == Width(t) && s[..Width(s)] == t[..Width(t)] && x == y
  {
    var p, q := Chunk(s) + x, Chunk(t) + y;
    assert p[0] == q[0];
    if StartsWithPair(s) && StartsWithPair(t) {
      assert p[1] == q[1];
      Cancel(s[..2], x, y);
    } else if !StartsWithPair(s) && !StartsWithPair(t) {
      EscapeUnitPrefixFree(s[0], t[0], x, y);
    }
  }

  function Ended(s: JsString, x: JsString): JsString { Escape(s) + ([QUOTE] + x) }

  lemma ChunkStart(s: JsString)
    requires s != []
    ensures Chunk(s) != [] && Chunk(s)[0] != QUOTE
  {
  }

  lemma EndedStep(s: JsString, x: JsString)
    requires s != []
    ensures Ended(s, x) == Chunk(s) + Ended(s[Width(s)..], x)
    ensures Ended(s, x)[0] != QUOTE
  {
    ChunkStart(s);
    var c, r, e := Chunk(s), Escape(s[Width(s)..]), [QUOTE] + x;
    assert (c + r) + e == c + (r + e);
  }

  lemma {:induction false} EscapeInjective(s: JsString, t: JsString, x: JsString, y: JsString)
    requires Ended(s, x) == Ended(t, y)
    ensures s == t && x == y
  {
    if s != [] { EndedStep(s, x); }
    if t != [] { EndedStep(t, y); }
    assert s == [] ==> Ended(s, x) == [QUOTE] + x;
    assert t == [] ==> Ended(t, y) == [QUOTE] + y;
    if s == [] {
      Cancel([QUOTE], x, y);
    } else {
      var s', t' := s[Width(s)..], t[Width(t)..];
      ChunkPrefixFree(s, t, Ended(s', x), Ended(t', y));
      EscapeInjective(s', t', x, y);
      assert s == s[..Width(s)] + s' && t == t[..Width(t)] + t';
    }
  }

  lemma QuotedEnded(s: JsString, x: JsString)
    ensures Quoted(s) + x == [QUOTE] + Ended(s, x)
  {
    hide Escape;
  }

  lemma QuotedInjective(s: JsString, t: JsString, x: JsString, y: JsString)
    requires Quoted(s) + x == Quoted(t) + y
    ensures s == t && x == y
  {
    QuotedEnded(s, x);
    QuotedEnded(t, y);
    hide Quoted, Ended;
    Cancel([QUOTE], Ended(s, x), Ended(t, y));
    EscapeInjective(s, t, x, y);
  }

  /** What may follow a value inside a text: the end, or something no numeral contains. */
  predicate Delimited(x: JsString) { x == [] || !NumeralUnit(x[0]) }

  lemma LongerNumeral(s: Numeral, t: Numeral, x: JsString, y: JsString)
    requires |s| < |t| && s + x == t + y
    ensures x != [] && NumeralUnit(x[0])
  {
    assert (s + x)[|s|] == (t + y)[|s|];
  }

  lemma NumeralsInjective(s: Numeral, t: Numeral, x: JsString, y: JsString)
    requires Delimited(x) && Delimited(y) && s + x == t + y
    ensures s == t && x == y
  {
    if |s| < |t| {
      LongerNumeral(s, t, x, y);
    } else if |t| < |s| {
      LongerNumeral(t, s, y, x);
    } else {
      assert (s + x)[..|s|] == s && (t + y)[..|t|] == t;
      Cancel(s, x, y);
    }
  }

  /** The first unit of a printed value tells the kinds of values apart. */
  lemma PrintHead(v: Json)
    ensures var p := Print(v); p != [] && match v
      case Null => p[0] == 0x6E
      case Bool(b) => p[0] == if b then 0x74 else 0x66
      case Num(_) => NumeralUnit(p[0])
      case Str(_) => p[0] == QUOTE
      case Arr(_) => p[0] == LBRACK
      case Obj(_) => p[0] == LBRACE
  {
  }

  lemma {:induction false} PrintInjective(a: Json, b: Json, x: JsString, y: JsString)
    requires Delimited(x) && Delimited(y) && Print(a) + x == Print(b) + y
    ensures a == b && x == y
    decreases a, 0
  {
    PrintHead(a);
    PrintHead(b);
    assert Print(a)[0] == (Print(a) + x)[0] == (Print(b) + y)[0] == Print(b)[0];
    if a == b {
      Cancel(Print(a), x, y);
      return;
    }
    match (a, b)
    case (Num(s), Num(t)) => NumeralsInjective(s, t, x, y);
    case (Str(s), Str(t)) => QuotedInjective(s, t, x, y);
    case (Arr(s), Arr(t)) => ArrayInjective(s, t, x, y);
    case (Obj(f), Obj(g)) => ObjectInjective(f, g, x, y);
    case _ =>
  }

  lemma {:induction false} ArrayInjective(s: seq<Json>, t: seq<Json>, x: JsString, y: JsString)
    requires Print(Arr(s)) + x == Print(Arr(t)) + y
    ensures s == t && x == y
    decreases s, 1
  {
    var p, q := Print(Arr(s)) + x, Print(Arr(t)) + y;
    assert p[1] == q[1];
    if s != [] { PrintHead(s[0]); assert p[1] == Print(s[0])[0]; }
    if t != [] { PrintHead(t[0]); assert q[1] == Print(t[0])[0]; }
    if s == [] {
      Cancel([LBRACK, RBRACK], x, y);
    } else {
      var x', y' := PrintItems(s[1..]) + x, PrintItems(t[1..]) + y;
      assert p == [LBRACK] + (Print(s[0]) + x') && q == [LBRACK] + (Print(t[0]) + y');
      Cancel([LBRACK], Print(s[0]) + x', Print(t[0]) + y');
      PrintInjective(s[0], t[0], x', y');
      ItemsInjective(s[1..], t[1..], x, y);
      assert s == [s[0]] + s[1..] && t == [t[0]] + t[1..];
    }
  }

  lemma {:induction false} ItemsInjective(s: seq<Json>, t: seq<Json>, x: JsString, y: JsString)
    requires PrintItems(s) + x == PrintItems(t) + y
    ensures s == t && x == y
    decreases s, 0
  {
    var p, q := PrintItems(s) + x, PrintItems(t) + y;
    assert p[0] == q[0];
    if s == [] {
      Cancel([RBRACK], x, y);
    } else {
      var x', y' := PrintItems(s[1..]) + x, PrintItems(t[1..]) + y;
      assert p == [COMMA] + (Print(s[0]) + x') && q == [COMMA] + (Print(t[0]) + y');
      Cancel([COMMA], Print(s[0]) + x', Print(t[0]) + y');
      PrintInjective(s[0], t[0], x', y');
      ItemsInjective(s[1..], t[1..], x, y);
      assert s == [s[0]] + s[1..] && t == [t[0]] + t[1..];
    }
  }

  lemma {:induction false} FieldInjective(f: Field, g: Field, x: JsString, y: JsString)
    requires Delimited(x) && Delimited(y) && PrintField(f) + x == PrintField(g) + y
    ensures f == g && x == y
    decreases f, 0
  {
    hide Print, Quoted;
    var p, q := [COLON] + (Print(f.value) + x), [COLON] + (Print(g.value) + y);
    assert PrintField(f) + x == Quoted(f.key) + p && PrintField(g) + y == Quoted(g.key) + q;
    QuotedInjective(f.key, g.key, p, q);
    Cancel([COLON], Print(f.value) + x, Print(g.value) + y);
    PrintInjective(f.value, g.value, x, y);
  }

  lemma FieldsText(f: seq<Field>, x: JsString)
    ensures PrintFields(f) + x ==
      if f == [] then [RBRACE] + x else [COMMA] + (PrintField(f[0]) + (PrintFields(f[1..]) + x))
    ensures Delimited(PrintFields(f) + x)
  {
    hide PrintField;
  }

  lemma ObjectText(f: seq<Field>, x: JsString)
    ensures Print(Obj(f)) + x ==
      if f == [] then [LBRACE, RBRACE] + x else [LBRACE] + (PrintField(f[0]) + (PrintFields(f[1..]) + x))
    ensures f != [] ==> |PrintField(f[0])| > 0 && PrintField(f[0])[0] != RBRACE
  {
    hide PrintFields;
  }

  lemma {:induction false} ObjectInjective(f: seq<Field>, g: seq<Field>, x: JsString, y: JsString)
    requires Print(Obj(f)) + x == Print(Obj(g)) + y
    ensures f == g && x == y
    decreases f, 1
  {
    ObjectText(f, x);
    ObjectText(g, y);
    hide Print, PrintField, PrintFields;
    assert (Print(Obj(f)) + x)[1] == (Print(Obj(g)) + y)[1];
    if f == [] {
      Cancel([LBRACE, RBRACE], x, y);
    } else {
      var x', y' := PrintFields(f[1..]) + x, PrintFields(g[1..]) + y;
      FieldsText(f[1..], x);
      FieldsText(g[1..], y);
      Cancel([LBRACE], PrintField(f[0]) + x', PrintField(g[0]) + y');
      FieldInjective(f[0], g[0], x', y');
      FieldsInjective(f[1..], g[1..], x, y);
      assert f == [f[0]] + f[1..] && g == [g[0]] + g[1..];
    }
  }

  lemma {:induction false} FieldsInjective(f: seq<Field>, g: seq<Field>, x: JsString, y: JsString)
    requires PrintFields(f) + x == PrintFields(g) + y
    ensures f == g && x == y
    decreases f, 0
  {
    FieldsText(f, x);
    FieldsText(g, y);
    hide PrintFields, PrintField;
    assert (PrintFields(f) + x)[0] == (PrintFields(g) + y)[0];
    if f == [] {
      Cancel([RBRACE], x, y);
    } else {
      var x', y' := PrintFields(f[1..]) + x, PrintFields(g[1..]) + y;
      FieldsText(f[1..], x);
      FieldsText(g[1..], y);
      Cancel([COMMA], PrintField(f[0]) + x', PrintField(g[0]) + y');
      FieldInjective(f[0], g[0], x', y');
      FieldsInjective(f[1..], g[1..], x, y);
      assert f == [f[0]] + f[1..] && g == [g[0]] + g[1..];
    }
  }

  // ------------------------------------------------------------- main results

  /** Two values have one canonical text exactly when they are equal up to the order of keys at
      every depth, members named `__proto__` aside. */
  lemma CanonicalTextIdentifies(a: Json, b: Json)
    requires Valid(a) && Valid(b)
    ensures Canonicalize(a) == Canonicalize(b) <==> EqualExcept({PROTO}, a, b)
  {
    if EqualExcept({PROTO}, a, b) { EqualSortsEqual(a, b); }
    if Canonicalize(a) == Canonicalize(b) {
      assert Print(Canonical(a)) + [] == Print(Canonical(b)) + [];
      PrintInjective(Canonical(a), Canonical(b), [], []);
      SortedDetermines(a, b);
    }
  }

  /** No object at any depth has a member named `__proto__`. */
  ghost predicate NoProto(v: Json) {
    match v
    case Arr(items) => forall i :: 0 <= i < |items| ==> NoProto(items[i])
    case Obj(fields) => forall i :: 0 <= i < |fields| ==> OwnKey(fields[i]) && NoProto(fields[i].value)
    case _ => true
  }

  lemma {:induction false} NothingIgnored(ignored: set<JsString>, other: set<JsString>, a: Json, b: Json)
    requires NoProto(a) && NoProto(b) && ignored <= {PROTO} && EqualExcept(ignored, a, b)
    ensures EqualExcept(other, a, b)
    decreases a
  {
    match (a, b)
    case (Arr(s), Arr(t)) =>
      forall i | 0 <= i < |s| ensures EqualExcept(other, s[i], t[i]) { NothingIgnored(ignored, other, s[i], t[i]); }
    case (Obj(f), Obj(g)) =>
      forall i | 0 <= i < |f| && f[i].key !in other ensures HasEqual(other, f[i], g) {
        assert OwnKey(f[i]) && HasEqual(ignored, f[i], g);
        var j :| 0 <= j < |g| && g[j].key == f[i].key && EqualExcept(ignored, f[i].value, g[j].value);
        NothingIgnored(ignored, other, f[i].value, g[j].value);
      }
      forall j | 0 <= j < |g| && g[j].key !in other ensures HasKey(f, g[j].key) {
        assert OwnKey(g[j]);
      }
    case _ =>
  }

  /** The value without its `__proto__` members. */
  function Strip(v: Json): Json {
    match v
    case Arr(items) => Arr(seq(|items|, i requires 0 <= i < |items| => Strip(items[i])))
    case Obj(fields) => Obj(StripFields(fields))
    case _ => v
  }

  function StripFields(fields: seq<Field>): seq<Field> {
    if fields == [] then []
    else if OwnKey(fields[0]) then [Field(fields[0].key, Strip(fields[0].value))] + StripFields(fields[1..])
    else StripFields(fields[1..])
  }

  lemma {:induction false} StripMembers(fields: seq<Field>)
    ensures forall x :: x in StripFields(fields) <==>
                        OwnKey(x) && exists i :: 0 <= i < |fields| && x == Field(fields[i].key, Strip(fields[i].value))
  {
    if fields != [] {
      StripMembers(fields[1..]);
      var s := StripFields(fields);
      forall x | x in s
        ensures OwnKey(x) && exists i :: 0 <= i < |fields| && x == Field(fields[i].key, Strip(fields[i].value))
      {
        if x in StripFields(fields[1..]) {
          var i :| 0 <= i < |fields[1..]| && x == Field(fields[1..][i].key, Strip(fields[1..][i].value));
          assert fields[i + 1] == fields[1..][i];
        } else {
          assert x == Field(fields[0].key, Strip(fields[0].value));
        }
      }
      forall i | 0 <= i < |fields| && OwnKey(fields[i]) ensures Field(fields[i].key, Strip(fields[i].value)) in s {
        if i > 0 { assert fields[i] == fields[1..][i - 1]; }
      }
    }
  }

  lemma {:induction false} StripKeys(fields: seq<Field>)
    requires DistinctKeys(fields)
    ensures DistinctKeys(StripFields(fields))
  {
    if fields != [] {
      StripKeys(fields[1..]);
      StripMembers(fields[1..]);
      forall x | x in StripFields(fields[1..]) ensures x.key != fields[0].key {
        var i :| 0 <= i < |fields[1..]| && x == Field(fields[1..][i].key, Strip(fields[1..][i].value));
        assert fields[i + 1] == fields[1..][i];
      }
    }
  }

  lemma {:induction false} StripClean(v: Json)
    requires Valid(v)
    ensures Valid(Strip(v)) && NoProto(Strip(v))
  {
    match v
    case Arr(items) =>
      forall i | 0 <= i < |items| ensures Valid(Strip(items[i])) && NoProto(Strip(items[i])) { StripClean(items[i]); }
    case Obj(fields) =>
      StripKeys(fields);
      StripMembers(fields);
      var s := StripFields(fields);
      forall k | 0 <= k < |s| ensures OwnKey(s[k]) && Valid(s[k].value) && NoProto(s[k].value) {
        assert s[k] in s;
        var i :| 0 <= i < |fields| && s[k] == Field(fields[i].key, Strip(fields[i].value));
        StripClean(fields[i].value);
      }
    case _ =>
  }

  lemma {:induction false} StripEqual(v: Json)
    ensures EqualExcept({PROTO}, v, Strip(v))
  {
    match v
    case Arr(items) =>
      forall i | 0 <= i < |items| ensures EqualExcept({PROTO}, items[i], Strip(items[i])) { StripEqual(items[i]); }
    case Obj(fields) =>
      StripMembers(fields);
      var s := StripFields(fields);
      forall i | 0 <= i < |fields| && fields[i].key !in {PROTO} ensures HasEqual({PROTO}, fields[i], s) {
        var x := Field(fields[i].key, Strip(fields[i].value));
        assert OwnKey(x) && x in s;
        var j :| 0 <= j < |s| && s[j] == x;
        StripEqual(fields[i].value);
      }
      forall j | 0 <= j < |s| && s[j].key !in {PROTO} ensures HasKey(fields, s[j].key) {
        assert s[j] in s;
        var i :| 0 <= i < |fields| && s[j] == Field(fields[i].key, Strip(fields[i].value));
      }
    case _ =>
  }

  lemma {:induction false} StripLoses(v: Json)
    requires Valid(v) && EqualExcept({}, v, Strip(v))
    ensures NoProto(v)
  {
    match v
    case Arr(items) =>
      forall i | 0 <= i < |items| ensures NoProto(items[i]) {
        assert EqualExcept({}, items[i], Strip(v).items[i]);
        StripLoses(items[i]);
      }
    case Obj(fields) =>
      var s := StripFields(fields);
      StripMembers(fields);
      forall i | 0 <= i < |fields| ensures OwnKey(fields[i]) && NoProto(fields[i].value) {
        assert fields[i].key !in {} && HasEqual({}, fields[i], s);
        var j :| 0 <= j < |s| && s[j].key == fields[i].key && EqualExcept({}, fields[i].value, s[j].value);
        assert s[j] in s;
        var k :| 0 <= k < |fields| && s[j] == Field(fields[k].key, Strip(fields[k].value));
        assert k == i;
        StripLoses(fields[i].value);
      }
    case _ =>
  }

  /** The text tells a value apart from every other `__proto__`-free value exactly when the value
      itself has no `__proto__` member: such a member is lost without trace. */
  lemma TextIsExactWithoutProto(a: Json)
    requires Valid(a)
    ensures NoProto(a) <==>
            forall b :: Valid(b) && NoProto(b) && Canonicalize(a) == Canonicalize(b) ==> EqualExcept({}, a, b)
  {
    if NoProto(a) {
      forall b | Valid(b) && NoProto(b) && Canonicalize(a) == Canonicalize(b) ensures EqualExcept({}, a, b) {
        CanonicalTextIdentifies(a, b);
        NothingIgnored({PROTO}, {}, a, b);
      }
    } else {
      StripClean(a);
      StripEqual(a);
      CanonicalTextIdentifies(a, Strip(a));
      if EqualExcept({}, a, Strip(a)) { StripLoses(a); }
    }
  }

  // ------------------------------------------------------- sortValue as a loop

  function KeyOf(f: Field): JsString { f.key }

  function IndexOfKey(fields: seq<Field>, key: JsString): (i: nat)
    requires exists k :: 0 <= k < |fields| && fields[k].key == key
    ensures i < |fields| && fields[i].key == key
  {
    if fields[0].key == key then 0 else 1 + IndexOfKey(fields[1..], key)
  }

  lemma {:induction false} InsertKeys(f: Field, s: seq<Field>)
    ensures Map(KeyOf, Insert(ByKey, f, s)) == Insert(LexLeq, f.key, Map(KeyOf, s))
  {
    if s != [] && !ByKey(f, s[0]) { InsertKeys(f, s[1..]); }
  }

  lemma {:induction false} SortKeys(s: seq<Field>)
    ensures Map(KeyOf, SortBy(ByKey, s)) == SortBy(LexLeq, Map(KeyOf, s))
  {
    if s != [] {
      SortKeys(s[1..]);
      InsertKeys(s[0], SortBy(ByKey, s[1..]));
    }
  }

  lemma SortedKeys(fields: seq<Field>)
    ensures var s := SortBy(ByKey, CanonicalFields(fields));
      && Map(KeyOf, s) == SortBy(LexLeq, Map(KeyOf, fields))
      && forall x :: x in s ==> x in CanonicalFields(fields)
  {
    var c := CanonicalFields(fields);
    assert Map(KeyOf, c) == Map(KeyOf, fields);
    SortKeys(c);
    ByKeyTotal();
    SortByCorrect(ByKey, c);
    SameElements(c, SortBy(ByKey, c));
  }

  /** Step `k` of the key loop assigns member `k` of the sorted canonical members. */
  lemma SortedMember(fields: seq<Field>, s: seq<Field>, k: nat) returns (i: nat)
    requires s == SortBy(ByKey, CanonicalFields(fields)) && k < |s|
    ensures i < |fields| && fields[i].key == s[k].key && s[k].value == Canonical(fields[i].value)
  {
    SortedKeys(fields);
    var c := CanonicalFields(fields);
    assert s[k] in c;
    i :| 0 <= i < |c| && c[i] == s[k];
  }

  lemma KeyFixesMember(fields: seq<Field>, i: nat, j: nat)
    requires Valid(Obj(fields)) && i < |fields| && j < |fields| && fields[i].key == fields[j].key
    ensures i == j
  {
  }

  lemma PlaceNext(fields: seq<Field>, members: seq<Field>, k: nat, i: nat)
    requires Valid(Obj(fields)) && members == SortBy(ByKey, CanonicalFields(fields)) && k < |members|
    requires i < |fields| && fields[i].key == members[k].key
    ensures Place(members[..k + 1]) == SetOwn(Place(members[..k]), Field(members[k].key, Canonical(fields[i].value)))
  {
    hide SortBy, SetOwn, Valid, Canonical, CanonicalFields;
    var j := SortedMember(fields, members, k);
    KeyFixesMember(fields, i, j);
    assert members[..k + 1][..k] == members[..k];
    assert members[k] == Field(members[k].key, Canonical(fields[i].value));
  }

  method SortValue(value: Json) returns (r: Json)
    requires Valid(value)
    ensures r == Canonical(value)
    decreases value
  {
    match value {
      case Arr(items) =>
        var out := [];
        for i := 0 to |items|
          invariant |out| == i && forall k :: 0 <= k < i ==> out[k] == Canonical(items[k])
        {
          var x := SortValue(items[i]);
          out := out + [x];
        }
        assert out == Canonical(value).items;
        r := Arr(out);
      case Obj(fields) =>
        var keys := SortBy(LexLeq, Map(KeyOf, fields));
        ghost var members := SortBy(ByKey, CanonicalFields(fields));
        SortedKeys(fields);
        assert Map(KeyOf, members) == keys;
        hide SortBy, SetOwn;
        var sorted := [];
        for k := 0 to |keys|
          invariant sorted == Place(members[..k])
        {
          ghost var j := SortedMember(fields, members, k);
          assert members[k].key == keys[k];
          var i := IndexOfKey(fields, keys[k]);
          var x := SortValue(fields[i].value);
          PlaceNext(fields, members, k, i);
          sorted := SetOwn(sorted, Field(keys[k], x));
        }
        assert members[..|keys|] == members;
        r := Obj(sorted);
      case _ => r := value;
    }
  }

  // ------------------------------------------------------------- content hash

  /** `canonicalHash`, for any digest function on texts. */
  function CanonicalHash(digest: JsString -> JsString, v: Json): JsString {
    Lit("sha256:") + digest(Canonicalize(v))
  }

  /** The digest tells the canonical texts of any two values apart. */
  ghost predicate Separates(digest: JsString -> JsString) {
    forall a, b :: Valid(a) && Valid(b) && digest(Canonicalize(a)) == digest(Canonicalize(b)) ==>
      Canonicalize(a) == Canonicalize(b)
  }

  /** Hashes stand for values: any two agree exactly when the values are equal up to key order. */
  ghost predicate HashesMeanEqual(digest: JsString -> JsString) {
    forall a, b :: Valid(a) && Valid(b) ==>
      (CanonicalHash(digest, a) == CanonicalHash(digest, b) <==> EqualExcept({PROTO}, a, b))
  }

  lemma HashCancels(digest: JsString -> JsString, a: Json, b: Json)
    ensures CanonicalHash(digest, a) == CanonicalHash(digest, b) <==> digest(Canonicalize(a)) == digest(Canonicalize(b))
  {
    if CanonicalHash(digest, a) == CanonicalHash(digest, b) {
      Cancel(Lit("sha256:"), digest(Canonicalize(a)), digest(Canonicalize(b)));
    }
  }

  /** Content hashes identify content exactly when the digest never collides on canonical texts. */
  lemma HashIdentifies(digest: JsString -> JsString)
    ensures HashesMeanEqual(digest) <==> Separates(digest)
  {
    hide EqualExcept, Canonicalize, CanonicalHash, Valid;
    forall a, b | Valid(a) && Valid(b)
      ensures Canonicalize(a) == Canonicalize(b) <==> EqualExcept({PROTO}, a, b)
      ensures CanonicalHash(digest, a) == CanonicalHash(digest, b)
        <==> digest(Canonicalize(a)) == digest(Canonicalize(b))
    {
      CanonicalTextIdentifies(a, b);
      HashCancels(digest, a, b);
    }
  }
}
