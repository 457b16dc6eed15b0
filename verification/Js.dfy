/** JavaScript strings as sequences of 16-bit code units, and the few library
    operations the modelled code relies on. */
module Js {
  import opened Order

  datatype Option<+T> = None | Some(value: T)

  type Unit = u: int | 0 <= u < 0x1_0000
  type JsString = seq<Unit>

  const COLON: Unit := 0x3A
  const COMMA: Unit := 0x2C
  const QUOTE: Unit := 0x22

  predicate HighSurrogate(u: Unit) { 0xD800 <= u < 0xDC00 }

  predicate LowSurrogate(u: Unit) { 0xDC00 <= u < 0xE000 }

  function Min(a: nat, b: nat): nat { if a <= b then a else b }

  /** An ASCII literal as code units. */
  function Lit(s: string): (r: JsString)
    requires forall i :: 0 <= i < |s| ==> (s[i] as int) < 0x80
    ensures |r| == |s|
  {
    seq(|s|, i requires 0 <= i < |s| => s[i] as int)
  }

  /** `__proto__`: assigning this key on a plain object sets its prototype, never a member. */
  const PROTO: JsString := Lit("__proto__")

  /** The default `sort()` order: lexicographic on code units. */
  predicate LexLeq(a: JsString, b: JsString) {
    if a == [] then true
    else if b == [] then false
    else a[0] < b[0] || (a[0] == b[0] && LexLeq(a[1..], b[1..]))
  }

  lemma {:induction false} LexTotal(a: JsString, b: JsString)
    ensures LexLeq(a, b) || LexLeq(b, a)
    ensures LexLeq(a, b) && LexLeq(b, a) ==> a == b
  {
    if a != [] && b != [] && a[0] == b[0] {
      LexTotal(a[1..], b[1..]);
      assert a == [a[0]] + a[1..] && b == [b[0]] + b[1..];
    }
  }

  lemma {:induction false} LexTransitive(a: JsString, b: JsString, c: JsString)
    requires LexLeq(a, b) && LexLeq(b, c)
    ensures LexLeq(a, c)
  {
    if a != [] && a[0] == b[0] == c[0] { LexTransitive(a[1..], b[1..], c[1..]); }
  }

  /** The code-unit order is a total order. */
  lemma LexIsTotalOrder()
    ensures TotalPreorder(LexLeq)
  {
    forall a, b ensures LexLeq(a, b) || LexLeq(b, a) { LexTotal(a, b); }
    forall a, b, c | LexLeq(a, b) && LexLeq(b, c) ensures LexLeq(a, c) { LexTransitive(a, b, c); }
  }

  /** Rearranged strings sort alike. */
  lemma LexSortCanonical(s: seq<JsString>, t: seq<JsString>)
    requires multiset(s) == multiset(t)
    ensures SortBy(LexLeq, s) == SortBy(LexLeq, t)
  {
    LexIsTotalOrder();
    forall a, b | a in s && b in s && LexLeq(a, b) && LexLeq(b, a) ensures a == b { LexTotal(a, b); }
    SortCanonical(LexLeq, s, t);
  }

  /** `String(n)` of a natural number. */
  function Decimal(n: nat): JsString {
    if n < 10 then [0x30 + n] else Decimal(n / 10) + [0x30 + n % 10]
  }
}
