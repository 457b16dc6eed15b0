/** Run records and the key they are grouped by. */
module Records {
  import opened Js

  /** A persisted run as the blinding code reads it; `response` is absent for a failed run. */
  datatype RunRecord = RunRecord(
    runRecordId: JsString,
    benchmarkId: JsString,
    contentHash: JsString,
    version: Option<JsString>,
    domain: Option<JsString>,
    difficulty: Option<JsString>,
    prototype: Option<bool>,
    experimentId: Option<JsString>,
    targetId: JsString,
    repetitionIndex: Option<int>,
    response: Option<JsString>)

  function Repetition(r: RunRecord): int {
    if r.repetitionIndex.Some? then r.repetitionIndex.value else 0
  }

  function KeyText(benchmarkId: JsString, targetId: JsString): JsString {
    benchmarkId + [COLON, COLON] + targetId
  }

  /** `${benchmark}::${target}`. */
  function GroupKey(r: RunRecord): JsString { KeyText(r.benchmarkId, r.targetId) }

  /** The first "::" after the id is the separator: no colon inside is doubled, none is last. */
  predicate Separable(b: JsString) {
    forall i :: 0 <= i < |b| && b[i] == COLON ==> i < |b| - 1 && !DoubledAt(b, i)
  }

  predicate DoubledAt(b: JsString, i: nat)
    requires i < |b| - 1
  {
    b[i] == COLON && b[i + 1] == COLON
  }

  lemma LongerNotSeparable(b: JsString, t: JsString, c: JsString, u: JsString)
    requires KeyText(b, t) == KeyText(c, u) && |b| < |c|
    ensures !Separable(c)
  {
    var k, n := KeyText(c, u), |b|;
    assert KeyText(b, t)[n] == COLON && KeyText(b, t)[n + 1] == COLON;
    assert c == k[..|c|];
    assert c[n] == COLON;
    assert n < |c| - 1 ==> DoubledAt(c, n);
  }

  /** Separable benchmark ids make the key name exactly one (benchmark, target) pair. */
  lemma KeyNamesPair(b: JsString, t: JsString, c: JsString, u: JsString)
    requires Separable(b) && Separable(c)
    ensures KeyText(b, t) == KeyText(c, u) <==> b == c && t == u
  {
    if KeyText(b, t) == KeyText(c, u) {
      if |b| < |c| { LongerNotSeparable(b, t, c, u); }
      if |c| < |b| { LongerNotSeparable(c, u, b, t); }
      var k, n := KeyText(b, t), |b|;
      assert b == k[..n] && t == k[n + 2..];
      assert c == k[..n] && u == k[n + 2..];
    }
  }

  /** Any other benchmark id shares its keys with a different benchmark. */
  lemma KeyClashes(b: JsString, t: JsString) returns (c: JsString, u: JsString)
    requires !Separable(b)
    ensures c != b && KeyText(c, u) == KeyText(b, t)
  {
    var i :| 0 <= i < |b| && b[i] == COLON && !(i < |b| - 1 && !DoubledAt(b, i));
    var k := KeyText(b, t);
    assert k[i] == COLON && k[i + 1] == COLON;
    c, u := k[..i], k[i + 2..];
    assert KeyText(c, u) == k;
  }

  const SEPARATOR: JsString := [COLON, COLON]

  /** Two benchmark ids share a key exactly when one of them, with the separator, begins the other. */
  lemma KeysMeetIffPrefix(b: JsString, c: JsString)
    ensures (exists t, u :: KeyText(b, t) == KeyText(c, u))
      <==> b + SEPARATOR <= c + SEPARATOR || c + SEPARATOR <= b + SEPARATOR
  {
    if t, u :| KeyText(b, t) == KeyText(c, u) {
      assert KeyText(b, t)[..|b| + 2] == b + SEPARATOR && KeyText(c, u)[..|c| + 2] == c + SEPARATOR;
    }
    if b + SEPARATOR <= c + SEPARATOR { KeysMeet(b, c); }
    if c + SEPARATOR <= b + SEPARATOR { KeysMeet(c, b); }
  }

  lemma KeysMeet(b: JsString, c: JsString)
    requires b + SEPARATOR <= c + SEPARATOR
    ensures KeyText(b, (c + SEPARATOR)[|b| + 2..]) == KeyText(c, [])
  {
    assert c + SEPARATOR == b + SEPARATOR + (c + SEPARATOR)[|b| + 2..];
  }

  /** Lower-case letters, digits and hyphens, as the benchmark schema requires of ids. */
  predicate Kebab(b: JsString) {
    forall i :: 0 <= i < |b| ==> 0x61 <= b[i] <= 0x7a || 0x30 <= b[i] <= 0x39 || b[i] == 0x2d
  }

  lemma KebabSeparable(b: JsString)
    requires Kebab(b)
    ensures Separable(b)
  {
  }
}
