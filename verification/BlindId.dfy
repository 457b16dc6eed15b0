/** Opaque, collision-free blind ids (src/blind/blind-id.ts). */
module BlindId {
  import opened Js
  import opened Order

  type Byte = b: int | 0 <= b < 0x100

  /** 0-9 and A-Z without I, L, O, U. */
  const ALPHABET: JsString := [
    0x30, 0x31, 0x32, 0x33, 0x34, 0x35, 0x36, 0x37, 0x38, 0x39,
    0x41, 0x42, 0x43, 0x44, 0x45, 0x46, 0x47, 0x48, 0x4A, 0x4B, 0x4D, 0x4E,
    0x50, 0x51, 0x52, 0x53, 0x54, 0x56, 0x57, 0x58, 0x59, 0x5A]

  /** The alphabet is in increasing order, so no character stands for two groups. */
  lemma {:induction false} AlphabetIncreasing(a: nat, b: nat)
    requires a < b < 32
    ensures ALPHABET[a] < ALPHABET[b]
    decreases b - a
  {
    assert forall i :: 0 <= i < 31 ==> ALPHABET[i] < ALPHABET[i + 1];
    if a + 1 < b { AlphabetIncreasing(a + 1, b); }
  }

  // -------------------------------------------------------------- the bit string

  /** The bytes as one big-endian number: its binary digits are the bits of the bytes, in order. */
  function BigEndian(buf: seq<Byte>): nat {
    if buf == [] then 0 else 0x100 * BigEndian(buf[..|buf| - 1]) + buf[|buf| - 1]
  }

  /** An unsigned right shift. */
  function Shift(x: nat, n: nat): nat
    decreases n
  {
    if n == 0 then x else Shift(x / 2, n - 1)
  }

  /** The number formed by the first `bits` bits. */
  function Lead(buf: seq<Byte>, bits: nat): nat
    requires bits <= 8 * |buf|
  {
    Shift(BigEndian(buf), 8 * |buf| - bits)
  }

  /** Five-bit group `k`, counted from the front (section 6 of RFC 4648, without padding). */
  function Quintet(buf: seq<Byte>, k: nat): nat
    requires 5 * (k + 1) <= 8 * |buf|
  {
    Lead(buf, 5 * (k + 1)) % 32
  }

  /** The id characters: one per whole group, at most `length` of them. */
  function Encoded(buf: seq<Byte>, length: nat): (r: JsString)
    ensures |r| == Min(length, 8 * |buf| / 5)
  {
    seq(Min(length, 8 * |buf| / 5), k requires 0 <= k < Min(length, 8 * |buf| / 5) => ALPHABET[Quintet(buf, k)])
  }

  lemma {:induction false} ShiftAdds(x: nat, a: nat, b: nat)
    ensures Shift(x, a + b) == Shift(Shift(x, a), b)
    decreases a
  {
    if a > 0 { ShiftAdds(x / 2, a - 1, b); }
  }

  lemma ShiftFive(x: nat)
    ensures Shift(x, 5) == x / 32
  {
  }

  lemma ShiftByte(x: nat, b: Byte)
    ensures Shift(0x100 * x + b, 8) == x
  {
  }

  /** A further byte does not disturb the bits before it. */
  lemma LeadIgnoresLastByte(buf: seq<Byte>, bits: nat)
    requires buf != [] && bits <= 8 * (|buf| - 1)
    ensures Lead(buf, bits) == Lead(buf[..|buf| - 1], bits)
  {
    var init := buf[..|buf| - 1];
    ShiftByte(BigEndian(init), buf[|buf| - 1]);
    ShiftAdds(BigEndian(buf), 8, 8 * |init| - bits);
  }

  lemma {:induction false} LeadOfPrefix(buf: seq<Byte>, i: nat, bits: nat)
    requires i <= |buf| && bits <= 8 * i
    ensures Lead(buf, bits) == Lead(buf[..i], bits)
    decreases |buf|
  {
    if i == |buf| {
      assert buf[..i] == buf;
    } else {
      var init := buf[..|buf| - 1];
      LeadIgnoresLastByte(buf, bits);
      LeadOfPrefix(init, i, bits);
      assert init[..i] == buf[..i];
    }
  }

  /** Five more bits append one group. */
  lemma LeadGrows(buf: seq<Byte>, k: nat)
    requires 5 * (k + 1) <= 8 * |buf|
    ensures Lead(buf, 5 * (k + 1)) == 32 * Lead(buf, 5 * k) + Quintet(buf, k)
  {
    var e := 8 * |buf| - 5 * (k + 1);
    ShiftAdds(BigEndian(buf), e, 5);
    ShiftFive(Shift(BigEndian(buf), e));
  }

  lemma {:induction false} LeadOfNothing(buf: seq<Byte>)
    ensures Lead(buf, 0) == 0
  {
    if buf != [] {
      LeadIgnoresLastByte(buf, 0);
      LeadOfNothing(buf[..|buf| - 1]);
    }
  }

  /** An id of `length` characters determines the first `5 * length` bits and is determined by them. */
  lemma {:induction false} EncodedIsLead(a: seq<Byte>, b: seq<Byte>, length: nat)
    requires 5 * length <= 8 * |a| && 5 * length <= 8 * |b|
    ensures Encoded(a, length) == Encoded(b, length) <==> Lead(a, 5 * length) == Lead(b, 5 * length)
  {
    if length == 0 {
      LeadOfNothing(a);
      LeadOfNothing(b);
    } else {
      var k := length - 1;
      var x, y := Encoded(a, length), Encoded(b, length);
      EncodedIsLead(a, b, k);
      LeadGrows(a, k);
      LeadGrows(b, k);
      assert x[..k] == Encoded(a, k) && y[..k] == Encoded(b, k);
      assert x == x[..k] + [ALPHABET[Quintet(a, k)]] && y == y[..k] + [ALPHABET[Quintet(b, k)]];
      if Quintet(a, k) < Quintet(b, k) { AlphabetIncreasing(Quintet(a, k), Quintet(b, k)); }
      if Quintet(b, k) < Quintet(a, k) { AlphabetIncreasing(Quintet(b, k), Quintet(a, k)); }
      assert x == y <==> x[..k] == y[..k] && Quintet(a, k) == Quintet(b, k);
    }
  }

  // ------------------------------------------------------------------ the encoder

  function Doubled(c: nat, n: nat): nat {
    if n == 0 then c else 2 * Doubled(c, n - 1)
  }

  lemma {:induction false} DoubledAdds(c: nat, a: nat, b: nat)
    ensures Doubled(Doubled(c, a), b) == Doubled(c, a + b)
  {
    if b > 0 { DoubledAdds(c, a, b - 1); }
  }

  lemma DoubledSeven(c: nat)
    ensures Doubled(c, 7) == 0x80 * c
  {
    assert Doubled(c, 1) == 2 * c && Doubled(c, 2) == 4 * c && Doubled(c, 3) == 8 * c;
    assert Doubled(c, 4) == 0x10 * c && Doubled(c, 5) == 0x20 * c && Doubled(c, 6) == 0x40 * c;
  }

  lemma {:induction false} ShiftKeepsLow(x: nat, r: nat, c: nat, bits: nat)
    requires x == r + 32 * Doubled(c, bits)
    ensures Shift(x, bits) % 32 == Shift(r, bits) % 32
    decreases bits
  {
    if bits > 0 {
      assert x / 2 == r / 2 + 32 * Doubled(c, bits - 1);
      ShiftKeepsLow(x / 2, r / 2, c, bits - 1);
    }
  }

  /** The 32-bit accumulator holds enough: the group read from it is the group of the whole. */
  lemma AccumulatorEnough(x: nat, t: nat, r: nat, bits: nat)
    requires bits <= 7 && x == 0x1_0000_0000 * t + r
    ensures Shift(r, bits) % 32 == Shift(x, bits) % 32
  {
    hide Shift;
    var w, a := 0x10_0000 * t, 7 - bits;
    var c := Doubled(w, a);
    DoubledAdds(w, a, bits);
    assert a + bits == 7;
    DoubledSeven(w);
    assert Doubled(c, bits) == 0x80 * w;
    ShiftKeepsLow(x, r, c, bits);
  }

  /** `encode(buf, length)`. The accumulator is a 32-bit integer: shifting left by eight drops its
      top byte, and masking five bits after an unsigned right shift takes the remainder by 32. */
  method Encode(buf: seq<Byte>, length: nat) returns (out: JsString)
    ensures out == Encoded(buf, length)
  {
    hide Shift, Quintet, Encoded, BigEndian;
    var bits: nat, value: nat := 0, 0;
    out := [];
    var i := 0;
    EncodeStarts(buf);
    while i < |buf|
      invariant i <= |buf| && bits + 5 * |out| == 8 * i && |out| <= length
      invariant 0 <= bits < 5 && (|out| < length || i == 0)
      invariant value == BigEndian(buf[..i]) % 0x1_0000_0000
      invariant Encoded(buf, |out|) == out
    {
      AccumulatorStep(buf, i, value);
      value := (value * 0x100 + buf[i] as nat) % 0x1_0000_0000;
      bits := bits + 8;
      i := i + 1;
      while bits >= 5 && |out| < length
        invariant 0 <= bits <= 12 && bits + 5 * |out| == 8 * i && |out| <= length
        invariant Encoded(buf, |out|) == out
      {
        bits := bits - 5;
        GroupFromAccumulator(buf, i, |out|, bits);
        EncodedGrows(buf, |out|);
        out := out + [ALPHABET[Shift(value, bits) % 32]];
      }
      if |out| >= length { break; }
    }
    EncodedStops(buf, |out|, length);
  }

  lemma EncodedStops(buf: seq<Byte>, k: nat, length: nat)
    requires k <= length && 5 * k <= 8 * |buf| && (k == length || 8 * |buf| - 5 * k < 5)
    ensures Encoded(buf, k) == Encoded(buf, length)
  {
  }

  lemma EncodeStarts(buf: seq<Byte>)
    ensures BigEndian(buf[..0]) == 0 && Encoded(buf, 0) == []
  {
  }

  lemma AccumulatorStep(buf: seq<Byte>, i: nat, value: nat)
    requires i < |buf| && value == BigEndian(buf[..i]) % 0x1_0000_0000
    ensures (value * 0x100 + buf[i] as nat) % 0x1_0000_0000 == BigEndian(buf[..i + 1]) % 0x1_0000_0000
  {
    assert buf[..i + 1][..i] == buf[..i];
    TopByteDrops(BigEndian(buf[..i]), buf[i]);
  }

  /** Shifting in a byte commutes with keeping 32 bits. */
  lemma TopByteDrops(x: nat, b: Byte)
    ensures ((x % 0x1_0000_0000) * 0x100 + b) % 0x1_0000_0000 == (0x100 * x + b) % 0x1_0000_0000
  {
    var q, low := x / 0x1_0000_0000, (x % 0x1_0000_0000) * 0x100 + b;
    assert 0x100 * x + b == low + 0x1_0000_0000 * (0x100 * q);
    WholeWords(low, 0x100 * q);
  }

  lemma WholeWords(y: nat, k: nat)
    ensures (y + 0x1_0000_0000 * k) % 0x1_0000_0000 == y % 0x1_0000_0000
  {
  }

  lemma GroupFromAccumulator(buf: seq<Byte>, i: nat, k: nat, bits: nat)
    requires i <= |buf| && bits + 5 * (k + 1) == 8 * i && bits <= 7
    ensures Shift(BigEndian(buf[..i]) % 0x1_0000_0000, bits) % 32 == Quintet(buf, k)
  {
    var x := BigEndian(buf[..i]);
    AccumulatorEnough(x, x / 0x1_0000_0000, x % 0x1_0000_0000, bits);
    LeadOfPrefix(buf, i, 5 * (k + 1));
  }

  lemma EncodedGrows(buf: seq<Byte>, k: nat)
    requires 5 * (k + 1) <= 8 * |buf|
    ensures Encoded(buf, k + 1) == Encoded(buf, k) + [ALPHABET[Quintet(buf, k)]]
  {
  }

  // ------------------------------------------------------------------ assignment

  const ID_LEN := 7

  /** What an id is derived from: the keyed hash (seed and text to bytes), the seed, the prefix. */
  datatype IdSource = IdSource(mac: (JsString, JsString) -> seq<Byte>, seed: JsString, prefix: JsString)

  function RawId(c: IdSource, id: JsString, salt: nat): JsString {
    Encoded(c.mac(c.seed, if salt == 0 then id else id + Lit("#") + Decimal(salt)), ID_LEN)
  }

  function Candidate(c: IdSource, id: JsString, salt: nat): JsString {
    c.prefix + Lit("-") + RawId(c, id, salt)
  }

  /** Some salt gives this record an id that is still free: the collision loop ends. */
  ghost predicate HasFree(c: IdSource, id: JsString, used: set<JsString>) {
    exists salt: nat :: Candidate(c, id, salt) !in used
  }

  ghost predicate IsFirstFree(c: IdSource, id: JsString, used: set<JsString>, salt: nat) {
    Candidate(c, id, salt) !in used && forall s :: 0 <= s < salt ==> Candidate(c, id, s) in used
  }

  lemma FirstFreeExists(c: IdSource, id: JsString, used: set<JsString>)
    requires HasFree(c, id, used)
    ensures exists salt: nat :: IsFirstFree(c, id, used, salt)
  {
    var salt: nat :| Candidate(c, id, salt) !in used;
    while exists s :: 0 <= s < salt && Candidate(c, id, s) !in used
      invariant Candidate(c, id, salt) !in used
      decreases salt
    {
      var s :| 0 <= s < salt && Candidate(c, id, s) !in used;
      salt := s;
    }
    assert IsFirstFree(c, id, used, salt);
  }

  /** The first salt whose id is still free. */
  ghost function FirstFree(c: IdSource, id: JsString, used: set<JsString>): (salt: nat)
    requires HasFree(c, id, used)
    ensures IsFirstFree(c, id, used, salt)
  {
    FirstFreeExists(c, id, used);
    var salt: nat :| IsFirstFree(c, id, used, salt);
    salt
  }

  /** The ids handed out, and the final table: a repeated record id keeps its last blind id. */
  datatype Assignment = Assignment(used: set<JsString>, table: map<JsString, JsString>)

  ghost predicate WellAssigned(c: IdSource, ids: seq<JsString>, a: Assignment) {
    && |a.used| <= |ids|
    && (forall id :: id in a.table <==> id in ids)
    && (forall id :: id in a.table ==> a.table[id] in a.used && IsCandidate(c, id, a.table[id]))
    && (forall i, j :: i in a.table && j in a.table && a.table[i] == a.table[j] ==> i == j)
  }

  ghost predicate IsCandidate(c: IdSource, id: JsString, blind: JsString) {
    exists salt: nat :: Candidate(c, id, salt) == blind
  }

  /** Process the ids in order, giving each the first candidate not used before; `None` if some
      record has no unused candidate, so that its collision loop never ends. */
  ghost function AssignInOrder(c: IdSource, ids: seq<JsString>): (a: Option<Assignment>)
    ensures a.Some? ==> WellAssigned(c, ids, a.value)
  {
    if ids == [] then Some(Assignment({}, map[]))
    else
      var init, id := ids[..|ids| - 1], ids[|ids| - 1];
      var a := AssignInOrder(c, init);
      if a.None? || !HasFree(c, id, a.value.used) then None
      else
        var blind := Candidate(c, id, FirstFree(c, id, a.value.used));
        var next := Assignment(a.value.used + {blind}, a.value.table[id := blind]);
        StaysAssigned(c, init, id, a.value, blind, next);
        Some(next)
  }

  lemma StaysAssigned(c: IdSource, init: seq<JsString>, id: JsString, a: Assignment, blind: JsString, next: Assignment)
    requires WellAssigned(c, init, a) && blind !in a.used && IsCandidate(c, id, blind)
    requires next == Assignment(a.used + {blind}, a.table[id := blind])
    ensures WellAssigned(c, init + [id], next)
  {
  }

  lemma SortedIds(ids: seq<JsString>)
    ensures |SortBy(LexLeq, ids)| == |ids| && forall id :: id in SortBy(LexLeq, ids) <==> id in ids
  {
    LexIsTotalOrder();
    SortByCorrect(LexLeq, ids);
    SameElements(ids, SortBy(LexLeq, ids));
  }

  /** `assignBlindIds` ends on these records. */
  ghost predicate Assignable(c: IdSource, ids: seq<JsString>) {
    AssignInOrder(c, SortBy(LexLeq, ids)).Some?
  }

  /** The table `assignBlindIds` returns. */
  ghost function BlindIds(c: IdSource, ids: seq<JsString>): map<JsString, JsString>
    requires Assignable(c, ids)
  {
    AssignInOrder(c, SortBy(LexLeq, ids)).value.table
  }

  /** Every record gets exactly one blind id, derived from its own id, and no two share one. */
  lemma BlindIdsInjective(c: IdSource, ids: seq<JsString>)
    requires Assignable(c, ids)
    ensures var m := BlindIds(c, ids);
      && (forall id :: id in m <==> id in ids)
      && (forall i, j :: i in m && j in m && m[i] == m[j] ==> i == j)
      && (forall id :: id in m ==> IsCandidate(c, id, m[id]))
  {
    SortedIds(ids);
    hide SortBy, AssignInOrder, IsCandidate;
  }

  /** The table does not depend on the order in which the records arrive. */
  lemma BlindIdsIgnoreOrder(c: IdSource, ids: seq<JsString>, others: seq<JsString>)
    requires Assignable(c, ids) && multiset(ids) == multiset(others)
    ensures Assignable(c, others) && BlindIds(c, others) == BlindIds(c, ids)
  {
    LexSortCanonical(ids, others);
    hide SortBy, AssignInOrder;
  }

  // ----------------------------------------------------------------- termination

  function Candidates(c: IdSource, id: JsString, bound: nat): set<JsString> {
    set salt | 0 <= salt < bound :: Candidate(c, id, salt)
  }

  /** Each record has at least `n` distinct candidate ids among its first few salts. */
  ghost predicate Plentiful(c: IdSource, ids: seq<JsString>, n: nat) {
    forall id :: id in ids ==> exists bound: nat :: |Candidates(c, id, bound)| >= n
  }

  lemma SubsetSize<T>(a: set<T>, b: set<T>)
    requires a <= b
    ensures |a| <= |b|
  {
    assert b == a + (b - a);
  }

  /** More candidates than ids in use leave one free. */
  lemma MoreThanUsed(c: IdSource, id: JsString, used: set<JsString>, bound: nat)
    requires |Candidates(c, id, bound)| > |used|
    ensures HasFree(c, id, used)
  {
    if forall s :: 0 <= s < bound ==> Candidate(c, id, s) in used {
      SubsetSize(Candidates(c, id, bound), used);
    }
  }

  lemma {:induction false} PlentifulInOrder(c: IdSource, ids: seq<JsString>, n: nat)
    requires Plentiful(c, ids, n) && |ids| <= n
    ensures AssignInOrder(c, ids).Some?
  {
    if ids != [] {
      var init, id := ids[..|ids| - 1], ids[|ids| - 1];
      assert forall i :: i in init ==> i in ids;
      PlentifulInOrder(c, init, n);
      hide Candidates, Candidate, HasFree;
      assert id in ids;
      var bound: nat :| |Candidates(c, id, bound)| >= n;
      MoreThanUsed(c, id, AssignInOrder(c, init).value.used, bound);
    }
  }

  /** The assignment ends whenever the salts offer every record as many ids as there are records. */
  lemma PlentifulAssignable(c: IdSource, ids: seq<JsString>)
    requires Plentiful(c, ids, |ids|)
    ensures Assignable(c, ids)
  {
    SortedIds(ids);
    PlentifulInOrder(c, SortBy(LexLeq, ids), |ids|);
  }

  // ----------------------------------------------------------------- the methods

  /** `assignBlindIds`. */
  method AssignBlindIds(c: IdSource, ids: seq<JsString>) returns (table: map<JsString, JsString>)
    requires Assignable(c, ids)
    ensures table == BlindIds(c, ids)
  {
    table := AssignSorted(c, SortBy(LexLeq, ids));
  }

  method AssignSorted(c: IdSource, ids: seq<JsString>) returns (table: map<JsString, JsString>)
    requires AssignInOrder(c, ids).Some?
    ensures table == AssignInOrder(c, ids).value.table
  {
    table := map[];
    var used: set<JsString> := {};
    assert AssignInOrder(c, ids[..0]) == Some(Assignment({}, map[]));
    hide AssignInOrder, Candidate, WellAssigned, HasFree;
    for k := 0 to |ids|
      invariant AssignInOrder(c, ids[..k]) == Some(Assignment(used, table))
    {
      AssignStep(c, ids, k);
      var blind := FreeId(c, ids[k], used);
      used := used + {blind};
      table := table[ids[k] := blind];
    }
    assert ids[..|ids|] == ids;
  }

  /** The collision loop: the first salt whose id is unused. */
  method FreeId(c: IdSource, id: JsString, used: set<JsString>) returns (blind: JsString)
    requires HasFree(c, id, used)
    ensures blind == Candidate(c, id, FirstFree(c, id, used))
  {
    var salt := 0;
    blind := Candidate(c, id, salt);
    ghost var free := FirstFree(c, id, used);
    while blind in used
      invariant blind == Candidate(c, id, salt) && salt <= free
      decreases free - salt
    {
      salt := salt + 1;
      blind := Candidate(c, id, salt);
    }
    assert free > salt ==> Candidate(c, id, salt) in used;
  }

  lemma {:induction false} AssignedSoFar(c: IdSource, ids: seq<JsString>, k: nat)
    requires AssignInOrder(c, ids).Some? && k <= |ids|
    ensures AssignInOrder(c, ids[..k]).Some?
    decreases |ids|
  {
    hide HasFree, Candidate, WellAssigned;
    if k == |ids| {
      assert ids[..k] == ids;
    } else {
      AssignedSoFar(c, ids[..|ids| - 1], k);
      assert ids[..|ids| - 1][..k] == ids[..k];
    }
  }

  lemma AssignStep(c: IdSource, ids: seq<JsString>, k: nat)
    requires AssignInOrder(c, ids).Some? && k < |ids|
    ensures var a := AssignInOrder(c, ids[..k]);
      && a.Some? && HasFree(c, ids[k], a.value.used)
      && var blind := Candidate(c, ids[k], FirstFree(c, ids[k], a.value.used));
      AssignInOrder(c, ids[..k + 1]) == Some(Assignment(a.value.used + {blind}, a.value.table[ids[k] := blind]))
  {
    hide HasFree, Candidate, WellAssigned;
    AssignedSoFar(c, ids, k + 1);
    assert ids[..k + 1][..k] == ids[..k];
  }

  // --------------------------------------------------------------- pairwise ids

  /** `pairwiseBlindId`: derived from the two record ids in sorted order. */
  function PairwiseBlindId(mac: (JsString, JsString) -> seq<Byte>, seed: JsString, a: JsString, b: JsString): JsString {
    var s := SortBy(LexLeq, [a, b]);
    LexIsTotalOrder();
    SortByCorrect(LexLeq, [a, b]);
    Lit("P-") + RawId(IdSource(mac, seed, Lit("P")), s[0] + Lit("|") + s[1], 0)
  }

  /** The pairwise id does not tell which record is shown first. */
  lemma PairwiseBlindIdSymmetric(mac: (JsString, JsString) -> seq<Byte>, seed: JsString, a: JsString, b: JsString)
    ensures PairwiseBlindId(mac, seed, a, b) == PairwiseBlindId(mac, seed, b, a)
  {
    assert multiset([a, b]) == multiset([b, a]);
    LexSortCanonical([a, b], [b, a]);
  }
}
