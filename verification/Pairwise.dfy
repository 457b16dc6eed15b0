/** The pairwise packet (src/blind/generator.ts). */
module Pairwise {
  import BlindId
  import opened Generator
  import opened Groups
  import opened Js
  import opened Order
  import opened Records
  import Shuffle

  // ----------------------------------------------------------- unordered pairs

  function PairsWith<T>(x: T, rest: seq<T>): (r: seq<(T, T)>)
    ensures |r| == |rest| && forall i :: 0 <= i < |rest| ==> r[i] == (x, rest[i])
  {
    if rest == [] then [] else [(x, rest[0])] + PairsWith(x, rest[1..])
  }

  /** Each earlier element paired with each later one. */
  function Pairs<T>(s: seq<T>): seq<(T, T)> {
    if s == [] then [] else PairsWith(s[0], s[1..]) + Pairs(s[1..])
  }

  lemma {:induction false} PairsCount<T>(s: seq<T>)
    ensures 2 * |Pairs(s)| == |s| * (|s| - 1)
  {
    if s != [] {
      PairsCount(s[1..]);
      Triangle(|s|);
    }
  }

  lemma Triangle(n: nat)
    requires n > 0
    ensures n * (n - 1) == (n - 1) * (n - 2) + 2 * (n - 1)
  {
  }

  lemma {:induction false} PairsMembers<T(!new)>(s: seq<T>)
    ensures forall p :: p in Pairs(s) ==> p.0 in s && p.1 in s
  {
    if s != [] {
      PairsMembers(s[1..]);
      forall p | p in Pairs(s) ensures p.0 in s && p.1 in s {
        if p in PairsWith(s[0], s[1..]) {
          var i :| 0 <= i < |s[1..]| && PairsWith(s[0], s[1..])[i] == p;
          assert p.1 in s[1..];
        }
      }
    }
  }

  /** The pair joins tags `t` and `u`, in either order. */
  predicate Joins<T, K(==)>(tag: T -> K, t: K, u: K, p: (T, T)) {
    (tag(p.0) == t && tag(p.1) == u) || (tag(p.0) == u && tag(p.1) == t)
  }

  function IsJoin<T, K(==)>(tag: T -> K, t: K, u: K): ((T, T)) -> bool { p => Joins(tag, t, u, p) }

  lemma {:induction false} JoinsInRow<T(!new), K(!new)>(tag: T -> K, t: K, u: K, x: T, rest: seq<T>)
    requires t != u && Distinct(Map(tag, rest)) && tag(x) !in Map(tag, rest)
    ensures |Filter(IsJoin(tag, t, u), PairsWith(x, rest))|
         == if (tag(x) == t && u in Map(tag, rest)) || (tag(x) == u && t in Map(tag, rest)) then 1 else 0
  {
    if rest != [] {
      var tags := Map(tag, rest);
      assert tags[1..] == Map(tag, rest[1..]) && tags == [tags[0]] + tags[1..];
      assert tags[0] !in tags[1..];
      JoinsInRow(tag, t, u, x, rest[1..]);
      assert PairsWith(x, rest)[1..] == PairsWith(x, rest[1..]);
    }
  }

  /** Distinctly tagged elements: any two different tags present are joined exactly once. */
  lemma {:induction false} JoinedOnce<T(!new), K(!new)>(tag: T -> K, t: K, u: K, s: seq<T>)
    requires t != u && Distinct(Map(tag, s))
    ensures |Filter(IsJoin(tag, t, u), Pairs(s))| == if t in Map(tag, s) && u in Map(tag, s) then 1 else 0
  {
    if s != [] {
      var tags := Map(tag, s);
      assert tags[1..] == Map(tag, s[1..]) && tags == [tags[0]] + tags[1..];
      assert tags[0] !in tags[1..];
      JoinsInRow(tag, t, u, s[0], s[1..]);
      JoinedOnce(tag, t, u, s[1..]);
      FilterAppend(IsJoin(tag, t, u), PairsWith(s[0], s[1..]), Pairs(s[1..]));
    }
  }

  // ------------------------------------------------ one run per benchmark and target

  /** The first record with the smallest repetition index. */
  function Earliest(s: seq<RunRecord>): Option<RunRecord> {
    if s == [] then None
    else
      var best, r := Earliest(s[..|s| - 1]), s[|s| - 1];
      if best.None? || Repetition(r) < Repetition(best.value) then Some(r) else best
  }

  lemma {:induction false} EarliestIsMinimal(s: seq<RunRecord>)
    ensures Earliest(s).Some? <==> s != []
    ensures s != [] ==> Earliest(s).value in s && forall r :: r in s ==> Repetition(Earliest(s).value) <= Repetition(r)
  {
    if s != [] {
      EarliestIsMinimal(s[..|s| - 1]);
      assert s == s[..|s| - 1] + [s[|s| - 1]];
    }
  }

  function Chosen(records: seq<RunRecord>, ks: seq<JsString>): seq<RunRecord> {
    if ks == [] then []
    else
      var e := Earliest(Group(GroupKey, records, ks[|ks| - 1]));
      Chosen(records, ks[..|ks| - 1]) + if e.Some? then [e.value] else []
  }

  /** One record per key, in the order in which the keys first occur. */
  function Representatives(records: seq<RunRecord>): seq<RunRecord> { Chosen(records, Keys(GroupKey, records)) }

  lemma EarliestOfKey(records: seq<RunRecord>, k: JsString)
    ensures Earliest(Group(GroupKey, records, k)).Some? <==> k in Keys(GroupKey, records)
    ensures var e := Earliest(Group(GroupKey, records, k));
      e.Some? ==> e.value in records && GroupKey(e.value) == k
    ensures var e := Earliest(Group(GroupKey, records, k));
      forall r :: r in records && GroupKey(r) == k ==> e.Some? && Repetition(e.value) <= Repetition(r)
  {
    EarliestIsMinimal(Group(GroupKey, records, k));
    GroupMembers(GroupKey, records, k);
    KeysDistinct(GroupKey, records);
    if k in Keys(GroupKey, records) {
      var r :| r in records && GroupKey(r) == k;
      assert r in Group(GroupKey, records, k);
    } else {
      NoGroup(GroupKey, records, k);
    }
  }

  lemma {:induction false} ChosenPerKey(records: seq<RunRecord>, ks: seq<JsString>)
    requires forall k :: k in ks ==> k in Keys(GroupKey, records)
    ensures Map(GroupKey, Chosen(records, ks)) == ks
  {
    if ks != [] {
      var n := |ks| - 1;
      EarliestOfKey(records, ks[n]);
      ChosenPerKey(records, ks[..n]);
      var e := Earliest(Group(GroupKey, records, ks[n]));
      hide Earliest, Group, Keys;
      MapAppend(GroupKey, Chosen(records, ks[..n]), [e.value]);
    }
  }

  lemma {:induction false} ChosenAreEarliest(records: seq<RunRecord>, ks: seq<JsString>)
    ensures forall r :: r in Chosen(records, ks) ==> Earliest(Group(GroupKey, records, GroupKey(r))) == Some(r)
  {
    hide Earliest, Group, Keys;
    if ks != [] {
      EarliestOfKey(records, ks[|ks| - 1]);
      ChosenAreEarliest(records, ks[..|ks| - 1]);
    }
  }

  /** One representative per key, and it is the first of the runs with the lowest repetition. */
  lemma RepresentativesPerKey(records: seq<RunRecord>)
    ensures Map(GroupKey, Representatives(records)) == Keys(GroupKey, records)
    ensures forall r :: r in Representatives(records) ==>
      r in records && Earliest(Group(GroupKey, records, GroupKey(r))) == Some(r)
    ensures forall q, r :: q in Representatives(records) && r in records && GroupKey(q) == GroupKey(r) ==>
      Repetition(q) <= Repetition(r)
  {
    KeysDistinct(GroupKey, records);
    ChosenPerKey(records, Keys(GroupKey, records));
    ChosenAreEarliest(records, Keys(GroupKey, records));
    forall r | r in Representatives(records)
      ensures r in records && forall q :: q in records && GroupKey(q) == GroupKey(r) ==> Repetition(r) <= Repetition(q)
    {
      EarliestOfKey(records, GroupKey(r));
    }
  }

  /** No two records share a key without sharing benchmark and target. */
  ghost predicate KeysFaithful(records: seq<RunRecord>) {
    forall q, r :: q in records && r in records && GroupKey(q) == GroupKey(r)
      ==> q.benchmarkId == r.benchmarkId && q.targetId == r.targetId
  }

  lemma SeparableIdsFaithful(records: seq<RunRecord>)
    requires forall r :: r in records ==> Separable(r.benchmarkId)
    ensures KeysFaithful(records)
  {
    forall q, r | q in records && r in records && GroupKey(q) == GroupKey(r)
      ensures q.benchmarkId == r.benchmarkId && q.targetId == r.targetId
    {
      KeyNamesPair(q.benchmarkId, q.targetId, r.benchmarkId, r.targetId);
    }
  }

  ghost predicate Represented(records: seq<RunRecord>, r: RunRecord) {
    exists q :: q in Representatives(records) && q.benchmarkId == r.benchmarkId && q.targetId == r.targetId
  }

  lemma RepresentativeOf(records: seq<RunRecord>, r: RunRecord) returns (q: RunRecord)
    requires r in records
    ensures q in Representatives(records) && GroupKey(q) == GroupKey(r)
  {
    RepresentativesPerKey(records);
    KeysDistinct(GroupKey, records);
    var i :| 0 <= i < |Keys(GroupKey, records)| && Keys(GroupKey, records)[i] == GroupKey(r);
    q := Representatives(records)[i];
  }

  lemma RepresentativeUnique(records: seq<RunRecord>, p: RunRecord, q: RunRecord)
    requires p in Representatives(records) && q in Representatives(records) && GroupKey(p) == GroupKey(q)
    ensures p == q
  {
    RepresentativesPerKey(records);
  }

  /** Every benchmark and target with a run has a representative exactly when no keys clash. */
  lemma AllRepresentedIffFaithful(records: seq<RunRecord>)
    ensures (forall r :: r in records ==> Represented(records, r)) <==> KeysFaithful(records)
  {
    RepresentativesPerKey(records);
    if KeysFaithful(records) {
      forall r | r in records ensures Represented(records, r) {
        var q := RepresentativeOf(records, r);
      }
    }
    if forall r :: r in records ==> Represented(records, r) {
      forall q, r | q in records && r in records && GroupKey(q) == GroupKey(r)
        ensures q.benchmarkId == r.benchmarkId && q.targetId == r.targetId
      {
        var a :| a in Representatives(records) && a.benchmarkId == q.benchmarkId && a.targetId == q.targetId;
        var b :| b in Representatives(records) && b.benchmarkId == r.benchmarkId && b.targetId == r.targetId;
        RepresentativeUnique(records, a, b);
      }
    }
  }

  // ------------------------------------------------------------- the pairs shown

  function BenchmarkIdOf(r: RunRecord): JsString { r.benchmarkId }
  function TargetIdOf(r: RunRecord): JsString { r.targetId }

  function TargetLeq(collate: (JsString, JsString) -> bool): (RunRecord, RunRecord) -> bool {
    Through(collate, TargetIdOf)
  }

  const OBJECT_TEXT := Lit(",[object Object]")

  function Repeated(s: JsString, n: nat): JsString {
    if n == 0 then [] else s + Repeated(s, n - 1)
  }

  /** `String([id, list])` of a map entry, which is what the default sort compares. */
  function EntryText(id: JsString, size: nat): JsString { id + Repeated(OBJECT_TEXT, size) }

  /** The text a benchmark's map entry is sorted by. */
  function EntryTextOf(reps: seq<RunRecord>): JsString -> JsString {
    (b: JsString) => EntryText(b, |Group(BenchmarkIdOf, reps, b)|)
  }

  function EntryLeq(reps: seq<RunRecord>): (JsString, JsString) -> bool { Through(LexLeq, EntryTextOf(reps)) }

  function BenchmarkOrder(reps: seq<RunRecord>): seq<JsString> { SortBy(EntryLeq(reps), Keys(BenchmarkIdOf, reps)) }

  function Compared(avoidSameModel: bool): ((RunRecord, RunRecord)) -> bool {
    (p: (RunRecord, RunRecord)) => !(avoidSameModel && p.0.targetId == p.1.targetId)
  }

  /** The pairs of one benchmark, targets in collation order. */
  function BenchmarkPairs(env: Env, avoidSameModel: bool, reps: seq<RunRecord>,
      b: JsString): seq<(RunRecord, RunRecord)> {
    Filter(Compared(avoidSameModel), Pairs(SortBy(TargetLeq(env.collate), Group(BenchmarkIdOf, reps, b))))
  }

  function PairLists(env: Env, avoidSameModel: bool, reps: seq<RunRecord>,
      ks: seq<JsString>): (r: seq<seq<(RunRecord, RunRecord)>>)
    ensures |r| == |ks| && forall i :: 0 <= i < |ks| ==> r[i] == BenchmarkPairs(env, avoidSameModel, reps, ks[i])
  {
    if ks == [] then []
    else
      PairLists(env, avoidSameModel, reps, ks[..|ks| - 1]) + [BenchmarkPairs(env, avoidSameModel, reps, ks[|ks| - 1])]
  }

  /** All pairs to be judged, in the order in which they are emitted. */
  function AllPairs(env: Env, avoidSameModel: bool, records: seq<RunRecord>): seq<(RunRecord, RunRecord)> {
    var reps := Representatives(records);
    Concat(PairLists(env, avoidSameModel, reps, BenchmarkOrder(reps)))
  }

  datatype PairItem = PairItem(
    blindId: JsString,
    benchmarkId: JsString,
    benchmarkVersion: JsString,
    domain: JsString,
    difficulty: JsString,
    taskText: JsString,
    expectedOutputFormat: Option<JsString>,
    requiredConstraints: Option<seq<JsString>>,
    responseA: JsString,
    responseB: JsString)

  datatype PairEntry = PairEntry(
    blindId: JsString,
    benchmarkId: JsString,
    aRunRecordId: JsString,
    bRunRecordId: JsString,
    aTargetId: JsString,
    bTargetId: JsString)

  /** `rng() < 0.5`. */
  predicate Flips(t: Shuffle.U32) { 2 * t < 0x1_0000_0000 }

  function Shown(p: (RunRecord, RunRecord), flip: bool): (RunRecord, RunRecord) { if flip then (p.1, p.0) else p }

  function PairBlindId(env: Env, p: (RunRecord, RunRecord)): JsString {
    BlindId.PairwiseBlindId(env.mac, env.seed, p.0.runRecordId, p.1.runRecordId)
  }

  function ItemOfPair(env: Env, p: (RunRecord, RunRecord), flip: bool): PairItem {
    var b, shown := p.0.benchmarkId, Shown(p, flip);
    var textA, textB := OrElse(shown.0.response, []), OrElse(shown.1.response, []);
    if b in env.benchmarks then
      var d := env.benchmarks[b];
      PairItem(PairBlindId(env, p), b, d.version, d.domain, d.difficulty, d.taskText,
               if d.expectedOutputFormat == [] then None else Some(d.expectedOutputFormat),
               d.requiredConstraints, textA, textB)
    else
      PairItem(PairBlindId(env, p), b, Lit("0.0.0"), Lit("unknown"), Lit("unknown"), [], None, None, textA, textB)
  }

  function EntryOfPair(env: Env, p: (RunRecord, RunRecord), flip: bool): PairEntry {
    var shown := Shown(p, flip);
    PairEntry(PairBlindId(env, p), p.0.benchmarkId,
              shown.0.runRecordId, shown.1.runRecordId, shown.0.targetId, shown.1.targetId)
  }

  /** The coin flips of `n` pairs, one output each, from generator state `a`. */
  function FlipsFrom(g: Shuffle.Source, a: Shuffle.U32, n: nat): (r: seq<bool>)
    ensures |r| == n
    decreases n
  {
    if n == 0 then [] else [Flips(g.output(g.step(a)))] + FlipsFrom(g, g.step(a), n - 1)
  }

  function Items(env: Env, pairs: seq<(RunRecord, RunRecord)>, flips: seq<bool>): (r: seq<PairItem>)
    requires |flips| == |pairs|
    ensures |r| == |pairs| && forall i :: 0 <= i < |pairs| ==> r[i] == ItemOfPair(env, pairs[i], flips[i])
  {
    if pairs == [] then [] else [ItemOfPair(env, pairs[0], flips[0])] + Items(env, pairs[1..], flips[1..])
  }

  function Mapping(env: Env, pairs: seq<(RunRecord, RunRecord)>, flips: seq<bool>): (r: seq<PairEntry>)
    requires |flips| == |pairs|
    ensures |r| == |pairs| && forall i :: 0 <= i < |pairs| ==> r[i] == EntryOfPair(env, pairs[i], flips[i])
  {
    if pairs == [] then [] else [EntryOfPair(env, pairs[0], flips[0])] + Mapping(env, pairs[1..], flips[1..])
  }

  function PairSeed(env: Env): Shuffle.U32 { env.seedState(env.seed + Lit(":pairwise")) }

  datatype PairSet = PairSet(benchmarkIds: seq<JsString>, items: seq<PairItem>, mapping: seq<PairEntry>)

  /** `buildPairwise`, whatever the coin flips come out as. */
  function PairSetFor(env: Env, avoidSameModel: bool, records: seq<RunRecord>, flips: seq<bool>): PairSet
    requires |flips| == |AllPairs(env, avoidSameModel, records)|
  {
    var pairs := AllPairs(env, avoidSameModel, records);
    PairSet(SortBy(LexLeq, Keys(BenchmarkIdOf, Representatives(records))),
            Items(env, pairs, flips), Mapping(env, pairs, flips))
  }

  function Built(env: Env, avoidSameModel: bool, records: seq<RunRecord>): PairSet {
    PairSetFor(env, avoidSameModel, records,
               FlipsFrom(Shuffle.MULBERRY32, PairSeed(env), |AllPairs(env, avoidSameModel, records)|))
  }

  // ---------------------------------------------------------------- main results

  lemma OrderIsBenchmarks(reps: seq<RunRecord>)
    ensures Distinct(BenchmarkOrder(reps))
    ensures multiset(BenchmarkOrder(reps)) == multiset(Keys(BenchmarkIdOf, reps))
    ensures forall b :: b in BenchmarkOrder(reps) <==> b in Keys(BenchmarkIdOf, reps)
  {
    LexIsTotalOrder();
    ThroughOrdered(LexLeq, EntryTextOf(reps));
    SortByCorrect(EntryLeq(reps), Keys(BenchmarkIdOf, reps));
    KeysDistinct(BenchmarkIdOf, reps);
    DistinctPermutes(Keys(BenchmarkIdOf, reps), BenchmarkOrder(reps));
    SameElements(Keys(BenchmarkIdOf, reps), BenchmarkOrder(reps));
  }

  function PairBenchmark(p: (RunRecord, RunRecord)): JsString { p.0.benchmarkId }

  /** The representatives of one benchmark in target order: same records, one benchmark. */
  lemma SortedGroup(env: Env, reps: seq<RunRecord>, b: JsString)
    requires TotalPreorder(env.collate)
    ensures var sorted := SortBy(TargetLeq(env.collate), Group(BenchmarkIdOf, reps, b));
      && multiset(sorted) == multiset(Group(BenchmarkIdOf, reps, b))
      && (forall r :: r in sorted <==> r in reps && r.benchmarkId == b)
  {
    ThroughOrdered(env.collate, TargetIdOf);
    SortByCorrect(TargetLeq(env.collate), Group(BenchmarkIdOf, reps, b));
    SameElements(Group(BenchmarkIdOf, reps, b), SortBy(TargetLeq(env.collate), Group(BenchmarkIdOf, reps, b)));
    GroupMembers(BenchmarkIdOf, reps, b);
  }

  lemma PairsOfBenchmark(env: Env, avoidSameModel: bool, reps: seq<RunRecord>, b: JsString)
    requires TotalPreorder(env.collate)
    ensures forall p :: p in BenchmarkPairs(env, avoidSameModel, reps, b) ==>
      p.0 in reps && p.1 in reps && p.0.benchmarkId == b && p.1.benchmarkId == b
    ensures AllHaveKey(PairBenchmark, BenchmarkPairs(env, avoidSameModel, reps, b), b)
  {
    var sorted := SortBy(TargetLeq(env.collate), Group(BenchmarkIdOf, reps, b));
    SortedGroup(env, reps, b);
    PairsMembers(sorted);
    FilterMembers(Compared(avoidSameModel), Pairs(sorted));
  }

  lemma PairListsKeyed(env: Env, avoidSameModel: bool, reps: seq<RunRecord>)
    requires TotalPreorder(env.collate)
    ensures Keyed(PairBenchmark, BenchmarkOrder(reps), PairLists(env, avoidSameModel, reps, BenchmarkOrder(reps)))
  {
    var ks := BenchmarkOrder(reps);
    OrderIsBenchmarks(reps);
    forall i | 0 <= i < |ks| ensures AllHaveKey(PairBenchmark, PairLists(env, avoidSameModel, reps, ks)[i], ks[i]) {
      PairsOfBenchmark(env, avoidSameModel, reps, ks[i]);
    }
  }

  /** The pairs of benchmark `b` among all pairs are exactly its own pairs. */
  lemma PairsAt(env: Env, avoidSameModel: bool, records: seq<RunRecord>, b: JsString)
    requires TotalPreorder(env.collate)
    ensures Group(PairBenchmark, AllPairs(env, avoidSameModel, records), b)
         == BenchmarkPairs(env, avoidSameModel, Representatives(records), b)
  {
    var reps := Representatives(records);
    var ks := BenchmarkOrder(reps);
    var lists := PairLists(env, avoidSameModel, reps, ks);
    PairListsKeyed(env, avoidSameModel, reps);
    if b in ks {
      var i :| 0 <= i < |ks| && ks[i] == b;
      GroupInside(PairBenchmark, ks, lists, i);
    } else {
      GroupOutside(PairBenchmark, ks, lists, b);
      OrderIsBenchmarks(reps);
      NoGroup(BenchmarkIdOf, reps, b);
    }
  }

  /** The representatives of one benchmark, sorted by target. */
  function InTargetOrder(env: Env, records: seq<RunRecord>, b: JsString): seq<RunRecord> {
    SortBy(TargetLeq(env.collate), Group(BenchmarkIdOf, Representatives(records), b))
  }

  /** The representatives of one benchmark have different targets. */
  lemma TargetsDistinct(env: Env, records: seq<RunRecord>, b: JsString)
    requires TotalPreorder(env.collate)
    ensures Distinct(Map(TargetIdOf, InTargetOrder(env, records, b)))
  {
    var reps := Representatives(records);
    var sorted := SortBy(TargetLeq(env.collate), Group(BenchmarkIdOf, reps, b));
    SortedGroup(env, reps, b);
    RepresentativesDistinct(records);
    DistinctFiltered(HasKey(BenchmarkIdOf, b), reps);
    DistinctPermutes(Group(BenchmarkIdOf, reps, b), sorted);
    forall i, j | 0 <= i < j < |sorted| ensures TargetIdOf(sorted[i]) != TargetIdOf(sorted[j]) {
      var q, r := sorted[i], sorted[j];
      assert q in sorted && r in sorted && q != r;
      if q.targetId == r.targetId { RepresentativeUnique(records, q, r); }
    }
  }

  lemma RepresentativesDistinct(records: seq<RunRecord>)
    ensures Distinct(Representatives(records))
  {
    var reps := Representatives(records);
    RepresentativesPerKey(records);
    KeysDistinct(GroupKey, records);
    forall i, j | 0 <= i < j < |reps| ensures reps[i] != reps[j] {
      assert Map(GroupKey, reps)[i] != Map(GroupKey, reps)[j];
    }
  }

  /** How many representatives benchmark `b` has: one per target. */
  function TargetCount(records: seq<RunRecord>, b: JsString): nat {
    |Group(BenchmarkIdOf, Representatives(records), b)|
  }

  lemma PairsDiffer(env: Env, avoidSameModel: bool, records: seq<RunRecord>, b: JsString)
    requires TotalPreorder(env.collate)
    ensures BenchmarkPairs(env, avoidSameModel, Representatives(records), b)
         == Pairs(InTargetOrder(env, records, b))
  {
    var sorted := InTargetOrder(env, records, b);
    TargetsDistinct(env, records, b);
    PairsHaveTwoTags(TargetIdOf, sorted);
    FilterAll(Compared(avoidSameModel), Pairs(sorted));
  }

  lemma {:induction false} PairsHaveTwoTags<T(!new), K(!new)>(tag: T -> K, s: seq<T>)
    requires Distinct(Map(tag, s))
    ensures forall p :: p in Pairs(s) ==> tag(p.0) != tag(p.1)
  {
    if s != [] {
      var tags := Map(tag, s);
      assert tags[1..] == Map(tag, s[1..]);
      PairsHaveTwoTags(tag, s[1..]);
      forall p | p in Pairs(s) ensures tag(p.0) != tag(p.1) {
        if p in PairsWith(s[0], s[1..]) {
          var i :| 0 <= i < |s[1..]| && PairsWith(s[0], s[1..])[i] == p;
          assert tags[0] != tags[i + 1];
        }
      }
    }
  }

  /** The mapping entry is about benchmark `b` and joins targets `t` and `u`. */
  predicate About(b: JsString, t: JsString, u: JsString, e: PairEntry) {
    e.benchmarkId == b && ((e.aTargetId == t && e.bTargetId == u) || (e.aTargetId == u && e.bTargetId == t))
  }

  function IsAbout(b: JsString, t: JsString, u: JsString): PairEntry -> bool { (e: PairEntry) => About(b, t, u, e) }
  function OfBenchmark(b: JsString): PairEntry -> bool { (e: PairEntry) => e.benchmarkId == b }

  /** A coin flip changes neither which targets an entry joins nor its benchmark. */
  lemma FlipKeepsTargets(env: Env, p: (RunRecord, RunRecord), flip: bool, b: JsString, t: JsString, u: JsString)
    ensures About(b, t, u, EntryOfPair(env, p, flip)) <==> PairBenchmark(p) == b && Joins(TargetIdOf, t, u, p)
    ensures EntryOfPair(env, p, flip).benchmarkId == PairBenchmark(p)
  {
  }

  lemma {:induction false} CountAbout(env: Env, pairs: seq<(RunRecord, RunRecord)>, flips: seq<bool>,
      b: JsString, t: JsString, u: JsString)
    requires |flips| == |pairs|
    ensures |Filter(IsAbout(b, t, u), Mapping(env, pairs, flips))|
      == |Filter(IsJoin(TargetIdOf, t, u), Group(PairBenchmark, pairs, b))|
    ensures |Filter(OfBenchmark(b), Mapping(env, pairs, flips))| == |Group(PairBenchmark, pairs, b)|
  {
    if pairs != [] {
      hide About, Joins, EntryOfPair;
      FlipKeepsTargets(env, pairs[0], flips[0], b, t, u);
      CountAbout(env, pairs[1..], flips[1..], b, t, u);
      var group, rest := Group(PairBenchmark, pairs, b), Group(PairBenchmark, pairs[1..], b);
      assert group == if PairBenchmark(pairs[0]) == b then [pairs[0]] + rest else rest;
      var mapping := Mapping(env, pairs, flips);
      assert mapping[1..] == Mapping(env, pairs[1..], flips[1..]);
    }
  }

  /** Whatever the coin flips: benchmark `b` gets m(m-1)/2 pairs for its m targets, two different
      targets are joined exactly once if both have a representative there, and otherwise never. */
  lemma EachPairOnce(env: Env, avoidSameModel: bool, records: seq<RunRecord>, flips: seq<bool>, b: JsString,
      t: JsString, u: JsString)
    requires TotalPreorder(env.collate) && |flips| == |AllPairs(env, avoidSameModel, records)| && t != u
    ensures var m, mapping := TargetCount(records, b), PairSetFor(env, avoidSameModel, records, flips).mapping;
      && 2 * |Filter(OfBenchmark(b), mapping)| == m * (m - 1)
      && |Filter(IsAbout(b, t, u), mapping)| == if HasTarget(records, b, t) && HasTarget(records, b, u) then 1 else 0
  {
    var pairs, sorted := AllPairs(env, avoidSameModel, records), InTargetOrder(env, records, b);
    CountAbout(env, pairs, flips, b, t, u);
    PairsAt(env, avoidSameModel, records, b);
    PairsDiffer(env, avoidSameModel, records, b);
    TargetsDistinct(env, records, b);
    InTargetOrderIs(env, records, b);
    hide AllPairs, InTargetOrder, BenchmarkPairs, TargetCount, HasTarget, Pairs, Group, Filter, Mapping;
    PairsCount(sorted);
    JoinedOnce(TargetIdOf, t, u, sorted);
    TargetPresent(records, sorted, b, t);
    TargetPresent(records, sorted, b, u);
  }

  lemma InTargetOrderIs(env: Env, records: seq<RunRecord>, b: JsString)
    requires TotalPreorder(env.collate)
    ensures |InTargetOrder(env, records, b)| == TargetCount(records, b)
    ensures forall r :: r in InTargetOrder(env, records, b) <==> r in Representatives(records) && r.benchmarkId == b
  {
    var reps := Representatives(records);
    SortedGroup(env, reps, b);
    hide Representatives, SortBy, Group;
    SameElements(Group(BenchmarkIdOf, reps, b), InTargetOrder(env, records, b));
  }

  ghost predicate HasTarget(records: seq<RunRecord>, b: JsString, t: JsString) {
    exists r :: r in Representatives(records) && r.benchmarkId == b && r.targetId == t
  }

  lemma TargetPresent(records: seq<RunRecord>, sorted: seq<RunRecord>, b: JsString, t: JsString)
    requires forall r :: r in sorted <==> r in Representatives(records) && r.benchmarkId == b
    ensures t in Map(TargetIdOf, sorted) <==> HasTarget(records, b, t)
  {
    hide Representatives;
    MapMembers(TargetIdOf, sorted);
    if t in Map(TargetIdOf, sorted) {
      var r :| r in sorted && TargetIdOf(r) == t;
    }
    if HasTarget(records, b, t) {
      var r :| r in Representatives(records) && r.benchmarkId == b && r.targetId == t;
      assert r in sorted && TargetIdOf(r) == t;
    }
  }

  ghost predicate HasRun(records: seq<RunRecord>, b: JsString, t: JsString) {
    exists r :: r in records && r.benchmarkId == b && r.targetId == t
  }

  /** When no keys clash, a target is compared exactly on the benchmarks it has a run for. */
  lemma TargetsCompared(records: seq<RunRecord>, b: JsString, t: JsString)
    requires KeysFaithful(records)
    ensures HasTarget(records, b, t) <==> HasRun(records, b, t)
  {
    RepresentativesPerKey(records);
    AllRepresentedIffFaithful(records);
    if HasRun(records, b, t) {
      var r :| r in records && r.benchmarkId == b && r.targetId == t;
      assert Represented(records, r);
    }
  }

  /** With benchmark ids as the schema requires them: two different targets are joined once on a
      benchmark exactly when both have a run there, and otherwise never. */
  lemma SchemaIdsComparedOnce(env: Env, avoidSameModel: bool, records: seq<RunRecord>, flips: seq<bool>, b: JsString,
                              t: JsString, u: JsString)
    requires TotalPreorder(env.collate) && |flips| == |AllPairs(env, avoidSameModel, records)| && t != u
    requires forall r :: r in records ==> Kebab(r.benchmarkId)
    ensures |Filter(IsAbout(b, t, u), PairSetFor(env, avoidSameModel, records, flips).mapping)|
         == if HasRun(records, b, t) && HasRun(records, b, u) then 1 else 0
  {
    hide PairSetFor, AllPairs, HasTarget, Filter, Kebab, Separable;
    forall r | r in records ensures Separable(r.benchmarkId) { KebabSeparable(r.benchmarkId); }
    SeparableIdsFaithful(records);
    EachPairOnce(env, avoidSameModel, records, flips, b, t, u);
    TargetsCompared(records, b, t);
    TargetsCompared(records, b, u);
  }

  ghost predicate SideMatches(records: seq<RunRecord>, benchmarkId: JsString, runRecordId: JsString,
      targetId: JsString, response: JsString) {
    exists r :: r in records && r.benchmarkId == benchmarkId && r.runRecordId == runRecordId && r.targetId == targetId
                && OrElse(r.response, []) == response
  }

  /** Whatever the coin flips: item and mapping entry share blind id and benchmark, and the texts
      shown as A and B are those of the runs the entry names as A and B, two different targets. */
  lemma SidesMatch(env: Env, avoidSameModel: bool, records: seq<RunRecord>, flips: seq<bool>, i: nat)
    requires TotalPreorder(env.collate) && |flips| == |AllPairs(env, avoidSameModel, records)| && i < |flips|
    ensures var r := PairSetFor(env, avoidSameModel, records, flips); var item, e := r.items[i], r.mapping[i];
      && |r.items| == |r.mapping| == |flips|
      && item.blindId == e.blindId && item.benchmarkId == e.benchmarkId && e.aTargetId != e.bTargetId
      && SideMatches(records, e.benchmarkId, e.aRunRecordId, e.aTargetId, item.responseA)
      && SideMatches(records, e.benchmarkId, e.bRunRecordId, e.bTargetId, item.responseB)
  {
    var pairs := AllPairs(env, avoidSameModel, records);
    PairFromRecords(env, avoidSameModel, records, pairs[i]);
    hide AllPairs;
    EntrySides(env, records, pairs[i], flips[i]);
  }

  lemma EntrySides(env: Env, records: seq<RunRecord>, p: (RunRecord, RunRecord), flip: bool)
    requires p.0 in records && p.1 in records && p.0.benchmarkId == p.1.benchmarkId && p.0.targetId != p.1.targetId
    ensures var item, e := ItemOfPair(env, p, flip), EntryOfPair(env, p, flip);
      && item.blindId == e.blindId && item.benchmarkId == e.benchmarkId && e.aTargetId != e.bTargetId
      && SideMatches(records, e.benchmarkId, e.aRunRecordId, e.aTargetId, item.responseA)
      && SideMatches(records, e.benchmarkId, e.bRunRecordId, e.bTargetId, item.responseB)
  {
    var shown := Shown(p, flip);
    assert shown.0 in records && shown.1 in records;
  }

  lemma PairFromRecords(env: Env, avoidSameModel: bool, records: seq<RunRecord>, p: (RunRecord, RunRecord))
    requires TotalPreorder(env.collate) && p in AllPairs(env, avoidSameModel, records)
    ensures p.0 in Representatives(records) && p.1 in Representatives(records)
    ensures p.0 in records && p.1 in records && p.0.benchmarkId == p.1.benchmarkId && p.0.targetId != p.1.targetId
  {
    var b := p.0.benchmarkId;
    PairsAt(env, avoidSameModel, records, b);
    GroupMembers(PairBenchmark, AllPairs(env, avoidSameModel, records), b);
    PairsOfBenchmark(env, avoidSameModel, Representatives(records), b);
    PairsDiffer(env, avoidSameModel, records, b);
    TargetsDistinct(env, records, b);
    PairsHaveTwoTags(TargetIdOf, InTargetOrder(env, records, b));
    RepresentativesPerKey(records);
  }

  lemma SameTargetSameRun(records: seq<RunRecord>, q: RunRecord, r: RunRecord)
    requires q in Representatives(records) && r in Representatives(records)
    requires q.benchmarkId == r.benchmarkId && q.targetId == r.targetId
    ensures q == r
  {
    RepresentativeUnique(records, q, r);
  }

  lemma OnlyRunOfTarget(records: seq<RunRecord>, q: RunRecord)
    requires KeysFaithful(records) && q in records
    requires forall p :: p in records && p.benchmarkId == q.benchmarkId && p.targetId == q.targetId ==> p == q
    ensures q in Representatives(records)
  {
    hide Representatives;
    var p := RepresentativeOf(records, q);
    RepresentativesPerKey(records);
  }

  /** With different targets and schema ids every run is its own representative. */
  lemma AllRepresent(records: seq<RunRecord>)
    requires Distinct(Map(TargetIdOf, records)) && forall r :: r in records ==> Kebab(r.benchmarkId)
    ensures forall r :: r in records ==> r in Representatives(records)
  {
    hide Representatives, Kebab, Separable, KeysFaithful;
    forall r | r in records ensures Separable(r.benchmarkId) { KebabSeparable(r.benchmarkId); }
    SeparableIdsFaithful(records);
    forall r | r in records ensures r in Representatives(records) {
      forall p | p in records && p.targetId == r.targetId ensures p == r {
        var i :| 0 <= i < |records| && records[i] == p;
        var j :| 0 <= j < |records| && records[j] == r;
        assert Map(TargetIdOf, records)[i] == Map(TargetIdOf, records)[j];
      }
      OnlyRunOfTarget(records, r);
    }
  }

  /** Two different targets with a representative each are paired. */
  lemma PairJoining(env: Env, avoidSameModel: bool, records: seq<RunRecord>, b: JsString, t: JsString, u: JsString)
    returns (p: (RunRecord, RunRecord))
    requires TotalPreorder(env.collate) && t != u && HasTarget(records, b, t) && HasTarget(records, b, u)
    ensures p in AllPairs(env, avoidSameModel, records) && p.0.benchmarkId == b && Joins(TargetIdOf, t, u, p)
  {
    var sorted := InTargetOrder(env, records, b);
    TargetsDistinct(env, records, b);
    InTargetOrderIs(env, records, b);
    TargetPresent(records, sorted, b, t);
    TargetPresent(records, sorted, b, u);
    PairsDiffer(env, avoidSameModel, records, b);
    PairsAt(env, avoidSameModel, records, b);
    GroupMembers(PairBenchmark, AllPairs(env, avoidSameModel, records), b);
    hide AllPairs, InTargetOrder, BenchmarkPairs, HasTarget, Pairs, Group;
    JoinedOnce(TargetIdOf, t, u, sorted);
    FilterMembers(IsJoin(TargetIdOf, t, u), Pairs(sorted));
    hide Filter;
    p := Filter(IsJoin(TargetIdOf, t, u), Pairs(sorted))[0];
    assert p in Filter(IsJoin(TargetIdOf, t, u), Pairs(sorted));
    assert IsJoin(TargetIdOf, t, u)(p);
  }

  // ------------------------------------------------------------------ redaction

  lemma {:induction false} SamePairLists(e: Env, f: Env, avoidSameModel: bool, reps: seq<RunRecord>, ks: seq<JsString>)
    requires e.collate == f.collate
    ensures PairLists(e, avoidSameModel, reps, ks) == PairLists(f, avoidSameModel, reps, ks)
  {
    if ks != [] { SamePairLists(e, f, avoidSameModel, reps, ks[..|ks| - 1]); }
  }

  lemma {:induction false} SameItemsAndMapping(e: Env, f: Env, pairs: seq<(RunRecord, RunRecord)>, flips: seq<bool>)
    requires |pairs| == |flips| && e.mac == f.mac && e.seed == f.seed && e.benchmarks == f.benchmarks
    ensures Items(e, pairs, flips) == Items(f, pairs, flips) && Mapping(e, pairs, flips) == Mapping(f, pairs, flips)
  {
    if pairs != [] { SameItemsAndMapping(e, f, pairs[1..], flips[1..]); }
  }

  /** The redaction policy and the scan do not reach the pairwise packet: it shows raw responses,
      those of records kept out of the main packet included. */
  lemma PairwiseIgnoresRedaction(env: Env, avoidSameModel: bool, records: seq<RunRecord>, policy: Policy,
                                 scan: JsString -> seq<Hit>)
    ensures Built(env.(policy := policy, scan := scan), avoidSameModel, records) == Built(env, avoidSameModel, records)
  {
    var other := env.(policy := policy, scan := scan);
    var reps, pairs := Representatives(records), AllPairs(env, avoidSameModel, records);
    SamePairLists(env, other, avoidSameModel, reps, BenchmarkOrder(reps));
    SameItemsAndMapping(env, other, pairs, FlipsFrom(Shuffle.MULBERRY32, PairSeed(env), |pairs|));
  }

  // ------------------------------------------------------------ reproducibility

  /** Within one benchmark and target no repetition index repeats, the collation tells different
      targets apart, and benchmark ids hold no comma. */
  ghost predicate Reproducible(env: Env, records: seq<RunRecord>) {
    && TotalPreorder(env.collate)
    && (forall q, r ::
        q in records && r in records && GroupKey(q) == GroupKey(r) && Repetition(q) == Repetition(r) ==> q == r)
    && (forall q, r ::
        q in records && r in records && env.collate(q.targetId, r.targetId) && env.collate(r.targetId, q.targetId) ==>
          q.targetId == r.targetId)
    && (forall r :: r in records ==> COMMA !in r.benchmarkId)
  }

  lemma EarliestIgnoresOrder(env: Env, records: seq<RunRecord>, others: seq<RunRecord>, k: JsString)
    requires Reproducible(env, records) && multiset(records) == multiset(others)
    ensures Earliest(Group(GroupKey, records, k)) == Earliest(Group(GroupKey, others, k))
  {
    SameElements(records, others);
    EarliestOfKey(records, k);
    EarliestOfKey(others, k);
    KeysDistinct(GroupKey, records);
    KeysDistinct(GroupKey, others);
    hide Earliest, Group, Keys;
    var e, f := Earliest(Group(GroupKey, records, k)), Earliest(Group(GroupKey, others, k));
    assert e.Some? ==> e.value in others;
    assert f.Some? ==> f.value in records;
  }

  lemma RepresentativesStay(env: Env, records: seq<RunRecord>, others: seq<RunRecord>, r: RunRecord)
    requires Reproducible(env, records) && multiset(records) == multiset(others)
    requires r in Representatives(records)
    ensures r in Representatives(others)
  {
    RepresentativesPerKey(records);
    RepresentativesPerKey(others);
    SameElements(records, others);
    EarliestIgnoresOrder(env, records, others, GroupKey(r));
    hide Representatives, Earliest, Group;
    var q := RepresentativeOf(others, r);
  }

  /** The same runs are chosen whatever the order of the records. */
  lemma RepresentativesIgnoreOrder(env: Env, records: seq<RunRecord>, others: seq<RunRecord>)
    requires Reproducible(env, records) && multiset(records) == multiset(others)
    ensures multiset(Representatives(records)) == multiset(Representatives(others))
  {
    SameElements(records, others);
    assert Reproducible(env, others);
    RepresentativesDistinct(records);
    RepresentativesDistinct(others);
    hide Representatives, Reproducible;
    forall r ensures r in Representatives(records) <==> r in Representatives(others) {
      if r in Representatives(records) { RepresentativesStay(env, records, others, r); }
      if r in Representatives(others) { RepresentativesStay(env, others, records, r); }
    }
    DistinctSameSet(Representatives(records), Representatives(others));
  }

  lemma EntryTextNames(a: JsString, m: nat, b: JsString, n: nat)
    requires COMMA !in a && COMMA !in b && m > 0 && n > 0 && EntryText(a, m) == EntryText(b, n)
    ensures a == b
  {
    EntryComma(a, m);
    EntryComma(b, n);
    NoCommaBefore(a, EntryText(a, m));
    NoCommaBefore(b, EntryText(b, n));
  }

  lemma NoCommaBefore(b: JsString, t: JsString)
    requires COMMA !in b && |b| <= |t| && t[..|b|] == b
    ensures forall i :: 0 <= i < |b| ==> t[i] != COMMA
  {
    forall i | 0 <= i < |b| ensures t[i] != COMMA {
      assert t[..|b|][i] == b[i];
    }
  }

  lemma EntryComma(a: JsString, m: nat)
    requires m > 0
    ensures |EntryText(a, m)| > |a| && EntryText(a, m)[|a|] == COMMA && EntryText(a, m)[..|a|] == a
  {
  }

  lemma OrderIgnoresOrder(env: Env, reps: seq<RunRecord>, others: seq<RunRecord>)
    requires multiset(reps) == multiset(others) && forall r :: r in reps ==> COMMA !in r.benchmarkId
    ensures BenchmarkOrder(reps) == BenchmarkOrder(others)
  {
    var leq, ks := EntryLeq(reps), Keys(BenchmarkIdOf, reps);
    LexIsTotalOrder();
    ThroughOrdered(LexLeq, EntryTextOf(reps));
    ThroughOrdered(LexLeq, EntryTextOf(others));
    KeysPermute(BenchmarkIdOf, reps, others);
    SortByCorrect(leq, ks);
    SortByCorrect(EntryLeq(others), Keys(BenchmarkIdOf, others));
    SameElements(ks, SortBy(leq, ks));
    forall a ensures |Group(BenchmarkIdOf, reps, a)| == |Group(BenchmarkIdOf, others, a)| {
      FilterPermutes(HasKey(BenchmarkIdOf, a), reps, others);
      SameElements(Group(BenchmarkIdOf, reps, a), Group(BenchmarkIdOf, others, a));
    }
    EntriesUntied(reps, ks);
    assert Sorted(leq, BenchmarkOrder(others));
    SortedUnique(leq, BenchmarkOrder(reps), BenchmarkOrder(others));
  }

  lemma EntriesUntied(reps: seq<RunRecord>, ks: seq<JsString>)
    requires ks == Keys(BenchmarkIdOf, reps) && forall r :: r in reps ==> COMMA !in r.benchmarkId
    ensures NoTies(EntryLeq(reps), ks)
  {
    KeysDistinct(BenchmarkIdOf, reps);
    forall a, b | a in ks && b in ks && EntryLeq(reps)(a, b) && EntryLeq(reps)(b, a) ensures a == b {
      GroupNonempty(reps, a);
      GroupNonempty(reps, b);
      var m, n := |Group(BenchmarkIdOf, reps, a)|, |Group(BenchmarkIdOf, reps, b)|;
      LexTotal(EntryText(a, m), EntryText(b, n));
      EntryTextNames(a, m, b, n);
    }
  }

  lemma GroupNonempty(reps: seq<RunRecord>, b: JsString)
    requires HasItem(BenchmarkIdOf, reps, b) && forall r :: r in reps ==> COMMA !in r.benchmarkId
    ensures |Group(BenchmarkIdOf, reps, b)| > 0 && COMMA !in b
  {
    GroupMembers(BenchmarkIdOf, reps, b);
    var r :| r in reps && BenchmarkIdOf(r) == b;
    assert r in Group(BenchmarkIdOf, reps, b);
  }

  lemma SortedTargetsIgnoreOrder(env: Env, records: seq<RunRecord>, others: seq<RunRecord>, b: JsString)
    requires Reproducible(env, records) && multiset(Representatives(records)) == multiset(Representatives(others))
    ensures SortBy(TargetLeq(env.collate), Group(BenchmarkIdOf, Representatives(records), b))
         == SortBy(TargetLeq(env.collate), Group(BenchmarkIdOf, Representatives(others), b))
  {
    var leq := TargetLeq(env.collate);
    var mine, theirs := Representatives(records), Representatives(others);
    var group := Group(BenchmarkIdOf, mine, b);
    ThroughOrdered(env.collate, TargetIdOf);
    FilterPermutes(HasKey(BenchmarkIdOf, b), mine, theirs);
    GroupMembers(BenchmarkIdOf, mine, b);
    RepresentativesPerKey(records);
    forall q, r |
        && q in group && r in group
        && env.collate(TargetIdOf(q), TargetIdOf(r)) && env.collate(TargetIdOf(r), TargetIdOf(q))
      ensures q == r
    {
      RepresentativeUnique(records, q, r);
    }
    ThroughUntied(env.collate, TargetIdOf, group);
    SortCanonical(leq, group, Group(BenchmarkIdOf, theirs, b));
  }

  /** The pairwise packet and its mapping are the same for every ordering of the records. */
  lemma PairwiseIgnoresOrder(env: Env, avoidSameModel: bool, records: seq<RunRecord>, others: seq<RunRecord>)
    requires Reproducible(env, records) && multiset(records) == multiset(others)
    ensures Built(env, avoidSameModel, records) == Built(env, avoidSameModel, others)
  {
    var mine, theirs := Representatives(records), Representatives(others);
    RepresentativesIgnoreOrder(env, records, others);
    RepresentativesPerKey(records);
    OrderIgnoresOrder(env, mine, theirs);
    KeysPermute(BenchmarkIdOf, mine, theirs);
    LexSortCanonical(Keys(BenchmarkIdOf, mine), Keys(BenchmarkIdOf, theirs));
    var ks := BenchmarkOrder(mine);
    forall i | 0 <= i < |ks|
      ensures BenchmarkPairs(env, avoidSameModel, mine, ks[i]) == BenchmarkPairs(env, avoidSameModel, theirs, ks[i])
    {
      SortedTargetsIgnoreOrder(env, records, others, ks[i]);
    }
    assert PairLists(env, avoidSameModel, mine, ks) == PairLists(env, avoidSameModel, theirs, ks);
  }

  // ----------------------------------------------------------------- the methods

  ghost predicate IsEarliestMap(records: seq<RunRecord>, keys: seq<JsString>, byKey: map<JsString, RunRecord>) {
    && keys == Keys(GroupKey, records)
    && (forall k :: k in keys <==> k in byKey)
    && forall k :: k in byKey ==> Earliest(Group(GroupKey, records, k)) == Some(byKey[k])
  }

  lemma EarliestStep(records: seq<RunRecord>, keys: seq<JsString>, byKey: map<JsString, RunRecord>)
    requires records != [] && IsEarliestMap(records[..|records| - 1], keys, byKey)
    ensures var r := records[|records| - 1]; var k := GroupKey(r);
      && (k !in byKey ==> IsEarliestMap(records, keys + [k], byKey[k := r]))
      && (k in byKey && Repetition(r) < Repetition(byKey[k]) ==> IsEarliestMap(records, keys, byKey[k := r]))
      && (k in byKey && Repetition(r) >= Repetition(byKey[k]) ==> IsEarliestMap(records, keys, byKey))
  {
    var n := |records| - 1;
    assert records == records[..n] + [records[n]];
    KeysExtend(GroupKey, records[..n], records[n]);
    forall k
      ensures Earliest(Group(GroupKey, records, k))
        == EarlierOf(GroupKey(records[n]) == k, Earliest(Group(GroupKey, records[..n], k)), records[n])
    {
      EarliestOfStep(records, k);
    }
    hide Earliest, Group, Keys;
    if GroupKey(records[n]) !in byKey { NoGroupNoneEarliest(records[..n], GroupKey(records[n])); }
  }

  function EarlierOf(applies: bool, best: Option<RunRecord>, r: RunRecord): Option<RunRecord> {
    if applies && (best.None? || Repetition(r) < Repetition(best.value)) then Some(r) else best
  }

  lemma NoGroupNoneEarliest(records: seq<RunRecord>, k: JsString)
    requires k !in Keys(GroupKey, records)
    ensures Earliest(Group(GroupKey, records, k)) == None
  {
    NoGroup(GroupKey, records, k);
  }

  lemma EarliestOfStep(records: seq<RunRecord>, k: JsString)
    requires records != []
    ensures var n := |records| - 1;
      Earliest(Group(GroupKey, records, k))
        == EarlierOf(GroupKey(records[n]) == k, Earliest(Group(GroupKey, records[..n], k)), records[n])
  {
    var n := |records| - 1;
    var group := Group(GroupKey, records[..n], k);
    GroupGrows(GroupKey, records, k);
    hide Group;
    EarliestGrows(group, records[n]);
    assert group + [] == group;
  }

  lemma EarliestGrows(s: seq<RunRecord>, r: RunRecord)
    ensures Earliest(s + [r]) ==
      if Earliest(s).None? || Repetition(r) < Repetition(Earliest(s).value) then Some(r) else Earliest(s)
  {
    assert (s + [r])[..|s|] == s;
  }

  /** One record per key: replaced only by a strictly earlier repetition. */
  method EarliestPerKey(records: seq<RunRecord>) returns (reps: seq<RunRecord>)
    ensures reps == Representatives(records)
  {
    var keys: seq<JsString>, byKey: map<JsString, RunRecord> := [], map[];
    for i := 0 to |records|
      invariant IsEarliestMap(records[..i], keys, byKey)
    {
      var r := records[i];
      assert records[..i + 1][..i] == records[..i];
      EarliestStep(records[..i + 1], keys, byKey);
      var k := GroupKey(r);
      if k !in byKey {
        keys, byKey := keys + [k], byKey[k := r];
      } else if Repetition(r) < Repetition(byKey[k]) {
        byKey := byKey[k := r];
      }
    }
    assert records[..|records|] == records;
    reps := [];
    for i := 0 to |keys|
      invariant reps == Chosen(records, keys[..i])
    {
      assert keys[..i + 1][..i] == keys[..i] && keys[i] in keys;
      reps := reps + [byKey[keys[i]]];
    }
    assert keys[..|keys|] == keys;
  }

  /** What has been emitted for `pairs` by a generator that started in state `a` and is now in `b`. */
  ghost predicate Emitted(env: Env, a: Shuffle.U32, pairs: seq<(RunRecord, RunRecord)>, items: seq<PairItem>,
      mapping: seq<PairEntry>, b: Shuffle.U32) {
    var flips := FlipsFrom(Shuffle.MULBERRY32, a, |pairs|);
    && items == Items(env, pairs, flips) && mapping == Mapping(env, pairs, flips)
    && b == Shuffle.After(Shuffle.MULBERRY32, a, |pairs|)
  }

  lemma {:induction false} FlipsGrow(g: Shuffle.Source, a: Shuffle.U32, n: nat)
    requires n > 0
    ensures Shuffle.After(g, a, n) == g.step(Shuffle.After(g, a, n - 1))
    ensures FlipsFrom(g, a, n) == FlipsFrom(g, a, n - 1) + [Flips(g.output(Shuffle.After(g, a, n)))]
    decreases n
  {
    if n > 1 { FlipsGrow(g, g.step(a), n - 1); }
  }

  lemma OnePairMore(env: Env, pairs: seq<(RunRecord, RunRecord)>, flips: seq<bool>,
      p: (RunRecord, RunRecord), flip: bool)
    requires |flips| == |pairs|
    ensures Items(env, pairs + [p], flips + [flip]) == Items(env, pairs, flips) + [ItemOfPair(env, p, flip)]
    ensures Mapping(env, pairs + [p], flips + [flip]) == Mapping(env, pairs, flips) + [EntryOfPair(env, p, flip)]
  {
    hide ItemOfPair, EntryOfPair, Items, Mapping;
  }

  lemma EmitGrows(env: Env, a: Shuffle.U32, pairs: seq<(RunRecord, RunRecord)>, items: seq<PairItem>,
      mapping: seq<PairEntry>, b: Shuffle.U32, p: (RunRecord, RunRecord))
    requires Emitted(env, a, pairs, items, mapping, b)
    ensures var c := Shuffle.MULBERRY32.step(b); var flip := Flips(Shuffle.MULBERRY32.output(c));
      Emitted(env, a, pairs + [p], items + [ItemOfPair(env, p, flip)], mapping + [EntryOfPair(env, p, flip)], c)
  {
    hide ItemOfPair, EntryOfPair, Items, Mapping, Flips, FlipsFrom, Shuffle.After;
    var g, n := Shuffle.MULBERRY32, |pairs|;
    FlipsGrow(g, a, n + 1);
    var flip := Flips(g.output(g.step(b)));
    assert FlipsFrom(g, a, n + 1) == FlipsFrom(g, a, n) + [flip];
    OnePairMore(env, pairs, FlipsFrom(g, a, n), p, flip);
    assert |pairs + [p]| == n + 1;
  }

  method EmitPair(env: Env, p: (RunRecord, RunRecord), rng: Shuffle.Rng, items: seq<PairItem>, mapping: seq<PairEntry>,
                  ghost a: Shuffle.U32, ghost pairs: seq<(RunRecord, RunRecord)>)
    returns (moreItems: seq<PairItem>, moreMapping: seq<PairEntry>)
    requires rng.source == Shuffle.MULBERRY32 && Emitted(env, a, pairs, items, mapping, rng.a)
    modifies rng
    ensures Emitted(env, a, pairs + [p], moreItems, moreMapping, rng.a)
  {
    hide Emitted, ItemOfPair, EntryOfPair;
    EmitGrows(env, a, pairs, items, mapping, rng.a, p);
    var t := rng.Next();
    var flip := Flips(t);
    moreItems := items + [ItemOfPair(env, p, flip)];
    moreMapping := mapping + [EntryOfPair(env, p, flip)];
  }

  lemma PairsWithGrows<T>(x: T, rest: seq<T>, y: T)
    ensures PairsWith(x, rest + [y]) == PairsWith(x, rest) + [(x, y)]
  {
    hide PairsWith;
    var l, r := PairsWith(x, rest + [y]), PairsWith(x, rest) + [(x, y)];
    forall i | 0 <= i < |l| ensures l[i] == r[i] { }
  }

  lemma RowGrows<T>(keep: ((T, T)) -> bool, x: T, rest: seq<T>, y: T)
    ensures Filter(keep, PairsWith(x, rest + [y]))
      == Filter(keep, PairsWith(x, rest)) + if keep((x, y)) then [(x, y)] else []
  {
    hide PairsWith;
    PairsWithGrows(x, rest, y);
    FilterAppend(keep, PairsWith(x, rest), [(x, y)]);
  }

  /** The inner loop: `x` against every later target. */
  method EmitRow(env: Env, avoidSameModel: bool, x: RunRecord, rest: seq<RunRecord>, rng: Shuffle.Rng,
      items: seq<PairItem>, mapping: seq<PairEntry>,
                 ghost a: Shuffle.U32, ghost pairs: seq<(RunRecord, RunRecord)>)
    returns (moreItems: seq<PairItem>, moreMapping: seq<PairEntry>)
    requires rng.source == Shuffle.MULBERRY32 && Emitted(env, a, pairs, items, mapping, rng.a)
    modifies rng
    ensures Emitted(env, a, pairs + Filter(Compared(avoidSameModel), PairsWith(x, rest)), moreItems, moreMapping, rng.a)
  {
    hide Emitted, Filter;
    moreItems, moreMapping := items, mapping;
    ghost var row := [];
    RowEmpty(Compared(avoidSameModel), x, rest[..0]);
    assert pairs + row == pairs;
    for j := 0 to |rest|
      invariant row == Filter(Compared(avoidSameModel), PairsWith(x, rest[..j]))
      invariant Emitted(env, a, pairs + row, moreItems, moreMapping, rng.a)
    {
      var y := rest[j];
      assert rest[..j + 1] == rest[..j] + [y];
      RowGrows(Compared(avoidSameModel), x, rest[..j], y);
      if !(avoidSameModel && x.targetId == y.targetId) {
        moreItems, moreMapping := EmitPair(env, (x, y), rng, moreItems, moreMapping, a, pairs + row);
        assert pairs + row + [(x, y)] == pairs + (row + [(x, y)]);
        row := row + [(x, y)];
      }
    }
    assert rest[..|rest|] == rest;
  }

  lemma RowEmpty<T>(keep: ((T, T)) -> bool, x: T, rest: seq<T>)
    requires rest == []
    ensures Filter(keep, PairsWith(x, rest)) == []
  {
  }

  lemma PairsStep<T>(keep: ((T, T)) -> bool, s: seq<T>, i: nat)
    requires i < |s|
    ensures Filter(keep, Pairs(s[i..])) == Filter(keep, PairsWith(s[i], s[i + 1..])) + Filter(keep, Pairs(s[i + 1..]))
  {
    assert s[i..][1..] == s[i + 1..];
    FilterAppend(keep, PairsWith(s[i], s[i + 1..]), Pairs(s[i + 1..]));
  }

  /** The outer loop over the targets of one benchmark. */
  method EmitBenchmark(env: Env, avoidSameModel: bool, sorted: seq<RunRecord>, rng: Shuffle.Rng,
      items: seq<PairItem>, mapping: seq<PairEntry>,
                       ghost a: Shuffle.U32, ghost pairs: seq<(RunRecord, RunRecord)>)
    returns (moreItems: seq<PairItem>, moreMapping: seq<PairEntry>)
    requires rng.source == Shuffle.MULBERRY32 && Emitted(env, a, pairs, items, mapping, rng.a)
    modifies rng
    ensures Emitted(env, a, pairs + Filter(Compared(avoidSameModel), Pairs(sorted)), moreItems, moreMapping, rng.a)
  {
    hide Emitted, Filter;
    ghost var keep := Compared(avoidSameModel);
    ghost var emitted := [];
    moreItems, moreMapping := items, mapping;
    assert pairs + emitted == pairs;
    assert sorted[0..] == sorted;
    for i := 0 to |sorted|
      invariant emitted + Filter(keep, Pairs(sorted[i..])) == Filter(keep, Pairs(sorted))
      invariant Emitted(env, a, pairs + emitted, moreItems, moreMapping, rng.a)
    {
      ghost var row := Filter(keep, PairsWith(sorted[i], sorted[i + 1..]));
      PairsStep(keep, sorted, i);
      moreItems, moreMapping :=
        EmitRow(env, avoidSameModel, sorted[i], sorted[i + 1..], rng, moreItems, moreMapping, a, pairs + emitted);
      assert pairs + emitted + row == pairs + (emitted + row);
      assert emitted + (row + Filter(keep, Pairs(sorted[i + 1..])))
        == (emitted + row) + Filter(keep, Pairs(sorted[i + 1..]));
      emitted := emitted + row;
    }
    NoPairs(keep, sorted[|sorted|..]);
    assert emitted == Filter(keep, Pairs(sorted));
  }

  lemma NoPairs<T>(keep: ((T, T)) -> bool, s: seq<T>)
    requires s == []
    ensures Filter(keep, Pairs(s)) == []
  {
  }

  /** `buildPairwise`. */
  method BuildPairwise(env: Env, avoidSameModel: bool, records: seq<RunRecord>) returns (r: PairSet)
    requires forall r :: r in records ==> r.response.Some?
    ensures r == Built(env, avoidSameModel, records)
  {
    var reps := EarliestPerKey(records);
    var keys, byBenchmark := GroupBy(BenchmarkIdOf, reps);
    var order := SortBy(EntryLeq(reps), keys);
    OrderIsBenchmarks(reps);
    var items, mapping, last := EmitAll(env, avoidSameModel, reps, order, byBenchmark);
    r := PairSet(SortBy(LexLeq, keys), items, mapping);
  }

  method EmitAll(env: Env, avoidSameModel: bool, ghost reps: seq<RunRecord>, order: seq<JsString>,
      byBenchmark: map<JsString, seq<RunRecord>>)
    returns (items: seq<PairItem>, mapping: seq<PairEntry>, ghost last: Shuffle.U32)
    requires forall b :: b in order ==> b in byBenchmark && byBenchmark[b] == Group(BenchmarkIdOf, reps, b)
    ensures Emitted(env, PairSeed(env), Concat(PairLists(env, avoidSameModel, reps, order)), items, mapping, last)
  {
    hide Emitted, Concat, PairLists, Group, SortBy, Filter, Pairs;
    var rng := Shuffle.MakeRng(PairSeed(env));
    items, mapping := [], [];
    ghost var pairs := [];
    NothingEmitted(env, avoidSameModel, reps, order[..0], PairSeed(env));
    for i := 0 to |order|
      invariant pairs == Concat(PairLists(env, avoidSameModel, reps, order[..i]))
      invariant rng.source == Shuffle.MULBERRY32 && Emitted(env, PairSeed(env), pairs, items, mapping, rng.a)
    {
      assert order[..i + 1][..i] == order[..i];
      PairsGrow(env, avoidSameModel, reps, order[..i + 1]);
      var sorted := SortBy(TargetLeq(env.collate), byBenchmark[order[i]]);
      items, mapping := EmitBenchmark(env, avoidSameModel, sorted, rng, items, mapping, PairSeed(env), pairs);
      pairs := pairs + BenchmarkPairs(env, avoidSameModel, reps, order[i]);
    }
    assert order[..|order|] == order;
    last := rng.a;
  }

  lemma NothingEmitted(env: Env, avoidSameModel: bool, reps: seq<RunRecord>, ks: seq<JsString>, a: Shuffle.U32)
    requires ks == []
    ensures Concat(PairLists(env, avoidSameModel, reps, ks)) == [] && Emitted(env, a, [], [], [], a)
  {
  }

  lemma PairsGrow(env: Env, avoidSameModel: bool, reps: seq<RunRecord>, ks: seq<JsString>)
    requires ks != []
    ensures var n := |ks| - 1;
      Concat(PairLists(env, avoidSameModel, reps, ks))
        == Concat(PairLists(env, avoidSameModel, reps, ks[..n])) + BenchmarkPairs(env, avoidSameModel, reps, ks[n])
  {
    hide BenchmarkPairs;
    var lists := PairLists(env, avoidSameModel, reps, ks);
    assert lists[..|ks| - 1] == PairLists(env, avoidSameModel, reps, ks[..|ks| - 1]);
  }

  // ------------------------------------------------------------------ both packets

  /** The public pairwise set. */
  datatype PairPacket = PairPacket(
    schemaVersion: nat,
    reviewSetId: JsString,
    createdAt: JsString,
    locale: JsString,
    purpose: JsString,
    excludeFromModelQualification: bool,
    benchmarkIds: seq<JsString>,
    randomization: Randomization,
    items: seq<PairItem>)

  /** The private mapping with its pairwise part. */
  datatype FullMapping = FullMapping(main: PrivateMapping, pairwise: Option<seq<PairEntry>>)

  /** It shares the main packet's header and hashes. */
  function PairPacketOf(packet: Packet, built: PairSet): PairPacket {
    PairPacket(packet.schemaVersion, packet.reviewSetId, packet.createdAt, packet.locale, packet.purpose,
               packet.excludeFromModelQualification, built.benchmarkIds,
               packet.randomization.(pairwise := true), built.items)
  }

  /** `generateBlindReviewSet`: both packets, the pairwise one only if configured. */
  method GenerateReview(env: Env, avoidSameModel: bool, records: seq<RunRecord>)
    returns (packet: Packet, pairs: Option<PairPacket>, mapping: FullMapping, manifest: Manifest)
    requires BlindId.Assignable(Source(env), Ids(records))
    requires forall r :: r in records ==> r.response.Some?
    ensures packet == PublicSet(env, records) && manifest == ManifestOf(env, packet)
    ensures mapping.main == MappingOf(env, packet, Entries(env, Table(env, records), records),
                                      Redactions(env, Table(env, records), records))
    ensures mapping.pairwise == if env.pairwise then Some(Built(env, avoidSameModel, records).mapping) else None
    ensures pairs
      == if env.pairwise then Some(PairPacketOf(packet, Built(env, avoidSameModel, records))) else None
  {
    hide PublicSet, Table, Built, Redactions;
    var main;
    packet, main, manifest := GenerateBlindReviewSet(env, records);
    mapping, pairs := FullMapping(main, None), None;
    if env.pairwise {
      var built := BuildPairwise(env, avoidSameModel, records);
      mapping, pairs := FullMapping(main, Some(built.mapping)), Some(PairPacketOf(packet, built));
    }
  }
}
