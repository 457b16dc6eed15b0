/** Choosing which runs enter a blind review (src/blind/select.ts). */
module Select {
  import opened Groups
  import opened Js
  import opened Order
  import opened Records
  import Shuffle

  // ------------------------------------------------------------------ filtering

  datatype Filters = Filters(
    includePrototypes: bool,
    includeInfraValidation: bool,
    targets: Option<seq<JsString>>,
    benchmarks: Option<seq<JsString>>)

  /** `prototypes` holds the prototype flag of the suite's benchmark definitions that set one. */
  predicate IsPrototype(prototypes: map<JsString, bool>, r: RunRecord) {
    if r.prototype.Some? then r.prototype.value
    else r.benchmarkId in prototypes && prototypes[r.benchmarkId]
  }

  function Admits(prototypes: map<JsString, bool>, f: Filters): RunRecord -> bool {
    (r: RunRecord) =>
      && r.response.Some?
      && (f.includePrototypes || !IsPrototype(prototypes, r))
      && (f.targets.Some? ==> r.targetId in f.targets.value)
      && (f.benchmarks.Some? ==> r.benchmarkId in f.benchmarks.value)
  }

  function FilterRecords(records: seq<RunRecord>, prototypes: map<JsString, bool>, f: Filters,
      infraValidation: bool): seq<RunRecord> {
    if !f.includeInfraValidation && infraValidation then [] else Filter(Admits(prototypes, f), records)
  }

  // ----------------------------------------------------------- stratified picks

  /** The `i`-th of `count` evenly spread indices into `n` items. */
  function Slot(i: nat, n: nat, count: nat): nat
    requires count > 0
  {
    i * n / count
  }

  function Mul(a: int, b: int): int { a * b }

  lemma MulStep(c: int, x: int, y: int)
    ensures Mul(c, x + y) == Mul(c, x) + Mul(c, y)
    ensures Mul(c, 1) == c && Mul(c, 0) == 0
    ensures Mul(x, y) == Mul(y, x)
  {
  }

  lemma MulGrows(c: nat, x: int, y: int)
    requires x <= y
    ensures Mul(c, x) <= Mul(c, y)
  {
    MulNonNegative(c, y - x);
    MulStep(c, x, y - x);
  }

  lemma MulNonNegative(c: nat, x: nat)
    ensures Mul(c, x) >= 0
  {
  }

  /** Quotient and remainder are the only numbers that divide. */
  lemma QuotientUnique(a: int, c: nat, q: int, r: int)
    requires c > 0 && 0 <= r < c && a == Mul(c, q) + r
    ensures a / c == q
  {
    var d, e := a / c, a % c;
    assert a == Mul(c, d) + e;
    hide Mul;
    if d > q {
      MulStep(c, q, 1);
      MulGrows(c, q + 1, d);
      assert false;
    } else if d < q {
      MulStep(c, d, 1);
      MulGrows(c, d + 1, q);
      assert false;
    }
  }

  function CeilDiv(n: nat, count: nat): nat
    requires count > 0
  {
    (n + count - 1) / count
  }

  lemma CeilIs(n: nat, count: nat)
    requires count > 0
    ensures CeilDiv(n, count) == n / count + if n % count == 0 then 0 else 1
  {
    var q, r := n / count, n % count;
    assert n == Mul(count, q) + r;
    hide Mul;
    MulStep(count, q, 1);
    if r == 0 {
      QuotientUnique(n + count - 1, count, q, count - 1);
    } else {
      QuotientUnique(n + count - 1, count, q + 1, r - 1);
    }
  }

  /** Neighbouring slots lie floor(n/count) or ceil(n/count) apart. */
  lemma SlotGap(i: nat, n: nat, count: nat)
    requires count > 0 && i > 0
    ensures var gap := Slot(i, n, count) - Slot(i - 1, n, count);
      gap == n / count || gap == CeilDiv(n, count)
  {
    var a, b := Mul(n, i - 1), Mul(n, i);
    var q, r, k, m := n / count, n % count, a / count, a % count;
    assert n == Mul(count, q) + r && a == Mul(count, k) + m;
    assert Slot(i, n, count) == b / count && Slot(i - 1, n, count) == k;
    hide Mul, Slot;
    MulStep(n, i - 1, 1);
    MulStep(count, k, q);
    MulStep(count, k + q, 1);
    CeilIs(n, count);
    if m + r < count {
      QuotientUnique(b, count, k + q, m + r);
    } else {
      QuotientUnique(b, count, k + q + 1, m + r - count);
    }
  }

  lemma SlotInRange(i: nat, n: nat, count: nat)
    requires i < count && n > 0
    ensures Slot(i, n, count) < n
  {
    var a := Mul(n, i);
    var k, m := a / count, a % count;
    assert a == Mul(count, k) + m && Slot(i, n, count) == k;
    hide Mul, Slot;
    if k >= n {
      MulGrows(count, n, k);
      MulStep(n, i, 1);
      MulGrows(n, i + 1, count);
      MulStep(n, count, 0);
      MulStep(count, n, 0);
      assert false;
    }
  }

  lemma {:induction false} SlotsIncrease(i: nat, j: nat, n: nat, count: nat)
    requires count > 0 && i < j && n >= count
    ensures Slot(i, n, count) < Slot(j, n, count)
    decreases j - i
  {
    CeilIs(n, count);
    SlotGap(j, n, count);
    QuotientPositive(n, count);
    if i < j - 1 { SlotsIncrease(i, j - 1, n, count); }
  }

  lemma QuotientPositive(n: nat, count: nat)
    requires 0 < count <= n
    ensures n / count >= 1
  {
    var q := n / count;
    assert n == Mul(count, q) + n % count;
    hide Mul;
    if q <= 0 {
      MulGrows(count, q, 0);
      MulStep(count, 0, 0);
      assert false;
    }
  }

  /** The slots of a pick are in range, strictly increasing, starting at 0, and evenly spread. */
  lemma SlotsSpread(n: nat, count: nat)
    requires 0 < count < n
    ensures Slot(0, n, count) == 0
    ensures forall i :: 0 <= i < count ==> Slot(i, n, count) < n
    ensures forall i, j :: 0 <= i < j < count ==> Slot(i, n, count) < Slot(j, n, count)
    ensures forall i :: 0 < i < count ==>
      Slot(i, n, count) - Slot(i - 1, n, count) in {n / count, CeilDiv(n, count)}
  {
    forall i | 0 <= i < count ensures Slot(i, n, count) < n { SlotInRange(i, n, count); }
    forall i, j | 0 <= i < j < count ensures Slot(i, n, count) < Slot(j, n, count) { SlotsIncrease(i, j, n, count); }
    forall i | 0 < i < count ensures Slot(i, n, count) - Slot(i - 1, n, count) in {n / count, CeilDiv(n, count)} {
      SlotGap(i, n, count);
    }
  }

  // ------------------------------------------------------------------ selection

  /** `countPerTargetBenchmark` is optional and defaults to 1. */
  datatype Selection =
    | All
    | Explicit(runRecordIds: Option<seq<JsString>>)
    | Random(count: Option<nat>)
    | Stratified(count: Option<nat>)

  function CountOf(c: Option<nat>): nat { if c.Some? then c.value else 1 }

  /** Repetition index first, then the collation of the record ids. */
  function RunLeq(collate: (JsString, JsString) -> bool): (RunRecord, RunRecord) -> bool {
    (a: RunRecord, b: RunRecord) =>
      Repetition(a) < Repetition(b) || (Repetition(a) == Repetition(b) && collate(a.runRecordId, b.runRecordId))
  }

  lemma RunsOrdered(collate: (JsString, JsString) -> bool)
    requires TotalPreorder(collate)
    ensures TotalPreorder(RunLeq(collate))
  {
    var leq := RunLeq(collate);
    forall a, b ensures leq(a, b) || leq(b, a) {
      assert collate(a.runRecordId, b.runRecordId) || collate(b.runRecordId, a.runRecordId);
    }
    forall a, b, c | leq(a, b) && leq(b, c) ensures leq(a, c) {
      var x, y, z := a.runRecordId, b.runRecordId, c.runRecordId;
      assert collate(x, y) && collate(y, z) ==> collate(x, z);
    }
  }

  /** The group of key `k` in its base order. */
  function Ordered(collate: (JsString, JsString) -> bool, records: seq<RunRecord>, k: JsString): seq<RunRecord> {
    SortBy(RunLeq(collate), Group(GroupKey, records, k))
  }

  function OrderedGroups(collate: (JsString, JsString) -> bool, records: seq<RunRecord>,
      ks: seq<JsString>): (r: seq<seq<RunRecord>>)
    ensures |r| == |ks| && forall i :: 0 <= i < |ks| ==> r[i] == Ordered(collate, records, ks[i])
  {
    if ks == [] then []
    else OrderedGroups(collate, records, ks[..|ks| - 1]) + [Ordered(collate, records, ks[|ks| - 1])]
  }

  function Take<T>(s: seq<T>, count: nat): seq<T> { if count <= |s| then s[..count] else s }

  function PickSlots<T>(list: seq<T>, n: nat, count: nat, k: nat): (r: seq<T>)
    requires |list| == n && k <= count < n
    ensures |r| == k && forall i :: 0 <= i < k ==> Slot(i, n, count) < n && r[i] == list[Slot(i, n, count)]
  {
    if k == 0 then []
    else
      SlotInRange(k - 1, n, count);
      PickSlots(list, n, count, k - 1) + [list[Slot(k - 1, n, count)]]
  }

  function StratifiedPick<T>(list: seq<T>, count: nat): seq<T> {
    if count >= |list| then list else PickSlots(list, |list|, count, count)
  }

  function StratifiedPicks(lists: seq<seq<RunRecord>>, count: nat): (r: seq<seq<RunRecord>>)
    ensures |r| == |lists| && forall i :: 0 <= i < |lists| ==> r[i] == StratifiedPick(lists[i], count)
  {
    if lists == [] then []
    else StratifiedPicks(lists[..|lists| - 1], count) + [StratifiedPick(lists[|lists| - 1], count)]
  }

  /** How many numbers a shuffle of `n` items draws. */
  function DrawsFor(n: nat): nat { if n == 0 then 0 else n - 1 }

  /** The generator state after the groups before the last have been shuffled. */
  function StateAfter(g: Shuffle.Source, a: Shuffle.U32, lists: seq<seq<RunRecord>>): Shuffle.U32 {
    if lists == [] then a
    else Shuffle.After(g, StateAfter(g, a, lists[..|lists| - 1]), DrawsFor(|lists[|lists| - 1]|))
  }

  function RandomPick(g: Shuffle.Source, a: Shuffle.U32, list: seq<RunRecord>, count: nat): seq<RunRecord> {
    Take(Shuffle.Shuffled(list, Shuffle.Draws(g, a, |list|)), count)
  }

  /** One generator serves all groups in turn. */
  function RandomPicks(g: Shuffle.Source, a: Shuffle.U32, lists: seq<seq<RunRecord>>,
      count: nat): (r: seq<seq<RunRecord>>)
    ensures |r| == |lists|
  {
    if lists == [] then []
    else
      var init, last := lists[..|lists| - 1], lists[|lists| - 1];
      RandomPicks(g, a, init, count) + [RandomPick(g, StateAfter(g, a, init), last, count)]
  }

  /** A pick of `count` items: that many, or all there are, each taken at most as often as it occurs. */
  ghost predicate IsPick<T>(pick: seq<T>, list: seq<T>, count: nat) {
    && |pick| == (if count <= |list| then count else |list|)
    && multiset(pick) <= multiset(list)
  }

  lemma {:induction false} SlotsArePick<T>(list: seq<T>, n: nat, count: nat, k: nat, top: nat)
    requires k <= count < n == |list| && top <= n
    requires forall i :: 0 <= i < k ==> Slot(i, n, count) < top
    ensures multiset(PickSlots(list, n, count, k)) <= multiset(list[..top])
  {
    hide Slot, CeilDiv;
    if k > 0 {
      var s := Slot(k - 1, n, count);
      SlotsSpread(n, count);
      SlotsArePick(list, n, count, k - 1, s);
      ElementAfter(list, s, top);
    }
  }

  lemma ElementAfter<T>(list: seq<T>, i: nat, top: nat)
    requires i < top <= |list|
    ensures multiset(list[..i]) + multiset{list[i]} <= multiset(list[..top])
  {
    assert list[..top] == list[..i] + [list[i]] + list[i + 1..top];
  }

  lemma StratifiedIsPick<T>(list: seq<T>, count: nat)
    ensures IsPick(StratifiedPick(list, count), list, count)
  {
    if 0 < count < |list| {
      SlotsSpread(|list|, count);
      SlotsArePick(list, |list|, count, count, |list|);
      assert list[..|list|] == list;
    }
  }

  lemma RandomIsPick(g: Shuffle.Source, a: Shuffle.U32, list: seq<RunRecord>, count: nat)
    ensures IsPick(RandomPick(g, a, list, count), list, count)
  {
    var s := Shuffle.Shuffled(list, Shuffle.Draws(g, a, |list|));
    Shuffle.ShuffledKeeps(list, Shuffle.Draws(g, a, |list|));
    if count <= |s| { assert s == s[..count] + s[count..]; }
  }

  lemma {:induction false} RandomPicksPick(g: Shuffle.Source, a: Shuffle.U32, lists: seq<seq<RunRecord>>,
      count: nat, i: nat)
    requires i < |lists|
    ensures IsPick(RandomPicks(g, a, lists, count)[i], lists[i], count)
    decreases |lists|
  {
    var n := |lists| - 1;
    if i == n {
      RandomIsPick(g, StateAfter(g, a, lists[..n]), lists[n], count);
    } else {
      RandomPicksPick(g, a, lists[..n], count, i);
    }
  }

  /** `selectRecords` with a generator in state `a`. */
  function Selected(collate: (JsString, JsString) -> bool, g: Shuffle.Source, a: Shuffle.U32, records: seq<RunRecord>,
      selection: Selection): seq<RunRecord> {
    match selection
    case All => records
    case Explicit(ids) => Filter(Wanted(ids), records)
    case Random(count) =>
      Concat(RandomPicks(g, a, OrderedGroups(collate, records, Keys(GroupKey, records)), CountOf(count)))
    case Stratified(count) =>
      Concat(StratifiedPicks(OrderedGroups(collate, records, Keys(GroupKey, records)), CountOf(count)))
  }

  function Wanted(ids: Option<seq<JsString>>): RunRecord -> bool {
    (r: RunRecord) => ids.Some? && r.runRecordId in ids.value
  }

  /** The picks per group of a sampling mode. */
  function Picks(collate: (JsString, JsString) -> bool, g: Shuffle.Source, a: Shuffle.U32, records: seq<RunRecord>,
      selection: Selection): (r: seq<seq<RunRecord>>)
    requires selection.Random? || selection.Stratified?
    ensures |r| == |Keys(GroupKey, records)|
  {
    var lists := OrderedGroups(collate, records, Keys(GroupKey, records));
    if selection.Random? then RandomPicks(g, a, lists, CountOf(selection.count))
    else StratifiedPicks(lists, CountOf(selection.count))
  }

  lemma PickFromGroup(collate: (JsString, JsString) -> bool, g: Shuffle.Source, a: Shuffle.U32, records: seq<RunRecord>,
      selection: Selection, i: nat)
    requires TotalPreorder(collate) && (selection.Random? || selection.Stratified?)
    requires i < |Keys(GroupKey, records)|
    ensures IsPick(Picks(collate, g, a, records, selection)[i], Group(GroupKey, records, Keys(GroupKey, records)[i]),
      CountOf(selection.count))
  {
    var ks := Keys(GroupKey, records);
    var lists := OrderedGroups(collate, records, ks);
    RunsOrdered(collate);
    SortByCorrect(RunLeq(collate), Group(GroupKey, records, ks[i]));
    if selection.Random? {
      RandomPicksPick(g, a, lists, CountOf(selection.count), i);
    } else {
      StratifiedIsPick(lists[i], CountOf(selection.count));
    }
  }

  lemma PickMembers<T(!new)>(pick: seq<T>, list: seq<T>, count: nat)
    requires IsPick(pick, list, count)
    ensures forall x :: x in pick ==> x in list
  {
    forall x | x in pick ensures x in list {
      assert x in multiset(pick);
    }
  }

  lemma PicksKeyed(collate: (JsString, JsString) -> bool, g: Shuffle.Source, a: Shuffle.U32, records: seq<RunRecord>,
      selection: Selection)
    requires TotalPreorder(collate) && (selection.Random? || selection.Stratified?)
    ensures Keyed(GroupKey, Keys(GroupKey, records), Picks(collate, g, a, records, selection))
  {
    var ks := Keys(GroupKey, records);
    KeysDistinct(GroupKey, records);
    forall i | 0 <= i < |ks| ensures AllHaveKey(GroupKey, Picks(collate, g, a, records, selection)[i], ks[i]) {
      PickFromGroup(collate, g, a, records, selection, i);
      PickMembers(Picks(collate, g, a, records, selection)[i], Group(GroupKey, records, ks[i]),
        CountOf(selection.count));
      GroupMembers(GroupKey, records, ks[i]);
    }
  }

  lemma SampleIsPicks(collate: (JsString, JsString) -> bool, g: Shuffle.Source, a: Shuffle.U32,
      records: seq<RunRecord>, selection: Selection)
    requires selection.Random? || selection.Stratified?
    ensures Selected(collate, g, a, records, selection) == Concat(Picks(collate, g, a, records, selection))
  {
  }

  /** A sampling mode takes, from every group of one key, the configured number of records or the
      whole group if it is smaller, none twice, and nothing else. */
  lemma SamplesEveryGroup(collate: (JsString, JsString) -> bool, g: Shuffle.Source, a: Shuffle.U32,
      records: seq<RunRecord>, selection: Selection, k: JsString)
    requires TotalPreorder(collate) && (selection.Random? || selection.Stratified?)
    ensures var out := Selected(collate, g, a, records, selection);
      IsPick(Group(GroupKey, out, k), Group(GroupKey, records, k), CountOf(selection.count))
  {
    var ks := Keys(GroupKey, records);
    var picks := Picks(collate, g, a, records, selection);
    SampleIsPicks(collate, g, a, records, selection);
    PicksKeyed(collate, g, a, records, selection);
    hide Selected, Picks, Keys, Group, Concat;
    if k in ks {
      var i :| 0 <= i < |ks| && ks[i] == k;
      PickFromGroup(collate, g, a, records, selection, i);
      GroupInside(GroupKey, ks, picks, i);
    } else {
      GroupOutside(GroupKey, ks, picks, k);
      NoGroup(GroupKey, records, k);
    }
  }

  function RunsOf(b: JsString, t: JsString): RunRecord -> bool {
    (r: RunRecord) => r.benchmarkId == b && r.targetId == t
  }

  lemma {:induction false} RunsShareKey(s: seq<RunRecord>, b: JsString, t: JsString)
    requires Separable(b) && forall r :: r in s ==> Separable(r.benchmarkId)
    ensures Filter(RunsOf(b, t), s) == Group(GroupKey, s, KeyText(b, t))
  {
    hide Separable, KeyText;
    if s != [] {
      KeyNamesPair(s[0].benchmarkId, s[0].targetId, b, t);
      RunsShareKey(s[1..], b, t);
      assert RunsOf(b, t)(s[0]) == HasKey(GroupKey, KeyText(b, t))(s[0]);
    }
  }

  /** With separable benchmark ids every benchmark and target gets its own sample. */
  lemma SamplesEveryTarget(collate: (JsString, JsString) -> bool, g: Shuffle.Source, a: Shuffle.U32,
      records: seq<RunRecord>, selection: Selection, b: JsString, t: JsString)
    requires TotalPreorder(collate) && (selection.Random? || selection.Stratified?)
    requires forall r :: r in records ==> Separable(r.benchmarkId)
    ensures var out := Selected(collate, g, a, records, selection);
      IsPick(Filter(RunsOf(b, t), out), Filter(RunsOf(b, t), records), CountOf(selection.count))
  {
    hide Selected, Separable, Group, Filter;
    var out := Selected(collate, g, a, records, selection);
    SelectsOffered(collate, g, a, records, selection);
    if Separable(b) {
      RunsShareKey(records, b, t);
      RunsShareKey(out, b, t);
      SamplesEveryGroup(collate, g, a, records, selection, KeyText(b, t));
    } else {
      FilterNone(RunsOf(b, t), records);
      FilterNone(RunsOf(b, t), out);
    }
  }

  /** Nothing is selected that was not offered. */
  lemma SelectsOffered(collate: (JsString, JsString) -> bool, g: Shuffle.Source, a: Shuffle.U32,
      records: seq<RunRecord>, selection: Selection)
    requires TotalPreorder(collate)
    ensures forall x :: x in Selected(collate, g, a, records, selection) ==> x in records
  {
    if selection.Explicit? {
      FilterMembers(Wanted(selection.runRecordIds), records);
    } else if selection.Random? || selection.Stratified? {
      var ks, picks := Keys(GroupKey, records), Picks(collate, g, a, records, selection);
      ConcatMembers(picks);
      forall x | x in Selected(collate, g, a, records, selection) ensures x in records {
        var i :| 0 <= i < |picks| && x in picks[i];
        PickFromGroup(collate, g, a, records, selection, i);
        PickMembers(picks[i], Group(GroupKey, records, ks[i]), CountOf(selection.count));
        GroupMembers(GroupKey, records, ks[i]);
      }
    }
  }

  /** What `filterRecords` and `selectRecords` let through has a response to review. */
  lemma SelectedHaveResponses(
    collate: (JsString, JsString) -> bool, g: Shuffle.Source, a: Shuffle.U32, selection: Selection,
    records: seq<RunRecord>, prototypes: map<JsString, bool>, f: Filters, infraValidation: bool)
    requires TotalPreorder(collate)
    ensures var kept := FilterRecords(records, prototypes, f, infraValidation);
      forall r :: r in Selected(collate, g, a, kept, selection) ==> r in records && r.response.Some?
  {
    SelectsOffered(collate, g, a, FilterRecords(records, prototypes, f, infraValidation), selection);
    FilterMembers(Admits(prototypes, f), records);
  }

  /** A stratified sample of a group does not depend on the order in which the records arrive. */
  lemma StratifiedIgnoresOrder(
    collate: (JsString, JsString) -> bool, g: Shuffle.Source, a: Shuffle.U32, b: Shuffle.U32,
    records: seq<RunRecord>, others: seq<RunRecord>, count: Option<nat>, k: JsString)
    requires TotalPreorder(collate) && NoTies(RunLeq(collate), records)
    requires multiset(records) == multiset(others)
    ensures Group(GroupKey, Selected(collate, g, a, records, Stratified(count)), k)
         == Group(GroupKey, Selected(collate, g, b, others, Stratified(count)), k)
  {
    StratifiedGroup(collate, g, a, records, count, k);
    StratifiedGroup(collate, g, b, others, count, k);
    RunsOrdered(collate);
    FilterPermutes(HasKey(GroupKey, k), records, others);
    GroupMembers(GroupKey, records, k);
    SortCanonical(RunLeq(collate), Group(GroupKey, records, k), Group(GroupKey, others, k));
  }

  lemma StratifiedGroup(collate: (JsString, JsString) -> bool, g: Shuffle.Source, a: Shuffle.U32,
      records: seq<RunRecord>, count: Option<nat>, k: JsString)
    requires TotalPreorder(collate)
    ensures Group(GroupKey, Selected(collate, g, a, records, Stratified(count)), k)
         == StratifiedPick(Ordered(collate, records, k), CountOf(count))
  {
    var ks, picks := Keys(GroupKey, records), Picks(collate, g, a, records, Stratified(count));
    PicksKeyed(collate, g, a, records, Stratified(count));
    if k in ks {
      var i :| 0 <= i < |ks| && ks[i] == k;
      GroupInside(GroupKey, ks, picks, i);
    } else {
      GroupOutside(GroupKey, ks, picks, k);
      NoGroup(GroupKey, records, k);
    }
  }

  // ---------------------------------------------------------------- the methods

  /** The picking loop of the stratified mode. */
  method PickStratified(list: seq<RunRecord>, count: nat) returns (picked: seq<RunRecord>)
    ensures picked == StratifiedPick(list, count)
  {
    if count >= |list| { return list; }
    picked := [];
    for i := 0 to count
      invariant picked == PickSlots(list, |list|, count, i)
    {
      SlotInRange(i, |list|, count);
      picked := picked + [list[Slot(i, |list|, count)]];
    }
  }

  /** The shuffle of one group's copy, cut to `count`. */
  method PickRandom(list: seq<RunRecord>, count: nat, rng: Shuffle.Rng) returns (picked: seq<RunRecord>)
    modifies rng
    ensures picked == RandomPick(rng.source, old(rng.a), list, count)
    ensures rng.a == Shuffle.After(rng.source, old(rng.a), DrawsFor(|list|))
  {
    var copy := new RunRecord[|list|](k requires 0 <= k < |list| => list[k]);
    assert copy[..] == list;
    Shuffle.RunShuffles(rng.source, list, |list|, rng.a);
    assert list[..|list|] == list && list[|list|..] == [];
    Shuffle.ShuffleInPlace(copy, rng);
    picked := Take(copy[..], count);
  }

  /** `groupByTargetBenchmark`: the groups in order of first occurrence, each in its base order. */
  method GroupByTargetBenchmark(collate: (JsString, JsString) -> bool,
      records: seq<RunRecord>) returns (lists: seq<seq<RunRecord>>)
    ensures lists == OrderedGroups(collate, records, Keys(GroupKey, records))
  {
    var keys, groups := GroupBy(GroupKey, records);
    lists := [];
    for i := 0 to |keys|
      invariant lists == OrderedGroups(collate, records, keys[..i])
    {
      assert keys[..i + 1][..i] == keys[..i] && keys[i] in keys;
      lists := lists + [SortBy(RunLeq(collate), groups[keys[i]])];
    }
    assert keys[..|keys|] == keys;
  }

  /** `selectRecords`. */
  method SelectRecords(collate: (JsString, JsString) -> bool, records: seq<RunRecord>, selection: Selection,
      rng: Shuffle.Rng)
    returns (out: seq<RunRecord>)
    modifies rng
    ensures out == Selected(collate, rng.source, old(rng.a), records, selection)
    ensures !selection.Random? ==> rng.a == old(rng.a)
    ensures selection.Random? ==>
      rng.a == StateAfter(rng.source, old(rng.a), OrderedGroups(collate, records, Keys(GroupKey, records)))
  {
    match selection {
      case All => out := records;
      case Explicit(ids) => out := Filter(Wanted(ids), records);
      case Random(count) =>
        var lists := GroupByTargetBenchmark(collate, records);
        out := RandomFromEach(lists, CountOf(count), rng);
      case Stratified(count) =>
        var lists := GroupByTargetBenchmark(collate, records);
        out := StratifiedFromEach(lists, CountOf(count));
    }
  }

  method StratifiedFromEach(lists: seq<seq<RunRecord>>, count: nat) returns (out: seq<RunRecord>)
    ensures out == Concat(StratifiedPicks(lists, count))
  {
    out := [];
    for i := 0 to |lists|
      invariant out == Concat(StratifiedPicks(lists[..i], count))
    {
      assert lists[..i + 1][..i] == lists[..i];
      var picked := PickStratified(lists[i], count);
      out := out + picked;
    }
    assert lists[..|lists|] == lists;
  }

  method RandomFromEach(lists: seq<seq<RunRecord>>, count: nat, rng: Shuffle.Rng) returns (out: seq<RunRecord>)
    modifies rng
    ensures out == Concat(RandomPicks(rng.source, old(rng.a), lists, count))
    ensures rng.a == StateAfter(rng.source, old(rng.a), lists)
  {
    out := [];
    for i := 0 to |lists|
      invariant out == Concat(RandomPicks(rng.source, old(rng.a), lists[..i], count))
      invariant rng.a == StateAfter(rng.source, old(rng.a), lists[..i])
    {
      assert lists[..i + 1][..i] == lists[..i];
      var picked := PickRandom(lists[i], count, rng);
      out := out + picked;
    }
    assert lists[..|lists|] == lists;
  }
}
