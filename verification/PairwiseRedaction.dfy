/** The exclude policy and the pairwise packet (src/blind/generator.ts). */
module PairwiseRedaction {
  import opened BlindId
  import opened Generator
  import opened Groups
  import opened Js
  import opened Order
  import opened Pairwise
  import opened Records

  function Response(r: RunRecord): JsString { OrElse(r.response, []) }

  /** A representative with another target to be compared with on its benchmark. */
  ghost predicate HasRival(records: seq<RunRecord>, r: RunRecord) {
    && r in Representatives(records)
    && exists q :: q in Representatives(records) && q.benchmarkId == r.benchmarkId && q.targetId != r.targetId
  }

  lemma PairedAreRivals(env: Env, avoidSameModel: bool, records: seq<RunRecord>, p: (RunRecord, RunRecord))
    requires TotalPreorder(env.collate) && p in AllPairs(env, avoidSameModel, records)
    ensures HasRival(records, p.0) && HasRival(records, p.1) && p.0.benchmarkId == p.1.benchmarkId
  {
    PairFromRecords(env, avoidSameModel, records, p);
  }

  lemma RivalIsPaired(env: Env, avoidSameModel: bool, records: seq<RunRecord>, r: RunRecord)
    returns (p: (RunRecord, RunRecord))
    requires TotalPreorder(env.collate) && HasRival(records, r)
    ensures p in AllPairs(env, avoidSameModel, records) && (p.0 == r || p.1 == r)
  {
    var b, t := r.benchmarkId, r.targetId;
    var q :| q in Representatives(records) && q.benchmarkId == b && q.targetId != t;
    p := PairJoining(env, avoidSameModel, records, b, t, q.targetId);
    PairFromRecords(env, avoidSameModel, records, p);
    hide AllPairs, Representatives;
    SameTargetSameRun(records, if p.0.targetId == t then p.0 else p.1, r);
  }

  // ------------------------------------------------------------- the texts shown

  /** The texts of an item that the redaction of the main packet would scan. */
  function ItemTexts(item: PairItem): seq<JsString> {
    [item.taskText, OrElse(item.expectedOutputFormat, []), JoinLines(OrElse(item.requiredConstraints, [])),
     item.responseA, item.responseB]
  }

  /** The scanned texts of one run, extracted files aside. */
  function RunTexts(env: Env, r: RunRecord): seq<JsString> {
    var item := RawItem(env, map[], r);
    [item.taskText, OrElse(item.expectedOutputFormat, []), JoinLines(OrElse(item.requiredConstraints, [])),
     item.responseText]
  }

  lemma TextsOfPair(env: Env, p: (RunRecord, RunRecord), flip: bool, text: JsString)
    requires p.0.benchmarkId == p.1.benchmarkId
    ensures text in ItemTexts(ItemOfPair(env, p, flip)) <==> text in RunTexts(env, p.0) || text in RunTexts(env, p.1)
  {
  }

  lemma ResponsesOfPair(env: Env, p: (RunRecord, RunRecord), flip: bool)
    ensures var item := ItemOfPair(env, p, flip);
      (item.responseA == Response(p.0) && item.responseB == Response(p.1))
      || (item.responseA == Response(p.1) && item.responseB == Response(p.0))
  {
  }

  lemma ItemOfRival(env: Env, avoidSameModel: bool, records: seq<RunRecord>, flips: seq<bool>, r: RunRecord)
    returns (p: (RunRecord, RunRecord), flip: bool)
    requires TotalPreorder(env.collate) && |flips| == |AllPairs(env, avoidSameModel, records)|
    requires HasRival(records, r)
    ensures p in AllPairs(env, avoidSameModel, records) && (p.0 == r || p.1 == r)
    ensures ItemOfPair(env, p, flip) in PairSetFor(env, avoidSameModel, records, flips).items
  {
    hide AllPairs, ItemOfPair, EntryOfPair, HasRival, Representatives, SortBy, Keys, Mapping;
    var pairs := AllPairs(env, avoidSameModel, records);
    p := RivalIsPaired(env, avoidSameModel, records, r);
    var i :| 0 <= i < |pairs| && pairs[i] == p;
    flip := flips[i];
    assert Items(env, pairs, flips)[i] == ItemOfPair(env, p, flip);
  }

  lemma PairOfItem(env: Env, avoidSameModel: bool, records: seq<RunRecord>, flips: seq<bool>, item: PairItem)
    returns (p: (RunRecord, RunRecord), flip: bool)
    requires TotalPreorder(env.collate) && |flips| == |AllPairs(env, avoidSameModel, records)|
    requires item in PairSetFor(env, avoidSameModel, records, flips).items
    ensures item == ItemOfPair(env, p, flip) && p.0.benchmarkId == p.1.benchmarkId
    ensures HasRival(records, p.0) && HasRival(records, p.1)
  {
    var pairs := AllPairs(env, avoidSameModel, records);
    hide AllPairs, ItemOfPair, HasRival;
    var i :| 0 <= i < |pairs| && Items(env, pairs, flips)[i] == item;
    p, flip := pairs[i], flips[i];
    PairedAreRivals(env, avoidSameModel, records, p);
  }

  /** Whatever the coin flips, the texts shown are those of the representatives with a rival. */
  lemma ShownTexts(env: Env, avoidSameModel: bool, records: seq<RunRecord>, flips: seq<bool>, text: JsString)
    requires TotalPreorder(env.collate) && |flips| == |AllPairs(env, avoidSameModel, records)|
    ensures (exists item :: item in PairSetFor(env, avoidSameModel, records, flips).items && text in ItemTexts(item))
      <==> exists r :: HasRival(records, r) && text in RunTexts(env, r)
  {
    hide HasRival, ItemTexts, RunTexts, ItemOfPair, PairSetFor;
    var items := PairSetFor(env, avoidSameModel, records, flips).items;
    if item :| item in items && text in ItemTexts(item) {
      var p, flip := PairOfItem(env, avoidSameModel, records, flips, item);
      TextsOfPair(env, p, flip, text);
      assert HasRival(records, p.0) && HasRival(records, p.1);
    }
    if r :| HasRival(records, r) && text in RunTexts(env, r) {
      var p, flip := ItemOfRival(env, avoidSameModel, records, flips, r);
      PairedAreRivals(env, avoidSameModel, records, p);
      TextsOfPair(env, p, flip, text);
      assert ItemOfPair(env, p, flip) in items;
    }
  }

  ghost predicate ItemClean(env: Env, item: PairItem) {
    forall text :: text in ItemTexts(item) ==> env.scan(text) == []
  }

  ghost predicate RunClean(env: Env, r: RunRecord) {
    forall text :: text in RunTexts(env, r) ==> env.scan(text) == []
  }

  /** Whatever the coin flips, no text of the pairwise packet trips the scan exactly when no text of
      a representative with a rival does. */
  lemma PacketCleanIffRivalsClean(env: Env, avoidSameModel: bool, records: seq<RunRecord>, flips: seq<bool>)
    requires TotalPreorder(env.collate) && |flips| == |AllPairs(env, avoidSameModel, records)|
    ensures (forall item :: item in PairSetFor(env, avoidSameModel, records, flips).items ==> ItemClean(env, item))
      <==> forall r :: HasRival(records, r) ==> RunClean(env, r)
  {
    hide HasRival, ItemTexts, RunTexts, PairSetFor;
    var items := PairSetFor(env, avoidSameModel, records, flips).items;
    if forall item :: item in items ==> ItemClean(env, item) {
      forall r, text | HasRival(records, r) && text in RunTexts(env, r) ensures env.scan(text) == [] {
        ShownTexts(env, avoidSameModel, records, flips, text);
        var item :| item in items && text in ItemTexts(item);
      }
    }
    if forall r :: HasRival(records, r) ==> RunClean(env, r) {
      forall item, text | item in items && text in ItemTexts(item) ensures env.scan(text) == [] {
        ShownTexts(env, avoidSameModel, records, flips, text);
        var r :| HasRival(records, r) && text in RunTexts(env, r);
      }
    }
  }

  ghost predicate AnswersClean(env: Env, item: PairItem) {
    env.scan(item.responseA) == [] && env.scan(item.responseB) == []
  }

  /** The same for the two responses alone: they are clean exactly when the responses of the
      representatives with a rival are. */
  lemma AnswersCleanIffRivalsClean(env: Env, avoidSameModel: bool, records: seq<RunRecord>, flips: seq<bool>)
    requires TotalPreorder(env.collate) && |flips| == |AllPairs(env, avoidSameModel, records)|
    ensures (forall item :: item in PairSetFor(env, avoidSameModel, records, flips).items ==> AnswersClean(env, item))
      <==> forall r :: HasRival(records, r) ==> env.scan(Response(r)) == []
  {
    hide HasRival, ItemOfPair, PairSetFor;
    var items := PairSetFor(env, avoidSameModel, records, flips).items;
    if forall item :: item in items ==> AnswersClean(env, item) {
      forall r | HasRival(records, r) ensures env.scan(Response(r)) == [] {
        var p, flip := ItemOfRival(env, avoidSameModel, records, flips, r);
        ResponsesOfPair(env, p, flip);
        assert AnswersClean(env, ItemOfPair(env, p, flip));
      }
    }
    if forall r :: HasRival(records, r) ==> env.scan(Response(r)) == [] {
      forall item | item in items ensures AnswersClean(env, item) {
        var p, flip := PairOfItem(env, avoidSameModel, records, flips, item);
        ResponsesOfPair(env, p, flip);
        assert HasRival(records, p.0) && HasRival(records, p.1);
      }
    }
  }

  /** Without key clashes a representative has a rival exactly when another target has a run on its
      benchmark. */
  lemma RivalIffOtherTarget(records: seq<RunRecord>, r: RunRecord)
    requires KeysFaithful(records) && r in Representatives(records)
    ensures HasRival(records, r)
      <==> exists q :: q in records && q.benchmarkId == r.benchmarkId && q.targetId != r.targetId
  {
    RepresentativesPerKey(records);
    AllRepresentedIffFaithful(records);
    if q :| q in records && q.benchmarkId == r.benchmarkId && q.targetId != r.targetId {
      assert Represented(records, q);
    }
  }

  // ------------------------------------------------------------- an excluded run

  predicate ShowsAnswer(item: PairItem, r: RunRecord) {
    item.responseA == Response(r) || item.responseB == Response(r)
  }

  lemma LeakingResponse(env: Env, table: map<JsString, JsString>, r: RunRecord)
    requires env.policy == Exclude && env.scan(Response(r)) != []
    ensures !Keeps(env, table, r)
  {
    var item := RawItem(env, table, r);
    assert ScannedFields(item)[1].1 == Response(r);
    assert ScannedFields(item)[1] in ScannedFields(item);
  }

  /** Under the exclude policy no item of the main packet has the blind id of a run whose answer
      trips the scan. */
  lemma LeakingRunAbsent(env: Env, records: seq<RunRecord>, r: RunRecord)
    requires TotalPreorder(env.collate) && Assignable(Source(env), Ids(records)) && Distinct(Ids(records))
    requires env.policy == Exclude && r in records && env.scan(Response(r)) != []
    ensures forall item :: item in PublicSet(env, records).items ==>
      item.blindId != BlindIdOf(Table(env, records), r)
  {
    var table, items := Table(env, records), PublicSet(env, records).items;
    LeakingResponse(env, table, r);
    PublicSetIsKeptItems(env, records);
    hide PublicSet, Keeps, ItemOf, Assignable, Table, Response, BlindIdOf, RawItems;
    SameElements(items, RawItems(env, table, records));
    RawItemsMembers(env, table, records);
    forall item | item in items ensures item.blindId != BlindIdOf(table, r) {
      var q :| q in records && Keeps(env, table, q) && ItemOf(env, table, q) == item;
      ItemKeepsNames(env, table, q);
      BlindIdsDiffer(env, records, q, r);
    }
  }

  /** Such a run is kept out of the main packet, and the pairwise packet shows its answer if it has
      a rival. */
  lemma ExcludedRunIsShown(env: Env, avoidSameModel: bool, records: seq<RunRecord>, r: RunRecord)
    requires TotalPreorder(env.collate) && Assignable(Source(env), Ids(records)) && Distinct(Ids(records))
    requires env.policy == Exclude && HasRival(records, r) && env.scan(Response(r)) != []
    ensures forall item :: item in PublicSet(env, records).items ==>
      item.blindId != BlindIdOf(Table(env, records), r)
    ensures exists item :: item in Built(env, avoidSameModel, records).items && ShowsAnswer(item, r)
  {
    hide PublicSet, Assignable, Table, BlindIdOf, AllPairs, FlipsFrom, ItemOfPair, PairSetFor;
    RepresentativesPerKey(records);
    LeakingRunAbsent(env, records, r);
    hide Representatives;
    var flips := FlipsFrom(Shuffle.MULBERRY32, PairSeed(env), |AllPairs(env, avoidSameModel, records)|);
    var p, flip := ItemOfRival(env, avoidSameModel, records, flips, r);
    ResponsesOfPair(env, p, flip);
    assert ShowsAnswer(ItemOfPair(env, p, flip), r);
  }

  /** A run of target `t` on the benchmark "b". */
  function SampleRun(t: JsString, answer: JsString): RunRecord {
    RunRecord(t, Lit("b"), [], None, None, None, None, None, t, None, Some(answer))
  }

  lemma TwoTargetsAreRivals(q: RunRecord, r: RunRecord)
    requires Kebab(q.benchmarkId) && q.benchmarkId == r.benchmarkId && q.targetId != r.targetId
    ensures HasRival([q, r], q)
  {
    hide Representatives, Separable, Kebab, KeyText;
    var records := [q, r];
    KebabSeparable(q.benchmarkId);
    SeparableIdsFaithful(records);
    OnlyRunOfTarget(records, q);
    assert r in records;
    RivalIffOtherTarget(records, q);
  }

  /** Two targets with a run each on one benchmark, the answer of the first tripping the scan: the
      exclude policy keeps it out of the main packet, and the pairwise packet shows it. */
  lemma ExcludedRunExample(env: Env, avoidSameModel: bool, answer: JsString, other: JsString)
    requires TotalPreorder(env.collate) && env.policy == Exclude && env.scan(answer) != []
    requires Assignable(Source(env), Ids([SampleRun(Lit("s"), answer), SampleRun(Lit("t"), other)]))
    ensures var r := SampleRun(Lit("s"), answer); var records := [r, SampleRun(Lit("t"), other)];
      && (forall item :: item in PublicSet(env, records).items ==>
            item.blindId != BlindIdOf(Table(env, records), r))
      && exists item :: item in Built(env, avoidSameModel, records).items && ShowsAnswer(item, r)
  {
    var q, r := SampleRun(Lit("s"), answer), SampleRun(Lit("t"), other);
    assert Lit("s")[0] != Lit("t")[0];
    hide HasRival, PublicSet, Built, Assignable;
    TwoTargetsAreRivals(q, r);
    assert Ids([q, r]) == [q.runRecordId, r.runRecordId];
    ExcludedRunIsShown(env, avoidSameModel, [q, r], q);
  }
}
