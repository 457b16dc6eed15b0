/** From shown pairs to tallies (src/blind/generator.ts, src/blind/analysis.ts). */
module Attribution {
  import opened BlindId
  import opened Generator
  import opened Js
  import opened Order
  import opened Pairwise
  import opened Records
  import opened WinRate

  /** A reviewer's choice on the item at this place of the packet. */
  datatype Judgment = Judgment(item: nat, choice: Choice)

  predicate JudgesItems(n: nat, judgments: seq<Judgment>) {
    forall i :: 0 <= i < |judgments| ==> judgments[i].item < n
  }

  /** The reviews handed in: all they say of the item is its blind id. */
  function ReviewsOf(mapping: seq<PairEntry>, judgments: seq<Judgment>): (r: seq<Review>)
    requires JudgesItems(|mapping|, judgments)
    ensures |r| == |judgments|
  {
    if judgments == [] then []
    else
      var j := judgments[|judgments| - 1];
      ReviewsOf(mapping, judgments[..|judgments| - 1]) + [Review(mapping[j.item].blindId, j.choice)]
  }

  function BumpsOn(e: PairEntry, choice: Choice): seq<Bump> {
    [Bump(e.aTargetId, AWin(choice)), Bump(e.bTargetId, BWin(choice))]
  }

  /** The wins read off the judged entries themselves, without going through blind ids. */
  function DirectBumps(mapping: seq<PairEntry>, judgments: seq<Judgment>): seq<Bump>
    requires JudgesItems(|mapping|, judgments)
  {
    if judgments == [] then []
    else
      var j := judgments[|judgments| - 1];
      DirectBumps(mapping, judgments[..|judgments| - 1]) + BumpsOn(mapping[j.item], j.choice)
  }

  /** Entries that share a blind id name the same targets on the same sides. */
  ghost predicate SharedIdsAgree(mapping: seq<PairEntry>) {
    forall i, j :: 0 <= i < |mapping| && 0 <= j < |mapping| && mapping[i].blindId == mapping[j].blindId
      ==> mapping[i].aTargetId == mapping[j].aTargetId && mapping[i].bTargetId == mapping[j].bTargetId
  }

  ghost predicate SameTallies(s: seq<Bump>, t: seq<Bump>) {
    forall target :: TallyOf(s, target) == TallyOf(t, target)
  }

  /** Going through the blind ids credits every target as the judged entries do. */
  ghost predicate Credits(mapping: seq<PairEntry>, judgments: seq<Judgment>)
    requires JudgesItems(|mapping|, judgments)
  {
    SameTallies(Bumps(Index(mapping), ReviewsOf(mapping, judgments)), DirectBumps(mapping, judgments))
  }

  lemma {:induction false} IndexFinds(mapping: seq<PairEntry>, i: nat) returns (j: nat)
    requires i < |mapping|
    ensures j < |mapping| && mapping[j].blindId == mapping[i].blindId
    ensures mapping[i].blindId in Index(mapping) && Index(mapping)[mapping[i].blindId] == mapping[j]
  {
    var n := |mapping| - 1;
    if mapping[n].blindId == mapping[i].blindId {
      j := n;
    } else {
      j := IndexFinds(mapping[..n], i);
    }
  }

  lemma {:induction false} AgreeingIdsCredit(mapping: seq<PairEntry>, judgments: seq<Judgment>)
    requires SharedIdsAgree(mapping) && JudgesItems(|mapping|, judgments)
    ensures Bumps(Index(mapping), ReviewsOf(mapping, judgments)) == DirectBumps(mapping, judgments)
  {
    if judgments != [] {
      var n := |judgments| - 1;
      AgreeingIdsCredit(mapping, judgments[..n]);
      var k := IndexFinds(mapping, judgments[n].item);
      hide Index, AWin, BWin;
      var reviews := ReviewsOf(mapping, judgments);
      assert reviews[..n] == ReviewsOf(mapping, judgments[..n]);
    }
  }

  lemma TallyOfTwo(x: Bump, y: Bump, t: JsString)
    requires x.target != y.target
    ensures TallyOf([x, y], t) == if t == x.target then Tally(x.win, 1) else if t == y.target then Tally(y.win, 1)
                                  else Tally(0.0, 0)
  {
    TallyGrows([], x, t);
    TallyGrows([x], y, t);
    assert [x] + [y] == [x, y] && [] + [x] == [x];
    NotTallied([], t);
    hide TallyOf;
  }

  lemma OneJudgment(mapping: seq<PairEntry>, i: nat)
    requires i < |mapping|
    ensures ReviewsOf(mapping, [Judgment(i, AClearly)]) == [Review(mapping[i].blindId, AClearly)]
    ensures DirectBumps(mapping, [Judgment(i, AClearly)])
      == [Bump(mapping[i].aTargetId, 1.0), Bump(mapping[i].bTargetId, 0.0)]
  {
    assert [Judgment(i, AClearly)][..0] == [];
  }

  /** Every set of judgments is credited to the targets judged exactly when entries that share a
      blind id agree on their targets. */
  lemma CreditsIffSharedIdsAgree(mapping: seq<PairEntry>)
    requires forall e :: e in mapping ==> e.aTargetId != e.bTargetId
    ensures (forall judgments :: JudgesItems(|mapping|, judgments) ==> Credits(mapping, judgments))
      <==> SharedIdsAgree(mapping)
  {
    hide TallyOf, Bumps, Index;
    if SharedIdsAgree(mapping) {
      forall judgments | JudgesItems(|mapping|, judgments) ensures Credits(mapping, judgments) {
        AgreeingIdsCredit(mapping, judgments);
      }
    }
    if forall judgments :: JudgesItems(|mapping|, judgments) ==> Credits(mapping, judgments) {
      forall i, j | 0 <= i < |mapping| && 0 <= j < |mapping| && mapping[i].blindId == mapping[j].blindId
        ensures mapping[i].aTargetId == mapping[j].aTargetId && mapping[i].bTargetId == mapping[j].bTargetId
      {
        CreditedAlike(mapping, i, j);
      }
    }
  }

  lemma CreditedAlike(mapping: seq<PairEntry>, i: nat, j: nat)
    requires i < |mapping| && j < |mapping| && mapping[i].blindId == mapping[j].blindId
    requires forall e :: e in mapping ==> e.aTargetId != e.bTargetId
    requires Credits(mapping, [Judgment(i, AClearly)]) && Credits(mapping, [Judgment(j, AClearly)])
    ensures mapping[i].aTargetId == mapping[j].aTargetId && mapping[i].bTargetId == mapping[j].bTargetId
  {
    hide TallyOf, Bumps, Index;
    var d, e := mapping[i], mapping[j];
    assert d in mapping && e in mapping;
    OneJudgment(mapping, i);
    OneJudgment(mapping, j);
    TallyOfTwo(Bump(d.aTargetId, 1.0), Bump(d.bTargetId, 0.0), d.aTargetId);
    TallyOfTwo(Bump(d.aTargetId, 1.0), Bump(d.bTargetId, 0.0), d.bTargetId);
    TallyOfTwo(Bump(e.aTargetId, 1.0), Bump(e.bTargetId, 0.0), d.aTargetId);
    TallyOfTwo(Bump(e.aTargetId, 1.0), Bump(e.bTargetId, 0.0), d.bTargetId);
  }

  // ------------------------------------------------------------- the pairwise packet

  /** The wins read off the runs shown: A's and B's targets under this flip. */
  function ShownBumps(p: (RunRecord, RunRecord), flip: bool, choice: Choice): seq<Bump> {
    var shown := Shown(p, flip);
    [Bump(shown.0.targetId, AWin(choice)), Bump(shown.1.targetId, BWin(choice))]
  }

  function ShownWins(pairs: seq<(RunRecord, RunRecord)>, flips: seq<bool>, judgments: seq<Judgment>): seq<Bump>
    requires |flips| == |pairs| && JudgesItems(|pairs|, judgments)
  {
    if judgments == [] then []
    else
      var j := judgments[|judgments| - 1];
      ShownWins(pairs, flips, judgments[..|judgments| - 1]) + ShownBumps(pairs[j.item], flips[j.item], j.choice)
  }

  lemma {:induction false} ShownAreDirect(env: Env, pairs: seq<(RunRecord, RunRecord)>, flips: seq<bool>,
      judgments: seq<Judgment>)
    requires |flips| == |pairs| && JudgesItems(|pairs|, judgments)
    ensures DirectBumps(Mapping(env, pairs, flips), judgments) == ShownWins(pairs, flips, judgments)
  {
    if judgments != [] { ShownAreDirect(env, pairs, flips, judgments[..|judgments| - 1]); }
  }

  function EntryId(e: PairEntry): JsString { e.blindId }

  lemma DistinctIdsAgree(mapping: seq<PairEntry>)
    requires Distinct(Map(EntryId, mapping))
    ensures SharedIdsAgree(mapping)
  {
    forall i, j | 0 <= i < |mapping| && 0 <= j < |mapping| && mapping[i].blindId == mapping[j].blindId
      ensures i == j
    {
      var ids := Map(EntryId, mapping);
      assert ids[i] == EntryId(mapping[i]) && ids[j] == EntryId(mapping[j]);
    }
  }

  /** Whatever the coin flips and the choices: if no two pairs share a blind id, every target is
      credited with exactly the wins and comparisons of the answers its runs were shown in. */
  lemma PairwiseUnblindingIsFaithful(env: Env, avoidSameModel: bool, records: seq<RunRecord>, flips: seq<bool>,
      judgments: seq<Judgment>, target: JsString)
    requires |flips| == |AllPairs(env, avoidSameModel, records)| && JudgesItems(|flips|, judgments)
    requires Distinct(Map(EntryId, PairSetFor(env, avoidSameModel, records, flips).mapping))
    ensures var mapping := PairSetFor(env, avoidSameModel, records, flips).mapping;
      TallyOf(Bumps(Index(mapping), ReviewsOf(mapping, judgments)), target)
      == TallyOf(ShownWins(AllPairs(env, avoidSameModel, records), flips, judgments), target)
  {
    var mapping := PairSetFor(env, avoidSameModel, records, flips).mapping;
    hide AllPairs, TallyOf, Bumps, Index, Distinct;
    DistinctIdsAgree(mapping);
    AgreeingIdsCredit(mapping, judgments);
    ShownAreDirect(env, AllPairs(env, avoidSameModel, records), flips, judgments);
  }

  /** The packet credits every set of judgments correctly exactly when pairs that share a blind id
      show the same targets on the same sides. */
  lemma PacketCreditsIffSharedIdsAgree(env: Env, avoidSameModel: bool, records: seq<RunRecord>, flips: seq<bool>)
    requires TotalPreorder(env.collate) && |flips| == |AllPairs(env, avoidSameModel, records)|
    ensures var mapping := PairSetFor(env, avoidSameModel, records, flips).mapping;
      (forall judgments :: JudgesItems(|mapping|, judgments) ==> Credits(mapping, judgments))
      <==> SharedIdsAgree(mapping)
  {
    var mapping := PairSetFor(env, avoidSameModel, records, flips).mapping;
    forall e | e in mapping ensures e.aTargetId != e.bTargetId {
      var i :| 0 <= i < |mapping| && mapping[i] == e;
      SidesMatch(env, avoidSameModel, records, flips, i);
    }
    hide PairSetFor, Credits, SharedIdsAgree, JudgesItems;
    CreditsIffSharedIdsAgree(mapping);
  }

  /** Different pairs can share a blind id under every key: the ids `a|b`, `c` and `a`, `b|c`. */
  lemma PairIdsMayCollide(mac: (JsString, JsString) -> seq<Byte>, seed: JsString)
    ensures PairwiseBlindId(mac, seed, Lit("a|b"), Lit("c")) == PairwiseBlindId(mac, seed, Lit("a"), Lit("b|c"))
  {
    PairIdOf(mac, seed, Lit("a|b"), Lit("c"));
    PairIdOf(mac, seed, Lit("a"), Lit("b|c"));
    hide PairwiseBlindId, RawId;
    assert Lit("a|b") + Lit("|") + Lit("c") == Lit("a") + Lit("|") + Lit("b|c");
  }

  lemma PairIdOf(mac: (JsString, JsString) -> seq<Byte>, seed: JsString, a: JsString, b: JsString)
    requires a != [] && b != [] && a[0] < b[0]
    ensures PairwiseBlindId(mac, seed, a, b)
      == Lit("P-") + RawId(IdSource(mac, seed, Lit("P")), a + Lit("|") + b, 0)
  {
    SortedTwo(a, b);
  }

  lemma SortedTwo(a: JsString, b: JsString)
    requires a != [] && b != [] && a[0] < b[0]
    ensures SortBy(LexLeq, [a, b]) == [a, b]
  {
    assert [a, b][1..] == [b] && [b][1..] == [];
    assert SortBy(LexLeq, [b]) == [b];
    assert LexLeq(a, b);
  }

  /** The entry that joins the representatives `q` and `r` of one benchmark. */
  lemma EntryJoining(env: Env, avoidSameModel: bool, records: seq<RunRecord>, flips: seq<bool>, q: RunRecord,
      r: RunRecord) returns (i: nat)
    requires TotalPreorder(env.collate) && |flips| == |AllPairs(env, avoidSameModel, records)|
    requires q in Representatives(records) && r in Representatives(records)
    requires q.benchmarkId == r.benchmarkId && q.targetId != r.targetId
    ensures i < |PairSetFor(env, avoidSameModel, records, flips).mapping|
    ensures var e := PairSetFor(env, avoidSameModel, records, flips).mapping[i];
      && e.blindId == PairwiseBlindId(env.mac, env.seed, q.runRecordId, r.runRecordId)
      && (e.aTargetId == q.targetId || e.aTargetId == r.targetId)
  {
    hide AllPairs, Representatives, PairwiseBlindId;
    var pairs, b := AllPairs(env, avoidSameModel, records), q.benchmarkId;
    var p := PairJoining(env, avoidSameModel, records, b, q.targetId, r.targetId);
    PairFromRecords(env, avoidSameModel, records, p);
    SameTargetSameRun(records, if p.0.targetId == q.targetId then p.0 else p.1, q);
    SameTargetSameRun(records, if p.0.targetId == q.targetId then p.1 else p.0, r);
    i :| 0 <= i < |pairs| && pairs[i] == p;
    PairwiseBlindIdSymmetric(env.mac, env.seed, q.runRecordId, r.runRecordId);
  }

  /** Two pairs of four targets that share a blind id: some choices are credited to targets that
      were not shown. */
  lemma SharedIdMiscredits(env: Env, avoidSameModel: bool, records: seq<RunRecord>, flips: seq<bool>,
      w: RunRecord, x: RunRecord, y: RunRecord, z: RunRecord)
    requires TotalPreorder(env.collate) && |flips| == |AllPairs(env, avoidSameModel, records)|
    requires forall r :: r in {w, x, y, z} ==> r in Representatives(records) && r.benchmarkId == w.benchmarkId
    requires Distinct(Map(TargetIdOf, [w, x, y, z]))
    requires PairwiseBlindId(env.mac, env.seed, w.runRecordId, x.runRecordId)
          == PairwiseBlindId(env.mac, env.seed, y.runRecordId, z.runRecordId)
    ensures var mapping := PairSetFor(env, avoidSameModel, records, flips).mapping;
      exists judgments :: JudgesItems(|mapping|, judgments) && !Credits(mapping, judgments)
  {
    hide AllPairs, Representatives, PairwiseBlindId, Credits, PairSetFor;
    var targets := Map(TargetIdOf, [w, x, y, z]);
    assert targets == [w.targetId, x.targetId, y.targetId, z.targetId];
    assert targets[0] != targets[1] && targets[2] != targets[3];
    assert targets[0] != targets[2] && targets[0] != targets[3] && targets[1] != targets[2] && targets[1] != targets[3];
    var i := EntryJoining(env, avoidSameModel, records, flips, w, x);
    var j := EntryJoining(env, avoidSameModel, records, flips, y, z);
    PacketCreditsIffSharedIdsAgree(env, avoidSameModel, records, flips);
  }

  /** A run on the benchmark "b" of the target with this one-letter name. */
  function RunOn(id: JsString, target: Unit): RunRecord {
    RunRecord(id, Lit("b"), [], None, None, None, None, None, [target], None, Some([]))
  }

  function CollidingRuns(): (r: seq<RunRecord>)
    ensures |r| == 4
    ensures r[0].runRecordId == Lit("a|b") && r[1].runRecordId == Lit("c")
    ensures r[2].runRecordId == Lit("a") && r[3].runRecordId == Lit("b|c")
  {
    [RunOn(Lit("a|b"), 0x77), RunOn(Lit("c"), 0x78), RunOn(Lit("a"), 0x79), RunOn(Lit("b|c"), 0x7a)]
  }

  lemma CollidingTargets()
    ensures var records := CollidingRuns();
      && records == [records[0], records[1], records[2], records[3]]
      && Distinct(Map(TargetIdOf, records))
      && forall r :: r in records ==> r in Representatives(records) && r.benchmarkId == records[0].benchmarkId
  {
    hide Representatives;
    var records := CollidingRuns();
    assert Map(TargetIdOf, records) == [[0x77], [0x78], [0x79], [0x7a]];
    assert Kebab(Lit("b"));
    AllRepresent(records);
  }

  /** The instance, whatever the key, the collation and the coin flips. */
  lemma CollidingIdsMiscredit(env: Env, avoidSameModel: bool, flips: seq<bool>)
    requires TotalPreorder(env.collate)
    requires |flips| == |AllPairs(env, avoidSameModel, CollidingRuns())|
    ensures var mapping := PairSetFor(env, avoidSameModel, CollidingRuns(), flips).mapping;
      exists judgments :: JudgesItems(|mapping|, judgments) && !Credits(mapping, judgments)
  {
    var records := CollidingRuns();
    PairIdsMayCollide(env.mac, env.seed);
    CollidingTargets();
    hide CollidingRuns, AllPairs, Representatives, PairwiseBlindId, Credits, PairSetFor, Lit;
    SharedIdMiscredits(env, avoidSameModel, records, flips, records[0], records[1], records[2], records[3]);
  }
}
