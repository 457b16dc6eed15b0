/** Win rates of the pairwise reviews (src/blind/analysis.ts, `pairwiseWinRate`). */
module WinRate {
  import opened Algebra
  import opened Groups
  import opened Js
  import opened Order
  import opened Pairwise
  import opened Sums

  datatype Choice = AClearly | ASlightly | Equivalent | BSlightly | BClearly

  datatype Review = Review(blindId: JsString, choice: Choice)

  /** One side's result in one review. */
  datatype Bump = Bump(target: JsString, win: real)

  datatype Tally = Tally(wins: real, comparisons: nat)

  /** `new Map(mapping.map((m) => [m.blindId, m]))`: the last entry of a blind id counts. */
  function Index(mapping: seq<PairEntry>): map<JsString, PairEntry> {
    if mapping == [] then map[]
    else var e := mapping[|mapping| - 1]; Index(mapping[..|mapping| - 1])[e.blindId := e]
  }

  function AWin(c: Choice): real {
    match c
    case AClearly | ASlightly => 1.0
    case Equivalent => 0.5
    case BSlightly | BClearly => 0.0
  }

  function BWin(c: Choice): real {
    match c
    case AClearly | ASlightly => 0.0
    case Equivalent => 0.5
    case BSlightly | BClearly => 1.0
  }

  function BumpsOf(index: map<JsString, PairEntry>, review: Review): seq<Bump> {
    if review.blindId !in index then []
    else
      var m := index[review.blindId];
      [Bump(m.aTargetId, AWin(review.choice)), Bump(m.bTargetId, BWin(review.choice))]
  }

  function Bumps(index: map<JsString, PairEntry>, reviews: seq<Review>): seq<Bump> {
    if reviews == [] then []
    else Bumps(index, reviews[..|reviews| - 1]) + BumpsOf(index, reviews[|reviews| - 1])
  }

  function Matched(index: map<JsString, PairEntry>, reviews: seq<Review>): nat {
    if reviews == [] then 0
    else Matched(index, reviews[..|reviews| - 1]) + if reviews[|reviews| - 1].blindId in index then 1 else 0
  }

  function TargetOf(b: Bump): JsString { b.target }
  function WinOf(b: Bump): real { b.win }

  function WinSum(s: seq<Bump>): real { Sum(Map(WinOf, s)) }

  function TallyOf(bumps: seq<Bump>, target: JsString): Tally {
    Tally(WinSum(Group(TargetOf, bumps, target)), |Group(TargetOf, bumps, target)|)
  }

  function Rate(t: Tally): real { if t.comparisons == 0 then 0.0 else t.wins / (t.comparisons as real) }

  lemma WinSumLast(s: seq<Bump>)
    requires s != []
    ensures WinSum(s) == WinSum(s[..|s| - 1]) + s[|s| - 1].win
  {
    assert Map(WinOf, s)[..|s| - 1] == Map(WinOf, s[..|s| - 1]);
  }

  lemma WinSumAppend(a: seq<Bump>, b: seq<Bump>)
    ensures WinSum(a + b) == WinSum(a) + WinSum(b)
  {
    hide Sum;
    MapAppend(WinOf, a, b);
    SumAppend(Map(WinOf, a), Map(WinOf, b));
  }

  lemma {:induction false} WinSumInRange(s: seq<Bump>)
    requires forall b :: b in s ==> 0.0 <= b.win <= 1.0
    ensures 0.0 <= WinSum(s) <= |s| as real
  {
    if s != [] {
      WinSumInRange(s[..|s| - 1]);
      WinSumLast(s);
      hide WinSum;
      var n := |s| - 1;
      assert (n + 1) as real == n as real + 1.0;
    }
  }

  lemma {:induction false} BumpsInRange(index: map<JsString, PairEntry>, reviews: seq<Review>)
    ensures forall b :: b in Bumps(index, reviews) ==> 0.0 <= b.win <= 1.0
  {
    if reviews != [] { BumpsInRange(index, reviews[..|reviews| - 1]); }
  }

  /** Each matched review hands out one win in all, over two comparisons. */
  lemma {:induction false} BumpsTotal(index: map<JsString, PairEntry>, reviews: seq<Review>)
    ensures WinSum(Bumps(index, reviews)) == Matched(index, reviews) as real
    ensures |Bumps(index, reviews)| == 2 * Matched(index, reviews)
  {
    if reviews != [] {
      var n := |reviews| - 1;
      BumpsTotal(index, reviews[..n]);
      WinSumAppend(Bumps(index, reviews[..n]), BumpsOf(index, reviews[n]));
      OneWin(index, reviews[n]);
    }
  }

  lemma OneWin(index: map<JsString, PairEntry>, review: Review)
    ensures WinSum(BumpsOf(index, review)) == if review.blindId in index then 1.0 else 0.0
  {
    var b := BumpsOf(index, review);
    if b != [] {
      WinSumLast(b);
      WinSumLast(b[..1]);
    }
  }

  /** No win rate leaves [0, 1], and no target is credited more wins than comparisons. */
  lemma WinRatesInRange(mapping: seq<PairEntry>, reviews: seq<Review>, target: JsString)
    ensures var t := TallyOf(Bumps(Index(mapping), reviews), target);
      0.0 <= t.wins <= t.comparisons as real && 0.0 <= Rate(t) <= 1.0
  {
    var bumps := Bumps(Index(mapping), reviews);
    var group := Group(TargetOf, bumps, target);
    BumpsInRange(Index(mapping), reviews);
    GroupMembers(TargetOf, bumps, target);
    WinSumInRange(group);
    hide WinSum, Group, Bumps;
    if |group| > 0 { FractionInRange(WinSum(group), |group| as real); }
  }

  // ---------------------------------------------------------------- conservation

  function TotalWins(bumps: seq<Bump>, targets: seq<JsString>): real {
    if targets == [] then 0.0
    else TotalWins(bumps, targets[..|targets| - 1]) + TallyOf(bumps, targets[|targets| - 1]).wins
  }

  function TotalComparisons(bumps: seq<Bump>, targets: seq<JsString>): nat {
    if targets == [] then 0
    else TotalComparisons(bumps, targets[..|targets| - 1]) + TallyOf(bumps, targets[|targets| - 1]).comparisons
  }

  lemma {:induction false} TotalsAreConcat(bumps: seq<Bump>, targets: seq<JsString>)
    ensures TotalWins(bumps, targets) == WinSum(Concat(GroupLists(TargetOf, bumps, targets)))
    ensures TotalComparisons(bumps, targets) == |Concat(GroupLists(TargetOf, bumps, targets))|
  {
    if targets != [] {
      var n := |targets| - 1;
      TotalsAreConcat(bumps, targets[..n]);
      GroupListsInit(TargetOf, bumps, targets);
      hide Group;
      WinSumAppend(Concat(GroupLists(TargetOf, bumps, targets[..n])), Group(TargetOf, bumps, targets[n]));
    }
  }

  lemma WinSumPermutes(s: seq<Bump>, t: seq<Bump>)
    requires multiset(s) == multiset(t)
    ensures WinSum(s) == WinSum(t) && |s| == |t|
  {
    SameElements(s, t);
    MapPermutes(WinOf, s, t);
    SumPermutes(Map(WinOf, s), Map(WinOf, t));
  }

  /** Over any reviews: the wins of all targets add up to the matched reviews, and their
      comparisons to twice that. */
  lemma WinsAreConserved(mapping: seq<PairEntry>, reviews: seq<Review>)
    ensures var bumps := Bumps(Index(mapping), reviews); var targets := Keys(TargetOf, bumps);
      && TotalWins(bumps, targets) == Matched(Index(mapping), reviews) as real
      && TotalComparisons(bumps, targets) == 2 * Matched(Index(mapping), reviews)
  {
    var bumps := Bumps(Index(mapping), reviews);
    var targets := Keys(TargetOf, bumps);
    GroupListsRearrange(TargetOf, bumps, targets);
    TotalsAreConcat(bumps, targets);
    WinSumPermutes(Concat(GroupLists(TargetOf, bumps, targets)), bumps);
    BumpsTotal(Index(mapping), reviews);
  }

  // --------------------------------------------------------------- the coin flips

  function Mirrored(c: Choice): Choice {
    match c
    case AClearly => BClearly
    case ASlightly => BSlightly
    case Equivalent => Equivalent
    case BSlightly => ASlightly
    case BClearly => AClearly
  }

  /** The same comparison with the sides of the blind ids in `flipped` exchanged. */
  function FlipEntry(flipped: set<JsString>): PairEntry -> PairEntry {
    (e: PairEntry) =>
      if e.blindId in flipped
      then PairEntry(e.blindId, e.benchmarkId, e.bRunRecordId, e.aRunRecordId, e.bTargetId, e.aTargetId) else e
  }

  function FlipReview(flipped: set<JsString>): Review -> Review {
    (r: Review) => if r.blindId in flipped then Review(r.blindId, Mirrored(r.choice)) else r
  }

  lemma {:induction false} IndexFlipped(flipped: set<JsString>, mapping: seq<PairEntry>)
    ensures var i, j := Index(mapping), Index(Map(FlipEntry(flipped), mapping));
      i.Keys == j.Keys && forall id :: id in i ==> i[id].blindId == id && j[id] == FlipEntry(flipped)(i[id])
  {
    if mapping != [] {
      var n := |mapping| - 1;
      IndexFlipped(flipped, mapping[..n]);
      assert Map(FlipEntry(flipped), mapping)[..n] == Map(FlipEntry(flipped), mapping[..n]);
    }
  }

  lemma {:induction false} BumpsFlipped(flipped: set<JsString>, mapping: seq<PairEntry>, reviews: seq<Review>)
    ensures multiset(Bumps(Index(Map(FlipEntry(flipped), mapping)), Map(FlipReview(flipped), reviews)))
         == multiset(Bumps(Index(mapping), reviews))
  {
    if reviews != [] {
      var n := |reviews| - 1;
      BumpsFlipped(flipped, mapping, reviews[..n]);
      var more := Map(FlipReview(flipped), reviews);
      assert more[..n] == Map(FlipReview(flipped), reviews[..n]);
      IndexFlipped(flipped, mapping);
      hide Index, Bumps;
      PairFlipped(flipped, Index(mapping), Index(Map(FlipEntry(flipped), mapping)), reviews[n]);
      BumpsLast(Index(mapping), reviews);
      BumpsLast(Index(Map(FlipEntry(flipped), mapping)), more);
    }
  }

  lemma BumpsLast(index: map<JsString, PairEntry>, reviews: seq<Review>)
    requires reviews != []
    ensures multiset(Bumps(index, reviews))
         == multiset(Bumps(index, reviews[..|reviews| - 1])) + multiset(BumpsOf(index, reviews[|reviews| - 1]))
  {
  }

  lemma PairFlipped(flipped: set<JsString>, i: map<JsString, PairEntry>, j: map<JsString, PairEntry>, review: Review)
    requires i.Keys == j.Keys && forall id :: id in i ==> i[id].blindId == id && j[id] == FlipEntry(flipped)(i[id])
    ensures multiset(BumpsOf(j, FlipReview(flipped)(review))) == multiset(BumpsOf(i, review))
  {
    if review.blindId in i {
      MirrorSwapsWins(review.choice);
      hide AWin, BWin, Mirrored;
      var m := i[review.blindId];
      var a, b := Bump(m.aTargetId, AWin(review.choice)), Bump(m.bTargetId, BWin(review.choice));
      assert BumpsOf(i, review) == [a, b];
      if review.blindId in flipped {
        assert BumpsOf(j, FlipReview(flipped)(review)) == [b, a];
      } else {
        assert BumpsOf(j, FlipReview(flipped)(review)) == [a, b];
      }
    }
  }

  lemma MirrorSwapsWins(c: Choice)
    ensures AWin(Mirrored(c)) == BWin(c) && BWin(Mirrored(c)) == AWin(c)
  {
  }

  /** Which answer is shown as A does not matter: exchanging the sides of any comparisons, with
      the reviewers' choices mirrored, leaves every target's tally as it was. */
  lemma SidesDoNotMatter(flipped: set<JsString>, mapping: seq<PairEntry>, reviews: seq<Review>, target: JsString)
    ensures TallyOf(Bumps(Index(Map(FlipEntry(flipped), mapping)), Map(FlipReview(flipped), reviews)), target)
         == TallyOf(Bumps(Index(mapping), reviews), target)
  {
    var s := Bumps(Index(Map(FlipEntry(flipped), mapping)), Map(FlipReview(flipped), reviews));
    var t := Bumps(Index(mapping), reviews);
    BumpsFlipped(flipped, mapping, reviews);
    FilterPermutes(HasKey(TargetOf, target), s, t);
    WinSumPermutes(Group(TargetOf, s, target), Group(TargetOf, t, target));
  }

  // ------------------------------------------------------------------ the method

  ghost predicate IsTally(bumps: seq<Bump>, targets: seq<JsString>, tally: map<JsString, Tally>) {
    && targets == Keys(TargetOf, bumps)
    && (forall t :: t in targets <==> t in tally)
    && forall t :: t in tally ==> tally[t] == TallyOf(bumps, t)
  }

  function Bumped(t: Tally, win: real): Tally { Tally(t.wins + win, t.comparisons + 1) }

  /** What one more bump makes of the tally of target `t`. */
  function MaybeBumped(t: Tally, b: Bump, target: JsString): Tally {
    if b.target == target then Bumped(t, b.win) else t
  }

  lemma TallyGrows(bumps: seq<Bump>, b: Bump, t: JsString)
    ensures TallyOf(bumps + [b], t) == MaybeBumped(TallyOf(bumps, t), b, t)
  {
    hide Group, WinSum;
    GroupExtends(TargetOf, bumps, b, t);
    var group := Group(TargetOf, bumps, t);
    WinSumLast(group + [b]);
    assert (group + [b])[..|group|] == group;
  }

  lemma NotTallied(bumps: seq<Bump>, t: JsString)
    requires t !in Keys(TargetOf, bumps)
    ensures TallyOf(bumps, t) == Tally(0.0, 0)
  {
    NoGroup(TargetOf, bumps, t);
  }

  lemma CountGrows(bumps: seq<Bump>, b: Bump)
    ensures Keys(TargetOf, bumps + [b])
      == if b.target in Keys(TargetOf, bumps) then Keys(TargetOf, bumps) else Keys(TargetOf, bumps) + [b.target]
    ensures b.target !in Keys(TargetOf, bumps) ==> TallyOf(bumps, b.target) == Tally(0.0, 0)
    ensures forall k :: TallyOf(bumps + [b], k) == MaybeBumped(TallyOf(bumps, k), b, k)
  {
    hide TallyOf, Keys, Bumped;
    KeysExtend(TargetOf, bumps, b);
    if b.target !in Keys(TargetOf, bumps) { NotTallied(bumps, b.target); }
    forall k ensures TallyOf(bumps + [b], k) == MaybeBumped(TallyOf(bumps, k), b, k) {
      TallyGrows(bumps, b, k);
    }
  }

  /** `bump`. */
  method Count(targets: seq<JsString>, tally: map<JsString, Tally>, b: Bump, ghost bumps: seq<Bump>)
    returns (moreTargets: seq<JsString>, more: map<JsString, Tally>)
    requires IsTally(bumps, targets, tally)
    ensures IsTally(bumps + [b], moreTargets, more)
  {
    hide TallyOf, Keys, Bumped;
    CountGrows(bumps, b);
    more := tally[b.target := Bumped(if b.target in tally then tally[b.target] else Tally(0.0, 0), b.win)];
    moreTargets := if b.target in tally then targets else targets + [b.target];
  }

  datatype TargetRate = TargetRate(wins: real, comparisons: nat, winRate: real)

  function RateOf(t: Tally): TargetRate { TargetRate(t.wins, t.comparisons, Rate(t)) }

  /** `pairwiseWinRate`: wins, comparisons and win rate of every target that was compared, but for
      one called `__proto__`, which the plain object for the result does not keep. */
  method PairwiseWinRate(reviews: seq<Review>, mapping: seq<PairEntry>) returns (out: map<JsString, TargetRate>)
    ensures var bumps := Bumps(Index(mapping), reviews);
      forall t :: (t in out <==> t in Keys(TargetOf, bumps) && t != PROTO)
               && (t in out ==> out[t] == RateOf(TallyOf(bumps, t)))
  {
    var targets, tally := TallyReviews(reviews, mapping);
    hide Index, Bumps, Keys, TallyOf, Rate;
    out := map t | t in tally && t != PROTO :: RateOf(tally[t]);
  }

  method TallyReviews(reviews: seq<Review>, mapping: seq<PairEntry>)
    returns (targets: seq<JsString>, tally: map<JsString, Tally>)
    ensures IsTally(Bumps(Index(mapping), reviews), targets, tally)
  {
    hide IsTally;
    var index := Index(mapping);
    targets, tally := [], map[];
    NothingTallied(Bumps(index, reviews[..0]));
    for i := 0 to |reviews|
      invariant IsTally(Bumps(index, reviews[..i]), targets, tally)
    {
      assert reviews[..i + 1][..i] == reviews[..i];
      ghost var bumps := Bumps(index, reviews[..i]);
      if reviews[i].blindId in index {
        var m, choice := index[reviews[i].blindId], reviews[i].choice;
        targets, tally := Count(targets, tally, Bump(m.aTargetId, AWin(choice)), bumps);
        targets, tally :=
          Count(targets, tally, Bump(m.bTargetId, BWin(choice)), bumps + [Bump(m.aTargetId, AWin(choice))]);
        assert bumps + [Bump(m.aTargetId, AWin(choice))] + [Bump(m.bTargetId, BWin(choice))]
          == bumps + BumpsOf(index, reviews[i]);
      } else {
        assert bumps + [] == bumps;
      }
    }
    assert reviews[..|reviews|] == reviews;
  }

  lemma NothingTallied(bumps: seq<Bump>)
    requires bumps == []
    ensures IsTally(bumps, [], map[])
  {
  }
}
