/** The qualification verdict (src/experiment/verdict.ts). */
module Verdict {
  import opened Algebra
  import opened Js
  import opened Order
  import opened Stats
  import opened Sums
  import opened Text

  // ---------------------------------------------------------------- check summary

  datatype CheckStatus = Pass | Fail | NotAvailable | Error

  datatype Check = Check(blocking: bool, status: CheckStatus)

  datatype Summary = Summary(
    total: nat,
    passed: nat,
    failed: nat,
    notAvailable: nat,
    errored: nat,
    blockingPassRate: Option<real>,
    hasBlockingFailure: bool,
    hasBlockingNotAvailable: bool,
    hasError: bool)

  function HasStatus(s: CheckStatus): Check -> bool { (c: Check) => c.status == s }
  predicate IsBlocking(c: Check) { c.blocking }
  predicate IsDecided(c: Check) { c.status == Pass || c.status == Fail }

  predicate Any<T>(p: T -> bool, s: seq<T>) { s != [] && (p(s[0]) || Any(p, s[1..])) }

  /** `summarizeDeterministic`. */
  function Summarize(checks: seq<Check>): Summary {
    var blocking := Filter(IsBlocking, checks);
    var decided := Filter(IsDecided, blocking);
    var passed := Filter(HasStatus(Pass), decided);
    Summary(|checks|,
            |Filter(HasStatus(Pass), checks)|, |Filter(HasStatus(Fail), checks)|,
            |Filter(HasStatus(NotAvailable), checks)|, |Filter(HasStatus(Error), checks)|,
            if decided == [] then None else Some(|passed| as real / |decided| as real),
            Any(HasStatus(Fail), blocking), Any(HasStatus(NotAvailable), blocking), Any(HasStatus(Error), checks))
  }

  lemma {:induction false} AnyMeans<T(!new)>(p: T -> bool, s: seq<T>)
    ensures Any(p, s) <==> exists x :: x in s && p(x)
  {
    if s != [] {
      AnyMeans(p, s[1..]);
      assert s == [s[0]] + s[1..];
    }
  }

  lemma {:induction false} StatusesCover(checks: seq<Check>)
    ensures |Filter(HasStatus(Pass), checks)| + |Filter(HasStatus(Fail), checks)|
          + |Filter(HasStatus(NotAvailable), checks)| + |Filter(HasStatus(Error), checks)| == |checks|
  {
    if checks != [] { StatusesCover(checks[1..]); }
  }

  lemma {:induction false} PassedOfDecided(decided: seq<Check>)
    requires forall c :: c in decided ==> IsDecided(c)
    ensures |Filter(HasStatus(Pass), decided)| <= |decided|
    ensures |Filter(HasStatus(Pass), decided)| == |decided| <==> forall c :: c in decided ==> c.status == Pass
  {
    if decided != [] {
      PassedOfDecided(decided[1..]);
      assert decided == [decided[0]] + decided[1..];
      assert decided[0] in decided;
    }
  }

  /** The status counts partition the checks, the blocking pass rate lies in [0, 1], and it is 1
      exactly when something was decided and no blocking check failed. */
  lemma SummaryConsistent(checks: seq<Check>)
    ensures var r := Summarize(checks);
      && r.passed + r.failed + r.notAvailable + r.errored == r.total == |checks|
      && (r.hasBlockingFailure <==> exists c :: c in checks && c.blocking && c.status == Fail)
      && (r.hasBlockingNotAvailable <==> exists c :: c in checks && c.blocking && c.status == NotAvailable)
      && (r.hasError <==> exists c :: c in checks && c.status == Error)
      && (r.blockingPassRate.Some? ==> 0.0 <= r.blockingPassRate.value <= 1.0)
      && (r.blockingPassRate.Some? ==> (r.blockingPassRate.value == 1.0 <==> !r.hasBlockingFailure))
      && (r.blockingPassRate.None? ==> !r.hasBlockingFailure)
  {
    var blocking := Filter(IsBlocking, checks);
    var decided := Filter(IsDecided, blocking);
    StatusesCover(checks);
    FilterMembers(IsBlocking, checks);
    FilterMembers(IsDecided, blocking);
    AnyMeans(HasStatus(Fail), blocking);
    AnyMeans(HasStatus(NotAvailable), blocking);
    AnyMeans(HasStatus(Error), checks);
    PassedOfDecided(decided);
    hide Filter, Any;
    var passed := |Filter(HasStatus(Pass), decided)|;
    if decided != [] { ShareIsOne(passed, |decided|); }
    if Any(HasStatus(Fail), blocking) {
      var c :| c in blocking && c.status == Fail;
      assert c in decided;
    }
  }

  lemma ShareIsOne(a: nat, n: nat)
    requires a <= n && n > 0
    ensures 0.0 <= a as real / n as real <= 1.0
    ensures a as real / n as real == 1.0 <==> a == n
  {
    hide Times;
    var d := n as real;
    var x := a as real / d;
    Quotient(d, a as real);
    Units(d);
    Distribute(d, 1.0, x);
    CancelPositive(d, x);
    CancelPositive(d, 1.0 - x);
  }

  // ------------------------------------------------------------ repetition signals

  datatype Judge = Judge(refusal: bool, formatValid: bool, overall: real, normalizedScore: real)

  datatype Response = Response(text: JsString, latencyMs: real)

  /** A persisted run as the verdict reads it. */
  datatype RunResult = RunResult(failed: bool, response: Option<Response>, checks: seq<Check>, judges: seq<Judge>)

  datatype Signal = Signal(
    backendError: bool,
    emptyOutput: bool,
    blockingFail: bool,
    blockingNotAvailable: bool,
    deterministicError: bool,
    refusal: bool,
    formatValid: bool,
    judgeOverallScores: seq<real>,
    judgeNormalizedScores: seq<real>,
    latencyMs: Option<real>)

  predicate Refuses(j: Judge) { j.refusal }
  predicate BadFormat(j: Judge) { !j.formatValid }
  function OverallOf(j: Judge): real { j.overall }
  function NormalizedOf(j: Judge): real { j.normalizedScore }

  /** `deriveRepetitionSignal`; `refusalText` is the text heuristic for refusals. */
  function Derive(refusalText: JsString -> bool, r: RunResult): Signal {
    var det := Summarize(r.checks);
    Signal(
      r.failed || r.response.None?,
      r.response.Some? && Trim(r.response.value.text) == [],
      det.hasBlockingFailure, det.hasBlockingNotAvailable, det.hasError,
      Any(Refuses, r.judges) || (r.response.Some? && refusalText(r.response.value.text)),
      !Any(BadFormat, r.judges),
      Map(OverallOf, r.judges), Map(NormalizedOf, r.judges),
      if r.response.Some? then Some(r.response.value.latencyMs) else None)
  }

  predicate IsInfrastructure(s: Signal) { s.backendError || s.deterministicError }
  predicate IsDecidable(s: Signal) { !IsInfrastructure(s) }
  predicate IsCatastrophic(s: Signal) { s.emptyOutput || s.blockingFail || s.refusal }
  predicate BlockingPassed(s: Signal) { !s.blockingFail && !s.blockingNotAvailable }
  predicate Passed(s: Signal) { !IsCatastrophic(s) && !s.blockingNotAvailable }
  predicate FailsBlocking(s: Signal) { s.blockingFail }
  predicate LacksVerifier(s: Signal) { s.blockingNotAvailable }
  predicate IsJudged(s: Signal) { s.judgeOverallScores != [] }
  predicate HasLatency(s: Signal) { s.latencyMs.Some? }
  function NormalizedScores(s: Signal): seq<real> { s.judgeNormalizedScores }
  function LatencyOf(s: Signal): real { if s.latencyMs.Some? then s.latencyMs.value else 0.0 }
  function JudgeMean(s: Signal): real {
    if s.judgeOverallScores == [] then 0.0 else Sum(s.judgeOverallScores) / (|s.judgeOverallScores| as real)
  }

  // --------------------------------------------------------------------- aggregate

  datatype Status = Qualified | Disqualified | Inconclusive | InfrastructureError

  datatype Reason =
    | NoRepetitions
    | OnlyInfrastructureFailures
    | VerifierNotAvailable
    | NoJudgeScores
    | AllThresholdsMet
    | ThresholdsViolated

  datatype Violation =
    | PassRateTooLow(rate: real, required: real)
    | TooManyCatastrophes(rate: real, allowed: real)
    | TooMuchDisagreement(rate: real, allowed: real)
    | DomainScoreTooLow(mean: real, required: real)

  datatype Qualification = Qualification(
    deterministicPassRate: real,
    minimumDomainScore: real,
    maximumCatastrophicFailureRate: real,
    maximumEvaluatorDisagreement: real)

  /** The thresholds, the disagreement threshold, and `Math.sqrt`. */
  datatype Rules = Rules(qualification: Qualification, disagreementThreshold: real, sqrt: real -> real)

  datatype Ruling = Ruling(status: Status, violations: seq<Violation>, reason: Reason)

  /** The part of the result that depends on the decidable repetitions only. */
  datatype Decision = Decision(
    ruling: Ruling,
    deterministicPassRate: real,
    passRate: real,
    catastrophicFailureRate: real,
    evaluatorDisagreementRate: real,
    domainScore: NumberStats)

  datatype Result = Result(decision: Decision, repetitions: nat, infrastructureFailureRate: real, latency: NumberStats)

  function StatsUsing(sqrt: real -> real, values: seq<real>): NumberStats {
    if values == [] then NoValues else StatsOf(values, sqrt(Variance(SortedValues(values))))
  }

  function Share(p: Signal -> bool, s: seq<Signal>): real { Rate(|Filter(p, s)|, |s|) }

  function Disagreement(s: seq<Signal>, threshold: real): real { DisagreementRate(Map(NormalizedScores, s), threshold) }

  function DomainSamples(s: seq<Signal>): seq<real> { Map(JudgeMean, Filter(IsJudged, s)) }

  function MeanOf(stats: NumberStats): Option<real> { if stats.NoValues? then None else Some(stats.mean) }

  /** The first three thresholds. */
  function RateViolations(q: Qualification, pass: real, catastrophic: real, disagreement: real): seq<Violation> {
    (if pass < q.deterministicPassRate then [PassRateTooLow(pass, q.deterministicPassRate)] else [])
    + (if catastrophic > q.maximumCatastrophicFailureRate
       then [TooManyCatastrophes(catastrophic, q.maximumCatastrophicFailureRate)] else [])
    + (if disagreement > q.maximumEvaluatorDisagreement
       then [TooMuchDisagreement(disagreement, q.maximumEvaluatorDisagreement)] else [])
  }

  /** Status and violations once the thresholds are consulted. */
  function Thresholds(q: Qualification, pass: real, catastrophic: real, disagreement: real,
      domainMean: Option<real>): Ruling {
    var violations := RateViolations(q, pass, catastrophic, disagreement);
    if q.minimumDomainScore > 0.0 && domainMean.None? then Ruling(Inconclusive, violations, NoJudgeScores)
    else
      var all := violations
        + if q.minimumDomainScore > 0.0 && domainMean.value < q.minimumDomainScore
          then [DomainScoreTooLow(domainMean.value, q.minimumDomainScore)] else [];
      if all == [] then Ruling(Qualified, all, AllThresholdsMet) else Ruling(Disqualified, all, ThresholdsViolated)
  }

  /** Status and violations from the decidable repetitions, of which there is at least one. */
  function Judged(rules: Rules, decidable: seq<Signal>): Ruling {
    if Any(LacksVerifier, decidable) && !Any(FailsBlocking, decidable) then
      Ruling(Inconclusive, [], VerifierNotAvailable)
    else Thresholds(rules.qualification, Share(BlockingPassed, decidable), Share(IsCatastrophic, decidable),
                    Disagreement(decidable, rules.disagreementThreshold),
                    MeanOf(StatsUsing(rules.sqrt, DomainSamples(decidable))))
  }

  function Decide(rules: Rules, decidable: seq<Signal>, ruling: Ruling): Decision {
    Decision(ruling, Share(BlockingPassed, decidable), Share(Passed, decidable),
             Share(IsCatastrophic, decidable), Disagreement(decidable, rules.disagreementThreshold),
             StatsUsing(rules.sqrt, DomainSamples(decidable)))
  }

  function Decidable(signals: seq<Signal>): seq<Signal> { Filter(IsDecidable, signals) }

  /** Status and violations: nothing to go by, nothing but infrastructure failures, or a judgment. */
  function Outcome(rules: Rules, signals: seq<Signal>): Ruling {
    if signals == [] then Ruling(Inconclusive, [], NoRepetitions)
    else if |Filter(IsInfrastructure, signals)| == |signals| then
      Ruling(InfrastructureError, [], OnlyInfrastructureFailures)
    else Judged(rules, Decidable(signals))
  }

  /** `aggregate`. */
  function Aggregated(rules: Rules, signals: seq<Signal>): Result {
    Result(Decide(rules, Decidable(signals), Outcome(rules, signals)),
           |signals|, Share(IsInfrastructure, signals),
           StatsUsing(rules.sqrt, Map(LatencyOf, Filter(HasLatency, signals))))
  }

  // ------------------------------------------------------------------ main results

  lemma {:induction false} InfrastructureOrDecidable(signals: seq<Signal>)
    ensures |Filter(IsInfrastructure, signals)| + |Decidable(signals)| == |signals|
  {
    if signals != [] { InfrastructureOrDecidable(signals[1..]); }
  }

  lemma SharePermutes(p: Signal -> bool, s: seq<Signal>, t: seq<Signal>)
    requires multiset(s) == multiset(t)
    ensures Share(p, s) == Share(p, t) && |s| == |t|
  {
    FilterPermutes(p, s, t);
    SameElements(s, t);
    SameElements(Filter(p, s), Filter(p, t));
  }

  lemma AnyPermutes(p: Signal -> bool, s: seq<Signal>, t: seq<Signal>)
    requires multiset(s) == multiset(t)
    ensures Any(p, s) <==> Any(p, t)
  {
    SameElements(s, t);
    AnyMeans(p, s);
    AnyMeans(p, t);
  }

  lemma StatsPermute(sqrt: real -> real, s: seq<real>, t: seq<real>)
    requires multiset(s) == multiset(t)
    ensures StatsUsing(sqrt, s) == StatsUsing(sqrt, t)
  {
    SameElements(s, t);
    RealsOrdered();
    SortCanonical(RealLeq, s, t);
    if s != [] { StatsIgnoreOrder(s, t, sqrt(Variance(SortedValues(s)))); }
  }

  lemma DisagreementPermutes(s: seq<Signal>, t: seq<Signal>, threshold: real)
    requires multiset(s) == multiset(t)
    ensures Disagreement(s, threshold) == Disagreement(t, threshold)
  {
    var a, b := Map(NormalizedScores, s), Map(NormalizedScores, t);
    MapPermutes(NormalizedScores, s, t);
    FilterPermutes(Comparable, a, b);
    FilterPermutes(Disagrees(threshold), Filter(Comparable, a), Filter(Comparable, b));
    SameElements(Filter(Comparable, a), Filter(Comparable, b));
    SameElements(
      Filter(Disagrees(threshold), Filter(Comparable, a)), Filter(Disagrees(threshold), Filter(Comparable, b)));
  }

  lemma DomainPermutes(sqrt: real -> real, s: seq<Signal>, t: seq<Signal>)
    requires multiset(s) == multiset(t)
    ensures StatsUsing(sqrt, DomainSamples(s)) == StatsUsing(sqrt, DomainSamples(t))
  {
    FilterPermutes(IsJudged, s, t);
    MapPermutes(JudgeMean, Filter(IsJudged, s), Filter(IsJudged, t));
    StatsPermute(sqrt, DomainSamples(s), DomainSamples(t));
  }

  lemma JudgedPermutes(rules: Rules, s: seq<Signal>, t: seq<Signal>)
    requires multiset(s) == multiset(t)
    ensures Judged(rules, s) == Judged(rules, t)
    ensures forall o :: Decide(rules, s, o) == Decide(rules, t, o)
  {
    SharePermutes(BlockingPassed, s, t);
    SharePermutes(Passed, s, t);
    SharePermutes(IsCatastrophic, s, t);
    AnyPermutes(LacksVerifier, s, t);
    AnyPermutes(FailsBlocking, s, t);
    DisagreementPermutes(s, t, rules.disagreementThreshold);
    DomainPermutes(rules.sqrt, s, t);
    hide Share, Any, Disagreement, StatsUsing, Thresholds;
  }

  /** The verdict does not depend on the order of the repetitions, in any of its fields. */
  lemma VerdictIgnoresOrder(rules: Rules, signals: seq<Signal>, others: seq<Signal>)
    requires multiset(signals) == multiset(others)
    ensures Aggregated(rules, signals) == Aggregated(rules, others)
  {
    SharePermutes(IsInfrastructure, signals, others);
    FilterPermutes(IsDecidable, signals, others);
    FilterPermutes(IsInfrastructure, signals, others);
    FilterPermutes(HasLatency, signals, others);
    MapPermutes(LatencyOf, Filter(HasLatency, signals), Filter(HasLatency, others));
    StatsPermute(rules.sqrt, Map(LatencyOf, Filter(HasLatency, signals)), Map(LatencyOf, Filter(HasLatency, others)));
    SameElements(Filter(IsInfrastructure, signals), Filter(IsInfrastructure, others));
    JudgedPermutes(rules, Decidable(signals), Decidable(others));
    hide Share, StatsUsing, Judged, Decide, Decidable;
  }

  /** With something decidable, only the decidable repetitions decide. */
  lemma OnlyDecidableDecide(rules: Rules, signals: seq<Signal>)
    requires Decidable(signals) != []
    ensures Outcome(rules, signals) == Judged(rules, Decidable(signals))
  {
    InfrastructureOrDecidable(signals);
  }

  /** Infrastructure failures change neither status nor violations nor any rate over decidable
      repetitions: two sets with the same decidable repetitions get the same decision. */
  lemma InfrastructureIsNeutral(rules: Rules, signals: seq<Signal>, others: seq<Signal>)
    requires Decidable(signals) != [] && multiset(Decidable(signals)) == multiset(Decidable(others))
    ensures Aggregated(rules, signals).decision == Aggregated(rules, others).decision
  {
    SameElements(Decidable(signals), Decidable(others));
    OnlyDecidableDecide(rules, signals);
    OnlyDecidableDecide(rules, others);
    JudgedPermutes(rules, Decidable(signals), Decidable(others));
    hide Judged, Decide, Decidable, Outcome, Share, StatsUsing;
  }

  /** Adding an infrastructure failure anywhere leaves the decision as it was. */
  lemma AddingInfrastructure(rules: Rules, before: seq<Signal>, s: Signal, after: seq<Signal>)
    requires IsInfrastructure(s) && Decidable(before + after) != []
    ensures Aggregated(rules, before + [s] + after).decision == Aggregated(rules, before + after).decision
  {
    FilterAppend(IsDecidable, before, after);
    FilterAppend(IsDecidable, before + [s], after);
    FilterAppend(IsDecidable, before, [s]);
    assert Decidable(before) + [] == Decidable(before);
    hide Aggregated;
    InfrastructureIsNeutral(rules, before + after, before + [s] + after);
  }

  /** A run with an errored check is an infrastructure failure, even if a blocking check failed. */
  lemma ErroredRunIsInfrastructure(refusalText: JsString -> bool, r: RunResult, errored: Check)
    requires errored in r.checks && errored.status == Error
    ensures IsInfrastructure(Derive(refusalText, r))
  {
    AnyMeans(HasStatus(Error), r.checks);
  }

  /** Qualified means every threshold in force is met. */
  lemma ThresholdsMet(q: Qualification, pass: real, catastrophic: real, disagreement: real, domainMean: Option<real>)
    ensures Thresholds(q, pass, catastrophic, disagreement, domainMean).status == Qualified <==>
      && pass >= q.deterministicPassRate
      && catastrophic <= q.maximumCatastrophicFailureRate
      && disagreement <= q.maximumEvaluatorDisagreement
      && (q.minimumDomainScore > 0.0 ==> domainMean.Some? && domainMean.value >= q.minimumDomainScore)
  {
  }

  lemma RateMonotone(a: nat, b: nat, n: nat)
    requires a <= b
    ensures Rate(a, n) <= Rate(b, n)
  {
    hide Times;
    if n > 0 {
      var d := n as real;
      var x, y := a as real / d, b as real / d;
      Quotient(d, a as real);
      Quotient(d, b as real);
      Distribute(d, y, x);
      CancelPositive(d, y - x);
    }
  }

  lemma {:induction false} FullShare(p: Signal -> bool, s: seq<Signal>)
    ensures |Filter(p, s)| <= |s|
    ensures |Filter(p, s)| == |s| <==> forall x :: x in s ==> p(x)
    ensures |Filter(p, s)| == 0 <==> forall x :: x in s ==> !p(x)
  {
    if s != [] {
      FullShare(p, s[1..]);
      assert s == [s[0]] + s[1..];
      assert s[0] in s;
    }
  }

  lemma ShareBounds(p: Signal -> bool, s: seq<Signal>)
    ensures 0.0 <= Share(p, s) <= 1.0
    ensures s != [] ==> (Share(p, s) == 1.0 <==> forall x :: x in s ==> p(x))
    ensures s != [] ==> (Share(p, s) == 0.0 <==> forall x :: x in s ==> !p(x))
  {
    FullShare(p, s);
    hide Filter;
    if s != [] { ShareIsOne(|Filter(p, s)|, |s|); }
  }

  /** With a required pass rate of 1, no judge scores can make a set qualified that has a decidable
      blocking failure or a decidable blocking check that could not run. */
  lemma StrictPassRate(rules: Rules, signals: seq<Signal>)
    requires rules.qualification.deterministicPassRate >= 1.0
    requires Aggregated(rules, signals).decision.ruling.status == Qualified
    ensures signals != []
    ensures forall s :: s in signals && IsDecidable(s) ==> !s.blockingFail && !s.blockingNotAvailable
  {
    var decidable := Decidable(signals);
    QualifiedIsJudged(rules, signals);
    FilterMembers(IsDecidable, signals);
    ShareBounds(BlockingPassed, decidable);
    hide Share, Filter, Disagreement, StatsUsing, Decidable;
    ThresholdsMet(rules.qualification, Share(BlockingPassed, decidable), Share(IsCatastrophic, decidable),
                  Disagreement(decidable, rules.disagreementThreshold),
                  MeanOf(StatsUsing(rules.sqrt, DomainSamples(decidable))));
    forall s | s in signals && IsDecidable(s) ensures !s.blockingFail && !s.blockingNotAvailable {
      assert s in decidable;
      assert BlockingPassed(s);
    }
  }

  /** Likewise, where no catastrophic failure is allowed, qualified sets hold none. */
  lemma NoCatastropheAllowed(rules: Rules, signals: seq<Signal>)
    requires rules.qualification.maximumCatastrophicFailureRate <= 0.0
    requires Aggregated(rules, signals).decision.ruling.status == Qualified
    ensures forall s :: s in signals && IsDecidable(s) ==> !IsCatastrophic(s)
  {
    var decidable := Decidable(signals);
    QualifiedIsJudged(rules, signals);
    FilterMembers(IsDecidable, signals);
    ShareBounds(IsCatastrophic, decidable);
    hide Share, Filter, Disagreement, StatsUsing, Decidable;
    ThresholdsMet(rules.qualification, Share(BlockingPassed, decidable), Share(IsCatastrophic, decidable),
                  Disagreement(decidable, rules.disagreementThreshold),
                  MeanOf(StatsUsing(rules.sqrt, DomainSamples(decidable))));
    forall s | s in signals && IsDecidable(s) ensures !IsCatastrophic(s) {
      assert s in decidable;
    }
  }

  lemma QualifiedIsJudged(rules: Rules, signals: seq<Signal>)
    requires Outcome(rules, signals).status == Qualified
    ensures Decidable(signals) != [] && Judged(rules, Decidable(signals)).status == Qualified
  {
    InfrastructureOrDecidable(signals);
  }

  // -------------------------------------------------------------- clearing failures

  /** `t` is `s` with some of its failures cleared and nothing else changed. */
  predicate Improves(s: Signal, t: Signal) {
    && t == s.(emptyOutput := t.emptyOutput, blockingFail := t.blockingFail, refusal := t.refusal)
    && (t.emptyOutput ==> s.emptyOutput) && (t.blockingFail ==> s.blockingFail) && (t.refusal ==> s.refusal)
  }

  ghost predicate AllImprove(ss: seq<Signal>, ts: seq<Signal>) {
    |ss| == |ts| && forall i :: 0 <= i < |ss| ==> Improves(ss[i], ts[i])
  }

  lemma {:induction false} DecidableImprove(ss: seq<Signal>, ts: seq<Signal>)
    requires AllImprove(ss, ts)
    ensures AllImprove(Decidable(ss), Decidable(ts))
  {
    hide Improves;
    if ss != [] {
      DecidableImprove(ss[1..], ts[1..]);
      SameDecidability(ss[0], ts[0]);
    }
  }

  lemma SameDecidability(s: Signal, t: Signal)
    requires Improves(s, t)
    ensures IsDecidable(s) == IsDecidable(t)
    ensures BlockingPassed(s) ==> BlockingPassed(t)
    ensures IsCatastrophic(t) ==> IsCatastrophic(s)
    ensures LacksVerifier(s) == LacksVerifier(t)
    ensures IsJudged(s) == IsJudged(t) && JudgeMean(s) == JudgeMean(t) && NormalizedScores(s) == NormalizedScores(t)
    ensures FailsBlocking(t) ==> FailsBlocking(s)
  {
  }

  lemma {:induction false} CountsImprove(ss: seq<Signal>, ts: seq<Signal>)
    requires AllImprove(ss, ts)
    ensures |Filter(BlockingPassed, ss)| <= |Filter(BlockingPassed, ts)|
    ensures |Filter(IsCatastrophic, ss)| >= |Filter(IsCatastrophic, ts)|
    ensures Any(LacksVerifier, ss) == Any(LacksVerifier, ts)
    ensures DomainSamples(ss) == DomainSamples(ts)
    ensures Map(NormalizedScores, ss) == Map(NormalizedScores, ts)
  {
    hide Improves, BlockingPassed, IsCatastrophic, LacksVerifier, IsJudged, JudgeMean, NormalizedScores;
    if ss != [] {
      CountsImprove(ss[1..], ts[1..]);
      SameDecidability(ss[0], ts[0]);
    }
  }

  /** Clearing failures of a qualified set keeps it qualified, with one exception: if a required
      verifier was not available and the last decisive failure is cleared, nothing decides any more. */
  lemma ClearingFailures(rules: Rules, signals: seq<Signal>, better: seq<Signal>)
    requires AllImprove(signals, better)
    requires Aggregated(rules, signals).decision.ruling.status == Qualified
    ensures Aggregated(rules, better).decision.ruling.status == Qualified <==>
      Any(LacksVerifier, Decidable(better)) ==> Any(FailsBlocking, Decidable(better))
  {
    var ss, ts := Decidable(signals), Decidable(better);
    DecidableImprove(signals, better);
    QualifiedIsJudged(rules, signals);
    CountsImprove(ss, ts);
    OnlyDecidableDecide(rules, better);
    RateMonotone(|Filter(BlockingPassed, ss)|, |Filter(BlockingPassed, ts)|, |ss|);
    RateMonotone(|Filter(IsCatastrophic, ts)|, |Filter(IsCatastrophic, ss)|, |ss|);
    hide Filter, Any, Rate, DisagreementRate, StatsUsing, DomainSamples, Decidable, Outcome, Thresholds, AllImprove;
    var q, dis := rules.qualification, Disagreement(ss, rules.disagreementThreshold);
    var mean := MeanOf(StatsUsing(rules.sqrt, DomainSamples(ss)));
    ThresholdsMet(q, Share(BlockingPassed, ss), Share(IsCatastrophic, ss), dis, mean);
    ThresholdsMet(q, Share(BlockingPassed, ts), Share(IsCatastrophic, ts), dis, mean);
  }

  /** With no required verifier missing, clearing a failure never loses "qualified". */
  lemma ClearingNeverDisqualifies(rules: Rules, signals: seq<Signal>, better: seq<Signal>)
    requires AllImprove(signals, better) && forall s :: s in signals ==> !s.blockingNotAvailable
    requires Aggregated(rules, signals).decision.ruling.status == Qualified
    ensures Aggregated(rules, better).decision.ruling.status == Qualified
  {
    ClearingFailures(rules, signals, better);
    DecidableImprove(signals, better);
    CountsImprove(Decidable(signals), Decidable(better));
    FilterMembers(IsDecidable, signals);
    AnyMeans(LacksVerifier, Decidable(signals));
  }

  // ------------------------------------------------- failing instead of not running

  /** `t` is `s`, or `s` with its blocking check failed where it could not run. */
  predicate FailsInstead(s: Signal, t: Signal) {
    t == s || (s.blockingNotAvailable && t == s.(blockingNotAvailable := false, blockingFail := true))
  }

  ghost predicate AllFailInstead(ss: seq<Signal>, ts: seq<Signal>) {
    |ss| == |ts| && forall i :: 0 <= i < |ss| ==> FailsInstead(ss[i], ts[i])
  }

  lemma {:induction false} DecidableFailInstead(ss: seq<Signal>, ts: seq<Signal>)
    requires AllFailInstead(ss, ts)
    ensures AllFailInstead(Decidable(ss), Decidable(ts))
  {
    if ss != [] {
      DecidableFailInstead(ss[1..], ts[1..]);
      FailingChanges(ss[0], ts[0]);
      hide FailsInstead;
    }
  }

  lemma FailingChanges(s: Signal, t: Signal)
    requires FailsInstead(s, t)
    ensures IsDecidable(s) == IsDecidable(t) && BlockingPassed(s) == BlockingPassed(t)
    ensures IsCatastrophic(s) ==> IsCatastrophic(t)
    ensures FailsBlocking(s) ==> FailsBlocking(t)
    ensures LacksVerifier(t) ==> LacksVerifier(s)
    ensures LacksVerifier(s) ==> LacksVerifier(t) || FailsBlocking(t)
    ensures IsJudged(s) == IsJudged(t) && JudgeMean(s) == JudgeMean(t) && NormalizedScores(s) == NormalizedScores(t)
  {
  }

  lemma {:induction false} CountsFailInstead(ss: seq<Signal>, ts: seq<Signal>)
    requires AllFailInstead(ss, ts)
    ensures |Filter(BlockingPassed, ss)| == |Filter(BlockingPassed, ts)|
    ensures |Filter(IsCatastrophic, ss)| <= |Filter(IsCatastrophic, ts)|
    ensures Any(FailsBlocking, ss) ==> Any(FailsBlocking, ts)
    ensures Any(LacksVerifier, ts) ==> Any(LacksVerifier, ss)
    ensures Any(LacksVerifier, ss) ==> Any(LacksVerifier, ts) || Any(FailsBlocking, ts)
    ensures DomainSamples(ss) == DomainSamples(ts)
    ensures Map(NormalizedScores, ss) == Map(NormalizedScores, ts)
  {
    hide BlockingPassed, IsCatastrophic, LacksVerifier, FailsBlocking, IsJudged, JudgeMean, NormalizedScores;
    if ss != [] {
      CountsFailInstead(ss[1..], ts[1..]);
      FailingChanges(ss[0], ts[0]);
      hide FailsInstead;
    }
  }

  function DomainMean(rules: Rules, s: seq<Signal>): Option<real> {
    MeanOf(StatsUsing(rules.sqrt, DomainSamples(s)))
  }

  /** The thresholds that a failed check in place of a missing one leaves as they were. */
  predicate OtherThresholdsMet(rules: Rules, s: seq<Signal>) {
    var q, mean := rules.qualification, DomainMean(rules, s);
    && Share(BlockingPassed, s) >= q.deterministicPassRate
    && Disagreement(s, rules.disagreementThreshold) <= q.maximumEvaluatorDisagreement
    && (q.minimumDomainScore > 0.0 ==> mean.Some? && mean.value >= q.minimumDomainScore)
  }

  lemma JudgedQualified(rules: Rules, s: seq<Signal>)
    ensures Judged(rules, s).status == Qualified <==>
      && (Any(LacksVerifier, s) ==> Any(FailsBlocking, s))
      && OtherThresholdsMet(rules, s)
      && Share(IsCatastrophic, s) <= rules.qualification.maximumCatastrophicFailureRate
    ensures Judged(rules, s).reason == VerifierNotAvailable <==> Any(LacksVerifier, s) && !Any(FailsBlocking, s)
  {
    hide Share, Disagreement, StatsUsing, DomainSamples, Any;
    ThresholdsMet(rules.qualification, Share(BlockingPassed, s), Share(IsCatastrophic, s),
                  Disagreement(s, rules.disagreementThreshold), DomainMean(rules, s));
  }

  lemma FailingKeepsOthers(rules: Rules, ss: seq<Signal>, ts: seq<Signal>)
    requires AllFailInstead(ss, ts)
    ensures OtherThresholdsMet(rules, ss) == OtherThresholdsMet(rules, ts)
    ensures Share(IsCatastrophic, ss) <= Share(IsCatastrophic, ts)
  {
    CountsFailInstead(ss, ts);
    RateMonotone(|Filter(IsCatastrophic, ss)|, |Filter(IsCatastrophic, ts)|, |ss|);
    hide Filter, Any, Rate, DisagreementRate, StatsUsing, DomainSamples;
  }

  lemma NothingCompared(s: seq<Signal>, threshold: real)
    requires forall x :: x in s ==> NormalizedScores(x) == []
    ensures Disagreement(s, threshold) == 0.0
  {
    forall i | 0 <= i < |s| ensures Map(NormalizedScores, s)[i] == [] {
      assert s[i] in s;
    }
    FilterNone(Comparable, Map(NormalizedScores, s));
  }

  /** Under lenient thresholds, with nothing to compare, only a missing verifier counts. */
  lemma LenientJudgment(rules: Rules, s: seq<Signal>)
    requires rules.qualification == Qualification(0.0, 0.0, 1.0, 1.0)
    requires forall x :: x in s ==> NormalizedScores(x) == []
    ensures Judged(rules, s).status == Qualified <==> (Any(LacksVerifier, s) ==> Any(FailsBlocking, s))
  {
    ShareBounds(BlockingPassed, s);
    ShareBounds(IsCatastrophic, s);
    NothingCompared(s, rules.disagreementThreshold);
    hide Judged, Share, Disagreement, StatsUsing, Any, DomainSamples;
    JudgedQualified(rules, s);
  }

  /** A set that is not qualified becomes so by failing where checks could not run exactly when that
      was all it lacked: a decidable check now fails, the catastrophe rate stays within its budget,
      and the other thresholds were met already. */
  lemma FailingGainsIff(rules: Rules, signals: seq<Signal>, failing: seq<Signal>)
    requires AllFailInstead(signals, failing)
    requires Aggregated(rules, signals).decision.ruling.status != Qualified
    ensures Aggregated(rules, failing).decision.ruling.status == Qualified <==>
      && Aggregated(rules, signals).decision.ruling.reason == VerifierNotAvailable
      && Any(FailsBlocking, Decidable(failing))
      && Share(IsCatastrophic, Decidable(failing)) <= rules.qualification.maximumCatastrophicFailureRate
      && OtherThresholdsMet(rules, Decidable(signals))
  {
    var ss, ts := Decidable(signals), Decidable(failing);
    DecidableFailInstead(signals, failing);
    CountsFailInstead(ss, ts);
    InfrastructureOrDecidable(signals);
    InfrastructureOrDecidable(failing);
    hide Filter, Any, Share, OtherThresholdsMet, DomainSamples, Decidable, Judged, AllFailInstead, Map;
    if ss != [] {
      FailingKeepsOthers(rules, ss, ts);
      OnlyDecidableDecide(rules, signals);
      OnlyDecidableDecide(rules, failing);
      hide Outcome;
      JudgedQualified(rules, ss);
      JudgedQualified(rules, ts);
    }
  }

  const BARE := Signal(false, false, false, false, false, false, true, [], [], None)

  /** Under lenient thresholds a missing verifier turned into a failure gains "qualified". */
  lemma FailureMayQualify(sqrt: real -> real)
    ensures var rules := Rules(Qualification(0.0, 0.0, 1.0, 1.0), 0.2, sqrt);
      && Aggregated(rules, [BARE.(blockingNotAvailable := true)]).decision.ruling.status == Inconclusive
      && Aggregated(rules, [BARE.(blockingFail := true)]).decision.ruling.status == Qualified
  {
    var rules := Rules(Qualification(0.0, 0.0, 1.0, 1.0), 0.2, sqrt);
    var lacking, failing := BARE.(blockingNotAvailable := true), BARE.(blockingFail := true);
    SingleOutcome(rules, lacking);
    SingleOutcome(rules, failing);
    hide Outcome, Decide, Any, Thresholds;
    LenientJudgment(rules, [failing]);
  }

  lemma SingleOutcome(rules: Rules, s: Signal)
    requires IsDecidable(s)
    ensures Outcome(rules, [s]) == Judged(rules, [s])
    ensures Any(LacksVerifier, [s]) == s.blockingNotAvailable && Any(FailsBlocking, [s]) == s.blockingFail
  {
    hide Judged, IsInfrastructure;
    FilterSingle(IsDecidable, s);
    FilterSingle(IsInfrastructure, s);
  }

  /** The exception of `ClearingFailures`: with one verifier missing and one failure, clearing the
      failure loses "qualified" under lenient thresholds. */
  lemma ClearingMayDisqualify(sqrt: real -> real)
    ensures var rules := Rules(Qualification(0.0, 0.0, 1.0, 1.0), 0.2, sqrt);
      var lacking, failing := BARE.(blockingNotAvailable := true), BARE.(blockingFail := true);
      && AllImprove([lacking, failing], [lacking, BARE])
      && Aggregated(rules, [lacking, failing]).decision.ruling.status == Qualified
      && Aggregated(rules, [lacking, BARE]).decision.ruling.status == Inconclusive
  {
    var rules := Rules(Qualification(0.0, 0.0, 1.0, 1.0), 0.2, sqrt);
    var lacking, failing := BARE.(blockingNotAvailable := true), BARE.(blockingFail := true);
    TwoDecidable(rules, lacking, failing);
    TwoDecidable(rules, lacking, BARE);
    hide Outcome, Decide, Any, Thresholds;
    LenientJudgment(rules, [lacking, failing]);
  }

  lemma TwoDecidable(rules: Rules, s: Signal, t: Signal)
    requires IsDecidable(s) && IsDecidable(t)
    ensures Outcome(rules, [s, t]) == Judged(rules, [s, t])
    ensures Any(LacksVerifier, [s, t]) == (s.blockingNotAvailable || t.blockingNotAvailable)
    ensures Any(FailsBlocking, [s, t]) == (s.blockingFail || t.blockingFail)
  {
    FilterAll(IsDecidable, [s, t]);
    FilterNone(IsInfrastructure, [s, t]);
    AnyMeans(LacksVerifier, [s, t]);
    AnyMeans(FailsBlocking, [s, t]);
    hide Judged, IsInfrastructure, Filter, Any;
    assert s in [s, t] && t in [s, t];
  }

  // ------------------------------------------------------------------------- rates

  lemma {:induction false} PassedOrCatastrophic(s: seq<Signal>)
    ensures |Filter(Passed, s)| + |Filter(IsCatastrophic, s)| <= |s|
    ensures |Filter(Passed, s)| <= |Filter(BlockingPassed, s)|
  {
    if s != [] { PassedOrCatastrophic(s[1..]); }
  }

  /** All rates lie in [0, 1]; passes and catastrophes exclude each other, and a pass has passed
      its blocking checks. */
  lemma RatesConsistent(rules: Rules, signals: seq<Signal>)
    ensures var d, r := Aggregated(rules, signals).decision, Aggregated(rules, signals);
      && 0.0 <= d.passRate <= d.deterministicPassRate <= 1.0
      && 0.0 <= d.catastrophicFailureRate <= 1.0 - d.passRate
      && 0.0 <= d.evaluatorDisagreementRate <= 1.0
      && 0.0 <= r.infrastructureFailureRate <= 1.0
      && (signals != [] ==> (r.infrastructureFailureRate == 1.0 <==> d.ruling.status == InfrastructureError))
  {
    var s := Decidable(signals);
    ShareBounds(Passed, s);
    ShareBounds(BlockingPassed, s);
    ShareBounds(IsCatastrophic, s);
    PassedOrCatastrophic(s);
    RateMonotone(|Filter(Passed, s)|, |Filter(BlockingPassed, s)|, |s|);
    RatesAdd(|Filter(Passed, s)|, |Filter(IsCatastrophic, s)|, |s|);
    DisagreementBounds(Map(NormalizedScores, s), rules.disagreementThreshold);
    ShareBounds(IsInfrastructure, signals);
    if signals != [] { AllInfrastructure(rules, signals); }
    hide Filter, Rate, DisagreementRate, StatsUsing, Decidable, Outcome;
  }

  lemma RatesAdd(a: nat, b: nat, n: nat)
    requires a + b <= n
    ensures Rate(a, n) + Rate(b, n) <= 1.0
  {
    hide Times;
    if n > 0 {
      var d := n as real;
      var x, y := a as real / d, b as real / d;
      Quotient(d, a as real);
      Quotient(d, b as real);
      Units(d);
      Distribute(d, 1.0, x);
      Distribute(d, 1.0 - x, y);
      CancelPositive(d, 1.0 - x - y);
    }
  }

  lemma DisagreementBounds(runs: seq<seq<real>>, threshold: real)
    ensures 0.0 <= DisagreementRate(runs, threshold) <= 1.0
  {
    FilterShorter(Disagrees(threshold), Filter(Comparable, runs));
  }

  lemma AllInfrastructure(rules: Rules, signals: seq<Signal>)
    requires signals != []
    ensures Share(IsInfrastructure, signals) == 1.0 <==> Outcome(rules, signals).status == InfrastructureError
  {
    ShareBounds(IsInfrastructure, signals);
    FullShare(IsInfrastructure, signals);
    hide Share, Filter;
  }

  // -------------------------------------------------------------------- the method

  /** The threshold checks, pushed one by one. */
  method CheckThresholds(q: Qualification, pass: real, catastrophic: real, disagreement: real, domainMean: Option<real>)
    returns (r: Ruling)
    ensures r == Thresholds(q, pass, catastrophic, disagreement, domainMean)
  {
    var violations := [];
    if pass < q.deterministicPassRate {
      violations := violations + [PassRateTooLow(pass, q.deterministicPassRate)];
    }
    if catastrophic > q.maximumCatastrophicFailureRate {
      violations := violations + [TooManyCatastrophes(catastrophic, q.maximumCatastrophicFailureRate)];
    }
    if disagreement > q.maximumEvaluatorDisagreement {
      violations := violations + [TooMuchDisagreement(disagreement, q.maximumEvaluatorDisagreement)];
    }
    assert violations == RateViolations(q, pass, catastrophic, disagreement);
    if q.minimumDomainScore > 0.0 {
      if domainMean.None? { return Ruling(Inconclusive, violations, NoJudgeScores); }
      if domainMean.value < q.minimumDomainScore {
        violations := violations + [DomainScoreTooLow(domainMean.value, q.minimumDomainScore)];
      }
    }
    r := Ruling(if violations == [] then Qualified else Disqualified, violations,
                if violations == [] then AllThresholdsMet else ThresholdsViolated);
  }

  /** `aggregate`: the early returns, then the thresholds. */
  method Aggregate(rules: Rules, signals: seq<Signal>) returns (r: Result)
    ensures r == Aggregated(rules, signals)
  {
    hide Share, StatsUsing, DomainSamples, DisagreementRate, Filter, Any, Thresholds, Map;
    var decidable := Filter(IsDecidable, signals);
    var pass, catastrophic := Share(BlockingPassed, decidable), Share(IsCatastrophic, decidable);
    var domainScore := StatsUsing(rules.sqrt, DomainSamples(decidable));
    var disagreement := Disagreement(decidable, rules.disagreementThreshold);
    var ruling;
    if signals == [] {
      ruling := Ruling(Inconclusive, [], NoRepetitions);
    } else if |Filter(IsInfrastructure, signals)| == |signals| {
      ruling := Ruling(InfrastructureError, [], OnlyInfrastructureFailures);
    } else if Any(LacksVerifier, decidable) && !Any(FailsBlocking, decidable) {
      ruling := Ruling(Inconclusive, [], VerifierNotAvailable);
    } else {
      ruling := CheckThresholds(rules.qualification, pass, catastrophic, disagreement, MeanOf(domainScore));
    }
    var decision := Decision(ruling, pass, Share(Passed, decidable), catastrophic, disagreement, domainScore);
    r := Result(decision, |signals|, Share(IsInfrastructure, signals),
                StatsUsing(rules.sqrt, Map(LatencyOf, Filter(HasLatency, signals))));
  }
}
