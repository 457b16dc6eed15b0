/** Unblinding review scores (src/framework/aggregate.ts). */
module Aggregate {
  import opened Algebra
  import opened BlindId
  import opened Groups
  import opened Js
  import opened Order
  import opened Review
  import opened Sums
  import opened Text

  datatype ReviewableRun = ReviewableRun(
    runId: JsString,
    backend: JsString,
    model: JsString,
    benchmarkId: JsString,
    category: JsString,
    repetitionIndex: int)

  datatype MappingEntry = MappingEntry(
    blindId: JsString,
    runId: JsString,
    backend: JsString,
    model: JsString,
    benchmarkId: JsString,
    repetitionIndex: int)

  // -------------------------------------------------------------- createReviewSet

  function RunIdOf(r: ReviewableRun): JsString { r.runId }

  function RunLeq(collate: (JsString, JsString) -> bool): (ReviewableRun, ReviewableRun) -> bool {
    Through(collate, RunIdOf)
  }

  function Ordered(collate: (JsString, JsString) -> bool, runs: seq<ReviewableRun>): seq<ReviewableRun> {
    SortBy(RunLeq(collate), runs)
  }

  function BlindIdOf(table: map<JsString, JsString>, r: ReviewableRun): JsString {
    if r.runId in table then table[r.runId] else []
  }

  function ToTask(table: map<JsString, JsString>): ReviewableRun -> Task {
    (r: ReviewableRun) => Task(BlindIdOf(table, r), r.benchmarkId, r.category, Created, None)
  }

  function ToEntry(table: map<JsString, JsString>): ReviewableRun -> MappingEntry {
    (r: ReviewableRun) =>
      MappingEntry(BlindIdOf(table, r), r.runId, r.backend, r.model, r.benchmarkId, r.repetitionIndex)
  }

  ghost predicate Ready(c: IdSource, runs: seq<ReviewableRun>) {
    Assignable(c, Map(RunIdOf, runs))
  }

  ghost function Table(c: IdSource, runs: seq<ReviewableRun>): map<JsString, JsString>
    requires Ready(c, runs)
  {
    BlindIds(c, Map(RunIdOf, runs))
  }

  ghost function TasksFor(c: IdSource, collate: (JsString, JsString) -> bool, runs: seq<ReviewableRun>): seq<Task>
    requires Ready(c, runs)
  {
    Map(ToTask(Table(c, runs)), Ordered(collate, runs))
  }

  ghost function EntriesFor(c: IdSource, collate: (JsString, JsString) -> bool,
      runs: seq<ReviewableRun>): seq<MappingEntry>
    requires Ready(c, runs)
  {
    Map(ToEntry(Table(c, runs)), Ordered(collate, runs))
  }

  method CreateReviewSet(c: IdSource, collate: (JsString, JsString) -> bool, runs: seq<ReviewableRun>)
    returns (review: ReviewSet, entries: seq<MappingEntry>)
    requires Ready(c, runs)
    ensures fresh(review) && review.tasks == TasksFor(c, collate, runs)
    ensures entries == EntriesFor(c, collate, runs)
  {
    var blindIds := AssignBlindIds(c, Map(RunIdOf, runs));
    var ordered := SortBy(RunLeq(collate), runs);
    review := new ReviewSet(Map(ToTask(blindIds), ordered));
    entries := Map(ToEntry(blindIds), ordered);
  }

  /** Review set and mapping do not depend on the order in which the runs are listed. */
  lemma CreateIgnoresOrder(c: IdSource, collate: (JsString, JsString) -> bool, runs: seq<ReviewableRun>,
      others: seq<ReviewableRun>)
    requires Ready(c, runs) && TotalPreorder(collate) && NoTies(RunLeq(collate), runs)
    requires multiset(runs) == multiset(others)
    ensures Ready(c, others)
    ensures TasksFor(c, collate, runs) == TasksFor(c, collate, others)
    ensures EntriesFor(c, collate, runs) == EntriesFor(c, collate, others)
  {
    MapPermutes(RunIdOf, runs, others);
    BlindIdsIgnoreOrder(c, Map(RunIdOf, runs), Map(RunIdOf, others));
    ThroughOrdered(collate, RunIdOf);
    SortCanonical(RunLeq(collate), runs, others);
  }

  // -------------------------------------------------------------- attributing scores

  /** One reviewed answer, attributed. */
  datatype Scored = Scored(model: JsString, category: JsString, score: real, strength: JsString, weakness: JsString)

  function ScoredBy(model: JsString, category: JsString, c: Comment): Scored {
    Scored(model, category, c.score, c.strength, c.weakness)
  }

  /** Blind id to model; a repeated blind id keeps its last entry. */
  function ModelIndex(entries: seq<MappingEntry>): map<JsString, JsString> {
    if entries == [] then map[]
    else
      var e := entries[|entries| - 1];
      ModelIndex(entries[..|entries| - 1])[e.blindId := e.model]
  }

  predicate IsScored(t: Task) { (t.state == State.Reviewed || t.state == Finalized) && t.comment.Some? }

  function ScoresOfTask(index: map<JsString, JsString>, t: Task): seq<Scored> {
    if IsScored(t) && t.blindId in index then [ScoredBy(index[t.blindId], t.category, t.comment.value)] else []
  }

  /** What the tasks contribute when joined through the mapping. */
  function Joined(index: map<JsString, JsString>, tasks: seq<Task>): seq<Scored> {
    if tasks == [] then []
    else Joined(index, tasks[..|tasks| - 1]) + ScoresOfTask(index, tasks[|tasks| - 1])
  }

  /** The same read directly off the runs, task `i` being the review of run `i`. */
  function Direct(runs: seq<ReviewableRun>, tasks: seq<Task>): seq<Scored>
    requires |runs| == |tasks|
  {
    if tasks == [] then []
    else
      var n := |tasks| - 1;
      Direct(runs[..n], tasks[..n])
      + if IsScored(tasks[n]) then [ScoredBy(runs[n].model, runs[n].category, tasks[n].comment.value)] else []
  }

  /** Task `i` carries run `i`'s category and a blind id the index maps to run `i`'s model. */
  ghost predicate Attributed(index: map<JsString, JsString>, runs: seq<ReviewableRun>, tasks: seq<Task>) {
    && |runs| == |tasks|
    && forall i :: 0 <= i < |runs| ==>
      tasks[i].category == runs[i].category && tasks[i].blindId in index && index[tasks[i].blindId] == runs[i].model
  }

  lemma {:induction false} AttributedJoin(index: map<JsString, JsString>, runs: seq<ReviewableRun>, tasks: seq<Task>)
    requires Attributed(index, runs, tasks)
    ensures Joined(index, tasks) == Direct(runs, tasks)
  {
    if tasks != [] {
      var n := |tasks| - 1;
      AttributedJoin(index, runs[..n], tasks[..n]);
    }
  }

  lemma {:induction false} IndexFinds(entries: seq<MappingEntry>, i: nat)
    requires i < |entries| && forall j, k :: 0 <= j < k < |entries| ==> entries[j].blindId != entries[k].blindId
    ensures entries[i].blindId in ModelIndex(entries) && ModelIndex(entries)[entries[i].blindId] == entries[i].model
    decreases |entries|
  {
    var n := |entries| - 1;
    if i < n { IndexFinds(entries[..n], i); }
  }

  lemma OrderedRunIds(collate: (JsString, JsString) -> bool, runs: seq<ReviewableRun>)
    requires TotalPreorder(collate) && Distinct(Map(RunIdOf, runs))
    ensures multiset(Ordered(collate, runs)) == multiset(runs)
    ensures Distinct(Map(RunIdOf, Ordered(collate, runs)))
    ensures forall r :: r in Ordered(collate, runs) ==> r.runId in Map(RunIdOf, runs)
  {
    var ordered := Ordered(collate, runs);
    ThroughOrdered(collate, RunIdOf);
    SortByCorrect(RunLeq(collate), runs);
    MapPermutes(RunIdOf, ordered, runs);
    DistinctPermutes(Map(RunIdOf, runs), Map(RunIdOf, ordered));
    SameElements(Map(RunIdOf, runs), Map(RunIdOf, ordered));
    forall r | r in ordered ensures r.runId in Map(RunIdOf, runs) {
      var i :| 0 <= i < |ordered| && ordered[i] == r;
      assert Map(RunIdOf, ordered)[i] == r.runId;
    }
  }

  lemma EntriesApart(c: IdSource, collate: (JsString, JsString) -> bool, runs: seq<ReviewableRun>)
    requires Ready(c, runs) && TotalPreorder(collate) && Distinct(Map(RunIdOf, runs))
    ensures var e := EntriesFor(c, collate, runs); forall j, k :: 0 <= j < k < |e| ==> e[j].blindId != e[k].blindId
  {
    var ordered, ids := Ordered(collate, runs), Map(RunIdOf, Ordered(collate, runs));
    OrderedRunIds(collate, runs);
    BlindIdsInjective(c, Map(RunIdOf, runs));
    var e := EntriesFor(c, collate, runs);
    forall j, k | 0 <= j < k < |e| ensures e[j].blindId != e[k].blindId {
      assert ordered[j] in ordered && ordered[k] in ordered;
      assert ids[j] != ids[k];
    }
  }

  /** After any run of review calls, every task is still attributed to its own run. */
  lemma AttributionSurvives(c: IdSource, collate: (JsString, JsString) -> bool, runs: seq<ReviewableRun>,
      calls: seq<Call>)
    requires Ready(c, runs) && TotalPreorder(collate) && Distinct(Map(RunIdOf, runs))
    ensures Attributed(ModelIndex(EntriesFor(c, collate, runs)), Ordered(collate, runs),
      Run(TasksFor(c, collate, runs), calls))
  {
    var ordered, entries := Ordered(collate, runs), EntriesFor(c, collate, runs);
    var start, tasks := TasksFor(c, collate, runs), Run(TasksFor(c, collate, runs), calls);
    var index := ModelIndex(entries);
    EntriesApart(c, collate, runs);
    forall i | 0 <= i < |ordered|
      ensures tasks[i].category == ordered[i].category
      ensures tasks[i].blindId in index && index[tasks[i].blindId] == ordered[i].model
    {
      RunClimbs(start, calls, i);
      IndexFinds(entries, i);
    }
  }

  // ------------------------------------------------------------------ aggregates

  datatype CategoryScore = CategoryScore(category: JsString, averageScore: real, reviewedCount: nat)

  datatype ModelAggregate = ModelAggregate(
    model: JsString,
    averageScore: Option<real>,
    reviewedCount: nat,
    categorySummary: seq<CategoryScore>,
    strengths: seq<JsString>,
    weaknesses: seq<JsString>)

  function ModelOf(s: Scored): JsString { s.model }
  function CategoryOf(s: Scored): JsString { s.category }
  function ScoreOf(s: Scored): real { s.score }

  function Scores(s: seq<Scored>): seq<real> { Map(ScoreOf, s) }

  function StrengthOf(s: Scored): JsString { Trim(s.strength) }
  function WeaknessOf(s: Scored): JsString { Trim(s.weakness) }
  predicate IsNote(note: JsString) { note != [] }

  /** The trimmed notes that are not empty, in order. */
  function Notes(note: Scored -> JsString, s: seq<Scored>): seq<JsString> { Filter(IsNote, Map(note, s)) }

  function MeanOf(values: seq<real>): Option<real> {
    if values == [] then None else Some(Sum(values) / (|values| as real))
  }

  function OrZero(v: Option<real>): real { if v.Some? then v.value else 0.0 }

  function CategorySummary(scores: seq<real>, category: JsString): CategoryScore {
    CategoryScore(category, OrZero(MeanOf(scores)), |scores|)
  }

  function CategorySummaries(group: seq<Scored>, categories: seq<JsString>): (r: seq<CategoryScore>)
    ensures |r| == |categories|
    ensures forall i :: 0 <= i < |categories| ==>
      r[i] == CategorySummary(Scores(Group(CategoryOf, group, categories[i])), categories[i])
  {
    if categories == [] then []
    else
      var n := |categories| - 1;
      var last := Scores(Group(CategoryOf, group, categories[n]));
      CategorySummaries(group, categories[..n]) + [CategorySummary(last, categories[n])]
  }

  function ModelSummary(group: seq<Scored>, model: JsString): ModelAggregate {
    var categories := SortBy(LexLeq, Keys(CategoryOf, group));
    ModelAggregate(model, MeanOf(Scores(group)), |group|, CategorySummaries(group, categories),
                   Notes(StrengthOf, group), Notes(WeaknessOf, group))
  }

  function ModelSummaries(scored: seq<Scored>, models: seq<JsString>): (r: seq<ModelAggregate>)
    ensures |r| == |models|
    ensures forall i :: 0 <= i < |models| ==> r[i] == ModelSummary(Group(ModelOf, scored, models[i]), models[i])
  {
    if models == [] then []
    else
      var n := |models| - 1;
      ModelSummaries(scored, models[..n]) + [ModelSummary(Group(ModelOf, scored, models[n]), models[n])]
  }

  /** The aggregate of attributed scores: models and categories in code-unit order. */
  function Aggregated(scored: seq<Scored>): seq<ModelAggregate> {
    ModelSummaries(scored, SortBy(LexLeq, Keys(ModelOf, scored)))
  }

  /** Blinding loses nothing: after any sequence of review calls, aggregating through blind ids
      and the private mapping is aggregating the scores directly over the runs. */
  lemma UnblindingIsFaithful(c: IdSource, collate: (JsString, JsString) -> bool, runs: seq<ReviewableRun>,
      calls: seq<Call>)
    requires Ready(c, runs) && TotalPreorder(collate) && Distinct(Map(RunIdOf, runs))
    ensures var tasks := Run(TasksFor(c, collate, runs), calls);
      && multiset(Ordered(collate, runs)) == multiset(runs)
      && Aggregated(Joined(ModelIndex(EntriesFor(c, collate, runs)), tasks))
         == Aggregated(Direct(Ordered(collate, runs), tasks))
  {
    AttributionSurvives(c, collate, runs, calls);
    OrderedRunIds(collate, runs);
    AttributedJoin(ModelIndex(EntriesFor(c, collate, runs)), Ordered(collate, runs),
      Run(TasksFor(c, collate, runs), calls));
  }

  // ---------------------------------------------------------------- conservation

  function CategoryCounts(summaries: seq<CategoryScore>): nat {
    if summaries == [] then 0
    else CategoryCounts(summaries[..|summaries| - 1]) + summaries[|summaries| - 1].reviewedCount
  }

  /** The category averages, each weighted by its count. */
  function WeightedTotal(summaries: seq<CategoryScore>): real {
    if summaries == [] then 0.0
    else
      var last := summaries[|summaries| - 1];
      WeightedTotal(summaries[..|summaries| - 1]) + Times(last.reviewedCount as real, last.averageScore)
  }

  function ReviewedTotal(aggregates: seq<ModelAggregate>): nat {
    if aggregates == [] then 0
    else ReviewedTotal(aggregates[..|aggregates| - 1]) + aggregates[|aggregates| - 1].reviewedCount
  }

  lemma MeanTimesCount(scores: seq<real>)
    ensures Times(|scores| as real, OrZero(MeanOf(scores))) == Sum(scores)
  {
    hide Times;
    if scores == [] {
      Units(0.0);
      Commute(0.0, 0.0);
    } else {
      Quotient(|scores| as real, Sum(scores));
    }
  }

  lemma {:induction false} CategoriesAreConcat(group: seq<Scored>, categories: seq<JsString>)
    ensures var lists := Concat(GroupLists(CategoryOf, group, categories));
      && CategoryCounts(CategorySummaries(group, categories)) == |lists|
      && WeightedTotal(CategorySummaries(group, categories)) == Sum(Scores(lists))
  {
    if categories != [] {
      var n := |categories| - 1;
      var init, last := Concat(GroupLists(CategoryOf, group, categories[..n])), Group(CategoryOf, group, categories[n]);
      CategoriesAreConcat(group, categories[..n]);
      CategoriesLast(group, categories);
      GroupListsInit(CategoryOf, group, categories);
      MapAppend(ScoreOf, init, last);
      SumAppend(Scores(init), Scores(last));
      MeanTimesCount(Scores(last));
    }
  }

  lemma CategoriesLast(group: seq<Scored>, categories: seq<JsString>)
    requires categories != []
    ensures var n := |categories| - 1; var last := Scores(Group(CategoryOf, group, categories[n]));
      && CategoryCounts(CategorySummaries(group, categories))
         == CategoryCounts(CategorySummaries(group, categories[..n])) + |last|
      && WeightedTotal(CategorySummaries(group, categories))
         == WeightedTotal(CategorySummaries(group, categories[..n])) + Times(|last| as real, OrZero(MeanOf(last)))
  {
    hide Group, Scores, MeanOf, Times;
    var all, n := CategorySummaries(group, categories), |categories| - 1;
    assert all[..n] == CategorySummaries(group, categories[..n]);
  }

  /** A model's category counts sum to its count, and its category averages weighted by their
      counts recombine to its average. */
  lemma CategoriesRecombine(group: seq<Scored>, model: JsString)
    ensures var a := ModelSummary(group, model);
      && CategoryCounts(a.categorySummary) == a.reviewedCount
      && WeightedTotal(a.categorySummary) == Times(a.reviewedCount as real, OrZero(a.averageScore))
  {
    var categories := SortBy(LexLeq, Keys(CategoryOf, group));
    LexIsTotalOrder();
    SortByCorrect(LexLeq, Keys(CategoryOf, group));
    GroupListsRearrange(CategoryOf, group, categories);
    var all := Concat(GroupLists(CategoryOf, group, categories));
    MapPermutes(ScoreOf, all, group);
    SumPermutes(Scores(all), Scores(group));
    CategoriesAreConcat(group, categories);
    MeanTimesCount(Scores(group));
  }

  lemma {:induction false} ModelsAreConcat(scored: seq<Scored>, models: seq<JsString>)
    ensures ReviewedTotal(ModelSummaries(scored, models)) == |Concat(GroupLists(ModelOf, scored, models))|
  {
    if models != [] {
      var n := |models| - 1;
      var all := ModelSummaries(scored, models);
      ModelsAreConcat(scored, models[..n]);
      GroupListsInit(ModelOf, scored, models);
      hide Group;
      assert all[..n] == ModelSummaries(scored, models[..n]);
    }
  }

  /** The report lists, in strictly increasing order, exactly the models with a score; every score
      is counted under exactly one model. */
  lemma ReportIsComplete(scored: seq<Scored>)
    ensures var report := Aggregated(scored);
      && (forall i, j :: 0 <= i < j < |report| ==>
            LexLeq(report[i].model, report[j].model) && report[i].model != report[j].model)
      && (forall m :: HasItem(ModelOf, scored, m) <==> IsListed(report, m))
      && (forall i :: 0 <= i < |report| ==> report[i].averageScore.Some? && report[i].reviewedCount > 0)
      && ReviewedTotal(report) == |scored|
  {
    var models, report := ReportedModels(scored), Aggregated(scored);
    ReportedModelsOrdered(scored);
    GroupListsRearrange(ModelOf, scored, models);
    ModelsAreConcat(scored, models);
    ReportHeads(scored, models);
    hide ReportedModels, Keys, Group, GroupLists, Concat, Aggregated, LexLeq, HasItem, ModelSummaries;
    forall m ensures HasItem(ModelOf, scored, m) <==> IsListed(report, m) {
      ListedIffIn(report, models, m);
    }
  }

  function ReportedModels(scored: seq<Scored>): seq<JsString> { SortBy(LexLeq, Keys(ModelOf, scored)) }

  lemma ReportedModelsOrdered(scored: seq<Scored>)
    ensures var models := ReportedModels(scored);
      && multiset(models) == multiset(Keys(ModelOf, scored))
      && (forall i, j :: 0 <= i < j < |models| ==> LexLeq(models[i], models[j]) && models[i] != models[j])
      && (forall m :: m in models <==> HasItem(ModelOf, scored, m))
  {
    var ks := Keys(ModelOf, scored);
    LexIsTotalOrder();
    SortByCorrect(LexLeq, ks);
    KeysDistinct(ModelOf, scored);
    hide SortBy, Keys, LexLeq;
    DistinctPermutes(ks, ReportedModels(scored));
    SameElements(ks, ReportedModels(scored));
  }

  lemma ReportHeads(scored: seq<Scored>, models: seq<JsString>)
    requires forall m :: m in models ==> HasItem(ModelOf, scored, m)
    ensures var report := ModelSummaries(scored, models);
      forall i :: 0 <= i < |report| ==>
        report[i].model == models[i] && report[i].averageScore.Some? && report[i].reviewedCount > 0
  {
    hide Group, ModelSummaries;
    forall i | 0 <= i < |models| ensures |Group(ModelOf, scored, models[i])| > 0 {
      assert models[i] in models;
      ModelHasScores(scored, models[i]);
    }
  }

  ghost predicate IsListed(report: seq<ModelAggregate>, model: JsString) {
    exists i :: 0 <= i < |report| && report[i].model == model
  }

  lemma ListedIffIn(report: seq<ModelAggregate>, models: seq<JsString>, m: JsString)
    requires |report| == |models| && forall i :: 0 <= i < |report| ==> report[i].model == models[i]
    ensures IsListed(report, m) <==> m in models
  {
    if m in models {
      var i :| 0 <= i < |models| && models[i] == m;
      assert report[i].model == m;
    }
  }

  lemma ModelHasScores(scored: seq<Scored>, model: JsString)
    requires HasItem(ModelOf, scored, model)
    ensures |Group(ModelOf, scored, model)| > 0
  {
    GroupMembers(ModelOf, scored, model);
    var s :| s in scored && ModelOf(s) == model;
    assert s in Group(ModelOf, scored, model);
  }

  // ------------------------------------------------------------------ the method

  /** The per-model accumulator: all scores, and the scores of each category. */
  datatype Acc = Acc(
    scores: seq<real>,
    categories: seq<JsString>,
    byCategory: map<JsString, seq<real>>,
    strengths: seq<JsString>,
    weaknesses: seq<JsString>)

  ghost predicate IsAcc(group: seq<Scored>, a: Acc) {
    && a.scores == Scores(group)
    && a.strengths == Notes(StrengthOf, group) && a.weaknesses == Notes(WeaknessOf, group)
    && a.categories == Keys(CategoryOf, group)
    && (forall c :: c in a.categories <==> c in a.byCategory)
    && forall c :: c in a.byCategory ==> a.byCategory[c] == Scores(Group(CategoryOf, group, c))
  }

  function AddNote(notes: seq<JsString>, note: JsString): seq<JsString> {
    if note != [] then notes + [note] else notes
  }

  function PushScore(a: Acc, s: Scored): Acc {
    var scores := if s.category in a.byCategory then a.byCategory[s.category] else [];
    Acc(a.scores + [s.score],
        if s.category in a.byCategory then a.categories else a.categories + [s.category],
        a.byCategory[s.category := scores + [s.score]],
        AddNote(a.strengths, StrengthOf(s)), AddNote(a.weaknesses, WeaknessOf(s)))
  }

  lemma NotesGrow(note: Scored -> JsString, group: seq<Scored>, s: Scored)
    ensures Notes(note, group + [s]) == AddNote(Notes(note, group), note(s))
  {
    MapAppend(note, group, [s]);
    assert Map(note, [s]) == [note(s)];
    FilterAppend(IsNote, Map(note, group), [note(s)]);
    FilterSingle(IsNote, note(s));
    assert Notes(note, group) + [] == Notes(note, group);
  }

  lemma CategoryGroupGrows(group: seq<Scored>, s: Scored, c: JsString)
    ensures Scores(Group(CategoryOf, group + [s], c))
         == Scores(Group(CategoryOf, group, c)) + if s.category == c then [s.score] else []
  {
    GroupExtends(CategoryOf, group, s, c);
    MapAppend(ScoreOf, Group(CategoryOf, group, c), [s]);
    assert Scores(Group(CategoryOf, group, c)) + [] == Scores(Group(CategoryOf, group, c));
  }

  lemma AccGrows(group: seq<Scored>, a: Acc, s: Scored)
    requires IsAcc(group, a)
    ensures IsAcc(group + [s], PushScore(a, s))
  {
    hide Group, Keys, Notes, AddNote, Trim;
    NotesGrow(StrengthOf, group, s);
    NotesGrow(WeaknessOf, group, s);
    MapAppend(ScoreOf, group, [s]);
    KeysExtend(CategoryOf, group, s);
    if s.category !in Keys(CategoryOf, group) { NoGroup(CategoryOf, group, s.category); }
    forall c
      ensures Scores(Group(CategoryOf, group + [s], c))
           == Scores(Group(CategoryOf, group, c)) + if s.category == c then [s.score] else []
    {
      CategoryGroupGrows(group, s, c);
    }
  }

  ghost predicate Accumulated(scored: seq<Scored>, models: seq<JsString>, acc: map<JsString, Acc>) {
    && models == Keys(ModelOf, scored)
    && (forall m :: m in models <==> m in acc)
    && forall m :: m in acc ==> IsAcc(Group(ModelOf, scored, m), acc[m])
  }

  const EMPTY_ACC := Acc([], [], map[], [], [])

  lemma AccumulatedGrows(scored: seq<Scored>, models: seq<JsString>, acc: map<JsString, Acc>, s: Scored)
    requires Accumulated(scored, models, acc)
    ensures Accumulated(scored + [s],
                        if s.model in acc then models else models + [s.model],
                        acc[s.model := PushScore(if s.model in acc then acc[s.model] else EMPTY_ACC, s)])
  {
    hide Group, Keys, PushScore, IsAcc;
    var a := if s.model in acc then acc[s.model] else EMPTY_ACC;
    var group := Group(ModelOf, scored, s.model);
    KeysExtend(ModelOf, scored, s);
    if s.model !in acc {
      NoGroup(ModelOf, scored, s.model);
      EmptyAcc();
    }
    AccGrows(group, a, s);
    forall m
      ensures Group(ModelOf, scored + [s], m) == if s.model == m then group + [s] else Group(ModelOf, scored, m)
    {
      GroupExtends(ModelOf, scored, s, m);
    }
  }

  lemma EmptyAcc()
    ensures IsAcc([], EMPTY_ACC)
  {
  }

  /** The accumulation loop of `aggregateResults`. */
  method Accumulate(index: map<JsString, JsString>, tasks: seq<Task>) returns (models: seq<JsString>,
      acc: map<JsString, Acc>)
    ensures Accumulated(Joined(index, tasks), models, acc)
  {
    hide Accumulated, PushScore;
    models, acc := [], map[];
    NothingAccumulated(Joined(index, tasks[..0]));
    for i := 0 to |tasks|
      invariant Accumulated(Joined(index, tasks[..i]), models, acc)
    {
      var t := tasks[i];
      assert tasks[..i + 1][..i] == tasks[..i];
      ghost var scored := Joined(index, tasks[..i]);
      if IsScored(t) && t.blindId in index {
        var s := ScoredBy(index[t.blindId], t.category, t.comment.value);
        AccumulatedGrows(scored, models, acc, s);
        var a := if s.model in acc then acc[s.model] else EMPTY_ACC;
        models := if s.model in acc then models else models + [s.model];
        acc := acc[s.model := PushScore(a, s)];
      } else {
        assert scored + [] == scored;
      }
    }
    assert tasks[..|tasks|] == tasks;
  }

  lemma NothingAccumulated(scored: seq<Scored>)
    requires scored == []
    ensures Accumulated(scored, [], map[])
  {
  }

  method Summarize(model: JsString, a: Acc, ghost group: seq<Scored>) returns (r: ModelAggregate)
    requires IsAcc(group, a)
    ensures r == ModelSummary(group, model)
  {
    hide Group;
    var categories := SortBy(LexLeq, a.categories);
    SortedKeys(CategoryOf, group, categories);
    hide SortBy, Keys;
    var summaries := [];
    for i := 0 to |categories|
      invariant summaries == CategorySummaries(group, categories[..i])
    {
      assert categories[..i + 1][..i] == categories[..i];
      summaries := summaries + [CategorySummary(a.byCategory[categories[i]], categories[i])];
    }
    assert categories[..|categories|] == categories;
    r := ModelAggregate(model, MeanOf(a.scores), |a.scores|, summaries, a.strengths, a.weaknesses);
  }

  lemma SortedKeys<T(!new)>(key: T -> JsString, s: seq<T>, sorted: seq<JsString>)
    requires sorted == SortBy(LexLeq, Keys(key, s))
    ensures forall k :: k in sorted ==> k in Keys(key, s)
  {
    LexIsTotalOrder();
    SortByCorrect(LexLeq, Keys(key, s));
    SameElements(Keys(key, s), sorted);
  }

  /** `aggregateResults`. */
  method AggregateResults(tasks: seq<Task>, entries: seq<MappingEntry>) returns (r: seq<ModelAggregate>)
    ensures r == Aggregated(Joined(ModelIndex(entries), tasks))
  {
    ghost var scored := Joined(ModelIndex(entries), tasks);
    var keys, acc := Accumulate(ModelIndex(entries), tasks);
    var models := SortBy(LexLeq, keys);
    SortedKeys(ModelOf, scored, models);
    r := SummarizeAll(models, acc, scored);
  }

  method SummarizeAll(models: seq<JsString>, acc: map<JsString, Acc>,
      ghost scored: seq<Scored>) returns (r: seq<ModelAggregate>)
    requires forall m :: m in models ==> m in acc && IsAcc(Group(ModelOf, scored, m), acc[m])
    ensures r == ModelSummaries(scored, models)
  {
    hide IsAcc, Group, ModelSummary;
    r := [];
    for i := 0 to |models|
      invariant r == ModelSummaries(scored, models[..i])
    {
      assert models[..i + 1][..i] == models[..i];
      var summary := Summarize(models[i], acc[models[i]], Group(ModelOf, scored, models[i]));
      r := r + [summary];
    }
    assert models[..|models|] == models;
  }
}
