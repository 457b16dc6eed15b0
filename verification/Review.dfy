/** The blind review workflow (src/framework/review.ts). */
module Review {
  import opened Js
  import opened Order

  // ------------------------------------------------------------------ data model

  datatype State = Created | Assigned | InReview | Reviewed | Finalized

  datatype Comment = Comment(score: real, comment: JsString, strength: JsString, weakness: JsString, notes: JsString)

  datatype Task =
    Task(blindId: JsString, benchmarkId: JsString, category: JsString, state: State, comment: Option<Comment>)

  /** A call; `parsed` is what the comment schema makes of the submitted comment, if it accepts it. */
  datatype Call =
    | Advance(blindId: JsString, to: State)
    | Submit(blindId: JsString, parsed: Option<Comment>)

  datatype Outcome =
    Done(task: Task) | UnknownTask | IllegalTransition(state: State) | NotInReview(state: State) | InvalidComment

  function Successor(s: State): Option<State> {
    match s
    case Created => Some(Assigned)
    case Assigned => Some(InReview)
    case InReview => Some(Reviewed)
    case Reviewed => Some(Finalized)
    case Finalized => None
  }

  predicate CanTransition(s: State, to: State) { Successor(s) == Some(to) }

  function Rank(s: State): nat {
    match s
    case Created => 0
    case Assigned => 1
    case InReview => 2
    case Reviewed => 3
    case Finalized => 4
  }

  // ------------------------------------------------------------------- the calls

  /** The first task with this blind id. */
  function Find(tasks: seq<Task>, blindId: JsString): (i: Option<nat>)
    ensures i.Some? ==> i.value < |tasks| && tasks[i.value].blindId == blindId
  {
    if tasks == [] then None
    else
      var early := Find(tasks[..|tasks| - 1], blindId);
      if early.Some? then early
      else if tasks[|tasks| - 1].blindId == blindId then Some(|tasks| - 1)
      else None
  }

  /** What the call makes of the task it addresses. */
  function Step(t: Task, call: Call): Outcome {
    match call
    case Advance(_, to) => if CanTransition(t.state, to) then Done(t.(state := to)) else IllegalTransition(t.state)
    case Submit(_, parsed) =>
      if t.state != InReview then NotInReview(t.state)
      else if parsed.None? then InvalidComment
      else Done(t.(comment := parsed, state := Reviewed))
  }

  function OutcomeOf(tasks: seq<Task>, call: Call): Outcome {
    var i := Find(tasks, call.blindId);
    if i.None? then UnknownTask else Step(tasks[i.value], call)
  }

  /** The tasks after the call: the first with its blind id is replaced, if the call goes through. */
  function After(tasks: seq<Task>, call: Call): (r: seq<Task>)
    ensures |r| == |tasks|
  {
    var i, o := Find(tasks, call.blindId), OutcomeOf(tasks, call);
    if i.Some? && o.Done? then tasks[i.value := o.task] else tasks
  }

  function Run(tasks: seq<Task>, calls: seq<Call>): (r: seq<Task>)
    ensures |r| == |tasks|
  {
    if calls == [] then tasks else After(Run(tasks, calls[..|calls| - 1]), calls[|calls| - 1])
  }

  /** The call succeeds on task `i`. */
  predicate Succeeds(tasks: seq<Task>, call: Call, i: nat) {
    Find(tasks, call.blindId) == Some(i) && OutcomeOf(tasks, call).Done?
  }

  /** How many calls of the run succeed on task `i`. */
  function Successes(tasks: seq<Task>, calls: seq<Call>, i: nat): nat {
    if calls == [] then 0
    else
      var n := |calls| - 1;
      Successes(tasks, calls[..n], i) + if Succeeds(Run(tasks, calls[..n]), calls[n], i) then 1 else 0
  }

  /** How many of them submit a comment. */
  function Submissions(tasks: seq<Task>, calls: seq<Call>, i: nat): nat {
    if calls == [] then 0
    else
      var n := |calls| - 1;
      Submissions(tasks, calls[..n], i)
      + if calls[n].Submit? && Succeeds(Run(tasks, calls[..n]), calls[n], i) then 1 else 0
  }

  predicate SameIdentity(t: Task, u: Task) {
    t.blindId == u.blindId && t.benchmarkId == u.benchmarkId && t.category == u.category
  }

  predicate IsNew(t: Task) { t.state == Created && t.comment.None? }

  // ---------------------------------------------------------------- main results

  lemma StepMovesOn(t: Task, call: Call)
    requires Step(t, call).Done?
    ensures var u := Step(t, call).task;
      && SameIdentity(t, u) && Rank(u.state) == Rank(t.state) + 1
      && (call.Submit? ==> t.state == InReview && u.state == Reviewed && u.comment.Some?)
      && (call.Advance? ==> u.comment == t.comment)
  {
  }

  lemma CallOnTask(tasks: seq<Task>, call: Call, i: nat)
    requires i < |tasks|
    ensures After(tasks, call)[i] == if Succeeds(tasks, call, i) then Step(tasks[i], call).task else tasks[i]
  {
  }

  /** Over any run: a task keeps its identity and climbs one state per successful call, so it
      never moves back and at most four calls ever succeed on it. */
  lemma {:induction false} RunClimbs(tasks: seq<Task>, calls: seq<Call>, i: nat)
    requires i < |tasks|
    ensures var t, u := tasks[i], Run(tasks, calls)[i];
      && SameIdentity(t, u)
      && Rank(u.state) == Rank(t.state) + Successes(tasks, calls, i)
      && Successes(tasks, calls, i) <= 4
  {
    if calls != [] {
      var n := |calls| - 1;
      var before := Run(tasks, calls[..n]);
      RunClimbs(tasks, calls[..n], i);
      CallOnTask(before, calls[n], i);
      if Succeeds(before, calls[n], i) { StepMovesOn(before[i], calls[n]); }
    }
  }

  /** States only move forward between any two moments of a run. */
  lemma StatesOnlyAdvance(tasks: seq<Task>, calls: seq<Call>, more: seq<Call>, i: nat)
    requires i < |tasks|
    ensures Run(tasks, calls + more) == Run(Run(tasks, calls), more)
    ensures Rank(Run(tasks, calls)[i].state) <= Rank(Run(tasks, calls + more)[i].state)
  {
    RunAppend(tasks, calls, more);
    RunClimbs(Run(tasks, calls), more, i);
  }

  lemma {:induction false} RunAppend(tasks: seq<Task>, calls: seq<Call>, more: seq<Call>)
    ensures Run(tasks, calls + more) == Run(Run(tasks, calls), more)
  {
    if more == [] {
      assert calls + more == calls;
    } else {
      RunAppend(tasks, calls, more[..|more| - 1]);
      assert (calls + more)[..|calls + more| - 1] == calls + more[..|more| - 1];
    }
  }

  /** A task created without a comment gets one by its single successful submission and by
      nothing else, keeps that comment, and has then reached REVIEWED. */
  lemma {:induction false} CommentOnce(tasks: seq<Task>, calls: seq<Call>, i: nat)
    requires i < |tasks| && IsNew(tasks[i])
    ensures var u := Run(tasks, calls)[i];
      && Submissions(tasks, calls, i) <= 1
      && (u.comment.Some? <==> Submissions(tasks, calls, i) == 1)
      && (u.comment.Some? ==> u.state == Reviewed || u.state == Finalized)
  {
    if calls != [] {
      var n := |calls| - 1;
      var before := Run(tasks, calls[..n]);
      CommentOnce(tasks, calls[..n], i);
      CallOnTask(before, calls[n], i);
      if Succeeds(before, calls[n], i) { StepMovesOn(before[i], calls[n]); }
    }
  }

  /** Once there, a comment is never replaced. */
  lemma {:induction false} CommentStays(tasks: seq<Task>, calls: seq<Call>, i: nat)
    requires i < |tasks| && tasks[i].comment.Some? && (tasks[i].state == Reviewed || tasks[i].state == Finalized)
    ensures Run(tasks, calls)[i].comment == tasks[i].comment
  {
    if calls != [] {
      var n := |calls| - 1;
      var before := Run(tasks, calls[..n]);
      CommentStays(tasks, calls[..n], i);
      RunClimbs(tasks, calls[..n], i);
      CallOnTask(before, calls[n], i);
      if Succeeds(before, calls[n], i) { StepMovesOn(before[i], calls[n]); }
    }
  }

  /** The converse fails: a task may be advanced to REVIEWED, and on to FINALIZED, uncommented. */
  lemma ReviewedWithoutComment(id: JsString, benchmarkId: JsString, category: JsString) returns (calls: seq<Call>)
    ensures var t := Task(id, benchmarkId, category, Created, None);
      Run([t], calls) == [t.(state := Reviewed)]
  {
    var t := Task(id, benchmarkId, category, Created, None);
    calls := [Advance(id, Assigned), Advance(id, InReview), Advance(id, Reviewed)];
    assert Find([t][..0], id) == None && Find([t], id) == Some(0);
    assert calls[..2][..1] == calls[..1] && calls[..1][..0] == [];
    AdvanceSingle(t, Assigned);
    AdvanceSingle(t.(state := Assigned), InReview);
    AdvanceSingle(t.(state := InReview), Reviewed);
    assert Run([t], calls[..1]) == [t.(state := Assigned)];
    assert Run([t], calls[..2]) == [t.(state := InReview)];
  }

  lemma AdvanceSingle(t: Task, to: State)
    requires CanTransition(t.state, to)
    ensures After([t], Advance(t.blindId, to)) == [t.(state := to)]
  {
    assert Find([t][..0], t.blindId) == None;
  }

  /** Call `k` of the run submits the comment of task `i`. */
  ghost predicate SubmitsAt(tasks: seq<Task>, calls: seq<Call>, i: nat, k: nat) {
    k < |calls| && calls[k].Submit? && Succeeds(Run(tasks, calls[..k]), calls[k], i)
  }

  /** A task created without a comment has one exactly when some call submitted it. */
  lemma CommentIffSubmitted(tasks: seq<Task>, calls: seq<Call>, i: nat)
    requires i < |tasks| && IsNew(tasks[i])
    ensures Run(tasks, calls)[i].comment.Some? <==> exists k: nat :: SubmitsAt(tasks, calls, i, k)
  {
    CommentOnce(tasks, calls, i);
    SubmissionsCount(tasks, calls, i);
  }

  lemma SubmitsEarlier(tasks: seq<Task>, calls: seq<Call>, i: nat, k: nat)
    requires calls != [] && k < |calls| - 1
    ensures SubmitsAt(tasks, calls[..|calls| - 1], i, k) <==> SubmitsAt(tasks, calls, i, k)
  {
    assert calls[..|calls| - 1][..k] == calls[..k];
  }

  lemma {:induction false} SubmissionsCount(tasks: seq<Task>, calls: seq<Call>, i: nat)
    ensures Submissions(tasks, calls, i) > 0 <==> exists k: nat :: SubmitsAt(tasks, calls, i, k)
  {
    if calls != [] {
      var n := |calls| - 1;
      SubmissionsCount(tasks, calls[..n], i);
      hide Run, Succeeds;
      assert Submissions(tasks, calls, i)
        == Submissions(tasks, calls[..n], i) + if SubmitsAt(tasks, calls, i, n) then 1 else 0;
      hide Submissions;
      if exists k: nat :: SubmitsAt(tasks, calls, i, k) {
        var k: nat :| SubmitsAt(tasks, calls, i, k);
        if k < n { SubmitsEarlier(tasks, calls, i, k); }
      }
      if exists k: nat :: SubmitsAt(tasks, calls[..n], i, k) {
        var k: nat :| SubmitsAt(tasks, calls[..n], i, k);
        SubmitsEarlier(tasks, calls, i, k);
      }
    }
  }

  // ---------------------------------------------------- the promise of a comment

  /** Once the task is REVIEWED its comment is present. */
  predicate Commented(t: Task) { Rank(t.state) >= 3 ==> t.comment.Some? }

  /** The call would advance task `i` out of IN_REVIEW while it has no comment. */
  predicate SkipsComment(tasks: seq<Task>, call: Call, i: nat)
    requires i < |tasks|
  {
    && Find(tasks, call.blindId) == Some(i) && call.Advance? && call.to == Reviewed
    && tasks[i].state == InReview && tasks[i].comment.None?
  }

  /** One call breaks the promise for task `i` exactly when it skips the comment. */
  lemma CallCommentsIff(tasks: seq<Task>, call: Call, i: nat)
    requires i < |tasks|
    ensures Commented(After(tasks, call)[i]) <==> Commented(tasks[i]) && !SkipsComment(tasks, call, i)
  {
    CallOnTask(tasks, call, i);
  }

  /** Call `k` of the run meets task `i` in IN_REVIEW without a comment and advances it. */
  predicate SkipsAt(tasks: seq<Task>, calls: seq<Call>, i: nat, k: nat)
    requires i < |tasks| && k < |calls|
  {
    SkipsComment(Run(tasks, calls[..k]), calls[k], i)
  }

  /** After a run a REVIEWED task has its comment exactly when it had before and no call of the run
      skipped it. */
  lemma {:induction false} RunCommentsIff(tasks: seq<Task>, calls: seq<Call>, i: nat)
    requires i < |tasks|
    ensures Commented(Run(tasks, calls)[i])
      <==> Commented(tasks[i]) && forall k: nat :: k < |calls| ==> !SkipsAt(tasks, calls, i, k)
  {
    if calls != [] {
      var n := |calls| - 1;
      var init := calls[..n];
      RunCommentsIff(tasks, init, i);
      CallCommentsIff(Run(tasks, init), calls[n], i);
      hide Run, Commented, SkipsComment;
      forall k: nat | k < n ensures SkipsAt(tasks, init, i, k) == SkipsAt(tasks, calls, i, k) {
        assert init[..k] == calls[..k];
      }
      assert SkipsAt(tasks, calls, i, n) == SkipsComment(Run(tasks, init), calls[n], i);
    }
  }

  // ------------------------------------------------------------------ the counts

  function InState(s: State): Task -> bool { (t: Task) => t.state == s }

  function CountIn(tasks: seq<Task>, s: State): nat { |Filter(InState(s), tasks)| }

  /** Every task is counted in exactly one state. */
  lemma {:induction false} CountsCoverTasks(tasks: seq<Task>)
    ensures CountIn(tasks, Created) + CountIn(tasks, Assigned) + CountIn(tasks, InReview)
          + CountIn(tasks, Reviewed) + CountIn(tasks, Finalized) == |tasks|
  {
    if tasks != [] { CountsCoverTasks(tasks[1..]); }
  }

  lemma CountGrows(tasks: seq<Task>, t: Task, s: State)
    ensures CountIn(tasks + [t], s) == CountIn(tasks, s) + if t.state == s then 1 else 0
  {
    FilterAppend(InState(s), tasks, [t]);
  }

  // ------------------------------------------------------------------- the object

  class ReviewSet {
    var tasks: seq<Task>

    constructor (tasks: seq<Task>)
      ensures this.tasks == tasks
    {
      this.tasks := tasks;
    }

    method FindTask(blindId: JsString) returns (found: Option<nat>)
      ensures found == Find(tasks, blindId)
    {
      for i := 0 to |tasks|
        invariant Find(tasks[..i], blindId) == None
      {
        assert tasks[..i + 1][..i] == tasks[..i];
        if tasks[i].blindId == blindId {
          FoundEarly(tasks, blindId, i);
          return Some(i);
        }
      }
      assert tasks[..|tasks|] == tasks;
      return None;
    }

    /** `advanceTask`; a rejected transition leaves the set as it was. */
    method AdvanceTask(blindId: JsString, to: State) returns (o: Outcome)
      modifies this
      ensures o == OutcomeOf(old(tasks), Advance(blindId, to)) && tasks == After(old(tasks), Advance(blindId, to))
    {
      var i := FindTask(blindId);
      if i.None? { return UnknownTask; }
      var task := tasks[i.value];
      if !CanTransition(task.state, to) { return IllegalTransition(task.state); }
      tasks := tasks[i.value := task.(state := to)];
      o := Done(tasks[i.value]);
    }

    /** `submitReview`; the comment is validated before anything is assigned. */
    method SubmitReview(blindId: JsString, parsed: Option<Comment>) returns (o: Outcome)
      modifies this
      ensures o == OutcomeOf(old(tasks), Submit(blindId, parsed)) && tasks == After(old(tasks), Submit(blindId, parsed))
    {
      var i := FindTask(blindId);
      if i.None? { return UnknownTask; }
      var task := tasks[i.value];
      if task.state != InReview { return NotInReview(task.state); }
      if parsed.None? { return InvalidComment; }
      tasks := tasks[i.value := task.(comment := parsed, state := Reviewed)];
      o := Done(tasks[i.value]);
    }

    /** `reviewStateCounts`. */
    method StateCounts() returns (counts: map<State, nat>)
      ensures forall s :: s in counts && counts[s] == CountIn(tasks, s)
    {
      counts := map[Created := 0, Assigned := 0, InReview := 0, Reviewed := 0, Finalized := 0];
      forall s ensures s in counts && counts[s] == CountIn(tasks[..0], s) {
        match s { case Created | Assigned | InReview | Reviewed | Finalized => }
      }
      for i := 0 to |tasks|
        invariant forall s :: s in counts && counts[s] == CountIn(tasks[..i], s)
      {
        assert tasks[..i + 1] == tasks[..i] + [tasks[i]];
        forall s ensures CountIn(tasks[..i + 1], s) == CountIn(tasks[..i], s) + if tasks[i].state == s then 1 else 0 {
          CountGrows(tasks[..i], tasks[i], s);
        }
        counts := counts[tasks[i].state := counts[tasks[i].state] + 1];
      }
      assert tasks[..|tasks|] == tasks;
    }
  }

  lemma {:induction false} FoundEarly(tasks: seq<Task>, blindId: JsString, i: nat)
    requires i < |tasks| && Find(tasks[..i], blindId) == None && tasks[i].blindId == blindId
    ensures Find(tasks, blindId) == Some(i)
    decreases |tasks|
  {
    var n := |tasks| - 1;
    if i < n {
      assert tasks[..n][..i] == tasks[..i];
      FoundEarly(tasks[..n], blindId, i);
    }
  }

  /** Any history of calls on the object is a run of the specification. */
  method Replay(review: ReviewSet, calls: seq<Call>)
    modifies review
    ensures review.tasks == Run(old(review.tasks), calls)
  {
    for i := 0 to |calls|
      invariant review.tasks == Run(old(review.tasks), calls[..i])
    {
      assert calls[..i + 1][..i] == calls[..i];
      match calls[i] {
        case Advance(blindId, to) => var o := review.AdvanceTask(blindId, to);
        case Submit(blindId, parsed) => var o := review.SubmitReview(blindId, parsed);
      }
    }
    assert calls[..|calls|] == calls;
  }
}
