/** The concurrent executor (src/utils/executor.ts). */
module WorkerPool {
  // The executor as interleaved steps of its workers. JavaScript switches workers only at an `await`,
  // so everything between two awaits is one step: the test and claim of an index, and the store of
  // a result with the choice of a pause. A pause may end at any time, and a running task may settle
  // at any time; which worker moves next is arbitrary. `c.outcome(i)` is whatever the executor call
  // for index `i` ends with.

  import opened Js

  datatype Outcome<+V, +E> = Fulfilled(value: V) | Rejected(error: E)

  datatype Config<!V, !E> = Config(
    n: nat,
    concurrency: nat,
    taskStartDelay: nat,
    workerStartDelay: nat,
    outcome: nat -> Outcome<V, E>)

  datatype Phase = Staggering | Ready | Running(index: nat) | Pausing | Done

  datatype Pool<+V, +E> = Pool(next: nat, results: map<nat, Outcome<V, E>>, workers: seq<Phase>)

  datatype Event = Wake(w: nat) | Claim(w: nat) | Settle(w: nat) | Quit(w: nat)

  function Start<V, E>(c: Config<V, E>): Pool<V, E> {
    Pool(0, map[], seq(Min(c.concurrency, c.n), w => if w > 0 && c.workerStartDelay > 0 then Staggering else Ready))
  }

  /** The phase after a task settled: pause only while indices are left, and after a failure always. */
  function AfterTask<V, E>(c: Config<V, E>, next: nat, o: Outcome<V, E>): Phase {
    if next < c.n && (o.Rejected? || c.taskStartDelay > 0) then Pausing else Ready
  }

  function Step<V, E>(c: Config<V, E>, p: Pool<V, E>, e: Event): Option<Pool<V, E>> {
    if e.w >= |p.workers| then None
    else
      var phase := p.workers[e.w];
      match e
      case Wake(w) =>
        if phase == Staggering || phase == Pausing then Some(p.(workers := p.workers[w := Ready])) else None
      case Claim(w) =>
        if phase == Ready && p.next < c.n
        then Some(p.(next := p.next + 1, workers := p.workers[w := Running(p.next)])) else None
      case Settle(w) =>
        if phase.Running? then
          var o := c.outcome(phase.index);
          Some(p.(results := p.results[phase.index := o], workers := p.workers[w := AfterTask(c, p.next, o)]))
        else None
      case Quit(w) =>
        if phase == Ready && p.next >= c.n then Some(p.(workers := p.workers[w := Done])) else None
  }

  /** The pool after the events `es`, if each was possible when it happened. */
  function Exec<V, E>(c: Config<V, E>, es: seq<Event>): Option<Pool<V, E>> {
    if es == [] then Some(Start(c))
    else
      match Exec(c, es[..|es| - 1])
      case None => None
      case Some(p) => Step(c, p, es[|es| - 1])
  }

  /** The indices handed to the executor, in order. */
  function Claims<V, E>(c: Config<V, E>, es: seq<Event>): seq<nat> {
    if es == [] then []
    else
      var init, last := es[..|es| - 1], es[|es| - 1];
      match Exec(c, init)
      case Some(p) => if last.Claim? then Claims(c, init) + [p.next] else Claims(c, init)
      case None => Claims(c, init)
  }

  ghost predicate Finished<V, E>(p: Pool<V, E>) {
    forall w :: 0 <= w < |p.workers| ==> p.workers[w] == Done
  }

  predicate IsRunning(phase: Phase, i: nat) { phase == Running(i) }

  ghost predicate InFlight<V, E>(p: Pool<V, E>, i: nat) {
    exists w :: 0 <= w < |p.workers| && IsRunning(p.workers[w], i)
  }

  /** What every step keeps. */
  ghost predicate Inv<V, E>(c: Config<V, E>, p: Pool<V, E>) {
    && p.next <= c.n
    && |p.workers| == Min(c.concurrency, c.n)
    && (forall i :: i in p.results ==> i < p.next && p.results[i] == c.outcome(i))
    && (forall w :: 0 <= w < |p.workers| && p.workers[w].Running? ==>
          p.workers[w].index < p.next && p.workers[w].index !in p.results)
    && (forall v, w :: 0 <= v < w < |p.workers| && p.workers[v].Running? ==> p.workers[v] != p.workers[w])
    && (forall i :: 0 <= i < p.next && i !in p.results ==> InFlight(p, i))
    && (forall w :: 0 <= w < |p.workers| && p.workers[w] == Done ==> p.next == c.n)
  }

  lemma StartInv<V, E>(c: Config<V, E>)
    ensures Inv(c, Start(c))
  {
  }

  lemma StaysInFlight<V, E>(p: Pool<V, E>, q: Pool<V, E>, w: nat, i: nat)
    requires w < |p.workers| && |q.workers| == |p.workers|
    requires q.workers == p.workers[w := q.workers[w]] && !IsRunning(p.workers[w], i) && InFlight(p, i)
    ensures InFlight(q, i)
  {
    var v :| 0 <= v < |p.workers| && IsRunning(p.workers[v], i);
    assert IsRunning(q.workers[v], i);
  }

  lemma StepInv<V, E>(c: Config<V, E>, p: Pool<V, E>, e: Event)
    requires Inv(c, p) && Step(c, p, e).Some?
    ensures Inv(c, Step(c, p, e).value)
  {
    var q := Step(c, p, e).value;
    var w := e.w;
    forall i | 0 <= i < q.next && i !in q.results ensures InFlight(q, i) {
      if i == p.next {
        assert IsRunning(q.workers[w], i);
      } else {
        StaysInFlight(p, q, w, i);
      }
    }
  }

  /** Safety over every run: each state a schedule can reach satisfies the invariant. */
  lemma {:induction false} Reachable<V, E>(c: Config<V, E>, es: seq<Event>)
    requires Exec(c, es).Some?
    ensures Inv(c, Exec(c, es).value)
  {
    if es == [] {
      StartInv(c);
    } else {
      Reachable(c, es[..|es| - 1]);
      StepInv(c, Exec(c, es[..|es| - 1]).value, es[|es| - 1]);
    }
  }

  /** Every run hands out 0, 1, 2, ... in order: no index twice, none skipped. */
  lemma {:induction false} ClaimsInOrder<V, E>(c: Config<V, E>, es: seq<Event>)
    requires Exec(c, es).Some?
    ensures Claims(c, es) == seq(Exec(c, es).value.next, i => i)
  {
    if es != [] { ClaimsInOrder(c, es[..|es| - 1]); }
  }

  // ------------------------------------------------------------- termination

  function Weight(phase: Phase): nat {
    match phase
    case Staggering => 2
    case Ready => 1
    case Running(_) => 3
    case Pausing => 2
    case Done => 0
  }

  function Weights(ws: seq<Phase>): nat {
    if ws == [] then 0 else Weights(ws[..|ws| - 1]) + Weight(ws[|ws| - 1])
  }

  function Measure<V, E>(c: Config<V, E>, p: Pool<V, E>): int {
    3 * (c.n - p.next) + Weights(p.workers)
  }

  lemma {:induction false} WeightsUpdate(ws: seq<Phase>, w: nat, phase: Phase)
    requires w < |ws|
    ensures Weights(ws[w := phase]) == Weights(ws) - Weight(ws[w]) + Weight(phase)
  {
    var k := |ws| - 1;
    if w == k {
      assert ws[w := phase][..k] == ws[..k];
    } else {
      WeightsUpdate(ws[..k], w, phase);
      assert ws[w := phase][..k] == ws[..k][w := phase];
    }
  }

  lemma StepDecreases<V, E>(c: Config<V, E>, p: Pool<V, E>, e: Event)
    requires Step(c, p, e).Some?
    ensures Measure(c, Step(c, p, e).value) < Measure(c, p)
  {
    var q := Step(c, p, e).value;
    WeightsUpdate(p.workers, e.w, q.workers[e.w]);
  }

  lemma {:induction false} StartWeights(ws: seq<Phase>)
    requires forall w :: 0 <= w < |ws| ==> ws[w] == Staggering || ws[w] == Ready
    ensures Weights(ws) <= 2 * |ws|
  {
    if ws != [] { StartWeights(ws[..|ws| - 1]); }
  }

  /** No schedule is longer than three steps per task and two per worker. */
  lemma {:induction false} RunsAreShort<V, E>(c: Config<V, E>, es: seq<Event>)
    requires Exec(c, es).Some?
    ensures |es| + Measure(c, Exec(c, es).value) <= 3 * c.n + 2 * Min(c.concurrency, c.n)
    ensures |es| <= 3 * c.n + 2 * Min(c.concurrency, c.n)
  {
    Reachable(c, es);
    if es == [] {
      StartWeights(Start(c).workers);
    } else {
      RunsAreShort(c, es[..|es| - 1]);
      StepDecreases(c, Exec(c, es[..|es| - 1]).value, es[|es| - 1]);
    }
  }

  /** The one event a worker that is not done can always take next. */
  function NextEvent<V, E>(c: Config<V, E>, p: Pool<V, E>, w: nat): Event
    requires w < |p.workers|
  {
    match p.workers[w]
    case Staggering => Wake(w)
    case Pausing => Wake(w)
    case Running(_) => Settle(w)
    case Ready => if p.next < c.n then Claim(w) else Quit(w)
    case Done => Quit(w)
  }

  /** No deadlock: a worker can move exactly when it is not done, and in exactly one way. */
  lemma WorkerProgress<V, E>(c: Config<V, E>, p: Pool<V, E>, w: nat)
    requires w < |p.workers|
    ensures forall e: Event :: e.w == w ==> (Step(c, p, e).Some? <==> p.workers[w] != Done && e == NextEvent(c, p, w))
  {
  }

  /** When nothing can move any more, the results are those of a sequential map over the tasks,
      provided at least one worker was asked for (or there is nothing to do). */
  lemma FinishedIsMap<V, E>(c: Config<V, E>, es: seq<Event>)
    requires Exec(c, es).Some? && Finished(Exec(c, es).value)
    ensures var p := Exec(c, es).value;
      p.results == (map i | 0 <= i < c.n :: c.outcome(i)) <==> (c.concurrency >= 1 || c.n == 0)
    ensures c.concurrency >= 1 ==> Claims(c, es) == seq(c.n, i => i)
  {
    var p := Exec(c, es).value;
    Reachable(c, es);
    ClaimsInOrder(c, es);
    if c.concurrency >= 1 || c.n == 0 {
      if c.n > 0 { assert p.workers[0] == Done; }
      forall i: nat | i < c.n ensures i in p.results {
        assert InFlight(p, i) || i in p.results;
      }
    } else {
      assert 0 !in p.results;
      assert 0 in (map i | 0 <= i < c.n :: c.outcome(i));
    }
  }

  /** The tasks being executed at one time. */
  ghost function FlightSet<V, E>(p: Pool<V, E>): set<nat> {
    set w | 0 <= w < |p.workers| && p.workers[w].Running? :: p.workers[w].index
  }

  lemma {:induction false} FlightBound(ws: seq<Phase>)
    ensures |set w | 0 <= w < |ws| && ws[w].Running? :: ws[w].index| <= |ws|
  {
    var s := set w | 0 <= w < |ws| && ws[w].Running? :: ws[w].index;
    if ws == [] {
      assert s == {};
    } else {
      var k := |ws| - 1;
      var init := ws[..k];
      FlightBound(init);
      var t := set w | 0 <= w < |init| && init[w].Running? :: init[w].index;
      if ws[k].Running? { assert s == t + {ws[k].index}; } else { assert s == t; }
    }
  }

  /** At most `min(concurrency, n)` tasks are in flight at any time. */
  lemma InFlightBound<V, E>(c: Config<V, E>, es: seq<Event>)
    requires Exec(c, es).Some?
    ensures |FlightSet(Exec(c, es).value)| <= c.concurrency && |FlightSet(Exec(c, es).value)| <= c.n
    ensures forall i :: i in FlightSet(Exec(c, es).value) ==> i in Claims(c, es) && i !in Exec(c, es).value.results
  {
    Reachable(c, es);
    ClaimsInOrder(c, es);
    FlightBound(Exec(c, es).value.workers);
  }

  // ------------------------------------------------------- the executor itself

  /** The variables the workers share. */
  class Shared<V, E> {
    const c: Config<V, E>
    var taskIndex: nat
    var results: map<nat, Outcome<V, E>>
    var workers: seq<Phase>

    ghost function View(): Pool<V, E>
      reads this
    {
      Pool(taskIndex, results, workers)
    }

    constructor (c: Config<V, E>)
      ensures this.c == c && View() == Start(c)
    {
      this.c := c;
      taskIndex := 0;
      results := map[];
      workers := seq(Min(c.concurrency, c.n), w => if w > 0 && c.workerStartDelay > 0 then Staggering else Ready);
    }

    /** Worker `w` runs up to its next `await`. */
    method Advance(w: nat)
      requires w < |workers| && workers[w] != Done
      modifies this
      ensures Some(View()) == Step(c, old(View()), NextEvent(c, old(View()), w))
    {
      match workers[w] {
        case Staggering => workers := workers[w := Ready];
        case Pausing => workers := workers[w := Ready];
        case Ready =>
          if taskIndex < c.n {
            var index := taskIndex;
            taskIndex := taskIndex + 1;
            workers := workers[w := Running(index)];
          } else {
            workers := workers[w := Done];
          }
        case Running(index) =>
          var o := c.outcome(index);
          results := results[index := o];
          workers := workers[w := AfterTask(c, taskIndex, o)];
      }
    }
  }

  function Awake(workers: seq<Phase>): set<nat> {
    set w | 0 <= w < |workers| && workers[w] != Done
  }

  /** `executeWithConcurrency` under an arbitrary scheduler: it ends, and returns the results in
      task order, a failed task's error standing in its own slot. */
  method ExecuteWithConcurrency<V, E>(c: Config<V, E>) returns (results: map<nat, Outcome<V, E>>)
    ensures c.concurrency >= 1 ==> results == map i | 0 <= i < c.n :: c.outcome(i)
    ensures c.concurrency == 0 ==> results == map[]
  {
    var shared := new Shared(c);
    ghost var es: seq<Event> := [];
    while Awake(shared.workers) != {}
      invariant Exec(c, es) == Some(shared.View())
      decreases Weights(shared.workers) + 3 * (c.n - shared.taskIndex)
    {
      ghost var p := shared.View();
      var w :| w in Awake(shared.workers);
      shared.Advance(w);
      StepDecreases(c, p, NextEvent(c, p, w));
      Extend(c, es, NextEvent(c, p, w));
      es := es + [NextEvent(c, p, w)];
      Reachable(c, es);
    }
    AllDone(shared.workers);
    FinishedIsMap(c, es);
    if c.concurrency == 0 { NothingRuns(c, es); }
    results := shared.results;
  }

  lemma AllDone(workers: seq<Phase>)
    requires Awake(workers) == {}
    ensures forall w :: 0 <= w < |workers| ==> workers[w] == Done
  {
    assert forall w :: 0 <= w < |workers| ==> workers[w] == Done || w in Awake(workers);
  }

  lemma Extend<V, E>(c: Config<V, E>, es: seq<Event>, e: Event)
    requires Exec(c, es).Some?
    ensures Exec(c, es + [e]) == Step(c, Exec(c, es).value, e)
  {
    assert (es + [e])[..|es|] == es;
  }

  lemma {:induction false} NothingRuns<V, E>(c: Config<V, E>, es: seq<Event>)
    requires Exec(c, es).Some? && c.concurrency == 0
    ensures es == []
  {
    if es != [] { NothingRuns(c, es[..|es| - 1]); }
  }
}
