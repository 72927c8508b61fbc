/**
 * The pool of workers that maps a function over items: the workers share one counter and are interleaved at
 * their await points in any order.
 */
module PoolSteps {
  import opened Common

  /** Where a worker stands: before its loop test, waiting for the call on an index, or finished. */
  datatype Worker = AtLoop | Waiting(index: nat) | Done

  /** The shared counter, the results so far, the workers, and the calls made, in order. */
  datatype State<R> = State(next: nat, out: map<nat, R>, workers: seq<Worker>, calls: seq<nat>)

  function Idle(n: nat): (r: seq<Worker>)
    ensures |r| == n && forall w :: 0 <= w < n ==> r[w] == AtLoop
  {
    seq(n, _ => AtLoop)
  }

  /** The number of workers started: no more than asked for, and no more than there are items. */
  function Workers(concurrency: int, items: nat): (r: nat)
    ensures concurrency <= 0 ==> r == 0
    ensures concurrency > 0 ==> r <= concurrency && r <= items && (r == concurrency || r == items)
  {
    if concurrency <= 0 then 0 else if concurrency < items then concurrency else items
  }

  function Initial<R>(concurrency: int, items: nat): State<R> {
    State(0, map[], Idle(Workers(concurrency, items)), [])
  }

  predicate Enabled<R>(s: State<R>, w: nat) {
    w < |s.workers| && s.workers[w] != Done
  }

  /** Worker `w` runs to its next await point or to its end. */
  function Step<T, R>(items: seq<T>, fn: T -> R, s: State<R>, w: nat): State<R>
    requires Enabled(s, w)
  {
    if s.workers[w].Waiting? then
      var index := s.workers[w].index;
      if index < |items| then s.(out := s.out[index := fn(items[index])], workers := s.workers[w := AtLoop]) else s
    else if s.next < |items| then
      State(s.next + 1, s.out, s.workers[w := Waiting(s.next)], s.calls + [s.next])
    else
      s.(workers := s.workers[w := Done])
  }

  /** The state after the scheduler has let these workers run in turn, `None` if it picks a finished one. */
  function Run<T, R>(items: seq<T>, fn: T -> R, s: State<R>, schedule: seq<nat>): Option<State<R>> {
    if schedule == [] then Some(s)
    else
      var before := Run(items, fn, s, schedule[..|schedule| - 1]);
      var w := schedule[|schedule| - 1];
      if before.Some? && Enabled(before.value, w) then Some(Step(items, fn, before.value, w)) else None
  }

  // ------------------------------------------------------------------ what every schedule keeps

  ghost predicate InFlight<R>(s: State<R>, index: nat) {
    exists w: nat :: w < |s.workers| && s.workers[w] == Waiting(index)
  }

  /** No two workers wait for the same index. */
  ghost predicate Apart(workers: seq<Worker>) {
    forall v: nat, w: nat :: v < w < |workers| && workers[v].Waiting? && workers[w].Waiting? ==>
      workers[v].index != workers[w].index
  }

  /** The indices 0 to n - 1, in order. */
  ghost predicate CountsUp(calls: seq<nat>, n: nat) {
    |calls| == n && forall k: nat :: k < n ==> calls[k] == k
  }

  /**
   * Every index below the counter was called once, in order; it is either in flight or has its result, and
   * no other index has either. A worker is finished only when the counter is.
   */
  ghost predicate Inv<T, R>(items: seq<T>, fn: T -> R, s: State<R>) {
    && s.next <= |items| && CountsUp(s.calls, s.next) && Apart(s.workers)
    && (s.workers == [] ==> s.next == 0)
    && (forall w: nat :: w < |s.workers| && s.workers[w].Waiting? ==>
        s.workers[w].index < s.next && s.workers[w].index !in s.out)
    && (forall k: nat :: k < s.next ==> k in s.out || InFlight(s, k))
    && (forall k: nat :: k in s.out ==> k < s.next && s.out[k] == fn(items[k]))
    && (forall w: nat :: w < |s.workers| && s.workers[w] == Done ==> s.next == |items|)
  }

  lemma StepKeepsInv<T, R>(items: seq<T>, fn: T -> R, s: State<R>, w: nat)
    requires Inv(items, fn, s) && Enabled(s, w)
    ensures Inv(items, fn, Step(items, fn, s, w)) && |Step(items, fn, s, w).workers| == |s.workers|
  {
    var t := Step(items, fn, s, w);
    forall k: nat | k < t.next ensures k in t.out || InFlight(t, k) {
      if k == s.next {
        assert t.workers[w] == Waiting(k);
      } else if k !in t.out {
        var v: nat :| v < |s.workers| && s.workers[v] == Waiting(k);
        assert t.workers[v] == Waiting(k);
      }
    }
  }

  lemma {:induction false} RunKeepsInv<T, R>(items: seq<T>, fn: T -> R, concurrency: int, schedule: seq<nat>)
    requires Run(items, fn, Initial(concurrency, |items|), schedule).Some?
    ensures var s := Run(items, fn, Initial(concurrency, |items|), schedule).value;
      Inv(items, fn, s) && |s.workers| == Workers(concurrency, |items|)
    decreases |schedule|, concurrency
  {
    if schedule != [] {
      var n := |schedule| - 1;
      RunKeepsInv(items, fn, concurrency, schedule[..n]);
      StepKeepsInv(items, fn, Run(items, fn, Initial(concurrency, |items|), schedule[..n]).value, schedule[n]);
    }
  }

  // ------------------------------------------------------------------ how long, and to what end

  function Weight(w: Worker): nat {
    match w
    case AtLoop => 1
    case Waiting(_) => 2
    case Done => 0
  }

  function TotalWeight(workers: seq<Worker>): nat {
    SumBy(Weight, workers)
  }

  /** The steps still to be taken. */
  function Remaining<R>(n: nat, s: State<R>): int {
    2 * (n - s.next) + TotalWeight(s.workers)
  }

  /** Every step brings the end nearer by exactly one. */
  lemma StepCountsDown<T, R>(items: seq<T>, fn: T -> R, s: State<R>, w: nat)
    requires Inv(items, fn, s) && Enabled(s, w)
    ensures Remaining(|items|, Step(items, fn, s, w)) == Remaining(|items|, s) - 1
  {
    SumByUpdate(Weight, s.workers, w, Step(items, fn, s, w).workers[w]);
  }

  lemma {:induction false} IdleWeight(n: nat)
    ensures TotalWeight(Idle(n)) == n
  {
    if n > 0 {
      assert Idle(n)[..n - 1] == Idle(n - 1);
      IdleWeight(n - 1);
    }
  }

  lemma {:induction false} NoWeightMeansDone(workers: seq<Worker>)
    ensures TotalWeight(workers) == 0 <==> forall w :: 0 <= w < |workers| ==> workers[w] == Done
  {
    if workers != [] {
      NoWeightMeansDone(workers[..|workers| - 1]);
    }
  }

  ghost predicate AllDone<R>(s: State<R>) {
    forall w :: 0 <= w < |s.workers| ==> s.workers[w] == Done
  }

  lemma {:induction false} RunLength<T, R>(items: seq<T>, fn: T -> R, concurrency: int, schedule: seq<nat>)
    requires Run(items, fn, Initial(concurrency, |items|), schedule).Some?
    ensures |schedule| + Remaining(|items|, Run(items, fn, Initial(concurrency, |items|), schedule).value)
         == 2 * |items| + Workers(concurrency, |items|)
    decreases |schedule|, concurrency
  {
    if schedule == [] {
      IdleWeight(Workers(concurrency, |items|));
    } else {
      var n := |schedule| - 1;
      RunLength(items, fn, concurrency, schedule[..n]);
      RunKeepsInv(items, fn, concurrency, schedule[..n]);
      StepCountsDown(items, fn, Run(items, fn, Initial(concurrency, |items|), schedule[..n]).value, schedule[n]);
    }
  }

  /**
   * For every schedule: the function is called once on each index below the counter and never twice, with no
   * more calls in flight than workers; the schedule is at most 2n + workers steps long; and with at least one
   * worker it is over exactly when it has that length, and then every index has its result.
   */
  lemma EverySchedule<T, R>(items: seq<T>, fn: T -> R, concurrency: int, schedule: seq<nat>)
    requires Run(items, fn, Initial(concurrency, |items|), schedule).Some?
    ensures var s := Run(items, fn, Initial(concurrency, |items|), schedule).value;
      && CountsUp(s.calls, s.next) && s.next <= |items|
      && |s.workers| == Workers(concurrency, |items|)
      && |s.calls| - |s.out| <= Workers(concurrency, |items|)
      && |schedule| <= 2 * |items| + Workers(concurrency, |items|)
      && (concurrency >= 1 || items == [] ==>
            (AllDone(s) <==> |schedule| == 2 * |items| + Workers(concurrency, |items|))
            && (AllDone(s) ==> Finished(items, fn, s)))
  {
    var s := Run(items, fn, Initial(concurrency, |items|), schedule).value;
    RunKeepsInv(items, fn, concurrency, schedule);
    RunLength(items, fn, concurrency, schedule);
    CallsInFlight(items, fn, s);
    NoWeightMeansDone(s.workers);
    if AllDone(s) && (concurrency >= 1 || items == []) {
      DoneMeansFinished(items, fn, s);
    }
  }

  /** Every index was called once, in order, and has its result. */
  ghost predicate Finished<T, R>(items: seq<T>, fn: T -> R, s: State<R>) {
    && CountsUp(s.calls, |items|)
    && forall k: nat :: (k in s.out <==> k < |items|) && (k < |items| ==> s.out[k] == fn(items[k]))
  }

  lemma DoneMeansFinished<T, R>(items: seq<T>, fn: T -> R, s: State<R>)
    requires Inv(items, fn, s) && AllDone(s) && (s.workers != [] || items == [])
    ensures Finished(items, fn, s)
  {
    if s.workers != [] {
      assert s.workers[0] == Done;
    }
    forall k: nat | k < |items| ensures k in s.out {
      assert k in s.out || InFlight(s, k);
    }
  }

  /** Calls made but not answered are no more than workers. */
  lemma CallsInFlight<T, R>(items: seq<T>, fn: T -> R, s: State<R>)
    requires Inv(items, fn, s)
    ensures |s.calls| - |s.out| <= |s.workers|
  {
    var flying := set w: nat | w < |s.workers| && s.workers[w].Waiting? :: s.workers[w].index;
    var called := Elements(s.calls);
    forall k | k in called ensures k in s.out.Keys + flying {
      if k !in s.out {
        assert InFlight(s, k);
      }
    }
    NoDuplicatesSize(s.calls);
    SubsetSize(called, s.out.Keys + flying);
    ImageSize(s.workers, |s.workers|);
    assert flying == WaitingFor(s.workers, |s.workers|);
    assert |s.out.Keys + flying| <= |s.out.Keys| + |flying|;
  }

  ghost function WaitingFor(workers: seq<Worker>, n: nat): set<nat>
    requires n <= |workers|
  {
    set w: nat | w < n && workers[w].Waiting? :: workers[w].index
  }

  lemma {:induction false} ImageSize(workers: seq<Worker>, n: nat)
    requires n <= |workers|
    ensures |WaitingFor(workers, n)| <= n
  {
    if n > 0 {
      ImageSize(workers, n - 1);
      var more := if workers[n - 1].Waiting? then {workers[n - 1].index} else {};
      assert WaitingFor(workers, n) == WaitingFor(workers, n - 1) + more;
    }
  }

  /** Unless every worker is done, some step is possible, so a pool never gets stuck. */
  lemma NeverStuck<R>(s: State<R>)
    ensures !AllDone(s) <==> exists w: nat :: Enabled(s, w)
  {
    if !AllDone(s) {
      var w :| 0 <= w < |s.workers| && s.workers[w] != Done;
      assert Enabled(s, w);
    }
  }

  /** This schedule is possible, and at its end all workers are done. */
  ghost predicate Finishes<T, R>(items: seq<T>, fn: T -> R, concurrency: int, schedule: seq<nat>) {
    var end := Run(items, fn, Initial(concurrency, |items|), schedule);
    end.Some? && AllDone(end.value)
  }

  lemma OneMoreStep<T, R>(items: seq<T>, fn: T -> R, concurrency: int, schedule: seq<nat>, w: nat)
    requires Run(items, fn, Initial(concurrency, |items|), schedule).Some?
    requires Enabled(Run(items, fn, Initial(concurrency, |items|), schedule).value, w)
    ensures var s := Run(items, fn, Initial(concurrency, |items|), schedule).value;
      var t := Run(items, fn, Initial(concurrency, |items|), schedule + [w]);
      t.Some? && Remaining(|items|, t.value) == Remaining(|items|, s) - 1 >= 0
  {
    RunKeepsInv(items, fn, concurrency, schedule);
    StepMovesOn(items, fn, Run(items, fn, Initial(concurrency, |items|), schedule).value, w);
    assert (schedule + [w])[..|schedule|] == schedule;
  }

  /** Every schedule can be continued to one that finishes: no choice of workers leads into a dead end. */
  lemma {:induction false} EveryScheduleCanFinish<T, R>(items: seq<T>, fn: T -> R, concurrency: int, schedule: seq<nat>)
    returns (more: seq<nat>)
    requires Run(items, fn, Initial(concurrency, |items|), schedule).Some?
    ensures Finishes(items, fn, concurrency, schedule + more)
    decreases Remaining(|items|, Run(items, fn, Initial(concurrency, |items|), schedule).value)
  {
    var s := Run(items, fn, Initial(concurrency, |items|), schedule).value;
    NeverStuck(s);
    if AllDone(s) {
      more := [];
      assert schedule + [] == schedule;
    } else {
      var w: nat :| Enabled(s, w);
      OneMoreStep(items, fn, concurrency, schedule, w);
      var rest := EveryScheduleCanFinish(items, fn, concurrency, schedule + [w]);
      more := [w] + rest;
      ConcatAssociates(schedule, [w], rest);
    }
  }

  /** Between a step and the next nothing is lost: the invariant and the countdown together. */
  lemma StepMovesOn<T, R>(items: seq<T>, fn: T -> R, s: State<R>, w: nat)
    requires Inv(items, fn, s) && Enabled(s, w)
    ensures Inv(items, fn, Step(items, fn, s, w)) && |Step(items, fn, s, w).workers| == |s.workers|
    ensures Remaining(|items|, Step(items, fn, s, w)) == Remaining(|items|, s) - 1 >= 0
    ensures s.workers[w].Waiting? ==> s.workers[w].index < |items|
  {
    StepKeepsInv(items, fn, s, w);
    StepCountsDown(items, fn, s, w);
  }

  /** What a pool returns once all its workers are done. */
  lemma PoolEnds<T, R>(items: seq<T>, fn: T -> R, concurrency: int, s: State<R>)
    requires Inv(items, fn, s) && |s.workers| == Workers(concurrency, |items|) && AllDone(s)
    ensures concurrency >= 1 ==> Finished(items, fn, s)
    ensures concurrency < 1 ==> s.out == map[] && s.calls == []
  {
    if concurrency >= 1 {
      DoneMeansFinished(items, fn, s);
    }
  }
}

/** The pool itself. */
module Pool {
  import opened PoolSteps

  /**
   * Runs the workers, letting any enabled one go on at each turn, until all are done. With no worker at all
   * nothing is called and nothing is returned.
   */
  method MapPool<T, R>(items: seq<T>, concurrency: int, fn: T -> R) returns (out: map<nat, R>, ghost calls: seq<nat>)
    ensures concurrency >= 1 ==> forall k: nat :: k in out <==> k < |items|
    ensures concurrency >= 1 ==> forall k: nat :: k < |items| ==> out[k] == fn(items[k])
    ensures concurrency >= 1 ==> CountsUp(calls, |items|)
    ensures concurrency < 1 ==> out == map[] && calls == []
  {
    var i: nat, workers := 0, Idle(Workers(concurrency, |items|));
    out, calls := map[], [];
    while exists w :: 0 <= w < |workers| && workers[w] != Done
      invariant Inv(items, fn, State(i, out, workers, calls))
      invariant |workers| == Workers(concurrency, |items|)
      decreases Remaining(|items|, State(i, out, workers, calls))
    {
      var w: nat :| w < |workers| && workers[w] != Done;
      StepMovesOn(items, fn, State(i, out, workers, calls), w);
      if workers[w].Waiting? {
        out := out[workers[w].index := fn(items[workers[w].index])];
        workers := workers[w := AtLoop];
      } else if i < |items| {
        calls := calls + [i];
        workers := workers[w := Waiting(i)];
        i := i + 1;
      } else {
        workers := workers[w := Done];
      }
    }
    PoolEnds(items, fn, concurrency, State(i, out, workers, calls));
  }
}
