/**
 * The state machine of one dispatched task, the places a task can be in, and the bound on how long a
 * system of tasks can run.
 */
module TaskMachine {
  import opened Common

  datatype Priority = High | Medium | Low

  datatype State = Queued | Assigned | InProgress | Complete | Failed | Cancelled

  /** The fields of a task that its state machine works on. */
  datatype TaskView = TaskView(state: State, retries: int, maxRetries: int, assignedTo: Option<string>)

  // ------------------------------------------------------------------ one task, any client

  /** What a client may do to a task it has a reference to. */
  datatype TaskOp = Dispatch(role: string) | Start | Finish | Fail | Cancel

  /**
   * The effect of an operation on a task's view and its answer. Failing a task has no guard at all;
   * the cancellation is the effect on a task that the dispatcher finds.
   */
  function Apply(op: TaskOp, v: TaskView): (TaskView, bool) {
    match op
    case Dispatch(role) =>
      if v.state in {Queued, Failed} then (v.(state := Assigned, assignedTo := Some(role)), true) else (v, false)
    case Start => if v.state == Assigned then (v.(state := InProgress), true) else (v, false)
    case Finish => if v.state == InProgress then (v.(state := Complete), true) else (v, false)
    case Fail =>
      var failed := v.(retries := v.retries + 1);
      if failed.retries < v.maxRetries
      then (failed.(state := Queued, assignedTo := None), true)
      else (failed.(state := Failed), false)
    case Cancel => (v.(state := Cancelled), true)
  }

  function ApplyAll(ops: seq<TaskOp>, v: TaskView): TaskView {
    if ops == [] then v else Apply(ops[|ops| - 1], ApplyAll(ops[..|ops| - 1], v)).0
  }

  /** How often a sequence of operations put the task back into its queue. */
  function Requeues(ops: seq<TaskOp>, v: TaskView): nat {
    if ops == [] then 0
    else
      var last := ops[|ops| - 1];
      Requeues(ops[..|ops| - 1], v) + (if last.Fail? && Apply(last, ApplyAll(ops[..|ops| - 1], v)).1 then 1 else 0)
  }

  function Failures(ops: seq<TaskOp>): nat {
    if ops == [] then 0 else Failures(ops[..|ops| - 1]) + (if ops[|ops| - 1].Fail? then 1 else 0)
  }

  /**
   * Whatever a client does in between, every failure of a new task puts it back into its queue, until `maxRetries - 1`
   * have; from then on none does. A task without retries is never put back.
   */
  lemma {:induction false} RequeuesExactly(ops: seq<TaskOp>, v: TaskView)
    requires v.retries == 0
    ensures Requeues(ops, v) ==
      if v.maxRetries <= 1 then 0 else if Failures(ops) < v.maxRetries then Failures(ops) else v.maxRetries - 1
    ensures ApplyAll(ops, v).maxRetries == v.maxRetries && ApplyAll(ops, v).retries == Failures(ops)
  {
    if ops != [] {
      RequeuesExactly(ops[..|ops| - 1], v);
    }
  }

  /**
   * The failure after k others is refused a retry exactly if k + 1 reaches `maxRetries`; otherwise the task is free.
   */
  lemma NextFailure(ops: seq<TaskOp>, v: TaskView)
    requires v.retries == 0
    ensures var (after, willRetry) := Apply(Fail, ApplyAll(ops, v));
      && (willRetry <==> Failures(ops) + 1 < v.maxRetries)
      && (if willRetry then after.state == Queued && after.assignedTo == None
          else after.state == Failed && after.assignedTo == ApplyAll(ops, v).assignedTo)
  {
    RequeuesExactly(ops, v);
  }

  // ------------------------------------------------------------------ where a task is

  /** In its priority queue, in a client's hands, in progress, completed, or in the dead-letter queue. */
  datatype Place = InQueue | InHands | Running | Done | Dead

  /** Each place goes with certain states. */
  predicate PlaceFits(p: Place, s: State) {
    match p
    case InQueue => s == Queued
    case InHands => s == Queued || s == Assigned
    case Running => s == InProgress
    case Done => s == Complete || s == Cancelled
    case Dead => s == Failed
  }

  /** A task as a disciplined client sees it. */
  datatype Located = Located(place: Place, view: TaskView)

  /** The moves of a task under clients that dispatch only what they dequeued and fail only what they hold. */
  ghost predicate Moves(a: Located, b: Located) {
    || (a.place == InQueue && b == a.(place := InHands))
    || (a.place == InHands && a.view.state == Queued && exists role ::
          b == a.(view := Apply(Dispatch(role), a.view).0))
    || (a.place == InHands && a.view.state == Assigned && b == Located(Running, Apply(Start, a.view).0))
    || (a.place == Running && b == Located(Done, Apply(Finish, a.view).0))
    || (a.place in {InHands, Running} && b ==
          Located(if Apply(Fail, a.view).1 then InQueue else Dead, Apply(Fail, a.view).0))
    || (a.place in {InQueue, Running} && b == Located(Done, Apply(Cancel, a.view).0))
  }

  function Attempts(v: TaskView): nat {
    if v.maxRetries - v.retries > 1 then v.maxRetries - v.retries else 1
  }

  /** The moves a task has left at most. */
  function Weight(l: Located): nat {
    match l.place
    case InQueue => 4 * Attempts(l.view) + 3
    case InHands => 4 * Attempts(l.view) + (if l.view.state == Queued then 2 else 1)
    case Running => 4 * Attempts(l.view)
    case Done => 0
    case Dead => 0
  }

  lemma MovesDecreaseWeight(a: Located, b: Located)
    requires Moves(a, b) && PlaceFits(a.place, a.view.state)
    ensures Weight(b) < Weight(a) && PlaceFits(b.place, b.view.state)
  {
  }

  lemma MovesKeepMaxRetries(a: Located, b: Located)
    requires Moves(a, b)
    ensures b.view.maxRetries == a.view.maxRetries
  {
  }

  function TotalWeight(ts: seq<Located>): nat {
    SumBy(Weight, ts)
  }

  ghost predicate AllFit(ts: seq<Located>) {
    forall i :: 0 <= i < |ts| ==> PlaceFits(ts[i].place, ts[i].view.state)
  }

  ghost predicate NewTask(l: Located) {
    l.place == InQueue && l.view.state == Queued && l.view.retries == 0
  }

  /** One step of the whole system: a new task, or one task moves and the others stay. */
  ghost predicate SystemStep(ts: seq<Located>, ts': seq<Located>) {
    || (|ts'| == |ts| + 1 && ts'[..|ts|] == ts && NewTask(ts'[|ts|]))
    || (|ts'| == |ts| && exists i :: 0 <= i < |ts| && Moves(ts[i], ts'[i]) && ts' == ts[i := ts'[i]])
  }

  ghost predicate SystemRun(run: seq<seq<Located>>) {
    && |run| > 0 && run[0] == []
    && forall n :: 0 < n < |run| ==> SystemStep(run[n - 1], run[n])
  }

  /** What a task may cost over its life. */
  function Allowance(l: Located): nat {
    4 * Attempts(l.view.(retries := 0)) + 3
  }

  function Budget(ts: seq<Located>): nat {
    SumBy(Allowance, ts)
  }

  /** The steps of a run that are not enqueues. */
  function MovesIn(run: seq<seq<Located>>): nat {
    if |run| <= 1 then 0
    else
      var n := |run| - 1;
      MovesIn(run[..n]) + (if |run[n]| == |run[n - 1]| then 1 else 0)
  }

  /**
   * Every run ends: the moves so far and the moves still possible never exceed a budget fixed by the
   * tasks enqueued, four per attempt and three more each.
   */
  lemma {:induction false} RunsAreBounded(run: seq<seq<Located>>)
    requires SystemRun(run)
    ensures AllFit(run[|run| - 1])
    ensures MovesIn(run) + TotalWeight(run[|run| - 1]) <= Budget(run[|run| - 1])
    decreases |run|
  {
    var n := |run| - 1;
    if n > 0 {
      var ts, ts' := run[n - 1], run[n];
      assert SystemStep(run[n - 1], run[n]);
      RunsAreBounded(run[..n]);
      assert run[..n][n - 1] == ts;
      StepKeepsBudget(ts, ts');
    }
  }

  lemma {:induction false} StepKeepsBudget(ts: seq<Located>, ts': seq<Located>)
    requires SystemStep(ts, ts') && AllFit(ts)
    ensures AllFit(ts')
    ensures |ts'| == |ts| ==> TotalWeight(ts') < TotalWeight(ts) && Budget(ts') == Budget(ts)
    ensures |ts'| != |ts| ==> TotalWeight(ts') - TotalWeight(ts) <= Budget(ts') - Budget(ts)
  {
    if |ts'| == |ts| {
      var i :| 0 <= i < |ts| && Moves(ts[i], ts'[i]) && ts' == ts[i := ts'[i]];
      assert PlaceFits(ts[i].place, ts[i].view.state);
      MovesDecreaseWeight(ts[i], ts'[i]);
      MovesKeepMaxRetries(ts[i], ts'[i]);
      SumByUpdate(Weight, ts, i, ts'[i]);
      SumByUpdate(Allowance, ts, i, ts'[i]);
    }
  }
}
