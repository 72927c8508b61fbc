/** What a timeout sweep does to tasks and their places. */
module Sweeping {
  import opened Common
  import opened TaskMachine
  import opened Filing

  /** The tasks in progress under these ids are queued again or dead; all other tasks are where they were. */
  ghost predicate Swept(before: map<Task, Place>, after: map<Task, Place>, ids: set<string>) {
    && after.Keys == before.Keys
    && forall t :: t in before ==>
      if before[t] == Running && t.id in ids then after[t] in {InQueue, Dead} else after[t] == before[t]
  }

  /** A task after a failure: queued again while attempts remain, otherwise dead. */
  function AfterFailure(l: Located): Located {
    var retries := l.view.retries + 1;
    if retries < l.view.maxRetries then Located(InQueue, TaskView(Queued, retries, l.view.maxRetries, None))
    else Located(Dead, TaskView(Failed, retries, l.view.maxRetries, l.view.assignedTo))
  }

  /** The tasks under these ids have failed once more; all others are as they were, in place, state and retries. */
  ghost predicate AllSwept(created: seq<Task>, before: seq<Located>, after: seq<Located>, ids: set<string>) {
    && |created| == |before| == |after|
    && forall j :: 0 <= j < |created| ==>
         after[j] == if created[j].id in ids then AfterFailure(before[j]) else before[j]
  }

  lemma AllSweptOneMore(created: seq<Task>, before: seq<Located>, middle: seq<Located>, ids: set<string>, i: nat)
    requires AllSwept(created, before, middle, ids) && i < |created| && created[i].id !in ids
    requires DistinctIds(created)
    ensures AllSwept(created, before, middle[i := AfterFailure(middle[i])], ids + {created[i].id})
  {
  }

  lemma OnlyOneChanged(created: seq<Task>, before: seq<Located>, after: seq<Located>, i: nat)
    requires |before| == |after| == |created| && i < |created| && after[i] == AfterFailure(before[i])
    requires forall j :: 0 <= j < |created| && j != i ==> after[j] == before[j]
    ensures after == before[i := AfterFailure(before[i])]
  {
  }

  /** States of the tasks, each one move after the one before. */
  ghost predicate Trail(steps: seq<seq<Located>>) {
    steps != [] && forall n :: 0 < n < |steps| ==> SystemStep(steps[n - 1], steps[n]) && |steps[n]| == |steps[n - 1]|
  }

  lemma TrailGrows(steps: seq<seq<Located>>, next: seq<Located>)
    requires Trail(steps) && SystemStep(steps[|steps| - 1], next) && |next| == |steps[|steps| - 1]|
    ensures Trail(steps + [next])
  {
    var all := steps + [next];
    forall n | 0 < n < |all| ensures SystemStep(all[n - 1], all[n]) && |all[n]| == |all[n - 1]| {
      assert n < |steps| ==> SystemStep(steps[n - 1], steps[n]);
    }
  }

  lemma TrailShrinks(steps: seq<seq<Located>>)
    requires Trail(steps) && |steps| > 1
    ensures var n := |steps| - 1;
      Trail(steps[..n]) && SystemStep(steps[n - 1], steps[n]) && |steps[n]| == |steps[n - 1]|
  {
  }

  lemma LastOfTrail<T>(run: seq<T>, steps: seq<T>)
    requires run != [] && |steps| > 1 && steps[0] == run[|run| - 1]
    ensures var n := |steps| - 1;
      var shorter := run + steps[..n][1..];
      && run + steps[1..] == shorter + [steps[n]] && shorter[|shorter| - 1] == steps[n - 1]
  {
  }

  /** A sweep continues the run of the system, by as many moves as it fails tasks. */
  lemma {:induction false} TrailContinuesRun(run: seq<seq<Located>>, steps: seq<seq<Located>>)
    requires SystemRun(run) && Trail(steps) && steps[0] == run[|run| - 1]
    ensures SystemRun(run + steps[1..])
    ensures MovesIn(run + steps[1..]) == MovesIn(run) + |steps| - 1
    ensures (run + steps[1..])[|run| + |steps| - 2] == steps[|steps| - 1]
    decreases |steps|, |run|
  {
    if |steps| == 1 {
      assert run + steps[1..] == run;
    } else {
      var n := |steps| - 1;
      TrailShrinks(steps);
      TrailContinuesRun(run, steps[..n]);
      LastOfTrail(run, steps);
      RunPlusOne(run + steps[..n][1..], steps[n]);
    }
  }

  lemma RunPlusOne(run: seq<seq<Located>>, next: seq<Located>)
    requires SystemRun(run) && SystemStep(run[|run| - 1], next) && |next| == |run[|run| - 1]|
    ensures SystemRun(run + [next]) && MovesIn(run + [next]) == MovesIn(run) + 1
  {
    var all := run + [next];
    assert all[..|run|] == run;
    forall n | 0 < n < |all| ensures SystemStep(all[n - 1], all[n]) {
      assert n < |run| ==> SystemStep(run[n - 1], run[n]);
    }
  }

  ghost predicate DistinctIds(created: seq<Task>) {
    forall j, k :: 0 <= j < |created| && 0 <= k < |created| && created[j].id == created[k].id ==> j == k
  }

  ghost predicate UniqueIds(place: map<Task, Place>) {
    forall t, u :: t in place && u in place && t.id == u.id ==> t == u
  }

  lemma SweptOneMore(before: map<Task, Place>, middle: map<Task, Place>, ids: set<string>, t: Task, p: Place)
    requires Swept(before, middle, ids) && UniqueIds(before)
    requires t in before && before[t] == Running && p in {InQueue, Dead}
    ensures Swept(before, middle[t := p], ids + {t.id})
  {
  }

  /** A task in progress that has not been swept yet is still in progress. */
  lemma NotYetSwept(before: map<Task, Place>, middle: map<Task, Place>, ids: set<string>, listed: map<string, Task>,
                    id: string)
    requires Swept(before, middle, ids) && MapFiled(listed, before, Running)
    requires id in listed && id !in ids
    ensures listed[id].id == id && listed[id] in before && before[listed[id]] == Running
    ensures listed[id] in middle && middle[listed[id]] == Running
  {
  }

  lemma IdsFiled(queues: Queues, inProgress: map<string, Task>, completed: map<string, Task>, deadLetters: seq<Task>,
                 created: seq<Task>, place: map<Task, Place>)
    requires Filed(queues, inProgress, completed, deadLetters, created, place)
    ensures UniqueIds(place) && MapFiled(inProgress, place, Running) && DistinctIds(created)
    ensures forall t :: t in place ==> t in created
    ensures forall id :: id in inProgress ==> inProgress[id] in created
  {
    forall t | t in place ensures t in created {
      assert t in Elements(created);
    }
  }

  /** The ids, one more of which is done. */
  lemma OneMoreId(ids: seq<string>, late: set<string>, todo: set<string>, id: string)
    requires NoDuplicates(ids) && Elements(ids) == late - todo && id in todo
    ensures if id in late then NoDuplicates(ids + [id]) && Elements(ids + [id]) == late - (todo - {id})
            else Elements(ids) == late - (todo - {id})
    ensures id in late ==> late - (todo - {id}) == (late - todo) + {id}
    ensures id !in late ==> late - (todo - {id}) == late - todo
  {
    if id in late {
      assert id !in Elements(ids);
      ElementsAppend(ids, id);
    }
  }

  /** The state of a sweep that has still to look at the ids in `todo`. */
  ghost predicate SweepState(created: seq<Task>, place0: map<Task, Place>, tasks0: seq<Located>,
                             place: map<Task, Place>,
                             tasks: seq<Located>, ids: seq<string>, late: set<string>, todo: set<string>,
                             steps: seq<seq<Located>>)
  {
    && Swept(place0, place, late - todo) && AllSwept(created, tasks0, tasks, late - todo)
    && NoDuplicates(ids) && Elements(ids) == late - todo
    && Trail(steps) && |steps| == |ids| + 1 && steps[0] == tasks0 && steps[|ids|] == tasks
  }

  lemma SweepStarts(created: seq<Task>, place: map<Task, Place>, tasks: seq<Located>, late: set<string>,
                    todo: set<string>)
    requires late <= todo && |tasks| == |created|
    ensures SweepState(created, place, tasks, place, tasks, [], late, todo, [tasks])
  {
    assert late - todo == {};
  }

  lemma SweepPassesBy(created: seq<Task>, place0: map<Task, Place>, tasks0: seq<Located>, place: map<Task, Place>,
                      tasks: seq<Located>, ids: seq<string>, late: set<string>, todo: set<string>,
                      steps: seq<seq<Located>>, id: string)
    requires SweepState(created, place0, tasks0, place, tasks, ids, late, todo, steps) && id in todo && id !in late
    ensures SweepState(created, place0, tasks0, place, tasks, ids, late, todo - {id}, steps)
  {
    OneMoreId(ids, late, todo, id);
  }

  lemma SweepFailsOne(created: seq<Task>, place0: map<Task, Place>, tasks0: seq<Located>, place: map<Task, Place>,
                      tasks: seq<Located>, ids: seq<string>, late: set<string>, todo: set<string>,
                      steps: seq<seq<Located>>, id: string, i: nat, p: Place)
    requires SweepState(created, place0, tasks0, place, tasks, ids, late, todo, steps) && id in todo && id in late
    requires UniqueIds(place0) && DistinctIds(created) && p in {InQueue, Dead}
    requires i < |created| && created[i].id == id && created[i] in place0 && place0[created[i]] == Running
    requires SystemStep(tasks, tasks[i := AfterFailure(tasks[i])])
    ensures SweepState(created, place0, tasks0, place[created[i] := p], tasks[i := AfterFailure(tasks[i])], ids + [id],
                       late, todo - {id}, steps + [tasks[i := AfterFailure(tasks[i])]])
  {
    OneMoreId(ids, late, todo, id);
    SweptOneMore(place0, place, late - todo, created[i], p);
    AllSweptOneMore(created, tasks0, tasks, late - todo, i);
    TrailGrows(steps, tasks[i := AfterFailure(tasks[i])]);
  }
}

/** The timeout sweep: every task in progress for too long is failed, in whatever order they are listed. */
module Timeouts {
  import opened Common
  import opened TaskMachine
  import opened Filing
  import opened Dispatcher
  import opened Clients
  import opened Sweeping

  /** Started longer ago than its timeout, and still in progress. */
  ghost predicate IsLate(t: Task, now: int)
    reads t
  {
    t.state == InProgress && t.startedAt.Some? && now > t.startedAt.value + t.timeoutSeconds
  }

  /** The ids of the tasks in progress that have timed out. */
  ghost function Late(inProgress: map<string, Task>, now: int): set<string>
    reads inProgress.Values
  {
    set id | id in inProgress && IsLate(inProgress[id], now)
  }

  /** Among the tasks still to be looked at, the late ones are those that have timed out. */
  ghost predicate StillLate(listed: map<string, Task>, todo: set<string>, late: set<string>, now: int)
    reads listed.Values
  {
    forall id :: id in todo && id in listed ==> listed[id].id == id && (IsLate(listed[id], now) <==> id in late)
  }

  /** The position of a created task. */
  lemma PositionOf(d: TaskDispatcher, t: Task) returns (i: nat)
    requires d.Conserved() && t in d.place
    ensures i < |d.created| && d.created[i] == t
    ensures DistinctIds(d.created)
  {
    IdsFiled(d.queues, d.inProgress, d.completed, d.deadLetters, d.created, d.place);
    assert t in d.created;
    i :| 0 <= i < |d.created| && d.created[i] == t;
  }

  /** Fails one task that a client holds or runs; `i` is its position. */
  method FailAt(c: Client, t: Task, now: int, ghost i: nat) returns (willRetry: bool)
    requires c.d.Conserved() && c.d.Held(t) && i < |c.d.created| && c.d.created[i] == t
    requires DistinctIds(c.d.created)
    modifies c.d, t
    ensures c.d.Conserved() && c.d.created == old(c.d.created)
    ensures c.d.place == old(c.d.place)[t := if willRetry then InQueue else Dead]
    ensures SystemStep(old(c.d.Tasks()), c.d.Tasks())
    ensures c.d.Tasks() == old(c.d.Tasks())[i := AfterFailure(old(c.d.Tasks())[i])]
  {
    ghost var before := c.d.Tasks();
    willRetry := c.GiveUp(t, "Timeout exceeded", now);
    assert Located(c.d.place[t], t.View()) == AfterFailure(before[i]);
    OnlyOneChanged(c.d.created, before, c.d.Tasks(), i);
  }

  /** Fails one late task, which says nothing about the others still to be looked at. */
  method Expire(c: Client, listed: map<string, Task>, id: string, now: int, ghost i: nat, ghost todo: set<string>,
                ghost late: set<string>) returns (willRetry: bool)
    requires c.d.Conserved() && id in listed && c.d.Held(listed[id])
    requires i < |c.d.created| && c.d.created[i] == listed[id]
    requires DistinctIds(c.d.created)
    requires id !in todo && listed[id].id == id && StillLate(listed, todo, late, now)
    modifies c.d, listed[id]
    ensures c.d.Conserved() && c.d.created == old(c.d.created)
    ensures c.d.place == old(c.d.place)[listed[id] := if willRetry then InQueue else Dead]
    ensures SystemStep(old(c.d.Tasks()), c.d.Tasks())
    ensures c.d.Tasks() == old(c.d.Tasks())[i := AfterFailure(old(c.d.Tasks())[i])]
    ensures StillLate(listed, todo, late, now)
  {
    willRetry := FailAt(c, listed[id], now, i);
  }

  /**
   * One sweep fails exactly the tasks in progress that had timed out, answers their ids, each once, and keeps
   * every task in exactly one place. Each of them is queued again or dead as its attempts say, every other task
   * is untouched, and the sweep is a trail of moves of the system, one for each id.
   */
  method CheckTimeouts(c: Client, now: int) returns (timedOut: seq<string>, ghost steps: seq<seq<Located>>)
    requires c.d.Conserved()
    modifies c.d, c.d.created
    ensures c.d.Conserved() && c.d.created == old(c.d.created)
    ensures NoDuplicates(timedOut) && Elements(timedOut) == old(Late(c.d.inProgress, now))
    ensures AllSwept(c.d.created, old(c.d.Tasks()), c.d.Tasks(), Elements(timedOut))
    ensures Trail(steps) && |steps| == |timedOut| + 1
    ensures steps[0] == old(c.d.Tasks()) && steps[|timedOut|] == c.d.Tasks()
  {
    var d := c.d;
    timedOut := [];
    var listed := d.inProgress;
    var todo := listed.Keys;
    ghost var place, created, late, tasks := d.place, d.created, Late(listed, now), d.Tasks();
    steps := [tasks];
    IdsFiled(d.queues, d.inProgress, d.completed, d.deadLetters, created, place);
    SweepStarts(created, place, tasks, late, todo);
    while todo != {}
      invariant todo <= listed.Keys && d.created == created && d.Conserved()
      invariant SweepState(created, place, tasks, d.place, d.Tasks(), timedOut, late, todo, steps)
      invariant StillLate(listed, todo, late, now)
    {
      var id :| id in todo;
      ghost var middle, done, i := d.place, d.Tasks(), 0;
      NotYetSwept(place, d.place, late - todo, listed, id);
      if listed[id].IsTimedOut(now) {
        i := PositionOf(d, listed[id]);
        var willRetry := Expire(c, listed, id, now, i, todo - {id}, late);
        SweepFailsOne(created, place, tasks, middle, done, timedOut, late, todo, steps, id, i,
                      if willRetry then InQueue else Dead);
        timedOut := timedOut + [id];
        steps := steps + [d.Tasks()];
      } else {
        SweepPassesBy(created, place, tasks, middle, done, timedOut, late, todo, steps, id);
      }
      todo := todo - {id};
    }
  }
}
