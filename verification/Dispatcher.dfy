/**
 * The task dispatcher: priority queues, retries with a dead-letter queue and cancellation. Tasks are
 * mutable objects shared with the clients.
 */
module Dispatcher {
  import opened Common
  import opened TaskMachine
  import opened Filing

  ghost function LocateAll(created: seq<Task>, place: map<Task, Place>): (r: seq<Located>)
    requires forall t :: t in created ==> t in place
    reads created
    ensures |r| == |created|
    ensures forall i :: 0 <= i < |r| ==> r[i] == Located(place[created[i]], created[i].View())
  {
    if created == [] then []
    else
      var n := |created| - 1;
      LocateAll(created[..n], place) + [Located(place[created[n]], created[n].View())]
  }

  class TaskDispatcher {
    var queues: Queues
    var inProgress: map<string, Task>
    var completed: map<string, Task>
    var deadLetters: seq<Task>

    ghost var created: seq<Task>
    ghost var place: map<Task, Place>

    /** Every created task is in exactly one place, in a matching state, and the structures say the same. */
    ghost predicate Conserved()
      reads this, created
      ensures Conserved() ==> forall t :: t in created ==> t in place
    {
      && Filed(queues, inProgress, completed, deadLetters, created, place)
      && (forall t :: t in created ==> t in place)
      && forall t :: t in created ==> PlaceFits(place[t], t.state)
    }

    /** The task is held by a client or in progress. */
    ghost predicate Held(t: Task)
      reads this
    {
      t in place && place[t] in {InHands, Running}
    }

    /** Every created task with its place, in the order of creation. */
    ghost function Tasks(): (r: seq<Located>)
      requires forall t :: t in created ==> t in place
      reads this, created
      ensures |r| == |created|
      ensures forall i :: 0 <= i < |r| ==> r[i] == Located(place[created[i]], created[i].View())
    {
      LocateAll(created, place)
    }

    constructor ()
      ensures Conserved() && created == []
    {
      queues := Queues([], [], []);
      inProgress, completed, deadLetters := map[], map[], [];
      created, place := [], map[];
    }

    /** A caller's dictionary is kept unless it is empty, so tasks enqueued with the same one share it. */
    method EnqueueTask(id: string, issueId: int, taskType: string, priority: Priority, maxRetries: int,
                       timeoutSeconds: int, metadata: Option<Context>) returns (t: Task)
      requires forall u :: u in created ==> u.id != id
      modifies this
      ensures if metadata.Some? && metadata.value.entries != map[] then t.metadata == metadata.value
              else fresh(t.metadata) && t.metadata.entries == map[]
      ensures fresh(t) && t.id == id && t.priority == priority && t.issueId == issueId
      ensures t.View() == TaskView(Queued, 0, maxRetries, None)
      ensures created == old(created) + [t] && place == old(place)[t := InQueue]
      ensures match priority
        case High => queues == old(queues).(high := old(queues.high) + [t])
        case Medium => queues == old(queues).(medium := old(queues.medium) + [t])
        case Low => queues == old(queues).(low := old(queues.low) + [t])
      ensures queues == old(queues).With(priority, old(queues).At(priority) + [t])
      ensures inProgress == old(inProgress) && completed == old(completed) && deadLetters == old(deadLetters)
    {
      var own: Context;
      if metadata.Some? && metadata.value.entries != map[] {
        own := metadata.value;
      } else {
        own := new Context(map[]);
      }
      t := new Task(id, issueId, taskType, priority, maxRetries, timeoutSeconds, own);
      queues := queues.With(priority, queues.At(priority) + [t]);
      created := created + [t];
      place := place[t := InQueue];
    }

    /** Takes the oldest task of the first non-empty queue, in priority order. */
    method DequeueNextTask() returns (r: Option<Task>, ghost from: Priority)
      modifies this
      ensures created == old(created)
      ensures inProgress == old(inProgress) && completed == old(completed) && deadLetters == old(deadLetters)
      ensures r.None? <==> old(queues) == Queues([], [], [])
      ensures r.None? ==> queues == old(queues) && place == old(place)
      ensures r.Some? ==>
        if old(queues.high) != [] then
          r.value == old(queues.high)[0] && queues == old(queues).(high := old(queues.high)[1..])
        else if old(queues.medium) != [] then
          r.value == old(queues.medium)[0] && queues == old(queues).(medium := old(queues.medium)[1..])
        else
          old(queues.low) != [] && r.value == old(queues.low)[0] && queues == old(queues).(low := old(queues.low)[1..])
      ensures r.Some? ==> FirstNonEmpty(old(queues), from) && TakenFrom(old(queues), queues, from, r.value)
      ensures r.Some? ==> place == old(place)[r.value := InHands]
    {
      var order := [High, Medium, Low];
      for i := 0 to 3
        invariant queues == old(queues) && place == old(place)
        invariant i >= 1 ==> queues.high == []
        invariant i >= 2 ==> queues.medium == []
        invariant i >= 3 ==> queues.low == []
      {
        var p := order[i];
        if queues.At(p) != [] {
          var t := queues.At(p)[0];
          assert FirstNonEmpty(queues, p) && TakenFrom(queues, queues.With(p, queues.At(p)[1..]), p, t);
          queues := queues.With(p, queues.At(p)[1..]);
          place := place[t := InHands];
          return Some(t), p;
        }
      }
      return None, Low;
    }

    /** Assigns a queued or failed task to an agent. */
    method DispatchToAgent(t: Task, role: string) returns (ok: bool)
      modifies t
      ensures (t.View(), ok) == Apply(Dispatch(role), old(t.View()))
      ensures ok <==> old(t.state) in {Queued, Failed}
      ensures if ok then t.state == Assigned && t.assignedTo == Some(role) && t.retries == old(t.retries)
              else unchanged(t)
      ensures unchanged(t`startedAt, t`completedAt, t`error)
    {
      if t.state != Queued && t.state != Failed {
        return false;
      }
      t.assignedTo := Some(role);
      t.state := Assigned;
      return true;
    }

    method StartTask(t: Task, now: int) returns (ok: bool)
      modifies this, t
      ensures created == old(created)
      ensures (t.View(), ok) == Apply(Start, old(t.View()))
      ensures ok <==> old(t.state) == Assigned
      ensures t.state == (if ok then InProgress else old(t.state)) && unchanged(t`assignedTo, t`retries)
      ensures unchanged(t`completedAt, t`error)
      ensures queues == old(queues) && completed == old(completed) && deadLetters == old(deadLetters)
      ensures inProgress == if ok then old(inProgress)[t.id := t] else old(inProgress)
      ensures place == if ok then old(place)[t := Running] else old(place)
      ensures t.startedAt == if ok then Some(now) else old(t.startedAt)
    {
      if t.state != Assigned {
        return false;
      }
      t.state := InProgress;
      t.startedAt := Some(now);
      inProgress := inProgress[t.id := t];
      place := place[t := Running];
      return true;
    }

    /** The result is merged into the task's dictionary, where every task that shares it finds it too. */
    method CompleteTask(t: Task, result: map<string, string>, now: int) returns (ok: bool)
      modifies this, t, t.metadata
      ensures created == old(created)
      ensures (t.View(), ok) == Apply(Finish, old(t.View()))
      ensures ok <==> old(t.state) == InProgress
      ensures t.state == (if ok then Complete else old(t.state)) && unchanged(t`assignedTo, t`retries)
      ensures t.completedAt == (if ok then Some(now) else old(t.completedAt)) && unchanged(t`startedAt, t`error)
      ensures queues == old(queues) && deadLetters == old(deadLetters)
      ensures inProgress == if ok then old(inProgress) - {t.id} else old(inProgress)
      ensures completed == if ok then old(completed)[t.id := t] else old(completed)
      ensures place == if ok then old(place)[t := Done] else old(place)
      ensures t.metadata.entries == if ok then old(t.metadata.entries) + result else old(t.metadata.entries)
    {
      if t.state != InProgress {
        return false;
      }
      t.state := Complete;
      t.completedAt := Some(now);
      if result != map[] {
        t.metadata.entries := t.metadata.entries + result;
      }
      assert result == map[] ==> t.metadata.entries + result == t.metadata.entries;
      inProgress := inProgress - {t.id};
      completed := completed[t.id := t];
      place := place[t := Done];
      return true;
    }

    /** Re-queues the task while attempts remain, otherwise moves it to the dead-letter queue; it asks nothing first. */
    method FailTask(t: Task, error: string, now: int) returns (willRetry: bool)
      modifies this, t
      ensures created == old(created)
      ensures (t.View(), willRetry) == Apply(TaskOp.Fail, old(t.View()))
      ensures t.retries == old(t.retries) + 1 && (willRetry <==> old(t.retries) + 1 < t.maxRetries)
      ensures t.state == (if willRetry then Queued else Failed)
      ensures t.assignedTo == (if willRetry then None else old(t.assignedTo))
      ensures t.startedAt == (if willRetry then None else old(t.startedAt))
      ensures t.error == Some(error) && t.completedAt == Some(now)
      ensures inProgress == old(inProgress) - {t.id} && completed == old(completed)
      ensures queues ==
        if willRetry then old(queues).With(t.priority, old(queues).At(t.priority) + [t]) else old(queues)
      ensures deadLetters == if willRetry then old(deadLetters) else old(deadLetters) + [t]
      ensures place == old(place)[t := if willRetry then InQueue else Dead]
    {
      t.state := Failed;
      t.completedAt := Some(now);
      t.error := Some(error);
      inProgress := inProgress - {t.id};
      t.retries := t.retries + 1;
      if t.retries < t.maxRetries {
        t.state := Queued;
        t.assignedTo := None;
        t.startedAt := None;
        queues := queues.With(t.priority, queues.At(t.priority) + [t]);
        place := place[t := InQueue];
        return true;
      }
      deadLetters := deadLetters + [t];
      place := place[t := Dead];
      return false;
    }

    ghost function Reachable(): set<Task>
      reads this
    {
      Elements(queues.high) + Elements(queues.medium) + Elements(queues.low) + inProgress.Values
    }

    /** The position of the first task with that id in a queue, or the length of the queue. */
    method Search(line: seq<Task>, id: string) returns (i: nat)
      ensures i <= |line| && forall j :: 0 <= j < i ==> line[j].id != id
      ensures i < |line| ==> line[i].id == id
    {
      i := 0;
      while i < |line| && line[i].id != id
        invariant i <= |line| && forall j :: 0 <= j < i ==> line[j].id != id
      {
        i := i + 1;
      }
    }

    /** Searches the queues in priority order. */
    method FindQueued(id: string) returns (r: Option<(Priority, nat)>)
      ensures r.Some? ==> r.value.1 < |queues.At(r.value.0)| && queues.At(r.value.0)[r.value.1].id == id
      ensures r.None? ==> forall p, i :: 0 <= i < |queues.At(p)| ==> queues.At(p)[i].id != id
    {
      var i := Search(queues.high, id);
      if i < |queues.high| {
        return Some((High, i));
      }
      i := Search(queues.medium, id);
      if i < |queues.medium| {
        return Some((Medium, i));
      }
      i := Search(queues.low, id);
      if i < |queues.low| {
        return Some((Low, i));
      }
      return None;
    }

    /**
     * Cancels the first queued task with the id, or else the task in progress under it. A task that
     * is only in a client's hands is not found.
     */
    method CancelTask(id: string, now: int)
      returns (ok: bool, ghost found: Option<Task>, ghost at: Option<(Priority, nat)>)
      modifies this, Reachable()
      ensures created == old(created) && deadLetters == old(deadLetters)
      ensures ok <==> found.Some?
      ensures found.None? ==>
        && (forall p, i :: 0 <= i < |old(queues.At(p))| ==> old(queues.At(p))[i].id != id) && id !in old(inProgress)
        && queues == old(queues) && inProgress == old(inProgress) && completed == old(completed) && place == old(place)
      ensures forall t :: t in old(Reachable()) && (found.None? || t != found.value) ==> unchanged(t)
      ensures forall t :: t in created && (found.None? || t != found.value) ==> t.View() == old(t.View())
      ensures found.Some? ==>
        && found.value in old(Reachable()) && found.value.View() == Apply(Cancel, old(found.value.View())).0
        && found.value.View() == old(found.value.View()).(state := Cancelled)
        && completed == old(completed)[id := found.value] && place == old(place)[found.value := Done]
      ensures at.Some? ==>
        && found.Some? && found.value.id == id && inProgress == old(inProgress)
        && RemovedAt(old(queues), queues, at.value.0, at.value.1, found.value)
      ensures found.Some? && at.None? ==>
        && queues == old(queues)
        && id in old(inProgress) && found.value == old(inProgress)[id] && inProgress == old(inProgress) - {id}
    {
      var queued := FindQueued(id);
      var t: Task;
      if queued.Some? {
        var (p, i) := queued.value;
        var line := queues.At(p);
        t := line[i];
        t.state := Cancelled;
        queues := queues.With(p, line[..i] + line[i + 1..]);
      } else if id in inProgress {
        t := inProgress[id];
        inProgress := inProgress - {id};
        t.state := Cancelled;
        t.completedAt := Some(now);
      } else {
        return false, None, None;
      }
      completed := completed[id := t];
      place := place[t := Done];
      return true, Some(t), queued;
    }
  }

  lemma OneMoved(ts: seq<Located>, ts': seq<Located>, i: nat)
    requires |ts'| == |ts| && i < |ts| && Moves(ts[i], ts'[i])
    requires forall j :: 0 <= j < |ts| && j != i ==> ts'[j] == ts[j]
    ensures SystemStep(ts, ts')
  {
    assert ts' == ts[i := ts'[i]];
  }

  /** The tasks are filed where they are placed, and none but `t` has moved or changed. */
  ghost predicate OnlyMoved(d: TaskDispatcher, before: seq<Located>, t: Task)
    reads d, d.created
  {
    && Filed(d.queues, d.inProgress, d.completed, d.deadLetters, d.created, d.place)
    && (forall u :: u in d.created ==> u in d.place) && t in d.created
    && AllFit(before) && |before| == |d.created|
    && forall j :: 0 <= j < |before| && d.created[j] != t ==>
         before[j] == Located(d.place[d.created[j]], d.created[j].View())
  }
}
