/** Clients that keep to the dispatcher's protocol. */
module Clients {
  import opened Common
  import opened TaskMachine
  import opened Filing
  import opened Dispatcher

  /**
   * A client that dispatches only tasks it was handed and fails only tasks it holds or runs. Each of
   * its operations keeps every task in exactly one place and is one step of the system.
   */
  class Client {
    const d: TaskDispatcher

    constructor (d: TaskDispatcher)
      ensures this.d == d
    {
      this.d := d;
    }

    /** After an operation that re-filed the tasks and moved only the `i`-th one, all is in order. */
    lemma Moved(before: seq<Located>, i: nat)
      requires Filed(d.queues, d.inProgress, d.completed, d.deadLetters, d.created, d.place)
      requires forall t :: t in d.created ==> t in d.place
      requires AllFit(before) && |before| == |d.created| && i < |before|
      requires forall j :: 0 <= j < |before| && j != i ==>
        before[j] == Located(d.place[d.created[j]], d.created[j].View())
      requires Moves(before[i], Located(d.place[d.created[i]], d.created[i].View()))
      ensures d.Conserved() && SystemStep(before, d.Tasks())
    {
      var after := d.Tasks();
      MovesDecreaseWeight(before[i], after[i]);
      OneMoved(before, after, i);
      forall t | t in d.created ensures PlaceFits(d.place[t], t.state) {
        var j :| 0 <= j < |d.created| && d.created[j] == t;
        assert PlaceFits(before[j].place, before[j].view.state);
        assert after[j] == Located(d.place[t], t.View());
      }
    }

    lemma InOrder()
      requires d.Conserved()
      ensures AllFit(d.Tasks()) && NoDuplicates(d.created)
    {
      forall j | 0 <= j < |d.created| ensures PlaceFits(d.place[d.created[j]], d.created[j].state) {
        assert d.created[j] in d.created;
      }
    }

    lemma MovedOne(before: seq<Located>, t: Task)
      requires OnlyMoved(d, before, t)
      requires forall j :: 0 <= j < |before| && d.created[j] == t ==> Moves(before[j], Located(d.place[t], t.View()))
      ensures d.Conserved() && SystemStep(before, d.Tasks())
    {
      var i :| 0 <= i < |d.created| && d.created[i] == t;
      assert NoDuplicates(d.created);
      Moved(before, i);
    }

    lemma Undisturbed(before: seq<Located>)
      requires Filed(d.queues, d.inProgress, d.completed, d.deadLetters, d.created, d.place)
      requires (forall u :: u in d.created ==> u in d.place) && AllFit(before) && |before| == |d.created|
      requires forall j :: 0 <= j < |before| ==> before[j] == Located(d.place[d.created[j]], d.created[j].View())
      ensures d.Conserved() && d.Tasks() == before
    {
      var after := d.Tasks();
      forall u | u in d.created ensures PlaceFits(d.place[u], u.state) {
        var j :| 0 <= j < |d.created| && d.created[j] == u;
        assert after[j] == Located(d.place[u], u.View());
      }
    }

    lemma Joined(before: seq<Located>, t: Task)
      requires Filed(d.queues, d.inProgress, d.completed, d.deadLetters, d.created, d.place)
      requires (forall u :: u in d.created ==> u in d.place) && AllFit(before)
      requires |d.created| == |before| + 1 && d.created[|before|] == t && NewTask(Located(d.place[t], t.View()))
      requires forall j :: 0 <= j < |before| ==> before[j] == Located(d.place[d.created[j]], d.created[j].View())
      ensures d.Conserved() && SystemStep(before, d.Tasks())
    {
      var after := d.Tasks();
      assert after[..|before|] == before;
      forall u | u in d.created ensures PlaceFits(d.place[u], u.state) {
        var j :| 0 <= j < |d.created| && d.created[j] == u;
        assert after[j] == Located(d.place[u], u.View());
        assert j < |before| ==> PlaceFits(before[j].place, before[j].view.state);
      }
    }

    method Enqueue(id: string, issueId: int, taskType: string, priority: Priority, maxRetries: int,
                   timeoutSeconds: int, metadata: Option<Context>) returns (t: Task)
      requires d.Conserved() && forall u :: u in d.created ==> u.id != id
      modifies d
      ensures d.Conserved() && SystemStep(old(d.Tasks()), d.Tasks())
      ensures fresh(t) && d.created == old(d.created) + [t]
    {
      InOrder();
      ghost var created, before := d.created, d.Tasks();
      t := d.EnqueueTask(id, issueId, taskType, priority, maxRetries, timeoutSeconds, metadata);
      FileNew(old(d.queues), d.inProgress, d.completed, d.deadLetters, created, old(d.place), t);
      Joined(before, t);
    }

    method Take() returns (r: Option<Task>)
      requires d.Conserved()
      modifies d
      ensures d.Conserved() && d.created == old(d.created)
      ensures r.Some? ==> d.place == old(d.place)[r.value := InHands] && SystemStep(old(d.Tasks()), d.Tasks())
      ensures r.None? <==> old(d.queues) == Queues([], [], [])
      ensures r.Some? ==>
        if old(d.queues.high) != [] then r.value == old(d.queues.high)[0]
        else if old(d.queues.medium) != [] then r.value == old(d.queues.medium)[0]
        else old(d.queues.low) != [] && r.value == old(d.queues.low)[0]
      ensures r.None? ==> d.place == old(d.place) && d.Tasks() == old(d.Tasks())
    {
      InOrder();
      ghost var before, from := d.Tasks(), Low;
      r, from := d.DequeueNextTask();
      if r.None? {
        return;
      }
      FileDequeue(old(d.queues), d.inProgress, d.completed, d.deadLetters, d.created, old(d.place), from, r.value);
      MovedOne(before, r.value);
    }

    /** A task in hands that is already assigned is left alone, and so is one in hands that was not. */
    method DispatchTo(t: Task, role: string) returns (ok: bool)
      requires d.Conserved() && t in d.place && d.place[t] == InHands
      modifies t
      ensures d.Conserved() && d.place == old(d.place) && (ok <==> old(t.state) == Queued)
      ensures ok ==> t.View() == old(t.View()).(state := Assigned, assignedTo := Some(role))
      ensures if ok then SystemStep(old(d.Tasks()), d.Tasks()) else d.Tasks() == old(d.Tasks())
    {
      assert t in Elements(d.created);
      InOrder();
      ghost var before, view := d.Tasks(), t.View();
      ok := d.DispatchToAgent(t, role);
      if ok {
        assert t.View() == Apply(Dispatch(role), view).0;
        MovedOne(before, t);
      }
    }

    method Begin(t: Task, now: int) returns (ok: bool)
      requires d.Conserved() && t in d.created
      modifies d, t
      ensures d.Conserved() && d.created == old(d.created)
      ensures (ok <==> old(t.state) == Assigned) && (ok ==> t.View() == old(t.View()).(state := InProgress))
      ensures if ok then SystemStep(old(d.Tasks()), d.Tasks()) else d.Tasks() == old(d.Tasks())
    {
      InOrder();
      ghost var before := d.Tasks();
      assert PlaceFits(d.place[t], t.state);
      ok := d.StartTask(t, now);
      if ok {
        FileStart(old(d.queues), old(d.inProgress), old(d.completed), old(d.deadLetters), d.created, old(d.place), t);
        MovedOne(before, t);
      }
    }

    method Finish(t: Task, result: map<string, string>, now: int) returns (ok: bool)
      requires d.Conserved() && t in d.created
      modifies d, t, t.metadata
      ensures d.Conserved() && d.created == old(d.created)
      ensures (ok <==> old(t.state) == InProgress) && (ok ==> t.View() == old(t.View()).(state := Complete))
      ensures if ok then SystemStep(old(d.Tasks()), d.Tasks()) else d.Tasks() == old(d.Tasks())
    {
      InOrder();
      ghost var before := d.Tasks();
      assert PlaceFits(d.place[t], t.state);
      ok := d.CompleteTask(t, result, now);
      if ok {
        FileFinish(old(d.queues), old(d.inProgress), old(d.completed), old(d.deadLetters), d.created, old(d.place), t);
        MovedOne(before, t);
      } else {
        Undisturbed(before);
      }
    }

    method GiveUp(t: Task, error: string, now: int) returns (willRetry: bool)
      requires d.Conserved() && d.Held(t)
      modifies d, t
      ensures d.Conserved() && d.created == old(d.created) && SystemStep(old(d.Tasks()), d.Tasks())
      ensures t.retries == old(t.retries) + 1 && (willRetry <==> old(t.retries) + 1 < t.maxRetries)
      ensures t.state == (if willRetry then Queued else Failed)
      ensures t.assignedTo == (if willRetry then None else old(t.assignedTo))
      ensures d.place == old(d.place)[t := if willRetry then InQueue else Dead]
    {
      assert t in Elements(d.created);
      InOrder();
      ghost var before := d.Tasks();
      willRetry := d.FailTask(t, error, now);
      FileFail(old(d.queues), old(d.inProgress), old(d.completed), old(d.deadLetters), d.created, old(d.place), t);
      MovedOne(before, t);
    }

    /** The cancellation of one task, and where it leaves the containers. */
    method CancelOne(id: string, now: int) returns (ok: bool, ghost found: Option<Task>)
      requires d.Conserved()
      modifies d, d.created
      ensures ok <==> found.Some?
      ensures d.created == old(d.created) && forall u :: u in d.created ==> u in d.place
      ensures Filed(d.queues, d.inProgress, d.completed, d.deadLetters, d.created, d.place)
      ensures forall u :: u in d.created && (found.None? || u != found.value) ==>
        d.place[u] == old(d.place)[u] && u.View() == old(u.View())
      ensures found.Some? ==>
        && found.value in d.created && d.place[found.value] == Done && old(d.place)[found.value] in {InQueue, Running}
        && found.value.View() == Apply(Cancel, old(found.value.View())).0
    {
      OnlyCreatedReachable(d.queues, d.inProgress, d.completed, d.deadLetters, d.created, d.place);
      ghost var at;
      ok, found, at := d.CancelTask(id, now);
      if found.Some? {
        FileCancel(old(d.queues), d.queues, old(d.inProgress), d.inProgress, old(d.completed), d.deadLetters, d.created,
                   old(d.place), id, found.value, at);
      }
    }

    method CancelById(id: string, now: int) returns (ok: bool)
      requires d.Conserved()
      modifies d, d.created
      ensures d.Conserved() && d.created == old(d.created)
      ensures if ok then SystemStep(old(d.Tasks()), d.Tasks()) else d.Tasks() == old(d.Tasks())
    {
      InOrder();
      ghost var before, found := d.Tasks(), None;
      ok, found := CancelOne(id, now);
      if ok {
        MovedOne(before, found.value);
      } else {
        Undisturbed(before);
      }
    }
  }
}
