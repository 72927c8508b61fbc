/** The three accounts of a task's state - dispatcher, state manager, replayed history - and their agreement. */
module TaskAccounts {
  import opened Common
  import opened TaskMachine
  import opened Filing
  import opened Dispatcher
  import opened Records
  import opened StateManager

  /** The state names that the state manager keeps. */
  function StateName(s: State): string {
    match s
    case Queued => "QUEUED"
    case Assigned => "ASSIGNED"
    case InProgress => "IN_PROGRESS"
    case Complete => "COMPLETE"
    case Failed => "FAILED"
    case Cancelled => "CANCELLED"
  }

  predicate About(e: Transition, id: string) {
    e.kind == TaskUpdate && e.entity == TaskId(id)
  }

  /** The state of a task according to the history alone. */
  function Replay(history: seq<Transition>, id: string): string {
    if history == [] then "QUEUED"
    else
      var last := history[|history| - 1];
      if About(last, id) then last.toState else Replay(history[..|history| - 1], id)
  }

  /** Each of the task's entries starts where the one before it ended. */
  ghost predicate Gapless(history: seq<Transition>, id: string) {
    history != [] ==>
      var earlier, last := history[..|history| - 1], history[|history| - 1];
      Gapless(earlier, id) && (About(last, id) ==> last.fromState == Replay(earlier, id))
  }

  /** The agent and the error of a task according to the history alone: the latest that an entry names. */
  function ReplayAgent(history: seq<Transition>, id: string): Option<string> {
    if history == [] then None
    else
      var last := history[|history| - 1];
      if About(last, id) && last.details.TaskDetails? && last.details.assignedTo.Some? then last.details.assignedTo
      else ReplayAgent(history[..|history| - 1], id)
  }

  function ReplayError(history: seq<Transition>, id: string): Option<string> {
    if history == [] then None
    else
      var last := history[|history| - 1];
      if About(last, id) && last.details.TaskDetails? && last.details.error.Some? then last.details.error
      else ReplayError(history[..|history| - 1], id)
  }

  /** The history alone gives the state, the agent and the error on record, without gaps. */
  ghost predicate Replays(history: seq<Transition>, id: string, fields: TaskFields) {
    && Replay(history, id) == fields.state && Gapless(history, id)
    && ReplayAgent(history, id) == fields.assignedTo && ReplayError(history, id) == fields.error
  }

  lemma DetailsAppend(history: seq<Transition>, e: Transition, id: string)
    ensures ReplayAgent(history + [e], id) ==
      if About(e, id) && e.details.TaskDetails? && e.details.assignedTo.Some? then e.details.assignedTo
      else ReplayAgent(history, id)
    ensures ReplayError(history + [e], id) ==
      if About(e, id) && e.details.TaskDetails? && e.details.error.Some? then e.details.error
      else ReplayError(history, id)
  {
    assert (history + [e])[..|history|] == history;
  }

  lemma ReplayAppend(history: seq<Transition>, e: Transition, id: string)
    ensures Replay(history + [e], id) == if About(e, id) then e.toState else Replay(history, id)
    ensures Gapless(history + [e], id) <==>
      Gapless(history, id) && (About(e, id) ==> e.fromState == Replay(history, id))
  {
    assert (history + [e])[..|history|] == history;
  }

  /**
   * The state manager's copy of a task's state, the replayed history and the dispatcher's state are one, and the
   * history gives the agent and the error on record.
   */
  ghost predicate Agree(fields: map<string, TaskFields>, history: seq<Transition>, id: string, state: State) {
    id in fields && fields[id].state == StateName(state) && Replays(history, id, fields[id])
  }

  lemma AgreeAfterUpdate(fields: map<string, TaskFields>, history: seq<Transition>, id: string, before: State,
                         after: State, assignedTo: Option<string>, error: Option<string>, now: int)
    requires Agree(fields, history, id, before)
    ensures var updated := TaskUpdated(fields[id], StateName(after), assignedTo, error, now);
      var e := TaskTransition(id, fields[id].state, StateName(after), assignedTo, error, now);
      Agree(fields[id := updated], history + [e], id, after)
  {
    var e := TaskTransition(id, fields[id].state, StateName(after), assignedTo, error, now);
    ReplayAppend(history, e, id);
    DetailsAppend(history, e, id);
  }

  lemma AgreeElsewhere(fields: map<string, TaskFields>, history: seq<Transition>, id: string, state: State,
                       other: string, updated: TaskFields, e: Transition)
    requires Agree(fields, history, id, state) && other != id && !About(e, id)
    ensures Agree(fields[other := updated], history + [e], id, state)
  {
    ReplayAppend(history, e, id);
    DetailsAppend(history, e, id);
  }

  /** The history speaks only of tasks that have a record. */
  ghost predicate Known(history: seq<Transition>, ids: set<string>) {
    forall e :: e in history && e.kind == TaskUpdate ==> e.entity.TaskId? && e.entity.id in ids
  }

  lemma {:induction false} UnknownTask(history: seq<Transition>, ids: set<string>, id: string, issueId: int, now: int)
    requires Known(history, ids) && id !in ids
    ensures Replays(history, id, NewTaskFields(issueId, now))
  {
    if history != [] {
      var n := |history| - 1;
      assert history[n] in history;
      UnknownTask(history[..n], ids, id, issueId, now);
    }
  }

  lemma KnownAppend(history: seq<Transition>, ids: set<string>, e: Transition)
    requires Known(history, ids) && e.kind == TaskUpdate && e.entity.TaskId? && e.entity.id in ids
    ensures Known(history + [e], ids)
  {
  }

  // ------------------------------------------------------------------ agreement of a dispatcher and a state manager

  ghost predicate UniqueIds(created: seq<Task>) {
    forall t, u :: t in created && u in created && t.id == u.id ==> t == u
  }

  /** The state manager's objects are neither the dispatcher, nor tasks, nor their metadata. */
  ghost predicate Separate(d: TaskDispatcher, created: seq<Task>, owned: set<object>) {
    d !in owned && forall t :: t in created ==> t !in owned && t.metadata !in owned
  }

  /** The state manager agrees with these states of the tasks. */
  ghost predicate AgreesWith(created: seq<Task>, table: map<string, TaskFields>, history: seq<Transition>,
                             states: map<Task, State>)
  {
    forall t :: t in created ==> t in states && Agree(table, history, t.id, states[t])
  }

  /** The dispatcher's states of the tasks. */
  ghost function States(created: seq<Task>): (r: map<Task, State>)
    reads created
    ensures forall t :: t in created ==> t in r && r[t] == t.state
  {
    map t | t in created :: t.state
  }

  /** The state manager is in order, and its objects and ids are kept apart from the dispatcher's. */
  ghost predicate Accounted(d: TaskDispatcher, sm: StateManager, created: seq<Task>)
    reads sm
  {
    sm.Valid() && Separate(d, created, sm.owned.All()) && UniqueIds(created) && Known(sm.history, sm.live.tasks.Keys)
  }

  /** All three accounts agree for every task. */
  ghost predicate InAgreement(d: TaskDispatcher, sm: StateManager)
    reads d, d.created, sm, sm.owned.tasks
  {
    Accounted(d, sm, d.created) && AgreesWith(d.created, sm.TaskTable(), sm.history, States(d.created))
  }

  lemma AgreesWithOneMore(others: seq<Task>, table: map<string, TaskFields>, history: seq<Transition>,
                          states: map<Task, State>, t: Task, fields: TaskFields, more: map<Task, State>)
    requires AgreesWith(others, table, history, states) && t.id !in table
    requires fields.state == "QUEUED" && Replays(history, t.id, fields)
    requires t in more && more[t] == Queued
    requires forall u :: u in others ==> u in more && u in states && more[u] == states[u]
    ensures AgreesWith(others + [t], table[t.id := fields], history, more)
  {
    forall u | u in others + [t] ensures u in more && Agree(table[t.id := fields], history, u.id, more[u]) {
      if u in others {
        assert Agree(table, history, u.id, states[u]);
      }
    }
  }

  /** Only `t` may differ from the recorded states. */
  ghost predicate OnlyOneAhead(created: seq<Task>, t: Task, states: map<Task, State>)
    reads created
  {
    t in created && forall u :: u in created && u != t ==> u in states && u.state == states[u]
  }

  /** Before the copy. */
  ghost predicate Pending(d: TaskDispatcher, sm: StateManager, t: Task, states: map<Task, State>)
    reads d, d.created, sm, sm.owned.tasks
  {
    && Accounted(d, sm, d.created) && AgreesWith(d.created, sm.TaskTable(), sm.history, states)
    && OnlyOneAhead(d.created, t, states)
  }

  /** The values with one task's record moved on: an agent or an error is written only if one is given. */
  ghost function WithTask(v: Values, id: string, state: string, assignedTo: Option<string>, error: Option<string>,
                          now: int): Values
  {
    if id !in v.tasks then v
    else
      var was := v.tasks[id].fields;
      v.(tasks := v.tasks[id := v.tasks[id].(fields := TaskFields(
        was.issueId, if assignedTo.Some? then assignedTo else was.assignedTo, state, was.retries,
        if error.Some? then error else was.error, now))])
  }

  /** The values with one agent more on an issue, unless it is there already. */
  ghost function WithAssignee(v: Values, issueId: int, role: string, now: int): Values {
    if issueId !in v.issues || role in v.issues[issueId].assignees then v
    else
      var was := v.issues[issueId];
      v.(issues := v.issues[issueId := was.(assignees := was.assignees + [role],
                                            fields := was.fields.(updatedAt := now))])
  }

  /** The values with one result more counted for an agent that has a record. */
  ghost function WithResult(v: Values, role: string, success: bool, now: int): Values {
    if role !in v.agents then v
    else
      var was := v.agents[role].fields;
      v.(agents := v.agents[role := v.agents[role].(fields := Agent(
        was.isBusy, was.currentTaskId, was.tasksCompleted + (if success then 1 else 0),
        was.tasksFailed + (if success then 0 else 1), now))])
  }

  /** The values with a new issue, which takes its title and priority from the context, unless it is known. */
  ghost function WithIssue(v: Values, issueId: int, context: Dict, now: int): Values {
    if issueId in v.issues then v
    else v.(issues := v.issues[issueId := Value(
      Issue(if "title" in context then context["title"] else "", "QUEUED",
            if "priority" in context then context["priority"] else "MEDIUM", now), [], map[])])
  }

  /** The values with a record for a new task. */
  ghost function WithNewTask(v: Values, id: string, issueId: int, now: int): Values {
    v.(tasks := v.tasks[id := Value(TaskFields(issueId, None, "QUEUED", 0, None, now), [], map[])])
  }

  /** What one update of a task appends to the history. */
  ghost function TaskEntry(v: Values, id: string, state: string, assignedTo: Option<string>, error: Option<string>,
                           now: int): Transition
  {
    Transition(TaskUpdate, TaskId(id), if id in v.tasks then v.tasks[id].fields.state else "", state, now,
               TaskDetails(assignedTo, error))
  }

  /** A task, its metadata and the dispatcher are none of the state manager's objects. */
  lemma NotOwned(d: TaskDispatcher, sm: StateManager, t: Task)
    requires Accounted(d, sm, d.created) && t in d.created
    ensures t !in sm.owned.tasks && t.metadata !in sm.owned.tasks && d !in sm.owned.tasks
    ensures t !in sm.owned.agents && t.metadata !in sm.owned.agents && d !in sm.owned.agents
    ensures t !in sm.owned.issues && t.metadata !in sm.owned.issues && d !in sm.owned.issues
  {
    assert t !in sm.owned.All() && t.metadata !in sm.owned.All() && d !in sm.owned.All();
  }

  /** The dispatcher has moved one task on; nothing else has changed. */
  lemma OneAhead(d: TaskDispatcher, sm: StateManager, t: Task, created: seq<Task>, table: map<string, TaskFields>,
                 states: map<Task, State>)
    requires Accounted(d, sm, created) && d.created == created && t in created
    requires sm.TaskTable() == table && AgreesWith(created, table, sm.history, states)
    requires forall u :: u in created && u != t ==> u in states && u.state == states[u]
    ensures Pending(d, sm, t, states)
  {
  }

  /** If the dispatcher refused, nothing is ahead and everything agrees. */
  lemma NobodyAhead(d: TaskDispatcher, sm: StateManager, t: Task, states: map<Task, State>)
    requires Pending(d, sm, t, states) && t in states && t.state == states[t]
    ensures InAgreement(d, sm)
  {
  }

  lemma StillSeparate(d: TaskDispatcher, sm: StateManager, before: set<object>, after: set<object>)
    requires Separate(d, d.created, before) && d !in after - before
    requires forall t :: t in d.created ==> t !in after - before && t.metadata !in after - before
    ensures Separate(d, d.created, after)
  {
  }

  lemma StillInAgreement(d: TaskDispatcher, sm: StateManager, table: map<string, TaskFields>, keys: set<string>)
    requires sm.Valid() && Separate(d, d.created, sm.owned.All())
    requires UniqueIds(d.created) && Known(sm.history, keys) && keys == sm.live.tasks.Keys
    requires sm.TaskTable() == table && AgreesWith(d.created, table, sm.history, States(d.created))
    ensures InAgreement(d, sm)
  {
  }

  /** No task has this id yet, and the history says nothing about it. */
  lemma NewId(d: TaskDispatcher, sm: StateManager, id: string, issueId: int, now: int)
    requires InAgreement(d, sm) && id !in sm.live.tasks
    ensures forall u :: u in d.created ==> u.id != id
    ensures Replays(sm.history, id, NewTaskFields(issueId, now))
  {
    forall u | u in d.created ensures u.id != id {
      assert Agree(sm.TaskTable(), sm.history, u.id, States(d.created)[u]);
    }
    UnknownTask(sm.history, sm.live.tasks.Keys, id, issueId, now);
  }

  lemma Registered(d: TaskDispatcher, sm: StateManager, t: Task, others: seq<Task>)
    requires Accounted(d, sm, d.created) && d.created == others + [t]
    requires AgreesWith(others + [t], sm.TaskTable(), sm.history, States(d.created))
    ensures InAgreement(d, sm)
  {
  }
}

/**
 * The steps of the coordinator that concern a dispatcher and a state manager: what the dispatcher does to a task, and
 * the copy of it that the state manager keeps.
 */
module AccountedSteps {
  import opened Common
  import opened TaskMachine
  import opened Filing
  import opened Dispatcher
  import opened Records
  import opened StateManager
  import opened TaskAccounts

  /** Copies a task's new state to the state manager. */
  method CopyState(d: TaskDispatcher, sm: StateManager, t: Task, state: string, assignedTo: Option<string>,
                error: Option<string>, now: int,
                ghost states: map<Task, State>)
    requires Pending(d, sm, t, states) && state == StateName(t.state)
    modifies sm`history, sm.owned.tasks
    ensures InAgreement(d, sm) && sm.live == old(sm.live)
    ensures sm.Values() == WithTask(old(sm.Values()), t.id, state, assignedTo, error, now)
    ensures sm.history == old(sm.history) + [TaskEntry(old(sm.Values()), t.id, state, assignedTo, error, now)]
    ensures t.View() == old(t.View()) && t.metadata.entries == old(t.metadata.entries)
  {
    NotOwned(d, sm, t);
    ghost var fields, history := sm.TaskTable(), sm.history;
    assert Agree(fields, history, t.id, states[t]);
    AddingNothing(sm.Values().tasks[t.id].metadata);
    var updated := sm.UpdateTaskState(t.id, state, assignedTo, error, map[], now);
    ghost var e := TaskTransition(t.id, fields[t.id].state, state, assignedTo, error, now);
    KnownAppend(history, sm.live.tasks.Keys, e);
    ghost var task := TaskUpdated(fields[t.id], state, assignedTo, error, now);
    assert sm.TaskTable() == fields[t.id := task];
    forall u | u in d.created ensures Agree(fields[t.id := task], sm.history, u.id, u.state) {
      if u == t {
        AgreeAfterUpdate(fields, history, t.id, states[t], t.state, assignedTo, error, now);
      } else {
        AgreeElsewhere(fields, history, u.id, u.state, t.id, task, e);
      }
    }
  }

  method Dispatched(d: TaskDispatcher, sm: StateManager, t: Task, role: string)
    returns (ok: bool, ghost states: map<Task, State>)
    requires InAgreement(d, sm) && t in d.created
    modifies t
    ensures ok <==> old(t.state) in {Queued, Failed}
    ensures t.View() == if ok then old(t.View()).(state := Assigned, assignedTo := Some(role)) else old(t.View())
    ensures sm.Values() == old(sm.Values())
    ensures Pending(d, sm, t, states) && (!ok ==> t.state == states[t])
  {
    ghost var table := sm.TaskTable();
    states := States(d.created);
    NotOwned(d, sm, t);
    ok := d.DispatchToAgent(t, role);
    assert sm.TaskTable() == table;
    OneAhead(d, sm, t, d.created, table, states);
  }

  method Started(d: TaskDispatcher, sm: StateManager, t: Task, now: int)
    returns (ok: bool, ghost states: map<Task, State>)
    requires InAgreement(d, sm) && t in d.created
    modifies d, t
    ensures d.created == old(d.created) && (ok <==> old(t.state) == Assigned)
    ensures t.View() == if ok then old(t.View()).(state := InProgress) else old(t.View())
    ensures sm.Values() == old(sm.Values())
    ensures ok ==> t.state == InProgress
    ensures Pending(d, sm, t, states) && (!ok ==> t.state == states[t])
  {
    ghost var table := sm.TaskTable();
    states := States(d.created);
    NotOwned(d, sm, t);
    ok := d.StartTask(t, now);
    assert sm.TaskTable() == table;
    OneAhead(d, sm, t, d.created, table, states);
  }

  /** The dispatcher's part of a completion, which the state manager does not notice. */
  method CompleteOnly(d: TaskDispatcher, sm: StateManager, t: Task, result: map<string, string>, now: int)
    returns (ok: bool)
    requires Accounted(d, sm, d.created) && t in d.created
    modifies d, t, t.metadata
    ensures d.created == old(d.created) && (ok <==> old(t.state) == InProgress)
    ensures t.View() == if ok then old(t.View()).(state := Complete) else old(t.View())
    ensures t.metadata.entries == if ok then old(t.metadata.entries) + result else old(t.metadata.entries)
    ensures sm.TaskTable() == old(sm.TaskTable()) && sm.Values() == old(sm.Values())
  {
    NotOwned(d, sm, t);
    ok := d.CompleteTask(t, result, now);
  }

  method Completed(d: TaskDispatcher, sm: StateManager, t: Task, result: map<string, string>, now: int)
    returns (ok: bool, ghost states: map<Task, State>)
    requires InAgreement(d, sm) && t in d.created
    modifies d, t, t.metadata
    ensures d.created == old(d.created) && (ok <==> old(t.state) == InProgress)
    ensures t.View() == if ok then old(t.View()).(state := Complete) else old(t.View())
    ensures t.metadata.entries == if ok then old(t.metadata.entries) + result else old(t.metadata.entries)
    ensures ok ==> t.state == Complete
    ensures sm.Values() == old(sm.Values())
    ensures Pending(d, sm, t, states) && (!ok ==> t.state == states[t])
  {
    ghost var table := sm.TaskTable();
    states := States(d.created);
    ok := CompleteOnly(d, sm, t, result, now);
    OneAhead(d, sm, t, d.created, table, states);
  }

  method FailedOrRequeued(d: TaskDispatcher, sm: StateManager, t: Task, error: string, now: int)
    returns (willRetry: bool, ghost states: map<Task, State>)
    requires InAgreement(d, sm) && t in d.created
    modifies d, t
    ensures d.created == old(d.created) && (willRetry <==> old(t.retries) + 1 < t.maxRetries)
    ensures t.View() == if willRetry then TaskView(Queued, old(t.retries) + 1, t.maxRetries, None)
      else TaskView(Failed, old(t.retries) + 1, t.maxRetries, old(t.assignedTo))
    ensures sm.Values() == old(sm.Values())
    ensures StateName(t.state) == if willRetry then "QUEUED" else "FAILED"
    ensures Pending(d, sm, t, states) && sm.TaskTable() == old(sm.TaskTable())
  {
    ghost var table := sm.TaskTable();
    states := States(d.created);
    NotOwned(d, sm, t);
    willRetry := d.FailTask(t, error, now);
    assert sm.TaskTable() == table;
    OneAhead(d, sm, t, d.created, table, states);
  }

  method JoinIssue(d: TaskDispatcher, sm: StateManager, issueId: int, role: string, now: int)
    requires InAgreement(d, sm)
    modifies sm.owned.issues
    ensures InAgreement(d, sm) && sm.Values() == WithAssignee(old(sm.Values()), issueId, role, now)
  {
    var joined := sm.AssignAgentToIssue(issueId, role, now);
  }

  method CountResult(d: TaskDispatcher, sm: StateManager, role: string, success: bool, now: int)
    requires InAgreement(d, sm)
    modifies sm.owned.agents
    ensures InAgreement(d, sm) && sm.TaskTable() == old(sm.TaskTable())
    ensures sm.Values() == WithResult(old(sm.Values()), role, success, now)
  {
    var counted := sm.IncrementAgentStats(role, success, now);
  }

  method OpenIssue(d: TaskDispatcher, sm: StateManager, issueId: int, context: Context, now: int)
    requires InAgreement(d, sm)
    modifies sm`live, sm`owned
    ensures InAgreement(d, sm) && fresh(sm.owned.All() - old(sm.owned.All()))
    ensures sm.live.tasks == old(sm.live.tasks)
    ensures sm.Values() == WithIssue(old(sm.Values()), issueId, context.entries, now)
  {
    var title := if "title" in context.entries then context.entries["title"] else "";
    var priority := if "priority" in context.entries then context.entries["priority"] else "MEDIUM";
    ghost var before, table, keys := sm.owned.All(), sm.TaskTable(), sm.live.tasks.Keys;
    var isNew := sm.CreateIssueState(issueId, title, priority, now);
    assert sm.TaskTable() == table;
    assert fresh(sm.owned.All() - before);
    StillSeparate(d, sm, before, sm.owned.All());
    StillInAgreement(d, sm, table, keys);
  }

  /** Enqueues a new task, of which the state manager does not know yet. */
  method EnqueueNew(d: TaskDispatcher, sm: StateManager, id: string, issueId: int, taskType: string,
                    priority: Priority, maxRetries: int,
                    timeoutSeconds: int, context: Context, now: int) returns (t: Task)
    requires InAgreement(d, sm) && id !in sm.live.tasks && context !in sm.owned.All()
    modifies d
    ensures Accounted(d, sm, d.created)
    ensures fresh(t) && d.created == old(d.created) + [t] && t.id == id
    ensures t.View() == TaskView(Queued, 0, maxRetries, None)
    ensures if old(context.entries) != map[] then t.metadata == context else fresh(t.metadata)
    ensures t.priority == priority && t.issueId == issueId && d.queues.At(priority) == old(d.queues.At(priority)) + [t]
    ensures Replays(sm.history, id, NewTaskFields(issueId, now)) && sm.Values() == old(sm.Values())
    ensures AgreesWith(old(d.created), sm.TaskTable(), sm.history, States(old(d.created)))
  {
    NewId(d, sm, id, issueId, now);
    t := d.EnqueueTask(id, issueId, taskType, priority, maxRetries, timeoutSeconds, Some(context));
  }

  /** Copies a new task to the state manager. */
  method RegisterTask(d: TaskDispatcher, sm: StateManager, t: Task, issueId: int, now: int, ghost others: seq<Task>)
    requires Accounted(d, sm, d.created) && d.created == others + [t]
    requires t.state == Queued && Replays(sm.history, t.id, NewTaskFields(issueId, now))
    requires t.id !in sm.live.tasks && AgreesWith(others, sm.TaskTable(), sm.history, States(others))
    modifies sm`live, sm`owned
    ensures InAgreement(d, sm) && fresh(sm.owned.All() - old(sm.owned.All()))
    ensures sm.Values() == WithNewTask(old(sm.Values()), t.id, issueId, now)
  {
    ghost var table, states, history := sm.TaskTable(), States(others), sm.history;
    CreateRecord(d, sm, t.id, issueId, now);
    AgreesWithOneMore(others, table, history, states, t, NewTaskFields(issueId, now), States(d.created));
    Registered(d, sm, t, others);
  }

  method CreateRecord(d: TaskDispatcher, sm: StateManager, id: string, issueId: int, now: int)
    requires Accounted(d, sm, d.created) && id !in sm.live.tasks
    modifies sm`live, sm`owned
    ensures Accounted(d, sm, d.created) && fresh(sm.owned.All() - old(sm.owned.All()))
    ensures sm.TaskTable() == old(sm.TaskTable())[id := NewTaskFields(issueId, now)]
    ensures sm.Values() == WithNewTask(old(sm.Values()), id, issueId, now)
  {
    FieldsUpdate(sm.Values().tasks, id, Value(NewTaskFields(issueId, now), [], map[]));
    var created := sm.CreateTaskState(id, issueId, now);
  }
}

/**
 * The coordinator: every operation on a task goes to the dispatcher and is copied to the state
 * manager, whose history records the change.
 */
module Coordinator {
  import opened Common
  import opened TaskMachine
  import opened Filing
  import opened Dispatcher
  import opened Records
  import opened StateManager
  import opened TaskAccounts
  import opened AccountedSteps

  datatype AgentStatus = Idle | Busy | Blocked | Unknown

  ghost predicate HasAgent(role: Option<string>) {
    role.Some? && role.value != ""
  }

  /** The registry with one agent's status changed, if there is such an agent. */
  ghost function WithStatus(registry: map<string, AgentStatus>, role: Option<string>, status: AgentStatus)
    : map<string, AgentStatus>
  {
    if role.Some? && role.value in registry then registry[role.value := status] else registry
  }

  /** A final result counts for the agent that had the task. */
  ghost function Counted(v: Values, role: Option<string>, isFinal: bool, success: bool, now: int): Values {
    if HasAgent(role) && isFinal then WithResult(v, role.value, success, now) else v
  }

  ghost function Freed(registry: map<string, AgentStatus>, role: Option<string>): map<string, AgentStatus> {
    if HasAgent(role) then WithStatus(registry, role, Idle) else registry
  }

  class Coordinator {
    const d: TaskDispatcher
    const sm: StateManager
    var registry: map<string, AgentStatus>

    ghost predicate Valid()
      reads d, d.created, sm, sm.owned.tasks
    {
      InAgreement(d, sm) && this !in sm.owned.All()
    }

    constructor (registry: map<string, AgentStatus>)
      ensures Valid() && d.created == [] && fresh(d) && fresh(sm)
    {
      d := new TaskDispatcher();
      sm := new StateManager();
      this.registry := registry;
    }

    /** Does nothing for an agent that is not registered. */
    method SetStatus(role: Option<string>, status: AgentStatus)
      requires Valid()
      modifies this`registry
      ensures Valid() && sm.Values() == old(sm.Values())
      ensures registry == WithStatus(old(registry), role, status)
    {
      if role.Some? && role.value in registry {
        registry := registry[role.value := status];
      }
    }

    /** Opens the issue's state if there is none, and enqueues a new task, whose generated id is fresh. */
    method DispatchIssue(id: string, issueId: int, taskType: string, priority: Priority, maxRetries: int,
                         timeoutSeconds: int, context: Context, now: int) returns (t: Task)
      requires Valid() && id !in sm.live.tasks && context !in sm.owned.All()
      modifies d, sm
      ensures Valid() && fresh(t) && d.created == old(d.created) + [t] && t.id == id
      ensures t.View() == TaskView(Queued, 0, maxRetries, None)
      ensures if old(context.entries) != map[] then t.metadata == context else fresh(t.metadata)
      ensures t.priority == priority && t.issueId == issueId
      ensures d.queues.At(priority) == old(d.queues.At(priority)) + [t]
      ensures sm.Values() ==
        WithNewTask(WithIssue(old(sm.Values()), issueId, old(context.entries), now), id, issueId, now)
      ensures sm.history == old(sm.history)
    {
      ghost var created := d.created;
      OpenIssue(d, sm, issueId, context, now);
      assert context !in sm.owned.All() && this !in sm.owned.All();
      t := EnqueueNew(d, sm, id, issueId, taskType, priority, maxRetries, timeoutSeconds, context, now);
      RegisterTask(d, sm, t, issueId, now, created);
    }

    method DispatchToAgent(t: Task, role: string, now: int) returns (ok: bool)
      requires Valid() && t in d.created
      modifies sm, t, sm.owned.All()
      ensures Valid()
      ensures ok <==> role in registry && registry[role] != Blocked && old(t.state) in {Queued, Failed}
      ensures t.View() == if ok then old(t.View()).(state := Assigned, assignedTo := Some(role)) else old(t.View())
      ensures sm.Values() ==
        if ok then
          WithAssignee(WithTask(old(sm.Values()), t.id, "ASSIGNED", Some(role), None, now), t.issueId, role, now)
        else old(sm.Values())
      ensures sm.history == old(sm.history) +
        if ok then [TaskEntry(old(sm.Values()), t.id, "ASSIGNED", Some(role), None, now)] else []
    {
      if role !in registry || registry[role] == Blocked {
        return false;
      }
      assert t !in sm.owned.All() && this !in sm.owned.All();
      ghost var states;
      ok, states := Dispatched(d, sm, t, role);
      if !ok {
        NobodyAhead(d, sm, t, states);
        return;
      }
      CopyState(d, sm, t, "ASSIGNED", Some(role), None, now, states);
      JoinIssue(d, sm, t.issueId, role, now);
    }

    method StartTask(t: Task, now: int) returns (ok: bool)
      requires Valid() && t in d.created
      modifies this, d, sm, t, sm.owned.All()
      ensures Valid()
      ensures ok <==> old(t.state) == Assigned
      ensures t.View() == if ok then old(t.View()).(state := InProgress) else old(t.View())
      ensures sm.Values() ==
        if ok then WithTask(old(sm.Values()), t.id, "IN_PROGRESS", None, None, now) else old(sm.Values())
      ensures sm.history == old(sm.history) +
        if ok then [TaskEntry(old(sm.Values()), t.id, "IN_PROGRESS", None, None, now)] else []
      ensures registry == if ok then WithStatus(old(registry), t.assignedTo, Busy) else old(registry)
    {
      assert t !in sm.owned.All();
      ghost var states;
      ok, states := Started(d, sm, t, now);
      if !ok {
        NobodyAhead(d, sm, t, states);
        return;
      }
      CopyState(d, sm, t, "IN_PROGRESS", None, None, now, states);
      SetStatus(t.assignedTo, Busy);
    }

    method CompleteTask(t: Task, result: map<string, string>, now: int)
      requires Valid() && t in d.created
      modifies this, d, sm, t, t.metadata, sm.owned.All()
      ensures Valid()
      ensures old(t.state) != InProgress ==>
        && t.View() == old(t.View()) && t.metadata.entries == old(t.metadata.entries)
        && sm.Values() == old(sm.Values()) && sm.history == old(sm.history) && registry == old(registry)
      ensures old(t.state) == InProgress ==>
        && t.View() == old(t.View()).(state := Complete)
        && t.metadata.entries == old(t.metadata.entries) + result
        && sm.history == old(sm.history) + [TaskEntry(old(sm.Values()), t.id, "COMPLETE", None, None, now)]
        && registry == Freed(old(registry), t.assignedTo)
      ensures old(t.state) == InProgress ==>
        sm.Values() ==
        Counted(WithTask(old(sm.Values()), t.id, "COMPLETE", None, None, now), t.assignedTo, true, true, now)
    {
      NotOwned(d, sm, t);
      ghost var states;
      var ok;
      ok, states := Completed(d, sm, t, result, now);
      if ok {
        RecordAndRelease(t, "COMPLETE", None, true, true, now, states);
      } else {
        NobodyAhead(d, sm, t, states);
      }
    }

    /** The agent of a task is idle again; the result counts for it if it is final. The task stays as it is. */
    method Release(t: Task, isFinal: bool, success: bool, now: int)
      requires Valid() && t in d.created
      modifies this`registry, sm.owned.agents
      ensures Valid() && t.View() == old(t.View()) && t.metadata.entries == old(t.metadata.entries)
      ensures registry == Freed(old(registry), t.assignedTo)
      ensures sm.Values() == Counted(old(sm.Values()), t.assignedTo, isFinal, success, now)
    {
      var role := t.assignedTo;
      NotOwned(d, sm, t);
      if role.Some? && role.value != "" {
        SetStatus(role, Idle);
        if isFinal {
          CountResult(d, sm, role.value, success, now);
        }
      }
    }

    /** Copies a task's new state to the state manager and sets its agent idle. */
    method RecordAndRelease(t: Task, state: string, error: Option<string>, isFinal: bool, success: bool, now: int,
                            ghost states: map<Task, State>)
      requires Pending(d, sm, t, states) && this !in sm.owned.All() && state == StateName(t.state)
      modifies this`registry, sm`history, sm.owned.tasks, sm.owned.agents
      ensures Valid()
      ensures registry == Freed(old(registry), t.assignedTo)
      ensures sm.history == old(sm.history) + [TaskEntry(old(sm.Values()), t.id, state, None, error, now)]
      ensures sm.Values() ==
        Counted(WithTask(old(sm.Values()), t.id, state, None, error, now), t.assignedTo, isFinal, success, now)
      ensures t.View() == old(t.View()) && t.metadata.entries == old(t.metadata.entries)
    {
      CopyState(d, sm, t, state, None, error, now, states);
      Release(t, isFinal, success, now);
    }

    /**
     * A re-queued task loses its agent in the dispatcher only: the state manager keeps the last one, and since
     * nobody is left to release, the agent stays busy. Only a final failure counts against it.
     */
    method FailTask(t: Task, error: string, now: int) returns (ghost willRetry: bool)
      requires Valid() && t in d.created
      modifies this, d, sm, t, sm.owned.All()
      ensures Valid()
      ensures willRetry <==> old(t.retries) + 1 < t.maxRetries
      ensures t.View() == if willRetry then TaskView(Queued, old(t.retries) + 1, t.maxRetries, None)
        else TaskView(Failed, old(t.retries) + 1, t.maxRetries, old(t.assignedTo))
      ensures registry == if willRetry then old(registry) else Freed(old(registry), old(t.assignedTo))
      ensures var state := if willRetry then "QUEUED" else "FAILED";
        var recorded := WithTask(old(sm.Values()), t.id, state, None, Some(error), now);
        && sm.history == old(sm.history) + [TaskEntry(old(sm.Values()), t.id, state, None, Some(error), now)]
        && sm.Values() == Counted(recorded, old(t.assignedTo), !willRetry, false, now)
    {
      assert t !in sm.owned.All();
      ghost var states;
      var again;
      again, states := FailedOrRequeued(d, sm, t, error, now);
      ghost var failed, owner := t.View(), if again then None else old(t.assignedTo);
      assert registry == old(registry) && t.assignedTo == owner;
      RecordAndRelease(t, if again then "QUEUED" else "FAILED", Some(error), !again, false, now, states);
      willRetry := again;
      assert t.View() == failed && registry == Freed(old(registry), owner);
    }
  }
}
