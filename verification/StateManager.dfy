/**
 * Global state of the orchestrator: mutable records of issues, agents and tasks, an append-only
 * history of transitions, and deep-copied snapshots that can be restored.
 */
module StateManager {
  import opened Common
  import opened Records

  datatype Kind = IssueUpdate | AgentUpdate | TaskUpdate

  /** The subject of a transition: an issue number, an agent role or a task id. */
  datatype Entity = IssueNumber(n: int) | Role(role: string) | TaskId(id: string)

  /** What a history entry says besides the states: for a task, the agent and the error of the update. */
  datatype Details = NoDetails | TaskDetails(assignedTo: Option<string>, error: Option<string>)

  datatype Transition = Transition(kind: Kind, entity: Entity, fromState: string, toState: string, timestamp: int,
                                   details: Details)

  // ------------------------------------------------------------------ what an update does to the values

  function BusyName(busy: bool): string {
    if busy then "BUSY" else "IDLE"
  }

  function NewIssue(title: string, priority: string, now: int): Issue {
    Issue(title, "QUEUED", priority, now)
  }

  function NewTaskFields(issueId: int, now: int): TaskFields {
    TaskFields(issueId, None, "QUEUED", 0, None, now)
  }

  function TaskUpdated(t: TaskFields, state: string, assignedTo: Option<string>, error: Option<string>, now: int)
    : TaskFields
  {
    t.(state := state, updatedAt := now,
       assignedTo := if assignedTo.Some? then assignedTo else t.assignedTo,
       error := if error.Some? then error else t.error)
  }

  function TaskTransition(taskId: string, fromState: string, toState: string, assignedTo: Option<string>,
                          error: Option<string>, now: int): Transition
  {
    Transition(TaskUpdate, TaskId(taskId), fromState, toState, now, TaskDetails(assignedTo, error))
  }

  function StatsUpdated(a: Agent, success: bool, now: int): Agent {
    if success then a.(tasksCompleted := a.tasksCompleted + 1, lastUpdated := now)
    else a.(tasksFailed := a.tasksFailed + 1, lastUpdated := now)
  }

  // ------------------------------------------------------------------ the manager

  class StateManager {
    var live: Tables
    var history: seq<Transition>
    var snapshots: seq<Snapshot>
    /** The objects of the live tables, and those of all snapshots. */
    ghost var owned: Owned
    ghost var frozen: set<object>

    /** Live tables keep to their own objects, none of which belongs to a snapshot. */
    ghost predicate Valid()
      reads this
    {
      && Owns(live, owned) && owned.All() !! frozen && this !in owned.All() + frozen
      && AllHeld(snapshots, frozen)
    }

    /** Everything the live tables hold, two levels deep. */
    ghost function Values(): Values
      reads this, owned.issues, owned.agents, owned.tasks
    {
      AllContents(live, owned)
    }

    /** The plain fields of all tasks. */
    ghost function TaskTable(): map<string, TaskFields>
      reads this, owned.tasks
    {
      Fields(Contents(live.tasks, owned.tasks))
    }

    constructor ()
      ensures Valid() && live == Tables(map[], map[], map[], map[]) && history == [] && snapshots == []
      ensures fresh(owned.All())
    {
      live := Tables(map[], map[], map[], map[]);
      history, snapshots := [], [];
      owned, frozen := Owned({}, {}, {}), {};
    }

    /** Fails if the issue already has a state. */
    method CreateIssueState(issueId: int, title: string, priority: string, now: int) returns (ok: bool)
      requires Valid()
      modifies this`live, this`owned
      ensures Valid() && fresh(owned.All() - old(owned.All()))
      ensures ok <==> issueId !in old(live.issues)
      ensures live == old(live).(issues := live.issues) && owned == old(owned).(issues := owned.issues)
      ensures Values() == if ok then
          old(Values()).(issues := old(Values()).issues[issueId := Value(NewIssue(title, priority, now), [], map[])])
        else old(Values())
    {
      if issueId in live.issues {
        return false;
      }
      live, owned := AddIssue(live, owned, issueId, NewIssue(title, priority, now));
      return true;
    }

    method UpdateIssueState(issueId: int, status: string, metadata: Dict, now: int) returns (ok: bool)
      requires Valid()
      modifies this`history, owned.issues
      ensures Valid()
      ensures ok <==> issueId in live.issues
      ensures !ok ==> Values() == old(Values()) && history == old(history)
      ensures ok ==> issueId in old(Values()).issues
      ensures ok ==>
        var issue := old(Values()).issues[issueId];
        && Values() == old(Values()).(issues := old(Values()).issues[issueId :=
             issue.(fields := issue.fields.(status := status, updatedAt := now),
                    metadata := issue.metadata + metadata)])
        && history == old(history) +
             [Transition(IssueUpdate, IssueNumber(issueId), issue.fields.status, status, now, NoDetails)]
    {
      if issueId !in live.issues {
        return false;
      }
      var issue := live.issues[issueId].fields;
      var oldStatus := issue.status;
      ChangeIssue(live, owned, issueId, issue.(status := status, updatedAt := now), metadata);
      history := history + [Transition(IssueUpdate, IssueNumber(issueId), oldStatus, status, now, NoDetails)];
      return true;
    }

    method AssignAgentToIssue(issueId: int, role: string, now: int) returns (ok: bool)
      requires Valid()
      modifies owned.issues
      ensures Valid()
      ensures ok <==> issueId in live.issues
      ensures ok ==> issueId in old(Values()).issues
      ensures Values() ==
        if ok && role !in old(Values()).issues[issueId].assignees then
          var issue := old(Values()).issues[issueId];
          old(Values()).(issues := old(Values()).issues[issueId :=
            issue.(assignees := issue.assignees + [role], fields := issue.fields.(updatedAt := now))])
        else old(Values())
    {
      if issueId !in live.issues {
        return false;
      }
      if role !in live.issues[issueId].assignees.names {
        var issue := live.issues[issueId].fields;
        EnlistOnIssue(live, owned, issueId, role, issue.(updatedAt := now));
      }
      return true;
    }

    method CreateAgentState(role: string, now: int) returns (ok: bool)
      requires Valid()
      modifies this`live, this`owned
      ensures Valid() && fresh(owned.All() - old(owned.All()))
      ensures ok <==> role !in old(live.agents)
      ensures live == old(live).(agents := live.agents) && owned == old(owned).(agents := owned.agents)
      ensures Values() == if ok then
          old(Values()).(agents := old(Values()).agents[role := Value(Agent(false, None, 0, 0, now), [], map[])])
        else old(Values())
    {
      if role in live.agents {
        return false;
      }
      live, owned := AddAgent(live, owned, role, Agent(false, None, 0, 0, now));
      return true;
    }

    /** A transition is recorded only when the busy flag changes. */
    method UpdateAgentState(role: string, isBusy: bool, currentTaskId: Option<string>, now: int) returns (ok: bool)
      requires Valid()
      modifies this`history, owned.agents
      ensures Valid()
      ensures ok <==> role in live.agents
      ensures !ok ==> Values() == old(Values()) && history == old(history)
      ensures ok ==> role in old(Values()).agents
      ensures ok ==>
        var agent := old(Values()).agents[role];
        && Values() == old(Values()).(agents := old(Values()).agents[role :=
             agent.(fields := agent.fields.(isBusy := isBusy, currentTaskId := currentTaskId, lastUpdated := now))])
        && history == old(history) + (
             if agent.fields.isBusy == isBusy then []
             else if isBusy then [Transition(AgentUpdate, Role(role), "IDLE", "BUSY", now, NoDetails)]
             else [Transition(AgentUpdate, Role(role), "BUSY", "IDLE", now, NoDetails)])
    {
      if role !in live.agents {
        return false;
      }
      var agent := live.agents[role].fields;
      var oldState, changed := BusyName(agent.isBusy), agent.isBusy != isBusy;
      agent := agent.(isBusy := isBusy, currentTaskId := currentTaskId, lastUpdated := now);
      AddingNothing(Values().agents[role].metadata);
      ChangeAgent(live, owned, role, agent, map[]);
      if changed {
        history := history + [Transition(AgentUpdate, Role(role), oldState, BusyName(isBusy), now, NoDetails)];
      }
      return true;
    }

    method IncrementAgentStats(role: string, success: bool, now: int) returns (ok: bool)
      requires Valid()
      modifies owned.agents
      ensures Valid()
      ensures ok <==> role in live.agents
      ensures ok ==> role in old(Values()).agents
      ensures Values() ==
        if ok then
          var agent := old(Values()).agents[role];
          old(Values()).(agents :=
            old(Values()).agents[role := agent.(fields := StatsUpdated(agent.fields, success, now))])
        else old(Values())
    {
      if role !in live.agents {
        return false;
      }
      var agent := live.agents[role].fields;
      if success {
        agent := agent.(tasksCompleted := agent.tasksCompleted + 1);
      } else {
        agent := agent.(tasksFailed := agent.tasksFailed + 1);
      }
      AddingNothing(Values().agents[role].metadata);
      ChangeAgent(live, owned, role, agent.(lastUpdated := now), map[]);
      return true;
    }

    method CreateTaskState(taskId: string, issueId: int, now: int) returns (ok: bool)
      requires Valid()
      modifies this`live, this`owned
      ensures Valid() && fresh(owned.All() - old(owned.All()))
      ensures ok <==> taskId !in old(live.tasks)
      ensures live == old(live).(tasks := live.tasks) && owned == old(owned).(tasks := owned.tasks)
      ensures live.tasks.Keys == old(live.tasks.Keys) + {taskId}
      ensures Values() == if ok then
          old(Values()).(tasks := old(Values()).tasks[taskId := Value(NewTaskFields(issueId, now), [], map[])])
        else old(Values())
    {
      if taskId in live.tasks {
        return false;
      }
      live, owned := AddTask(live, owned, taskId, NewTaskFields(issueId, now));
      return true;
    }

    /** Sets the state, and what else is given, and appends the transition to the history. */
    method UpdateTaskState(taskId: string, state: string, assignedTo: Option<string>, error: Option<string>,
                           metadata: Dict, now: int) returns (ok: bool)
      requires Valid()
      modifies this`history, owned.tasks
      ensures Valid()
      ensures ok <==> taskId in live.tasks
      ensures !ok ==> Values() == old(Values()) && history == old(history)
      ensures ok ==> taskId in old(Values()).tasks
      ensures ok ==>
        var task := old(Values()).tasks[taskId];
        && Values() == old(Values()).(tasks := old(Values()).tasks[taskId :=
             task.(fields := TaskUpdated(task.fields, state, assignedTo, error, now),
                   metadata := task.metadata + metadata)])
        && history == old(history) + [TaskTransition(taskId, task.fields.state, state, assignedTo, error, now)]
    {
      if taskId !in live.tasks {
        return false;
      }
      var task := live.tasks[taskId].fields;
      var oldState := task.state;
      task := task.(state := state, updatedAt := now);
      if assignedTo.Some? {
        task := task.(assignedTo := assignedTo);
      }
      if error.Some? {
        task := task.(error := error);
      }
      ChangeTask(live, owned, taskId, task, metadata);
      history := history + [TaskTransition(taskId, oldState, state, assignedTo, error, now)];
      return true;
    }

    method IncrementTaskRetries(taskId: string, now: int) returns (ok: bool)
      requires Valid()
      modifies owned.tasks
      ensures Valid()
      ensures ok <==> taskId in live.tasks
      ensures ok ==> taskId in old(Values()).tasks
      ensures Values() ==
        if ok then
          var task := old(Values()).tasks[taskId];
          old(Values()).(tasks := old(Values()).tasks[taskId :=
            task.(fields := task.fields.(retries := task.fields.retries + 1, updatedAt := now))])
        else old(Values())
    {
      if taskId !in live.tasks {
        return false;
      }
      var task := live.tasks[taskId].fields;
      AddingNothing(Values().tasks[taskId].metadata);
      ChangeTask(live, owned, taskId, task.(retries := task.retries + 1, updatedAt := now), map[]);
      return true;
    }

    method LinkMemoryEntry(taskId: string, memoryEntryId: string)
      requires Valid()
      modifies this`live
      ensures Valid()
      ensures Values() == old(Values()).(memoryRefs := old(live.memoryRefs)[taskId := memoryEntryId])
    {
      live := live.(memoryRefs := live.memoryRefs[taskId := memoryEntryId]);
    }

    /** A snapshot holds its own copies of the records and of the containers in them, with the present values. */
    method CreateSnapshot(id: string) returns (s: Snapshot, ghost made: set<object>)
      requires Valid()
      modifies this`snapshots, this`frozen
      ensures Valid()
      ensures snapshots == old(snapshots) + [s] && s.id == id
      ensures fresh(made) && frozen == old(frozen) + made && Holds(s.tables, made)
      ensures ContentsIn(s.tables, made) == old(Values())
    {
      var tables;
      ghost var o;
      tables, o := CopyTables(live, owned);
      made := o.All();
      ContentsInAny(tables, o, made);
      s := Snapshot(id, tables);
      AllHeldMore(snapshots, frozen, s, made);
      snapshots := snapshots + [s];
      frozen := frozen + made;
    }

    /** Replaces the live records by deep copies of the snapshot's; the history is left alone. */
    method RestoreSnapshot(s: Snapshot)
      requires Valid() && Holds(s.tables, frozen)
      modifies this`live, this`owned
      ensures Valid() && fresh(owned.All())
      ensures Values() == old(ContentsIn(s.tables, frozen))
    {
      live, owned := CopyTables(s.tables, Owned(frozen, frozen, frozen));
    }

    /**
     * Any one operation of the manager leaves a taken snapshot as it was, two levels deep; `held` are the objects
     * of that snapshot.
     */
    method Perform(u: Update, now: int, ghost taken: Snapshot, ghost held: set<object>)
      requires Valid() && taken in snapshots && held <= frozen && Holds(taken.tables, held)
      modifies this, owned.All()
      ensures Valid() && taken in snapshots && held <= frozen
      ensures ContentsIn(taken.tables, held) == old(ContentsIn(taken.tables, held))
      ensures fresh(owned.All() - old(owned.All()))
    {
      assert held !! owned.issues && held !! owned.agents && held !! owned.tasks && this !in held;
      if u.CreateIssue? || u.UpdateIssue? || u.AssignAgent? {
        PerformOnIssue(u, now);
      } else if u.CreateAgent? || u.UpdateAgent? || u.IncrementStats? {
        PerformOnAgent(u, now);
      } else if u.CreateTask? || u.UpdateTask? || u.IncrementRetries? {
        PerformOnTask(u, now);
      } else {
        PerformElse(u);
      }
    }

    method PerformOnIssue(u: Update, now: int)
      requires Valid() && (u.CreateIssue? || u.UpdateIssue? || u.AssignAgent?)
      modifies this`live, this`owned, this`history, owned.issues
      ensures Valid() && fresh(owned.All() - old(owned.All()))
    {
      var ok;
      if u.CreateIssue? {
        ok := CreateIssueState(u.issueId, u.title, u.priority, now);
      } else if u.UpdateIssue? {
        ok := UpdateIssueState(u.issueId, u.status, u.metadata, now);
      } else {
        ok := AssignAgentToIssue(u.issueId, u.role, now);
      }
    }

    method PerformOnAgent(u: Update, now: int)
      requires Valid() && (u.CreateAgent? || u.UpdateAgent? || u.IncrementStats?)
      modifies this`live, this`owned, this`history, owned.agents
      ensures Valid() && fresh(owned.All() - old(owned.All()))
    {
      var ok;
      if u.CreateAgent? {
        ok := CreateAgentState(u.role, now);
      } else if u.UpdateAgent? {
        ok := UpdateAgentState(u.role, u.isBusy, u.currentTaskId, now);
      } else {
        ok := IncrementAgentStats(u.role, u.success, now);
      }
    }

    method PerformOnTask(u: Update, now: int)
      requires Valid() && (u.CreateTask? || u.UpdateTask? || u.IncrementRetries?)
      modifies this`live, this`owned, this`history, owned.tasks
      ensures Valid() && fresh(owned.All() - old(owned.All()))
    {
      var ok;
      if u.CreateTask? {
        ok := CreateTaskState(u.taskId, u.taskIssue, now);
      } else if u.UpdateTask? {
        ok := UpdateTaskState(u.taskId, u.state, u.assignedTo, u.error, u.metadata, now);
      } else {
        ok := IncrementTaskRetries(u.taskId, now);
      }
    }

    method PerformElse(u: Update)
      requires Valid() && (u.LinkMemory? || u.TakeSnapshot? || u.Restore?)
      modifies this`live, this`owned, this`snapshots, this`frozen
      ensures Valid() && fresh(owned.All() - old(owned.All()))
      ensures old(snapshots) <= snapshots && old(frozen) <= frozen
    {
      if u.LinkMemory? {
        LinkMemoryEntry(u.linked, u.entry);
      } else if u.TakeSnapshot? {
        var s;
        ghost var made;
        s, made := CreateSnapshot(u.snapshotId);
      } else if u.index < |snapshots| {
        RestoreSnapshot(snapshots[u.index]);
      }
    }

    /**
     * Isolation: whatever operations come in between - other snapshots and restorations included -
     * restoring a snapshot brings every record, list, dictionary and reference back to its value at the
     * snapshot's creation.
     */
    method SnapshotRunRestore(id: string, script: seq<(Update, int)>) returns (s: Snapshot)
      requires Valid()
      modifies this, owned.All()
      ensures Valid() && s in snapshots
      ensures Values() == old(Values())
    {
      ghost var values := Values();
      ghost var held;
      s, held := CreateSnapshot(id);
      for i := 0 to |script|
        invariant Valid() && s in snapshots && held <= frozen && Holds(s.tables, held)
        invariant ContentsIn(s.tables, held) == values
        invariant fresh(owned.All() - old(owned.All()))
      {
        Perform(script[i].0, script[i].1, s, held);
      }
      SameContents(s.tables, held, frozen);
      RestoreSnapshot(s);
    }
  }

  /** The operations that change the manager. */
  datatype Update =
    | CreateIssue(issueId: int, title: string, priority: string)
    | UpdateIssue(issueId: int, status: string, metadata: Dict)
    | AssignAgent(issueId: int, role: string)
    | CreateAgent(role: string)
    | UpdateAgent(role: string, isBusy: bool, currentTaskId: Option<string>)
    | IncrementStats(role: string, success: bool)
    | CreateTask(taskId: string, taskIssue: int)
    | UpdateTask(taskId: string, state: string, assignedTo: Option<string>, error: Option<string>, metadata: Dict)
    | IncrementRetries(taskId: string)
    | LinkMemory(linked: string, entry: string)
    | TakeSnapshot(snapshotId: string)
    | Restore(index: nat)
}
