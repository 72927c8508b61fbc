/**
 * The mutable objects of the orchestrator's state: records with containers inside them, dictionaries of records,
 * and their deep copies.
 */
module Records {
  import opened Common

  datatype Issue = Issue(title: string, status: string, priority: string, updatedAt: int)

  datatype Agent = Agent(isBusy: bool, currentTaskId: Option<string>, tasksCompleted: int, tasksFailed: int,
                         lastUpdated: int)

  datatype TaskFields = TaskFields(issueId: int, assignedTo: Option<string>, state: string, retries: int,
                                   error: Option<string>, updatedAt: int)

  type Dict = map<string, string>

  // ------------------------------------------------------------------ mutable objects

  /** A list object, changed in place by whoever has a reference to it. */
  class NameList {
    var names: seq<string>

    constructor (names: seq<string>)
      ensures this.names == names
    {
      this.names := names;
    }
  }

  /** A dictionary object, changed in place by whoever has a reference to it. */
  class Dictionary {
    var entries: Dict

    constructor (entries: Dict)
      ensures this.entries == entries
    {
      this.entries := entries;
    }
  }

  /**
   * A mutable record: plain fields, and references to two containers of its own that are never exchanged - the
   * metadata, and the list of agents assigned to it, which only issues use.
   */
  class Record<T> {
    var fields: T
    const assignees: NameList
    const metadata: Dictionary

    constructor (fields: T, assignees: NameList, metadata: Dictionary)
      ensures this.fields == fields && this.assignees == assignees && this.metadata == metadata
    {
      this.fields, this.assignees, this.metadata := fields, assignees, metadata;
    }
  }

  /** Everything a record holds, containers included. */
  datatype Value<T> = Value(fields: T, assignees: seq<string>, metadata: Dict)

  /** The records of a dictionary and their containers are all in this set. */
  ghost predicate Within<K, T>(m: map<K, Record<T>>, objects: set<object>) {
    forall k :: k in m ==> m[k] in objects && m[k].assignees in objects && m[k].metadata in objects
  }

  /** The whole values behind the references of a dictionary whose objects are in this set, two levels deep. */
  ghost function Contents<K, T>(m: map<K, Record<T>>, objects: set<object>): map<K, Value<T>>
    reads objects
  {
    map k | k in m && m[k] in objects && m[k].assignees in objects && m[k].metadata in objects ::
      Value(m[k].fields, m[k].assignees.names, m[k].metadata.entries)
  }

  /** The plain fields of some values. */
  function Fields<K, T>(values: map<K, Value<T>>): map<K, T> {
    map k | k in values :: values[k].fields
  }

  lemma FieldsUpdate<K, T>(values: map<K, Value<T>>, k: K, v: Value<T>)
    ensures Fields(values[k := v]) == Fields(values)[k := v.fields]
  {
  }

  /** No two names share a record or a container. */
  ghost predicate Distinct<K(!new), T>(m: map<K, Record<T>>) {
    forall j, k :: j in m && k in m && j != k ==>
      m[j] != m[k] && m[j].assignees != m[k].assignees && m[j].metadata != m[k].metadata
  }

  /** The live dictionaries and the contents of a snapshot have the same shape: names mapped to records. */
  datatype Tables = Tables(
    issues: map<int, Record<Issue>>, agents: map<string, Record<Agent>>, tasks: map<string, Record<TaskFields>>,
    memoryRefs: map<string, string>)

  datatype Values = Values(issues: map<int, Value<Issue>>, agents: map<string, Value<Agent>>,
                           tasks: map<string, Value<TaskFields>>, memoryRefs: map<string, string>)

  /** For each table a set of objects that holds its records and their containers. */
  datatype Owned = Owned(issues: set<object>, agents: set<object>, tasks: set<object>) {
    ghost function All(): set<object> {
      issues + agents + tasks
    }

    /** The tables own different objects. */
    ghost predicate Apart() {
      issues !! agents && issues !! tasks && agents !! tasks
    }
  }

  /** Each table keeps to its own objects, and no two names share any. */
  ghost predicate Owns(t: Tables, o: Owned) {
    && Within(t.issues, o.issues) && Within(t.agents, o.agents) && Within(t.tasks, o.tasks)
    && Distinct(t.issues) && Distinct(t.agents) && Distinct(t.tasks)
    && o.Apart()
  }

  /** All objects of the tables are in this set. */
  ghost predicate Holds(t: Tables, objects: set<object>) {
    Within(t.issues, objects) && Within(t.agents, objects) && Within(t.tasks, objects)
  }

  /** The values behind the references of tables held in one set, two levels deep. */
  ghost function ContentsIn(t: Tables, objects: set<object>): Values
    reads objects
  {
    Values(Contents(t.issues, objects), Contents(t.agents, objects), Contents(t.tasks, objects), t.memoryRefs)
  }

  lemma SameContents(t: Tables, held: set<object>, more: set<object>)
    requires Holds(t, held) && held <= more
    ensures Holds(t, more) && ContentsIn(t, held) == ContentsIn(t, more)
  {
    SameTable(t.issues, held, more);
    SameTable(t.agents, held, more);
    SameTable(t.tasks, held, more);
  }

  /** The values behind the references of all tables, two levels deep. */
  ghost function AllContents(t: Tables, o: Owned): Values
    reads o.issues, o.agents, o.tasks
  {
    Values(Contents(t.issues, o.issues), Contents(t.agents, o.agents), Contents(t.tasks, o.tasks), t.memoryRefs)
  }

  lemma ContentsAre(t: Tables, o: Owned, values: Values)
    requires Contents(t.issues, o.issues) == values.issues && Contents(t.agents, o.agents) == values.agents
    requires Contents(t.tasks, o.tasks) == values.tasks && t.memoryRefs == values.memoryRefs
    ensures AllContents(t, o) == values
  {
  }

  lemma ContentsInAny(t: Tables, o: Owned, objects: set<object>)
    requires Owns(t, o) && o.All() <= objects
    ensures Holds(t, objects) && ContentsIn(t, objects) == AllContents(t, o)
  {
    SameTable(t.issues, o.issues, objects);
    SameTable(t.agents, o.agents, objects);
    SameTable(t.tasks, o.tasks, objects);
  }

  lemma SameTable<K, T>(m: map<K, Record<T>>, held: set<object>, more: set<object>)
    requires Within(m, held) && held <= more
    ensures Within(m, more) && Contents(m, held) == Contents(m, more)
  {
  }

  lemma AddingNothing(d: Dict)
    ensures d + map[] == d
  {
  }

  /** Writes new plain fields into the record of one name. */
  method WriteFields<K(!new), T>(m: map<K, Record<T>>, k: K, fields: T, ghost objects: set<object>)
    requires k in m && Distinct(m) && Within(m, objects)
    modifies m[k]
    ensures Contents(m, objects) ==
      old(Contents(m, objects))[k := old(Contents(m, objects))[k].(fields := fields)]
  {
    m[k].fields := fields;
  }

  /** Appends to the list inside the record of one name. */
  method AppendName<K(!new), T>(m: map<K, Record<T>>, k: K, name: string, ghost objects: set<object>)
    requires k in m && Distinct(m) && Within(m, objects)
    modifies m[k].assignees
    ensures var before := old(Contents(m, objects));
      Contents(m, objects) == before[k := before[k].(assignees := before[k].assignees + [name])]
  {
    m[k].assignees.names := m[k].assignees.names + [name];
  }

  /** Updates the dictionary inside the record of one name. */
  method UpdateMetadata<K(!new), T>(m: map<K, Record<T>>, k: K, more: Dict, ghost objects: set<object>)
    requires k in m && Distinct(m) && Within(m, objects)
    modifies m[k].metadata
    ensures var before := old(Contents(m, objects));
      Contents(m, objects) == before[k := before[k].(metadata := before[k].metadata + more)]
  {
    m[k].metadata.entries := m[k].metadata.entries + more;
  }

  /** Writes new plain fields and, if there is anything to add, updates the dictionary. */
  method Change<K(!new), T>(m: map<K, Record<T>>, k: K, fields: T, more: Dict, ghost objects: set<object>)
    requires k in m && Distinct(m) && Within(m, objects)
    modifies m[k], m[k].metadata
    ensures var before := old(Contents(m, objects));
      k in before && Contents(m, objects) == before[k := Value(fields, before[k].assignees, before[k].metadata + more)]
  {
    ghost var before := Contents(m, objects);
    WriteFields(m, k, fields, objects);
    if more != map[] {
      UpdateMetadata(m, k, more, objects);
    } else {
      AddingNothing(before[k].metadata);
    }
  }

  /** Appends to the list and writes new plain fields. */
  method Enlist<K(!new), T>(m: map<K, Record<T>>, k: K, name: string, fields: T, ghost objects: set<object>)
    requires k in m && Distinct(m) && Within(m, objects)
    modifies m[k], m[k].assignees
    ensures var before := old(Contents(m, objects));
      k in before && Contents(m, objects) ==
        before[k := Value(fields, before[k].assignees + [name], before[k].metadata)]
  {
    AppendName(m, k, name, objects);
    WriteFields(m, k, fields, objects);
  }

  /** Adds a record under a new name, with empty containers of its own. */
  method Add<K(!new), T>(m: map<K, Record<T>>, k: K, fields: T, ghost objects: set<object>)
    returns (more: map<K, Record<T>>, ghost grown: set<object>)
    requires k !in m && Distinct(m) && Within(m, objects)
    ensures more.Keys == m.Keys + {k} && Distinct(more) && Within(more, grown)
    ensures objects <= grown && fresh(grown - objects)
    ensures Contents(more, grown) == old(Contents(m, objects))[k := Value(fields, [], map[])]
  {
    var assignees := new NameList([]);
    var metadata := new Dictionary(map[]);
    var r := new Record(fields, assignees, metadata);
    more := m[k := r];
    grown := objects + {r, assignees, metadata};
  }

  /** A fresh record around fresh containers with the same contents. */
  method CopyRecord<T>(r: Record<T>) returns (copy: Record<T>)
    ensures fresh(copy) && fresh(copy.assignees) && fresh(copy.metadata)
    ensures copy.fields == r.fields && copy.assignees.names == r.assignees.names
    ensures copy.metadata.entries == r.metadata.entries
  {
    var assignees := new NameList(r.assignees.names);
    var metadata := new Dictionary(r.metadata.entries);
    copy := new Record(r.fields, assignees, metadata);
  }

  /** A fresh record for every name, around fresh containers, with the same contents two levels deep. */
  method DeepCopy<K(!new), T>(m: map<K, Record<T>>, ghost objects: set<object>)
    returns (c: map<K, Record<T>>, ghost made: set<object>)
    requires Within(m, objects)
    ensures Distinct(c) && Within(c, made) && fresh(made)
    ensures Contents(c, made) == old(Contents(m, objects))
  {
    c, made := map[], {};
    var rest := m.Keys;
    while rest != {}
      invariant rest <= m.Keys && c.Keys == m.Keys - rest
      invariant Distinct(c) && Within(c, made) && fresh(made)
      invariant forall k :: k in c ==> c[k].fields == m[k].fields && c[k].assignees.names == m[k].assignees.names
      invariant forall k :: k in c ==> c[k].metadata.entries == m[k].metadata.entries
    {
      var k :| k in rest;
      var copy := CopyRecord(m[k]);
      c := c[k := copy];
      made := made + {copy, copy.assignees, copy.metadata};
      rest := rest - {k};
    }
  }

  /** Copies all three tables and the dictionary of memory references. */
  method CopyTables(t: Tables, ghost o: Owned) returns (c: Tables, ghost made: Owned)
    requires Within(t.issues, o.issues) && Within(t.agents, o.agents) && Within(t.tasks, o.tasks)
    ensures Owns(c, made) && fresh(made.issues) && fresh(made.agents) && fresh(made.tasks)
    ensures AllContents(c, made) == old(AllContents(t, o))
  {
    var issues, agents, tasks;
    ghost var a, b, d;
    issues, a := DeepCopy(t.issues, o.issues);
    agents, b := DeepCopy(t.agents, o.agents);
    tasks, d := DeepCopy(t.tasks, o.tasks);
    c, made := Tables(issues, agents, tasks, t.memoryRefs), Owned(a, b, d);
  }

  // ------------------------------------------------------------------ changes to one table among all

  method AddIssue(t: Tables, ghost o: Owned, k: int, fields: Issue) returns (more: Tables, ghost grown: Owned)
    requires Owns(t, o) && k !in t.issues
    ensures Owns(more, grown) && more == t.(issues := more.issues) && more.issues.Keys == t.issues.Keys + {k}
    ensures grown == o.(issues := grown.issues) && o.issues <= grown.issues && fresh(grown.issues - o.issues)
    ensures AllContents(more, grown) == old(AllContents(t, o)).(issues :=
      old(AllContents(t, o)).issues[k := Value(fields, [], map[])])
  {
    ghost var before := AllContents(t, o);
    var table;
    ghost var objects;
    table, objects := Add(t.issues, k, fields, o.issues);
    more, grown := t.(issues := table), o.(issues := objects);
    ContentsAre(more, grown, before.(issues := before.issues[k := Value(fields, [], map[])]));
  }

  method ChangeIssue(t: Tables, ghost o: Owned, k: int, fields: Issue, more: Dict)
    requires Owns(t, o) && k in t.issues
    modifies t.issues[k], t.issues[k].metadata
    ensures var before := old(AllContents(t, o));
      && k in before.issues
      && AllContents(t, o) == before.(issues := before.issues[k :=
           Value(fields, before.issues[k].assignees, before.issues[k].metadata + more)])
  {
    ghost var before := AllContents(t, o);
    Change(t.issues, k, fields, more, o.issues);
    ghost var was := before.issues[k];
    ContentsAre(t, o, before.(issues := before.issues[k := Value(fields, was.assignees, was.metadata + more)]));
  }

  method AddAgent(t: Tables, ghost o: Owned, k: string, fields: Agent) returns (more: Tables, ghost grown: Owned)
    requires Owns(t, o) && k !in t.agents
    ensures Owns(more, grown) && more == t.(agents := more.agents) && more.agents.Keys == t.agents.Keys + {k}
    ensures grown == o.(agents := grown.agents) && o.agents <= grown.agents && fresh(grown.agents - o.agents)
    ensures AllContents(more, grown) == old(AllContents(t, o)).(agents :=
      old(AllContents(t, o)).agents[k := Value(fields, [], map[])])
  {
    ghost var before := AllContents(t, o);
    var table;
    ghost var objects;
    table, objects := Add(t.agents, k, fields, o.agents);
    more, grown := t.(agents := table), o.(agents := objects);
    ContentsAre(more, grown, before.(agents := before.agents[k := Value(fields, [], map[])]));
  }

  method ChangeAgent(t: Tables, ghost o: Owned, k: string, fields: Agent, more: Dict)
    requires Owns(t, o) && k in t.agents
    modifies t.agents[k], t.agents[k].metadata
    ensures var before := old(AllContents(t, o));
      && k in before.agents
      && AllContents(t, o) == before.(agents := before.agents[k :=
           Value(fields, before.agents[k].assignees, before.agents[k].metadata + more)])
  {
    ghost var before := AllContents(t, o);
    Change(t.agents, k, fields, more, o.agents);
    ghost var was := before.agents[k];
    ContentsAre(t, o, before.(agents := before.agents[k := Value(fields, was.assignees, was.metadata + more)]));
  }

  method AddTask(t: Tables, ghost o: Owned, k: string, fields: TaskFields) returns (more: Tables, ghost grown: Owned)
    requires Owns(t, o) && k !in t.tasks
    ensures Owns(more, grown) && more == t.(tasks := more.tasks) && more.tasks.Keys == t.tasks.Keys + {k}
    ensures grown == o.(tasks := grown.tasks) && o.tasks <= grown.tasks && fresh(grown.tasks - o.tasks)
    ensures AllContents(more, grown) == old(AllContents(t, o)).(tasks :=
      old(AllContents(t, o)).tasks[k := Value(fields, [], map[])])
  {
    ghost var before := AllContents(t, o);
    var table;
    ghost var objects;
    table, objects := Add(t.tasks, k, fields, o.tasks);
    more, grown := t.(tasks := table), o.(tasks := objects);
    ContentsAre(more, grown, before.(tasks := before.tasks[k := Value(fields, [], map[])]));
  }

  method ChangeTask(t: Tables, ghost o: Owned, k: string, fields: TaskFields, more: Dict)
    requires Owns(t, o) && k in t.tasks
    modifies t.tasks[k], t.tasks[k].metadata
    ensures var before := old(AllContents(t, o));
      && k in before.tasks
      && AllContents(t, o) == before.(tasks := before.tasks[k :=
           Value(fields, before.tasks[k].assignees, before.tasks[k].metadata + more)])
  {
    ghost var before := AllContents(t, o);
    Change(t.tasks, k, fields, more, o.tasks);
    ghost var was := before.tasks[k];
    ContentsAre(t, o, before.(tasks := before.tasks[k := Value(fields, was.assignees, was.metadata + more)]));
  }

  method EnlistOnIssue(t: Tables, ghost o: Owned, k: int, name: string, fields: Issue)
    requires Owns(t, o) && k in t.issues
    modifies t.issues[k], t.issues[k].assignees
    ensures var before := old(AllContents(t, o));
      && k in before.issues
      && AllContents(t, o) == before.(issues := before.issues[k :=
           Value(fields, before.issues[k].assignees + [name], before.issues[k].metadata)])
  {
    ghost var before := AllContents(t, o);
    assert t.issues[k] !in o.agents && t.issues[k].assignees !in o.agents;
    assert t.issues[k] !in o.tasks && t.issues[k].assignees !in o.tasks;
    Enlist(t.issues, k, name, fields, o.issues);
    ghost var was := before.issues[k];
    ContentsAre(t, o, before.(issues := before.issues[k := Value(fields, was.assignees + [name], was.metadata)]));
  }

  datatype Snapshot = Snapshot(id: string, tables: Tables)

  /** The objects of all these snapshots are in this set. */
  ghost predicate AllHeld(snapshots: seq<Snapshot>, frozen: set<object>) {
    forall s :: s in snapshots ==> Holds(s.tables, frozen)
  }

  lemma AllHeldMore(snapshots: seq<Snapshot>, frozen: set<object>, s: Snapshot, made: set<object>)
    requires AllHeld(snapshots, frozen) && Holds(s.tables, made)
    ensures AllHeld(snapshots + [s], frozen + made)
  {
  }
}
