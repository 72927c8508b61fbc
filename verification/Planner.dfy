/**
 * The dependency planner: tasks, typed dependency edges, Kahn's topological sort over the blocking
 * edges, and the grouping of the sorted tasks into phases.
 */
module Planner {
  import opened Common

  type TaskId = string

  datatype DependencyType = Blocking | Parallel | Sequential | Weak

  datatype Task = Task(id: TaskId, title: string, description: string, estimatedTime: real, complexity: string)

  datatype Dependency = Dependency(fromTask: TaskId, toTask: TaskId, kind: DependencyType, reason: string)

  datatype TaskPhase = TaskPhase(
    phaseNumber: nat, tasks: seq<Task>, estimatedDuration: real, canRunInParallel: bool, blockers: seq<TaskId>)

  // ------------------------------------------------------------------ graph vocabulary

  predicate IsEdge(d: Dependency, a: TaskId, b: TaskId) {
    d.kind.Blocking? && d.fromTask == a && d.toTask == b
  }

  /** Some blocking edge says that `a` must be complete before `b` starts. */
  ghost predicate Blocks(deps: seq<Dependency>, a: TaskId, b: TaskId) {
    exists i :: 0 <= i < |deps| && IsEdge(deps[i], a, b)
  }

  ghost predicate Walk(deps: seq<Dependency>, p: seq<TaskId>) {
    |p| > 0 && forall i :: 0 <= i < |p| - 1 ==> Blocks(deps, p[i], p[i + 1])
  }

  ghost predicate Repeats(p: seq<TaskId>) {
    exists i, j :: 0 <= i < j < |p| && p[i] == p[j]
  }

  /** A closed walk of at least one blocking edge; a self-loop is one. */
  ghost predicate IsCycle(deps: seq<Dependency>, p: seq<TaskId>) {
    Walk(deps, p) && |p| >= 2 && p[0] == p[|p| - 1]
  }

  ghost predicate HasCycle(deps: seq<Dependency>) {
    exists p :: IsCycle(deps, p)
  }

  /** `t` is on a cycle or downstream of one: some walk into `t` visits a task twice. */
  ghost predicate BehindCycle(deps: seq<Dependency>, t: TaskId) {
    exists p :: Walk(deps, p) && p[|p| - 1] == t && Repeats(p)
  }

  ghost predicate BlockersFirst(deps: seq<Dependency>, order: seq<TaskId>) {
    forall k, a :: 0 <= k < |order| && Blocks(deps, a, order[k]) ==> a in order[..k]
  }

  ghost predicate EdgesWithin(deps: seq<Dependency>, ids: seq<TaskId>) {
    forall a, b :: Blocks(deps, a, b) ==> a in ids && b in ids
  }

  predicate Unblocked(deps: seq<Dependency>, t: TaskId) {
    BlockersOf(deps, t) == []
  }

  /** The key whose lookup fails first while the adjacency lists are built, if any. */
  function MissingKey(deps: seq<Dependency>, ids: set<TaskId>): Option<TaskId> {
    if deps == [] then None
    else
      var d := deps[|deps| - 1];
      var earlier := MissingKey(deps[..|deps| - 1], ids);
      if earlier.Some? then earlier
      else if !d.kind.Blocking? then None
      else if d.fromTask !in ids then Some(d.fromTask)
      else if d.toTask !in ids then Some(d.toTask)
      else None
  }

  /** The tasks without a blocker, in insertion order. */
  function Sources(ids: seq<TaskId>, deps: seq<Dependency>): (r: seq<TaskId>)
    ensures forall x :: x in r <==> x in ids && EdgesInto(deps, {}, x) == 0
  {
    if ids == [] then []
    else
      var last := ids[|ids| - 1];
      Sources(ids[..|ids| - 1], deps) + (if EdgesInto(deps, {}, last) == 0 then [last] else [])
  }

  /**
   * What a topological sort promises: no repeats, blockers first, and exactly those tasks that no
   * cycle holds back; the tasks without blockers come first, in insertion order.
   */
  ghost predicate Sorted(ids: seq<TaskId>, deps: seq<Dependency>, order: seq<TaskId>) {
    && NoDuplicates(order)
    && BlockersFirst(deps, order)
    && (forall t :: t in order <==> t in ids && !BehindCycle(deps, t))
    && Sources(ids, deps) <= order
  }

  // ------------------------------------------------------------------ degrees and adjacency

  /** Number of blocking edges into `v` whose origin is not in `done`, with multiplicity. */
  function EdgesInto(deps: seq<Dependency>, done: set<TaskId>, v: TaskId): nat {
    if deps == [] then 0
    else
      var d := deps[|deps| - 1];
      EdgesInto(deps[..|deps| - 1], done, v)
      + (if d.kind.Blocking? && d.toTask == v && d.fromTask !in done then 1 else 0)
  }

  function Successors(deps: seq<Dependency>, u: TaskId): seq<TaskId> {
    if deps == [] then []
    else
      var d := deps[|deps| - 1];
      Successors(deps[..|deps| - 1], u) + (if d.kind.Blocking? && d.fromTask == u then [d.toTask] else [])
  }

  /** Finishing `u` discharges exactly the edges in its adjacency list. */
  lemma {:induction false} Discharge(deps: seq<Dependency>, done: set<TaskId>, u: TaskId, v: TaskId)
    requires u !in done
    ensures EdgesInto(deps, done, v) == EdgesInto(deps, done + {u}, v) + multiset(Successors(deps, u))[v]
  {
    if deps != [] {
      Discharge(deps[..|deps| - 1], done, u, v);
    }
  }

  lemma {:induction false} NoEdgesLeft(deps: seq<Dependency>, done: set<TaskId>, v: TaskId)
    ensures EdgesInto(deps, done, v) == 0 <==> forall a :: Blocks(deps, a, v) ==> a in done
  {
    if deps != [] {
      var n := |deps| - 1;
      var rest := deps[..n];
      NoEdgesLeft(rest, done, v);
      forall a ensures Blocks(deps, a, v) <==> Blocks(rest, a, v) || IsEdge(deps[n], a, v) {
        if Blocks(rest, a, v) {
          var i :| 0 <= i < |rest| && IsEdge(rest[i], a, v);
          assert IsEdge(deps[i], a, v);
        }
        if Blocks(deps, a, v) {
          var i :| 0 <= i < |deps| && IsEdge(deps[i], a, v);
          assert i < n ==> IsEdge(rest[i], a, v);
        }
      }
    }
  }

  lemma {:induction false} SuccessorsAreBlocked(deps: seq<Dependency>, u: TaskId)
    ensures forall v :: v in Successors(deps, u) ==> Blocks(deps, u, v)
  {
    if deps != [] {
      var n := |deps| - 1;
      SuccessorsAreBlocked(deps[..n], u);
      forall v | v in Successors(deps, u) ensures Blocks(deps, u, v) {
        if v in Successors(deps[..n], u) {
          var i :| 0 <= i < n && IsEdge(deps[..n][i], u, v);
          assert IsEdge(deps[i], u, v);
        } else {
          assert IsEdge(deps[n], u, v);
        }
      }
    }
  }

  ghost predicate Adjacency(deps: seq<Dependency>, keys: set<TaskId>, graph: map<TaskId, seq<TaskId>>,
                            inDegree: map<TaskId, nat>)
  {
    && graph.Keys == keys && inDegree.Keys == keys
    && (forall u :: u in graph ==> graph[u] == Successors(deps, u))
    && (forall v :: v in inDegree ==> inDegree[v] == EdgesInto(deps, {}, v))
  }

  lemma AdjacencyStep(deps: seq<Dependency>, keys: set<TaskId>, graph: map<TaskId, seq<TaskId>>,
                      inDegree: map<TaskId, nat>, d: Dependency)
    requires Adjacency(deps, keys, graph, inDegree)
    requires d.kind.Blocking? && d.fromTask in keys && d.toTask in keys
    ensures Adjacency(deps + [d], keys, graph[d.fromTask := graph[d.fromTask] + [d.toTask]],
                      inDegree[d.toTask := inDegree[d.toTask] + 1])
  {
    assert (deps + [d])[..|deps|] == deps;
  }

  /** The sort fails with a KeyError exactly when a blocking edge leaves the task set. */
  lemma {:induction false} MissingKeyMeaning(deps: seq<Dependency>, ids: seq<TaskId>)
    ensures MissingKey(deps, Elements(ids)).None? <==> EdgesWithin(deps, ids)
  {
    if deps != [] {
      var n := |deps| - 1;
      var d := deps[n];
      MissingKeyMeaning(deps[..n], ids);
      if EdgesWithin(deps, ids) {
        forall a, b | Blocks(deps[..n], a, b) ensures a in ids && b in ids {
          var i :| 0 <= i < n && IsEdge(deps[..n][i], a, b);
          assert IsEdge(deps[i], a, b);
          assert Blocks(deps, a, b);
        }
        assert d.kind.Blocking? ==> IsEdge(d, d.fromTask, d.toTask) && Blocks(deps, d.fromTask, d.toTask);
      }
      if MissingKey(deps, Elements(ids)).None? {
        forall a, b | Blocks(deps, a, b) ensures a in ids && b in ids {
          var i :| 0 <= i < |deps| && IsEdge(deps[i], a, b);
          if i < n {
            assert IsEdge(deps[..n][i], a, b);
            assert Blocks(deps[..n], a, b);
          }
        }
      }
    }
  }

  // ------------------------------------------------------------------ cycles

  /** A walk into a sorted task stays within the prefix before it and never repeats. */
  lemma {:induction false} SortedWalk(deps: seq<Dependency>, order: seq<TaskId>, p: seq<TaskId>, k: nat)
    requires NoDuplicates(order) && BlockersFirst(deps, order)
    requires k < |order| && Walk(deps, p) && p[|p| - 1] == order[k]
    ensures forall i :: 0 <= i < |p| - 1 ==> p[i] in order[..k]
    ensures !Repeats(p)
    decreases |p|
  {
    var n := |p| - 1;
    if n > 0 {
      var q := p[..n];
      assert Blocks(deps, p[n - 1], p[n - 1 + 1]);
      var m :| 0 <= m < k && order[m] == p[n - 1];
      SortedWalk(deps, order, q, m);
      forall i | 0 <= i < n ensures p[i] in order[..k] {
        assert i < n - 1 ==> q[i] in order[..m];
      }
      forall i, j | 0 <= i < j < |p| ensures p[i] != p[j] {
        assert j < n ==> q[i] != q[j];
      }
    }
  }

  /** `v` has a blocker inside `stuck`. */
  ghost predicate BlockedWithin(deps: seq<Dependency>, stuck: set<TaskId>, v: TaskId) {
    exists a :: a in stuck && Blocks(deps, a, v)
  }

  ghost predicate SelfBlocking(deps: seq<Dependency>, stuck: set<TaskId>) {
    forall v {:trigger BlockedWithin(deps, stuck, v)} :: v in stuck ==> BlockedWithin(deps, stuck, v)
  }

  /** Inside a set whose every task has a blocker in the set, walks can be extended backwards forever. */
  lemma {:induction false} BackwardWalk(deps: seq<Dependency>, stuck: set<TaskId>, t: TaskId, n: nat)
    returns (p: seq<TaskId>)
    requires t in stuck && SelfBlocking(deps, stuck)
    ensures |p| == n + 1 && Walk(deps, p) && p[n] == t
    ensures forall i :: 0 <= i < |p| ==> p[i] in stuck
    decreases n
  {
    if n == 0 {
      p := [t];
    } else {
      assert BlockedWithin(deps, stuck, t);
      var a :| a in stuck && Blocks(deps, a, t);
      var q := BackwardWalk(deps, stuck, a, n - 1);
      p := q + [t];
      forall i | 0 <= i < |p| - 1 ensures Blocks(deps, p[i], p[i + 1]) {
        assert i < n - 1 ==> Blocks(deps, q[i], q[i + 1]);
      }
    }
  }

  /** Every task of a set that blocks itself is behind a cycle: a long enough walk must repeat. */
  lemma StuckTasksAreBehindCycle(deps: seq<Dependency>, stuck: set<TaskId>, t: TaskId)
    requires t in stuck && SelfBlocking(deps, stuck)
    ensures BehindCycle(deps, t)
  {
    var p := BackwardWalk(deps, stuck, t, |stuck|);
    if !Repeats(p) {
      Pigeonhole(p, stuck);
    }
  }

  lemma RepeatGivesCycle(deps: seq<Dependency>, p: seq<TaskId>)
    requires Walk(deps, p) && Repeats(p)
    ensures HasCycle(deps)
  {
    var i, j :| 0 <= i < j < |p| && p[i] == p[j];
    var c := p[i..j + 1];
    forall k | 0 <= k < |c| - 1 ensures Blocks(deps, c[k], c[k + 1]) {
      assert Blocks(deps, p[i + k], p[i + k + 1]);
    }
    assert IsCycle(deps, c);
  }

  /** The sort drops a task exactly when the blocking edges contain a cycle. */
  lemma SortCompleteIffAcyclic(ids: seq<TaskId>, deps: seq<Dependency>, order: seq<TaskId>)
    requires NoDuplicates(ids) && EdgesWithin(deps, ids) && Sorted(ids, deps, order)
    ensures |order| == |ids| <==> !HasCycle(deps)
    ensures |order| == |ids| <==> Elements(order) == Elements(ids)
  {
    NoDuplicatesSize(ids);
    NoDuplicatesSize(order);
    assert Elements(order) <= Elements(ids);
    if HasCycle(deps) {
      var p :| IsCycle(deps, p);
      var t := p[|p| - 1];
      assert Repeats(p);
      assert BehindCycle(deps, t);
      assert Blocks(deps, p[|p| - 2], p[|p| - 2 + 1]);
      assert t in Elements(ids) - Elements(order);
      SmallerSet(Elements(order), Elements(ids), t);
    } else {
      forall t | t in ids ensures t in order {
        if BehindCycle(deps, t) {
          var p :| Walk(deps, p) && p[|p| - 1] == t && Repeats(p);
          RepeatGivesCycle(deps, p);
        }
      }
      assert Elements(order) == Elements(ids);
    }
  }

  lemma SmallerSet<T>(small: set<T>, big: set<T>, x: T)
    requires small <= big && x in big - small
    ensures |small| < |big|
  {
    SubsetSize(small, big - {x});
  }

  // ------------------------------------------------------------------ phases

  /** The origins of the blocking edges into `t`, in edge order. */
  function BlockersOf(deps: seq<Dependency>, t: TaskId): seq<TaskId> {
    if deps == [] then []
    else
      var d := deps[|deps| - 1];
      BlockersOf(deps[..|deps| - 1], t) + (if d.kind.Blocking? && d.toTask == t then [d.fromTask] else [])
  }

  lemma {:induction false} BlockersOfMeaning(deps: seq<Dependency>, t: TaskId)
    ensures forall a :: a in BlockersOf(deps, t) <==> Blocks(deps, a, t)
    ensures Unblocked(deps, t) <==> EdgesInto(deps, {}, t) == 0
    ensures Unblocked(deps, t) <==> forall a :: !Blocks(deps, a, t)
  {
    assert BlockersOf(deps, t) != [] ==> BlockersOf(deps, t)[0] in BlockersOf(deps, t);
    if deps != [] {
      var n := |deps| - 1;
      BlockersOfMeaning(deps[..n], t);
      forall a ensures a in BlockersOf(deps, t) <==> Blocks(deps, a, t) {
        if a in BlockersOf(deps[..n], t) {
          var i :| 0 <= i < n && IsEdge(deps[..n][i], a, t);
          assert IsEdge(deps[i], a, t);
        } else if a in BlockersOf(deps, t) {
          assert IsEdge(deps[n], a, t);
        }
        if Blocks(deps, a, t) {
          var i :| 0 <= i < |deps| && IsEdge(deps[i], a, t);
          if i < n {
            assert IsEdge(deps[..n][i], a, t);
            assert Blocks(deps[..n], a, t);
          }
        }
      }
    }
  }

  /** The grouping of an order into phases: a blocked task opens a new group, any other task joins the last one. */
  function Groups(deps: seq<Dependency>, order: seq<TaskId>): (r: seq<seq<TaskId>>)
    ensures order == [] <==> r == []
    ensures forall k :: 0 <= k < |r| ==> r[k] != []
  {
    if order == [] then []
    else
      var t := order[|order| - 1];
      var before := Groups(deps, order[..|order| - 1]);
      if before == [] || !Unblocked(deps, t) then before + [[t]]
      else before[..|before| - 1] + [before[|before| - 1] + [t]]
  }

  lemma {:induction false} GroupsFlatten(deps: seq<Dependency>, order: seq<TaskId>)
    ensures Flatten(Groups(deps, order)) == order
  {
    if order != [] {
      var n := |order| - 1;
      GroupsFlatten(deps, order[..n]);
      GroupFlattens(Groups(deps, order[..n]), order[n]);
      assert order == order[..n] + [order[n]];
    }
  }

  /** Whether it opens a group or joins the last one, a task comes last in the flattened groups. */
  lemma GroupFlattens(before: seq<seq<TaskId>>, t: TaskId)
    ensures Flatten(before + [[t]]) == Flatten(before) + [t]
    ensures before != [] ==>
      Flatten(before[..|before| - 1] + [before[|before| - 1] + [t]]) == Flatten(before) + [t]
  {
    assert (before + [[t]])[..|before|] == before;
    if before != [] {
      var m := |before| - 1;
      var joined := before[..m] + [before[m] + [t]];
      assert joined[..m] == before[..m] && joined[m] == before[m] + [t];
      ConcatAssociates(Flatten(before[..m]), before[m], [t]);
    }
  }

  function Singletons<T>(s: seq<T>): seq<seq<T>> {
    if s == [] then [] else Singletons(s[..|s| - 1]) + [[s[|s| - 1]]]
  }

  lemma BlockedTaskOpensGroup(deps: seq<Dependency>, order: seq<TaskId>, t: TaskId)
    requires !Unblocked(deps, t)
    ensures Groups(deps, order + [t]) == Groups(deps, order) + [[t]]
  {
    assert (order + [t])[..|order|] == order;
  }

  lemma {:induction false} UnblockedGroup(deps: seq<Dependency>, s: seq<TaskId>)
    requires s != [] && forall i :: 0 <= i < |s| ==> Unblocked(deps, s[i])
    ensures Groups(deps, s) == [s]
  {
    var n := |s| - 1;
    assert s == s[..n] + [s[n]];
    if n > 0 {
      UnblockedGroup(deps, s[..n]);
      assert [s[..n]][..0] == [];
      assert Groups(deps, s) == [s[..n] + [s[n]]];
    } else {
      assert s[..n] == [];
      assert Groups(deps, s) == [[s[n]]];
    }
  }

  /**
   * Only the first phase can hold several tasks: it is the list of unblocked tasks, and every later
   * phase is a single task, because all the unblocked tasks come first in the sort.
   */
  lemma {:induction false} GroupsShape(deps: seq<Dependency>, sources: seq<TaskId>, blocked: seq<TaskId>)
    requires sources != [] && forall i :: 0 <= i < |sources| ==> Unblocked(deps, sources[i])
    requires forall i :: 0 <= i < |blocked| ==> !Unblocked(deps, blocked[i])
    ensures Groups(deps, sources + blocked) == [sources] + Singletons(blocked)
  {
    if blocked == [] {
      UnblockedGroup(deps, sources);
      assert sources + blocked == sources;
    } else {
      var n := |blocked| - 1;
      var t := blocked[n];
      GroupsShape(deps, sources, blocked[..n]);
      BlockedTaskOpensGroup(deps, sources + blocked[..n], t);
      ConcatLast(sources, blocked);
      ConcatAssociates([sources], Singletons(blocked[..n]), [[t]]);
    }
  }

  /** Every blocker of a task sits in a strictly earlier group than the task. */
  ghost predicate BlockersInEarlierGroups(deps: seq<Dependency>, groups: seq<seq<TaskId>>) {
    groups != [] ==>
      var earlier := groups[..|groups| - 1];
      && BlockersInEarlierGroups(deps, earlier)
      && forall t, a :: t in groups[|groups| - 1] && Blocks(deps, a, t) ==> a in Flatten(earlier)
  }

  lemma PrefixKeepsBlockersFirst(deps: seq<Dependency>, rest: seq<TaskId>, t: TaskId)
    requires BlockersFirst(deps, rest + [t])
    ensures BlockersFirst(deps, rest)
  {
    var order := rest + [t];
    forall k, a | 0 <= k < |rest| && Blocks(deps, a, rest[k]) ensures a in rest[..k] {
      assert order[..k] == rest[..k];
      assert order[k] == rest[k];
    }
  }

  lemma {:induction false} GroupsRespectBlockers(deps: seq<Dependency>, order: seq<TaskId>)
    requires BlockersFirst(deps, order)
    ensures BlockersInEarlierGroups(deps, Groups(deps, order))
  {
    if order != [] {
      var n := |order| - 1;
      var rest, t := order[..n], order[n];
      PrefixStep(order, n);
      PrefixKeepsBlockersFirst(deps, rest, t);
      GroupsRespectBlockers(deps, rest);
      BlockersOfMeaning(deps, t);
      var before := Groups(deps, rest);
      if before == [] || !Unblocked(deps, t) {
        GroupsFlatten(deps, rest);
        assert (before + [[t]])[..|before|] == before;
        forall a | Blocks(deps, a, t) ensures a in rest {
          assert a in order[..n];
        }
      } else {
        var m := |before| - 1;
        assert (before[..m] + [before[m] + [t]])[..m] == before[..m];
      }
    }
  }

  // ------------------------------------------------------------------ durations

  function Duration(tasks: seq<Task>): real {
    if tasks == [] then 0.0 else Duration(tasks[..|tasks| - 1]) + tasks[|tasks| - 1].estimatedTime
  }

  function TotalDuration(phases: seq<TaskPhase>): real {
    if phases == [] then 0.0
    else TotalDuration(phases[..|phases| - 1]) + phases[|phases| - 1].estimatedDuration
  }

  function TasksOf(phases: seq<TaskPhase>): seq<Task> {
    if phases == [] then [] else TasksOf(phases[..|phases| - 1]) + phases[|phases| - 1].tasks
  }

  lemma {:induction false} DurationOfConcat(a: seq<Task>, b: seq<Task>)
    ensures Duration(a + b) == Duration(a) + Duration(b)
  {
    if b == [] {
      assert a + b == a;
    } else {
      var n := |b| - 1;
      DurationOfConcat(a, b[..n]);
      assert (a + b)[..|a + b| - 1] == a + b[..n];
    }
  }

  /** When every phase carries the duration of its own tasks, nothing is lost or counted twice. */
  lemma {:induction false} DurationsAddUp(phases: seq<TaskPhase>)
    requires forall i :: 0 <= i < |phases| ==> phases[i].estimatedDuration == Duration(phases[i].tasks)
    ensures TotalDuration(phases) == Duration(TasksOf(phases))
  {
    if phases != [] {
      var n := |phases| - 1;
      DurationsAddUp(phases[..n]);
      DurationOfConcat(TasksOf(phases[..n]), phases[n].tasks);
    }
  }

  function Lookup(tasks: map<TaskId, Task>, ids: seq<TaskId>): (r: seq<Task>)
    requires forall t :: t in ids ==> t in tasks
    ensures |r| == |ids| && forall i :: 0 <= i < |ids| ==> r[i] == tasks[ids[i]]
  {
    seq(|ids|, i requires 0 <= i < |ids| => tasks[ids[i]])
  }

  // ------------------------------------------------------------------ phases cut from an order

  function Ids(tasks: seq<Task>): (r: seq<TaskId>)
    ensures |r| == |tasks| && forall i :: 0 <= i < |tasks| ==> r[i] == tasks[i].id
  {
    seq(|tasks|, i requires 0 <= i < |tasks| => tasks[i].id)
  }

  function GroupsOf(phases: seq<TaskPhase>): (r: seq<seq<TaskId>>)
    ensures |r| == |phases| && forall i :: 0 <= i < |phases| ==> r[i] == Ids(phases[i].tasks)
  {
    seq(|phases|, i requires 0 <= i < |phases| => Ids(phases[i].tasks))
  }

  ghost predicate PlainPhase(tasks: map<TaskId, Task>, phase: TaskPhase, number: nat) {
    && phase.phaseNumber == number
    && phase.canRunInParallel
    && phase.estimatedDuration == Duration(phase.tasks)
    && forall t :: t in phase.tasks ==> t.id in tasks && tasks[t.id] == t
  }

  /**
   * The phases are the groups of `order`, numbered from one, each with the duration of its tasks. A
   * phase that is not the last records the blockers of the task that opens the next phase; the last
   * one records all the blocked tasks.
   */
  ghost predicate PhasesCutFrom(tasks: map<TaskId, Task>, deps: seq<Dependency>, order: seq<TaskId>,
                                phases: seq<TaskPhase>) {
    && GroupsOf(phases) == Groups(deps, order)
    && (forall k :: 0 <= k < |phases| ==> PlainPhase(tasks, phases[k], k + 1))
    && (forall k :: 0 <= k < |phases| - 1 ==> phases[k].blockers == BlockersOf(deps, Groups(deps, order)[k + 1][0]))
    && (phases != [] ==> Elements(phases[|phases| - 1].blockers) == set t | t in order && !Unblocked(deps, t))
  }

  lemma IdsAppend(tasks: seq<Task>, t: Task)
    ensures Ids(tasks + [t]) == Ids(tasks) + [t.id]
  {
  }

  lemma GroupsOfAppend(phases: seq<TaskPhase>, p: TaskPhase)
    ensures GroupsOf(phases + [p]) == GroupsOf(phases) + [Ids(p.tasks)]
  {
  }

  /** The phase loop after the tasks `done`: finished phases, the open phase, and the blocked tasks so far. */
  ghost predicate CutState(tasks: map<TaskId, Task>, deps: seq<Dependency>, done: seq<TaskId>,
                           phases: seq<TaskPhase>, current: seq<Task>, blocked: set<TaskId>)
  {
    && (current == [] <==> done == [])
    && Groups(deps, done) == GroupsOf(phases) + (if current == [] then [] else [Ids(current)])
    && (forall k :: 0 <= k < |phases| ==> PlainPhase(tasks, phases[k], k + 1))
    && (forall t :: t in current ==> t.id in tasks && tasks[t.id] == t)
    && (forall k :: 0 <= k < |phases| ==> phases[k].blockers == BlockersOf(deps, Groups(deps, done)[k + 1][0]))
    && blocked == set t | t in done && !Unblocked(deps, t)
  }

  lemma JoinStep(tasks: map<TaskId, Task>, deps: seq<Dependency>, done: seq<TaskId>, phases: seq<TaskPhase>,
                 current: seq<Task>, blocked: set<TaskId>, t: TaskId)
    requires CutState(tasks, deps, done, phases, current, blocked)
    requires current == [] || Unblocked(deps, t)
    requires t in tasks && tasks[t].id == t
    ensures CutState(tasks, deps, done + [t], phases, current + [tasks[t]],
                     if Unblocked(deps, t) then blocked else blocked + {t})
  {
    IdsAppend(current, tasks[t]);
    assert (done + [t])[..|done|] == done;
    var before, after := Groups(deps, done), Groups(deps, done + [t]);
    if current == [] {
      assert before == [];
      assert after == [[t]];
    } else {
      assert before[..|phases|] == GroupsOf(phases);
      assert before[|phases|] == Ids(current);
      assert after == GroupsOf(phases) + [Ids(current) + [t]];
      assert Ids(current) != [];
      assert (Ids(current) + [t])[0] == Ids(current)[0];
    }
  }

  lemma OpenStep(tasks: map<TaskId, Task>, deps: seq<Dependency>, done: seq<TaskId>, phases: seq<TaskPhase>,
                 current: seq<Task>, blocked: set<TaskId>, t: TaskId)
    requires CutState(tasks, deps, done, phases, current, blocked)
    requires current != [] && !Unblocked(deps, t)
    requires t in tasks && tasks[t].id == t
    ensures var p := TaskPhase(|phases| + 1, current, Duration(current), true, BlockersOf(deps, t));
      CutState(tasks, deps, done + [t], phases + [p], [tasks[t]], blocked + {t})
  {
    var p := TaskPhase(|phases| + 1, current, Duration(current), true, BlockersOf(deps, t));
    var more, before := phases + [p], Groups(deps, done);
    GroupsOfAppend(phases, p);
    BlockedTaskOpensGroup(deps, done, t);
    assert Ids([tasks[t]]) == [t];
    assert before == GroupsOf(more);
    var after := before + [[t]];
    forall k | 0 <= k < |more| ensures more[k].blockers == BlockersOf(deps, after[k + 1][0]) {
      if k < |phases| {
        assert more[k] == phases[k] && after[k + 1] == before[k + 1];
      }
    }
  }

  lemma LastPhase(tasks: map<TaskId, Task>, deps: seq<Dependency>, order: seq<TaskId>, phases: seq<TaskPhase>,
                  current: seq<Task>, blocked: set<TaskId>, last: TaskPhase)
    requires CutState(tasks, deps, order, phases, current, blocked) && current != []
    requires PlainPhase(tasks, last, |phases| + 1) && last.tasks == current && Elements(last.blockers) == blocked
    ensures PhasesCutFrom(tasks, deps, order, phases + [last])
  {
    GroupsOfAppend(phases, last);
  }

  /** Taking an element out of the middle takes its time out of the total. */
  lemma DurationRemove(a: seq<Task>, x: Task, b: seq<Task>)
    ensures Duration(a + [x] + b) == Duration(a + b) + x.estimatedTime
  {
    DurationOfConcat(a + [x], b);
    DurationOfConcat(a, b);
    assert (a + [x])[..|a|] == a;
  }

  lemma {:induction false} DurationOfPermutation(tasks: map<TaskId, Task>, a: seq<TaskId>, b: seq<TaskId>)
    requires NoDuplicates(a) && NoDuplicates(b) && Elements(a) == Elements(b)
    requires forall t :: t in a ==> t in tasks
    requires forall t :: t in b ==> t in tasks
    ensures Duration(Lookup(tasks, a)) == Duration(Lookup(tasks, b))
  {
    if a == [] {
      NoDuplicatesSize(a);
      NoDuplicatesSize(b);
    } else {
      var n := |a| - 1;
      var x := a[n];
      assert x in Elements(b);
      var i :| 0 <= i < |b| && b[i] == x;
      var l, r := b[..i], b[i + 1..];
      RemoveFromBoth(a, b, i);
      DurationOfPermutation(tasks, a[..n], l + r);
      assert b == l + ([x] + r);
      LookupRemove(tasks, l, x, r);
      LookupLast(tasks, a);
    }
  }

  lemma LookupLast(tasks: map<TaskId, Task>, a: seq<TaskId>)
    requires a != [] && forall t :: t in a ==> t in tasks
    ensures Duration(Lookup(tasks, a)) == Duration(Lookup(tasks, a[..|a| - 1])) + tasks[a[|a| - 1]].estimatedTime
  {
    assert Lookup(tasks, a)[..|a| - 1] == Lookup(tasks, a[..|a| - 1]);
  }

  lemma LookupRemove(tasks: map<TaskId, Task>, l: seq<TaskId>, x: TaskId, r: seq<TaskId>)
    requires forall t :: t in l + ([x] + r) ==> t in tasks
    ensures x in tasks && forall t :: t in l + r ==> t in tasks
    ensures Duration(Lookup(tasks, l + ([x] + r))) == Duration(Lookup(tasks, l + r)) + tasks[x].estimatedTime
  {
    assert x in l + ([x] + r);
    assert forall t :: t in l + ([x] + r) <==> t in l || t == x || t in r;
    var before, after := Lookup(tasks, l), Lookup(tasks, r);
    assert Lookup(tasks, l + ([x] + r)) == before + [tasks[x]] + after;
    assert Lookup(tasks, l + r) == before + after;
    DurationRemove(before, tasks[x], after);
  }

  lemma RemoveFromBoth(a: seq<TaskId>, b: seq<TaskId>, i: nat)
    requires NoDuplicates(a) && NoDuplicates(b) && Elements(a) == Elements(b)
    requires a != [] && i < |b| && b[i] == a[|a| - 1]
    ensures var rest := b[..i] + b[i + 1..];
      NoDuplicates(rest) && Elements(a[..|a| - 1]) == Elements(rest) && forall t :: t in rest ==> t in b
  {
    var n := |a| - 1;
    var rest := b[..i] + b[i + 1..];
    forall k | 0 <= k < |rest| ensures rest[k] == b[if k < i then k else k + 1] {
    }
    assert a == a[..n] + [a[n]] && b == b[..i] + [b[i]] + b[i + 1..];
    forall t ensures t in Elements(a[..n]) <==> t in Elements(rest) {
      assert t in Elements(a) <==> t in Elements(b);
    }
  }

  lemma IdsConcat(a: seq<Task>, b: seq<Task>)
    ensures Ids(a + b) == Ids(a) + Ids(b)
  {
  }

  lemma {:induction false} TasksOfPhases(tasks: map<TaskId, Task>, phases: seq<TaskPhase>)
    requires forall k :: 0 <= k < |phases| ==> PlainPhase(tasks, phases[k], k + 1)
    ensures Ids(TasksOf(phases)) == Flatten(GroupsOf(phases))
    ensures forall t :: t in TasksOf(phases) ==> t.id in tasks && tasks[t.id] == t
  {
    if phases != [] {
      var n := |phases| - 1;
      TasksOfPhases(tasks, phases[..n]);
      assert phases == phases[..n] + [phases[n]];
      GroupsOfAppend(phases[..n], phases[n]);
      IdsConcat(TasksOf(phases[..n]), phases[n].tasks);
      assert PlainPhase(tasks, phases[n], n + 1);
      assert GroupsOf(phases)[..n] == GroupsOf(phases[..n]);
    }
  }

  lemma SourcesPrefix(ids: seq<TaskId>, deps: seq<Dependency>, order: seq<TaskId>)
    requires Sorted(ids, deps, order)
    ensures var n := |Sources(ids, deps)|;
      && (forall i :: 0 <= i < n ==> Unblocked(deps, order[i]))
      && (forall i :: n <= i < |order| ==> !Unblocked(deps, order[i]))
      && (order != [] ==> n > 0)
  {
    var sources := Sources(ids, deps);
    forall i | 0 <= i < |order| ensures i < |sources| <==> Unblocked(deps, order[i]) {
      BlockersOfMeaning(deps, order[i]);
      assert order[i] in ids;
      assert order[i] in sources <==> Unblocked(deps, order[i]);
      assert i < |sources| ==> order[i] == sources[i];
      assert forall j :: 0 <= j < |sources| ==> sources[j] == order[j];
    }
    if order != [] {
      BlockersOfMeaning(deps, order[0]);
      assert forall a :: Blocks(deps, a, order[0]) ==> a in order[..0];
      assert Unblocked(deps, order[0]);
    }
  }

  /**
   * The phases of a sorted graph: together they are the order; every blocker of a task sits in a
   * strictly earlier phase; the first phase is the list of all unblocked tasks and every later phase
   * holds a single task; and on an acyclic graph the durations add up to the time of all tasks.
   */
  lemma PhasesAreASchedule(tasks: map<TaskId, Task>, ids: seq<TaskId>, deps: seq<Dependency>, order: seq<TaskId>,
                           phases: seq<TaskPhase>)
    requires NoDuplicates(ids) && Elements(ids) == tasks.Keys && EdgesWithin(deps, ids)
    requires Sorted(ids, deps, order) && PhasesCutFrom(tasks, deps, order, phases)
    ensures Ids(TasksOf(phases)) == order
    ensures BlockersInEarlierGroups(deps, GroupsOf(phases))
    ensures order != [] ==> GroupsOf(phases) == [Sources(ids, deps)] + Singletons(order[|Sources(ids, deps)|..])
    ensures forall t :: t in order ==> t in tasks
    ensures TotalDuration(phases) == Duration(Lookup(tasks, order))
    ensures forall t :: t in ids ==> t in tasks
    ensures !HasCycle(deps) ==> TotalDuration(phases) == Duration(Lookup(tasks, ids))
  {
    forall t | t in ids ensures t in tasks {
      assert t in Elements(ids);
    }
    GroupsFlatten(deps, order);
    GroupsRespectBlockers(deps, order);
    TasksOfPhases(tasks, phases);
    TasksByIds(tasks, TasksOf(phases), order);
    DurationsAddUp(phases);
    PhaseSizes(ids, deps, order);
    if !HasCycle(deps) {
      SortCompleteIffAcyclic(ids, deps, order);
      DurationOfPermutation(tasks, order, ids);
    }
  }

  /**
   * What one phase says: its number, from one; that it can run in parallel; and its blockers. Those are what blocks the
   * first task of the next phase, or in the last phase all tasks that anything blocks.
   */
  lemma PhaseMeaning(tasks: map<TaskId, Task>, deps: seq<Dependency>, order: seq<TaskId>, phases: seq<TaskPhase>,
                     k: nat)
    requires PhasesCutFrom(tasks, deps, order, phases) && k < |phases|
    ensures phases[k].phaseNumber == k + 1 && phases[k].canRunInParallel && phases[k].tasks != []
    ensures k + 1 < |phases| ==>
      && phases[k + 1].tasks != []
      && forall a :: a in phases[k].blockers <==> Blocks(deps, a, phases[k + 1].tasks[0].id)
    ensures k + 1 == |phases| ==>
      forall t :: t in phases[k].blockers <==> t in order && exists a :: Blocks(deps, a, t)
  {
    var groups := GroupsOf(phases);
    assert groups[k] == Ids(phases[k].tasks) && groups[k] != [];
    assert PlainPhase(tasks, phases[k], k + 1);
    if k + 1 < |phases| {
      assert groups[k + 1] == Ids(phases[k + 1].tasks) && groups[k + 1] != [];
      BlockersOfMeaning(deps, phases[k + 1].tasks[0].id);
    } else {
      forall t ensures t in phases[k].blockers <==> t in order && exists a :: Blocks(deps, a, t) {
        BlockersOfMeaning(deps, t);
        assert t in phases[k].blockers <==> t in Elements(phases[k].blockers);
        assert BlockersOf(deps, t) != [] ==> BlockersOf(deps, t)[0] in BlockersOf(deps, t);
      }
    }
  }

  lemma TasksByIds(tasks: map<TaskId, Task>, list: seq<Task>, order: seq<TaskId>)
    requires Ids(list) == order
    requires forall t :: t in list ==> t.id in tasks && tasks[t.id] == t
    ensures forall t :: t in order ==> t in tasks
    ensures list == Lookup(tasks, order)
  {
    forall i | 0 <= i < |order| ensures order[i] in tasks && list[i] == tasks[order[i]] {
      assert list[i] in list && order[i] == list[i].id;
    }
  }

  lemma {:induction false} PhaseSizes(ids: seq<TaskId>, deps: seq<Dependency>, order: seq<TaskId>)
    requires Sorted(ids, deps, order)
    ensures var sources := Sources(ids, deps);
      order != [] ==> Groups(deps, order) == [sources] + Singletons(order[|sources|..])
  {
    if order != [] {
      var sources := Sources(ids, deps);
      SourcesPrefix(ids, deps, order);
      var blocked := order[|sources|..];
      assert order == sources + blocked;
      forall i | 0 <= i < |blocked| ensures !Unblocked(deps, blocked[i]) {
        assert blocked[i] == order[|sources| + i];
      }
      GroupsShape(deps, sources, blocked);
    }
  }

  // ------------------------------------------------------------------ the mutable graph

  class DependencyGraph {
    var taskIds: seq<TaskId>          // insertion order of the task dictionary
    var tasks: map<TaskId, Task>
    var dependencies: seq<Dependency>
    var hasCycles: bool
    var cycleDetails: string

    ghost predicate Valid()
      reads this
    {
      && NoDuplicates(taskIds)
      && Elements(taskIds) == tasks.Keys
      && (forall t :: t in tasks ==> tasks[t].id == t)
      && (hasCycles ==> HasCycle(dependencies))
    }

    constructor ()
      ensures Valid() && taskIds == [] && tasks == map[] && dependencies == [] && !hasCycles
    {
      taskIds, tasks, dependencies := [], map[], [];
      hasCycles, cycleDetails := false, "";
    }

    /** Re-adding an id replaces the task but keeps its place, as a Python dictionary does. */
    method AddTask(task: Task)
      requires Valid()
      modifies this`taskIds, this`tasks
      ensures Valid()
      ensures tasks == old(tasks)[task.id := task]
      ensures taskIds == if task.id in old(tasks) then old(taskIds) else old(taskIds) + [task.id]
    {
      if task.id !in tasks {
        assert task.id !in taskIds by { assert task.id !in Elements(taskIds); }
        taskIds := taskIds + [task.id];
      }
      tasks := tasks[task.id := task];
      assert Elements(taskIds) == tasks.Keys;
    }

    /** Adding edges never destroys a cycle, so the sticky cycle flag stays truthful. */
    method AddDependency(d: Dependency)
      requires Valid()
      modifies this`dependencies
      ensures Valid()
      ensures dependencies == old(dependencies) + [d]
    {
      ghost var before := dependencies;
      dependencies := dependencies + [d];
      if hasCycles {
        MoreEdgesKeepCycles(before, d);
      }
    }

    /** The two loops at the top of the sort: adjacency lists and in-degrees of the blocking edges. */
    method BuildAdjacency() returns (r: Result<(map<TaskId, seq<TaskId>>, map<TaskId, nat>), TaskId>)
      requires Valid()
      ensures r.Failure? <==> MissingKey(dependencies, tasks.Keys).Some?
      ensures r.Failure? ==> MissingKey(dependencies, tasks.Keys) == Some(r.error)
      ensures r.Success? ==> Adjacency(dependencies, tasks.Keys, r.value.0, r.value.1)
    {
      var graph: map<TaskId, seq<TaskId>> := map t | t in tasks :: [];
      var inDegree: map<TaskId, nat> := map t | t in tasks :: 0;
      for i := 0 to |dependencies|
        invariant MissingKey(dependencies[..i], tasks.Keys) == None
        invariant Adjacency(dependencies[..i], tasks.Keys, graph, inDegree)
      {
        var d := dependencies[i];
        PrefixStep(dependencies, i);
        if d.kind.Blocking? {
          if d.fromTask !in graph {
            MissingKeyPersists(dependencies, tasks.Keys, i + 1);
            return Failure(d.fromTask);
          }
          if d.toTask !in inDegree {
            MissingKeyPersists(dependencies, tasks.Keys, i + 1);
            return Failure(d.toTask);
          }
          AdjacencyStep(dependencies[..i], tasks.Keys, graph, inDegree, d);
          graph := graph[d.fromTask := graph[d.fromTask] + [d.toTask]];
          inDegree := inDegree[d.toTask := inDegree[d.toTask] + 1];
        }
      }
      assert dependencies[..|dependencies|] == dependencies;
      return Success((graph, inDegree));
    }

    /** The initial work list: every task whose in-degree is zero, in insertion order. */
    method InitialQueue(inDegree: map<TaskId, nat>) returns (queue: seq<TaskId>)
      requires Valid() && inDegree.Keys == tasks.Keys
      requires forall v :: v in inDegree ==> inDegree[v] == EdgesInto(dependencies, {}, v)
      ensures queue == Sources(taskIds, dependencies)
      ensures NoDuplicates(queue)
    {
      queue := [];
      for i := 0 to |taskIds|
        invariant queue == Sources(taskIds[..i], dependencies)
        invariant NoDuplicates(queue)
      {
        assert taskIds[..i + 1][..i] == taskIds[..i];
        assert taskIds[i] in Elements(taskIds);
        if inDegree[taskIds[i]] == 0 {
          assert taskIds[i] !in taskIds[..i];
          queue := queue + [taskIds[i]];
        }
      }
      assert taskIds[..|taskIds|] == taskIds;
    }

    /** The inner loop: one sorted task's dependents lose an edge each, and the freed ones join the queue. */
    method CountDown(ghost sorted: seq<TaskId>, ghost queue: seq<TaskId>, degrees: map<TaskId, nat>,
                     dependents: seq<TaskId>)
      returns (inDegree: map<TaskId, nat>, freed: seq<TaskId>)
      requires KahnState(dependencies, taskIds, sorted, queue, degrees, dependents)
      ensures KahnState(dependencies, taskIds, sorted, queue + freed, inDegree, [])
    {
      inDegree, freed := degrees, [];
      assert queue + [] == queue && dependents[0..] == dependents;
      for j := 0 to |dependents|
        invariant KahnState(dependencies, taskIds, sorted, queue + freed, inDegree, dependents[j..])
      {
        var dependent := dependents[j];
        HeadAndRest(dependents, j);
        DecrementStep(dependencies, taskIds, sorted, queue + freed, inDegree, dependent, dependents[j + 1..]);
        ConcatAssociates(queue, freed, [dependent]);
        inDegree := inDegree[dependent := inDegree[dependent] - 1];
        if inDegree[dependent] == 0 {
          freed := freed + [dependent];
        }
      }
    }

    /** The main loop: take the head of the work list, append it to the order, count its dependents down. */
    method Drain(graph: map<TaskId, seq<TaskId>>, degrees: map<TaskId, nat>, initial: seq<TaskId>)
      returns (sorted: seq<TaskId>)
      requires Valid() && EdgesWithin(dependencies, taskIds)
      requires Adjacency(dependencies, tasks.Keys, graph, degrees)
      requires initial == Sources(taskIds, dependencies) && NoDuplicates(initial)
      ensures Sorted(taskIds, dependencies, sorted)
      ensures |sorted| == |tasks| <==> !HasCycle(dependencies)
    {
      var queue, inDegree := initial, degrees;
      sorted := [];
      KahnInit(dependencies, taskIds, inDegree);
      while queue != []
        invariant KahnState(dependencies, taskIds, sorted, queue, inDegree, [])
        invariant BlockersFirst(dependencies, sorted)
        invariant initial <= sorted + queue
        decreases |taskIds| - |sorted|
      {
        var task, rest := queue[0], queue[1..];
        assert queue == [task] + rest;
        PopStep(dependencies, taskIds, sorted, task, rest, inDegree);
        var freed;
        inDegree, freed := CountDown(sorted + [task], rest, inDegree, graph[task]);
        Reassociate(sorted, task, rest, freed);
        sorted, queue := sorted + [task], rest + freed;
      }
      KahnFinal(dependencies, taskIds, sorted, inDegree);
      NoDuplicatesSize(taskIds);
    }

    /** Adjacency lists, initial work list and main loop, before the cycle flag is touched. */
    method KahnOrder() returns (r: Result<seq<TaskId>, TaskId>)
      requires Valid()
      ensures r.Failure? <==> !EdgesWithin(dependencies, taskIds)
      ensures r.Failure? ==> MissingKey(dependencies, tasks.Keys) == Some(r.error)
      ensures r.Success? ==> Sorted(taskIds, dependencies, r.value)
      ensures r.Success? ==> (|r.value| == |tasks| <==> !HasCycle(dependencies))
    {
      MissingKeyMeaning(dependencies, taskIds);
      var built := BuildAdjacency();
      if built.Failure? {
        return Failure(built.error);
      }
      var queue := InitialQueue(built.value.1);
      var sorted := Drain(built.value.0, built.value.1, queue);
      return Success(sorted);
    }

    /**
     * Kahn's algorithm. On a graph all of whose blocking edges join known tasks it returns exactly
     * the tasks that no cycle holds back, blockers first, and the cycle flag then tells the truth.
     */
    method TopologicalSort() returns (r: Result<seq<TaskId>, TaskId>)
      requires Valid()
      modifies this`hasCycles, this`cycleDetails
      ensures Valid()
      ensures r.Failure? <==> !EdgesWithin(dependencies, taskIds)
      ensures r.Failure? ==> MissingKey(dependencies, tasks.Keys) == Some(r.error)
      ensures r.Failure? ==> hasCycles == old(hasCycles) && cycleDetails == old(cycleDetails)
      ensures r.Success? ==> Sorted(taskIds, dependencies, r.value)
      ensures r.Success? ==> (hasCycles <==> HasCycle(dependencies))
      ensures r.Success? ==> (|r.value| == |tasks| <==> !HasCycle(dependencies))
      ensures r.Success? && HasCycle(dependencies) ==> cycleDetails == "Detected circular dependency"
      ensures r.Success? && !HasCycle(dependencies) ==> cycleDetails == old(cycleDetails)
    {
      r := KahnOrder();
      if r.Success? && |r.value| != |tasks| {
        hasCycles := true;
        cycleDetails := "Detected circular dependency";
      }
    }

    /**
     * Groups the sorted tasks into phases. A graph already known to be cyclic has no phases; the ghost
     * result is the order the phases were cut from.
     */
    method GetPhases() returns (r: Result<seq<TaskPhase>, TaskId>, ghost order: seq<TaskId>)
      requires Valid()
      modifies this`hasCycles, this`cycleDetails
      ensures Valid()
      ensures old(hasCycles) ==> r == Success([]) && hasCycles && cycleDetails == old(cycleDetails)
      ensures !old(hasCycles) ==> (r.Failure? <==> !EdgesWithin(dependencies, taskIds))
      ensures !old(hasCycles) && r.Success? ==> (hasCycles <==> HasCycle(dependencies))
      ensures !old(hasCycles) && r.Success? ==> Sorted(taskIds, dependencies, order)
      ensures !old(hasCycles) && r.Success? ==> PhasesCutFrom(tasks, dependencies, order, r.value)
    {
      order := [];
      if hasCycles {
        return Success([]), order;
      }
      var result := TopologicalSort();
      if result.Failure? {
        return Failure(result.error), order;
      }
      var sorted := result.value;
      order := sorted;
      var phases := CutPhases(sorted);
      r := Success(phases);
    }

    method CutPhases(order: seq<TaskId>) returns (phases: seq<TaskPhase>)
      requires Valid() && forall t :: t in order ==> t in tasks
      ensures PhasesCutFrom(tasks, dependencies, order, phases)
    {
      phases := [];
      var currentPhase := 1;
      var current: seq<Task> := [];
      var blocked: set<TaskId> := {};
      for i := 0 to |order|
        invariant currentPhase == |phases| + 1
        invariant i == 0 ==> phases == [] && current == [] && GroupsOf(phases) == []
        invariant CutState(tasks, dependencies, order[..i], phases, current, blocked)
      {
        var t := order[i];
        PrefixStep(order, i);
        var blockers := CollectBlockers(t);
        ghost var earlier, open, seen := phases, current, blocked;
        if blockers != [] {
          if current != [] {
            phases := phases + [TaskPhase(currentPhase, current, Duration(current), true, blockers)];
            currentPhase := currentPhase + 1;
            current := [];
          }
          blocked := blocked + {t};
        }
        assert [] + [tasks[t]] == [tasks[t]];
        current := current + [tasks[t]];
        if blockers != [] && open != [] {
          OpenStep(tasks, dependencies, order[..i], earlier, open, seen, t);
        } else {
          JoinStep(tasks, dependencies, order[..i], earlier, open, seen, t);
        }
      }
      assert order[..|order|] == order;
      if current != [] {
        var list := ListOf(blocked);
        var last := TaskPhase(currentPhase, current, Duration(current), true, list);
        LastPhase(tasks, dependencies, order, phases, current, blocked, last);
        phases := phases + [last];
      }
    }

    /** The list comprehension over the dependencies that finds the blockers of one task. */
    method CollectBlockers(t: TaskId) returns (blockers: seq<TaskId>)
      ensures blockers == BlockersOf(dependencies, t)
    {
      blockers := [];
      for i := 0 to |dependencies|
        invariant blockers == BlockersOf(dependencies[..i], t)
      {
        var d := dependencies[i];
        assert dependencies[..i + 1][..i] == dependencies[..i];
        if d.toTask == t && d.kind.Blocking? {
          blockers := blockers + [d.fromTask];
        }
      }
      assert dependencies[..|dependencies|] == dependencies;
    }
  }

  /** A set as a list, in whatever order the runtime chooses. */
  method ListOf(s: set<TaskId>) returns (list: seq<TaskId>)
    ensures Elements(list) == s && NoDuplicates(list)
  {
    list := [];
    var rest := s;
    while rest != {}
      invariant rest <= s && Elements(list) == s - rest && NoDuplicates(list)
    {
      var x :| x in rest;
      assert x !in Elements(list);
      assert Elements(list + [x]) == Elements(list) + {x};
      list := list + [x];
      rest := rest - {x};
    }
  }

  lemma MoreEdgesKeepCycles(deps: seq<Dependency>, d: Dependency)
    requires HasCycle(deps)
    ensures HasCycle(deps + [d])
  {
    var p :| IsCycle(deps, p);
    forall i | 0 <= i < |p| - 1 ensures Blocks(deps + [d], p[i], p[i + 1]) {
      assert Blocks(deps, p[i], p[i + 1]);
      var e :| 0 <= e < |deps| && IsEdge(deps[e], p[i], p[i + 1]);
      assert IsEdge((deps + [d])[e], p[i], p[i + 1]);
    }
    assert IsCycle(deps + [d], p);
  }

  lemma {:induction false} MissingKeyPersists(deps: seq<Dependency>, ids: set<TaskId>, n: nat)
    requires n <= |deps| && MissingKey(deps[..n], ids).Some?
    ensures MissingKey(deps, ids) == MissingKey(deps[..n], ids)
  {
    if n < |deps| {
      assert deps[..|deps| - 1][..n] == deps[..n];
      MissingKeyPersists(deps[..|deps| - 1], ids, n);
    } else {
      assert deps[..n] == deps;
    }
  }

  // ------------------------------------------------------------------ the work-list invariant

  /**
   * The state of the sort while the adjacency list of the last sorted task is half processed:
   * `pending` are the list entries still to be counted down. A task is on the work list or sorted
   * exactly when its counter is zero, and never twice.
   */
  ghost predicate KahnState(deps: seq<Dependency>, ids: seq<TaskId>, sorted: seq<TaskId>, queue: seq<TaskId>,
                            inDegree: map<TaskId, nat>, pending: seq<TaskId>)
  {
    && inDegree.Keys == Elements(ids)
    && NoDuplicates(sorted + queue)
    && (forall v :: v in sorted + queue <==> v in inDegree && inDegree[v] == 0)
    && (forall v :: v in inDegree ==> inDegree[v] == EdgesInto(deps, Elements(sorted), v) + multiset(pending)[v])
    && (forall v :: v in pending ==> v in inDegree)
  }

  lemma KahnInit(deps: seq<Dependency>, ids: seq<TaskId>, inDegree: map<TaskId, nat>)
    requires inDegree.Keys == Elements(ids)
    requires forall v :: v in inDegree ==> inDegree[v] == EdgesInto(deps, {}, v)
    requires NoDuplicates(Sources(ids, deps))
    ensures KahnState(deps, ids, [], Sources(ids, deps), inDegree, [])
  {
    assert [] + Sources(ids, deps) == Sources(ids, deps);
    assert Elements<TaskId>([]) == {};
  }

  lemma AppendKeepsBlockersFirst(deps: seq<Dependency>, sorted: seq<TaskId>, t: TaskId)
    requires BlockersFirst(deps, sorted) && forall a :: Blocks(deps, a, t) ==> a in sorted
    ensures BlockersFirst(deps, sorted + [t])
  {
    var longer := sorted + [t];
    forall k, a | 0 <= k < |longer| && Blocks(deps, a, longer[k]) ensures a in longer[..k] {
      assert longer[..k] == sorted[..k];
      assert k < |sorted| ==> longer[k] == sorted[k];
    }
  }

  lemma PopStep(deps: seq<Dependency>, ids: seq<TaskId>, sorted: seq<TaskId>, task: TaskId, rest: seq<TaskId>,
                inDegree: map<TaskId, nat>)
    requires NoDuplicates(ids) && EdgesWithin(deps, ids)
    requires KahnState(deps, ids, sorted, [task] + rest, inDegree, [])
    requires BlockersFirst(deps, sorted)
    ensures KahnState(deps, ids, sorted + [task], rest, inDegree, Successors(deps, task))
    ensures BlockersFirst(deps, sorted + [task])
    ensures |sorted| < |ids| && task in inDegree
  {
    HeadOfQueue(sorted, task, rest);
    ElementsAppend(sorted, task);
    forall v | v in inDegree
      ensures inDegree[v] == EdgesInto(deps, Elements(sorted + [task]), v) + multiset(Successors(deps, task))[v]
    {
      Discharge(deps, Elements(sorted), task, v);
    }
    SuccessorsAreBlocked(deps, task);
    AppendBlockersFirst(deps, sorted, task);
    RoomLeft(ids, sorted, [task] + rest);
  }

  lemma AppendBlockersFirst(deps: seq<Dependency>, sorted: seq<TaskId>, task: TaskId)
    requires BlockersFirst(deps, sorted) && EdgesInto(deps, Elements(sorted), task) == 0
    ensures BlockersFirst(deps, sorted + [task])
  {
    NoEdgesLeft(deps, Elements(sorted), task);
    AppendKeepsBlockersFirst(deps, sorted, task);
  }

  lemma HeadOfQueue(sorted: seq<TaskId>, task: TaskId, rest: seq<TaskId>)
    requires NoDuplicates(sorted + ([task] + rest))
    ensures (sorted + [task]) + rest == sorted + ([task] + rest)
    ensures task !in sorted && task in sorted + ([task] + rest)
  {
    var all := sorted + ([task] + rest);
    assert all[|sorted|] == task && forall i :: 0 <= i < |sorted| ==> all[i] == sorted[i];
    ConcatAssociates(sorted, [task], rest);
  }

  lemma RoomLeft(ids: seq<TaskId>, sorted: seq<TaskId>, queue: seq<TaskId>)
    requires NoDuplicates(ids) && NoDuplicates(sorted + queue) && queue != []
    requires forall v :: v in sorted + queue ==> v in Elements(ids)
    ensures |sorted| < |ids|
  {
    Pigeonhole(sorted + queue, Elements(ids));
    NoDuplicatesSize(ids);
  }

  lemma HeadAndRest<T>(s: seq<T>, j: nat)
    requires j < |s|
    ensures s[j..] == [s[j]] + s[j + 1..]
  {
  }

  lemma DecrementStep(deps: seq<Dependency>, ids: seq<TaskId>, sorted: seq<TaskId>, queue: seq<TaskId>,
                      inDegree: map<TaskId, nat>, v: TaskId, pending: seq<TaskId>)
    requires KahnState(deps, ids, sorted, queue, inDegree, [v] + pending)
    ensures v in inDegree && inDegree[v] > 0
    ensures var lower := inDegree[v := inDegree[v] - 1];
      KahnState(deps, ids, sorted, if lower[v] == 0 then queue + [v] else queue, lower, pending)
  {
    assert v in [v] + pending;
    assert multiset([v] + pending) == multiset{v} + multiset(pending);
    var lower := inDegree[v := inDegree[v] - 1];
    var after := if lower[v] == 0 then queue + [v] else queue;
    assert v !in sorted + queue;
    assert sorted + (queue + [v]) == (sorted + queue) + [v];
    forall u ensures u in sorted + after <==> u in lower && lower[u] == 0 {
      assert u in sorted + queue <==> u in inDegree && inDegree[u] == 0;
    }
    forall u | u in pending ensures u in lower {
      assert u in [v] + pending;
    }
  }

  /** Once the work list is empty, what is missing is exactly what a cycle holds back. */
  lemma {:induction false} KahnFinal(deps: seq<Dependency>, ids: seq<TaskId>, sorted: seq<TaskId>,
                                     inDegree: map<TaskId, nat>)
    requires NoDuplicates(ids) && EdgesWithin(deps, ids)
    requires KahnState(deps, ids, sorted, [], inDegree, []) && BlockersFirst(deps, sorted)
    requires Sources(ids, deps) <= sorted + []
    ensures Sorted(ids, deps, sorted)
    ensures |sorted| == |Elements(ids)| <==> !HasCycle(deps)
  {
    assert sorted + [] == sorted;
    var stuck := Elements(ids) - Elements(sorted);
    forall v | v in stuck ensures BlockedWithin(deps, stuck, v) {
      NoEdgesLeft(deps, Elements(sorted), v);
    }
    forall t ensures t in sorted <==> t in ids && !BehindCycle(deps, t) {
      if t in sorted {
        var k :| 0 <= k < |sorted| && sorted[k] == t;
        if BehindCycle(deps, t) {
          var p :| Walk(deps, p) && p[|p| - 1] == t && Repeats(p);
          SortedWalk(deps, sorted, p, k);
        }
      } else if t in ids {
        StuckTasksAreBehindCycle(deps, stuck, t);
      }
    }
    SortCompleteIffAcyclic(ids, deps, sorted);
    NoDuplicatesSize(ids);
  }
}
