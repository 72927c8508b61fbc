/** Tasks, the structures the dispatcher files them in, and how each move keeps the filing right. */
module Filing {
  import opened Common
  import opened TaskMachine

  /** A dictionary object that several tasks, and their callers, may refer to. */
  class Context {
    var entries: map<string, string>

    constructor (entries: map<string, string>)
      ensures this.entries == entries
    {
      this.entries := entries;
    }
  }

  class Task {
    const id: string
    const issueId: int
    const taskType: string
    const priority: Priority
    const maxRetries: int
    const timeoutSeconds: int
    const metadata: Context
    var state: State
    var assignedTo: Option<string>
    var startedAt: Option<int>
    var completedAt: Option<int>
    var retries: int
    var error: Option<string>

    constructor (id: string, issueId: int, taskType: string, priority: Priority, maxRetries: int,
                 timeoutSeconds: int, metadata: Context)
      ensures this.id == id && this.issueId == issueId && this.taskType == taskType && this.priority == priority
      ensures this.maxRetries == maxRetries && this.timeoutSeconds == timeoutSeconds && this.metadata == metadata
      ensures View() == TaskView(Queued, 0, maxRetries, None)
      ensures startedAt == None && completedAt == None && error == None
    {
      this.id, this.issueId, this.taskType, this.priority := id, issueId, taskType, priority;
      this.maxRetries, this.timeoutSeconds, this.metadata := maxRetries, timeoutSeconds, metadata;
      state, assignedTo, retries, error := Queued, None, 0, None;
      startedAt, completedAt := None, None;
    }

    function View(): TaskView
      reads this
    {
      TaskView(state, retries, maxRetries, assignedTo)
    }

    predicate IsTimedOut(now: int)
      reads this
    {
      state == InProgress && startedAt.Some? && now - startedAt.value > timeoutSeconds
    }
  }

  /** One queue per priority. */
  datatype Queues = Queues(high: seq<Task>, medium: seq<Task>, low: seq<Task>) {
    function At(p: Priority): seq<Task> {
      match p
      case High => high
      case Medium => medium
      case Low => low
    }

    function With(p: Priority, line: seq<Task>): (r: Queues)
      ensures r.At(p) == line
    {
      match p
      case High => this.(high := line)
      case Medium => this.(medium := line)
      case Low => this.(low := line)
    }
  }

  /** The dispatcher's structures agree with the place recorded for every created task. */
  ghost predicate Filed(queues: Queues, inProgress: map<string, Task>, completed: map<string, Task>,
                        deadLetters: seq<Task>, created: seq<Task>, place: map<Task, Place>)
  {
    && NoDuplicates(created) && Elements(created) == place.Keys
    && (forall t, u :: t in place && u in place && t.id == u.id ==> t == u)
    && QueuesFiled(queues, place)
    && MapFiled(inProgress, place, Running) && MapFiled(completed, place, Done)
    && ListFiled(deadLetters, place, Dead)
  }

  ghost predicate QueuesFiled(queues: Queues, place: map<Task, Place>) {
    LineFiled(queues.high, place, High) && LineFiled(queues.medium, place, Medium) && LineFiled(queues.low, place, Low)
  }

  /** The line holds exactly the queued tasks of one priority, once each. */
  ghost predicate LineFiled(line: seq<Task>, place: map<Task, Place>, p: Priority) {
    && NoDuplicates(line)
    && (forall t :: t in line ==> t in place && place[t] == InQueue && t.priority == p)
    && (forall t :: t in place && place[t] == InQueue && t.priority == p ==> t in line)
  }

  ghost predicate MapFiled(m: map<string, Task>, place: map<Task, Place>, p: Place) {
    && (forall k :: k in m ==> m[k] in place && place[m[k]] == p && m[k].id == k)
    && (forall t :: t in place && place[t] == p ==> t.id in m && m[t.id] == t)
  }

  ghost predicate ListFiled(list: seq<Task>, place: map<Task, Place>, p: Place) {
    && NoDuplicates(list)
    && (forall t :: t in list ==> t in place && place[t] == p)
    && (forall t :: t in place && place[t] == p ==> t in list)
  }

  lemma MapMove(m: map<string, Task>, place: map<Task, Place>, q: Place, t: Task, p: Place)
    requires MapFiled(m, place, q)
    requires forall u, v :: u in place && v in place && u.id == v.id ==> u == v
    requires t in place || forall u :: u in place ==> u.id != t.id
    ensures (t !in place || place[t] != q) && p != q ==> MapFiled(m, place[t := p], q) && t.id !in m
    ensures (t !in place || place[t] != q) && p == q ==> MapFiled(m[t.id := t], place[t := p], q)
    ensures t in place && place[t] == q && p != q ==> MapFiled(m - {t.id}, place[t := p], q)
  {
  }

  lemma ListMove(list: seq<Task>, place: map<Task, Place>, q: Place, t: Task, p: Place)
    requires ListFiled(list, place, q) && (t !in place || place[t] != q)
    ensures p != q ==> ListFiled(list, place[t := p], q)
    ensures p == q ==> ListFiled(list + [t], place[t := p], q)
  {
  }

  lemma LineKeeps(line: seq<Task>, place: map<Task, Place>, p: Priority, t: Task, q: Place)
    requires LineFiled(line, place, p)
    requires t.priority != p || ((t !in place || place[t] != InQueue) && q != InQueue)
    ensures LineFiled(line, place[t := q], p)
  {
  }

  lemma LineAdds(line: seq<Task>, place: map<Task, Place>, t: Task)
    requires LineFiled(line, place, t.priority) && (t !in place || place[t] != InQueue)
    ensures LineFiled(line + [t], place[t := InQueue], t.priority)
  {
    assert t !in line;
  }

  lemma LineTakes(line: seq<Task>, place: map<Task, Place>, p: Priority, i: nat, q: Place)
    requires LineFiled(line, place, p) && i < |line| && q != InQueue
    ensures LineFiled(line[..i] + line[i + 1..], place[line[i] := q], p)
    ensures line[i] in place && place[line[i]] == InQueue && line[i].priority == p
  {
    var t := line[i];
    var rest := line[..i] + line[i + 1..];
    forall k | 0 <= k < |rest| ensures rest[k] == line[if k < i then k else k + 1] {
    }
    forall u ensures u in rest <==> u in line && u != t {
      if u in line && u != t {
        var k :| 0 <= k < |line| && line[k] == u;
        assert rest[if k < i then k else k - 1] == u;
      }
    }
  }

  lemma QueuesLeave(queues: Queues, place: map<Task, Place>, t: Task, p: Place)
    requires QueuesFiled(queues, place) && (t !in place || place[t] != InQueue) && p != InQueue
    ensures QueuesFiled(queues, place[t := p])
  {
    LineKeeps(queues.high, place, High, t, p);
    LineKeeps(queues.medium, place, Medium, t, p);
    LineKeeps(queues.low, place, Low, t, p);
  }

  lemma OtherLinesKeep(queues: Queues, place: map<Task, Place>, t: Task, p: Place, q: Priority)
    requires QueuesFiled(queues, place) && q != t.priority
    ensures LineFiled(queues.At(q), place[t := p], q)
  {
    LineKeeps(queues.At(q), place, q, t, p);
  }

  lemma LineReplaced(queues: Queues, place: map<Task, Place>, t: Task, p: Place, line: seq<Task>)
    requires QueuesFiled(queues, place) && LineFiled(line, place[t := p], t.priority)
    ensures QueuesFiled(queues.With(t.priority, line), place[t := p])
  {
    match t.priority
    case High =>
      OtherLinesKeep(queues, place, t, p, Medium);
      OtherLinesKeep(queues, place, t, p, Low);
    case Medium =>
      OtherLinesKeep(queues, place, t, p, High);
      OtherLinesKeep(queues, place, t, p, Low);
    case Low =>
      OtherLinesKeep(queues, place, t, p, High);
      OtherLinesKeep(queues, place, t, p, Medium);
  }

  lemma QueuesAdd(queues: Queues, place: map<Task, Place>, t: Task)
    requires QueuesFiled(queues, place) && (t !in place || place[t] != InQueue)
    ensures QueuesFiled(queues.With(t.priority, queues.At(t.priority) + [t]), place[t := InQueue])
  {
    LineAdds(queues.At(t.priority), place, t);
    LineReplaced(queues, place, t, InQueue, queues.At(t.priority) + [t]);
  }

  lemma QueuesTake(queues: Queues, place: map<Task, Place>, q: Priority, i: nat, p: Place)
    requires QueuesFiled(queues, place) && i < |queues.At(q)| && p != InQueue
    ensures var line := queues.At(q);
      QueuesFiled(queues.With(q, line[..i] + line[i + 1..]), place[line[i] := p])
    ensures queues.At(q)[i] in place && place[queues.At(q)[i]] == InQueue
  {
    var line := queues.At(q);
    LineTakes(line, place, q, i, p);
    LineReplaced(queues, place, line[i], p, line[..i] + line[i + 1..]);
  }

  lemma CreatedStays(created: seq<Task>, place: map<Task, Place>, t: Task, p: Place)
    requires Elements(created) == place.Keys && t in place
    ensures Elements(created) == place[t := p].Keys
  {
  }

  lemma OnlyCreatedReachable(queues: Queues, inProgress: map<string, Task>, completed: map<string, Task>,
                             deadLetters: seq<Task>, created: seq<Task>, place: map<Task, Place>)
    requires Filed(queues, inProgress, completed, deadLetters, created, place)
    ensures forall t ::
      t in Elements(queues.high) + Elements(queues.medium) + Elements(queues.low) + inProgress.Values ==>
      t in created
  {
    forall t | t in Elements(queues.high) + Elements(queues.medium) + Elements(queues.low) + inProgress.Values
      ensures t in created
    {
      assert t in place;
      assert t in Elements(created);
    }
  }

  lemma {:induction false} FileNew(queues: Queues, inProgress: map<string, Task>, completed: map<string, Task>,
                deadLetters: seq<Task>, created: seq<Task>, place: map<Task, Place>, t: Task)
    requires Filed(queues, inProgress, completed, deadLetters, created, place)
    requires forall u :: u in created ==> u.id != t.id
    ensures Filed(queues.With(t.priority, queues.At(t.priority) + [t]), inProgress, completed, deadLetters,
      created + [t],
                  place[t := InQueue])
  {
    assert forall u :: u in place ==> u in Elements(created);
    assert t !in created;
    ElementsAppend(created, t);
    assert place[t := InQueue].Keys == place.Keys + {t};
    QueuesAdd(queues, place, t);
    MapMove(inProgress, place, Running, t, InQueue);
    MapMove(completed, place, Done, t, InQueue);
    ListMove(deadLetters, place, Dead, t, InQueue);
  }

  lemma {:induction false} FileTake(queues: Queues, inProgress: map<string, Task>, completed: map<string, Task>,
                 deadLetters: seq<Task>, created: seq<Task>, place: map<Task, Place>, q: Priority, i: nat)
    requires Filed(queues, inProgress, completed, deadLetters, created, place) && i < |queues.At(q)|
    ensures var line := queues.At(q);
      && line[i] in place && place[line[i]] == InQueue && line[i] in created
      && Filed(queues.With(q, line[..i] + line[i + 1..]), inProgress, completed, deadLetters, created,
        place[line[i] := InHands])
      && Filed(queues.With(q, line[..i] + line[i + 1..]), inProgress, completed[line[i].id := line[i]], deadLetters,
        created,
               place[line[i] := Done])
  {
    var t := queues.At(q)[i];
    QueuesTake(queues, place, q, i, InHands);
    QueuesTake(queues, place, q, i, Done);
    assert t in Elements(created);
    CreatedStays(created, place, t, InHands);
    MapMove(inProgress, place, Running, t, InHands);
    MapMove(completed, place, Done, t, InHands);
    ListMove(deadLetters, place, Dead, t, InHands);
    CreatedStays(created, place, t, Done);
    MapMove(inProgress, place, Running, t, Done);
    MapMove(completed, place, Done, t, Done);
    ListMove(deadLetters, place, Dead, t, Done);
  }

  lemma {:induction false} FileCancel(queues: Queues, queues': Queues, inProgress: map<string, Task>,
                                      inProgress': map<string, Task>,
                   completed: map<string, Task>, deadLetters: seq<Task>, created: seq<Task>, place: map<Task, Place>,
                   id: string, t: Task, at: Option<(Priority, nat)>)
    requires Filed(queues, inProgress, completed, deadLetters, created, place)
    requires at.Some? ==>
      t.id == id && inProgress' == inProgress && RemovedAt(queues, queues', at.value.0, at.value.1, t)
    requires at.None? ==>
      queues' == queues && id in inProgress && t == inProgress[id] && inProgress' == inProgress - {id}
    ensures t in place && t in created && place[t] in {InQueue, Running} && t.id == id
    ensures Filed(queues', inProgress', completed[id := t], deadLetters, created, place[t := Done])
  {
    if at.Some? {
      FileTake(queues, inProgress, completed, deadLetters, created, place, at.value.0, at.value.1);
    } else {
      assert t in Elements(created);
      FileFinish(queues, inProgress, completed, deadLetters, created, place, t);
    }
  }

  lemma FileDequeue(queues: Queues, inProgress: map<string, Task>, completed: map<string, Task>,
                    deadLetters: seq<Task>, created: seq<Task>, place: map<Task, Place>, q: Priority, t: Task)
    requires Filed(queues, inProgress, completed, deadLetters, created, place)
    requires queues.At(q) != [] && t == queues.At(q)[0]
    ensures t in place && place[t] == InQueue && t in created
    ensures Filed(queues.With(q, queues.At(q)[1..]), inProgress, completed, deadLetters, created, place[t := InHands])
  {
    FileTake(queues, inProgress, completed, deadLetters, created, place, q, 0);
    WithoutFirst(queues.At(q));
  }

  lemma WithoutFirst<T>(s: seq<T>)
    requires s != []
    ensures s[..0] + s[1..] == s[1..]
  {
  }

  lemma FileStart(queues: Queues, inProgress: map<string, Task>, completed: map<string, Task>,
                  deadLetters: seq<Task>, created: seq<Task>, place: map<Task, Place>, t: Task)
    requires Filed(queues, inProgress, completed, deadLetters, created, place)
    requires t in place && place[t] == InHands
    ensures Filed(queues, inProgress[t.id := t], completed, deadLetters, created, place[t := Running])
  {
    CreatedStays(created, place, t, Running);
    QueuesLeave(queues, place, t, Running);
    MapMove(inProgress, place, Running, t, Running);
    MapMove(completed, place, Done, t, Running);
    ListMove(deadLetters, place, Dead, t, Running);
  }

  lemma FileFinish(queues: Queues, inProgress: map<string, Task>, completed: map<string, Task>,
                   deadLetters: seq<Task>, created: seq<Task>, place: map<Task, Place>, t: Task)
    requires Filed(queues, inProgress, completed, deadLetters, created, place)
    requires t in place && place[t] == Running
    ensures Filed(queues, inProgress - {t.id}, completed[t.id := t], deadLetters, created, place[t := Done])
  {
    CreatedStays(created, place, t, Done);
    QueuesLeave(queues, place, t, Done);
    MapMove(inProgress, place, Running, t, Done);
    MapMove(completed, place, Done, t, Done);
    ListMove(deadLetters, place, Dead, t, Done);
  }

  lemma {:induction false} FileFail(queues: Queues, inProgress: map<string, Task>, completed: map<string, Task>,
                 deadLetters: seq<Task>, created: seq<Task>, place: map<Task, Place>, t: Task)
    requires Filed(queues, inProgress, completed, deadLetters, created, place)
    requires t in place && place[t] in {InHands, Running}
    ensures Filed(queues.With(t.priority, queues.At(t.priority) + [t]), inProgress - {t.id}, completed, deadLetters,
      created,
                  place[t := InQueue])
    ensures Filed(queues, inProgress - {t.id}, completed, deadLetters + [t], created, place[t := Dead])
  {
    CreatedStays(created, place, t, InQueue);
    QueuesAdd(queues, place, t);
    MapMove(inProgress, place, Running, t, InQueue);
    MapMove(completed, place, Done, t, InQueue);
    ListMove(deadLetters, place, Dead, t, InQueue);
    CreatedStays(created, place, t, Dead);
    QueuesLeave(queues, place, t, Dead);
    MapMove(inProgress, place, Running, t, Dead);
    MapMove(completed, place, Done, t, Dead);
    ListMove(deadLetters, place, Dead, t, Dead);
    if place[t] == InHands {
      assert inProgress - {t.id} == inProgress;
    }
  }

  ghost predicate RemovedAt(before: Queues, after: Queues, p: Priority, i: nat, t: Task) {
    && i < |before.At(p)| && t == before.At(p)[i]
    && after == before.With(p, before.At(p)[..i] + before.At(p)[i + 1..])
  }

  ghost predicate TakenFrom(before: Queues, after: Queues, p: Priority, t: Task) {
    before.At(p) != [] && t == before.At(p)[0] && after == before.With(p, before.At(p)[1..])
  }

  ghost predicate FirstNonEmpty(queues: Queues, p: Priority) {
    && queues.At(p) != []
    && (p != High ==> queues.high == [])
    && (p == Low ==> queues.medium == [])
  }
}
