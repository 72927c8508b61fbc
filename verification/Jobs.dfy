/**
 * The leased job service: jobs are claimed with an expiring lease, heartbeated, recovered, retried
 * and cancelled. The store maps job ids to jobs, as the job files do; every public operation is one
 * atomic step at a given time.
 */
module Jobs {
  import opened Common

  type JobId = string
  type Store = map<JobId, Job>

  datatype Status = Queued | Running | Waiting | Completed | Failed | Cancelled | Partial | NeedsReview

  datatype Stage = Stage(
    id: string, caption: string, status: Status, startedAt: Option<int>, completedAt: Option<int>,
    partialResult: Option<string>)

  datatype Job = Job(
    id: JobId, userId: Option<string>, projectId: Option<string>, jobType: string,
    status: Status, currentStage: Option<string>, stages: seq<Stage>, payload: string,
    result: Option<string>, partialResult: Option<string>, error: Option<string>,
    retryCount: nat, resumeFromStage: Option<string>,
    createdAt: int, updatedAt: int, startedAt: Option<int>, completedAt: Option<int>, cancelledAt: Option<int>,
    leaseOwner: Option<string>, leaseUntil: Option<int>)

  datatype NewJob = NewJob(
    userId: Option<string>, projectId: Option<string>, jobType: string, stages: seq<(string, string)>, payload: string)

  const DefaultLeaseMs := 60000
  const LostMessage := "Lease expired or worker lost — retry to resume."

  // ------------------------------------------------------------------ what one operation does to one job

  function FreshStages(stages: seq<(string, string)>): (r: seq<Stage>)
    ensures |r| == |stages|
    ensures forall i :: 0 <= i < |stages| ==> r[i] == Stage(stages[i].0, stages[i].1, Queued, None, None, None)
  {
    seq(|stages|, i requires 0 <= i < |stages| => Stage(stages[i].0, stages[i].1, Queued, None, None, None))
  }

  function Created(id: JobId, input: NewJob, now: int): Job {
    Job(id, input.userId, input.projectId, input.jobType, Queued, None, FreshStages(input.stages), input.payload,
        None, None, None, 0, None, now, now, None, None, None, None, None)
  }

  /** Applies an update to the stages with a given id and leaves the others alone. */
  function UpdateStages(stages: seq<Stage>, id: string, f: Stage -> Stage): (r: seq<Stage>)
    ensures |r| == |stages|
    ensures forall i :: 0 <= i < |stages| ==> r[i] == if stages[i].id == id then f(stages[i]) else stages[i]
  {
    seq(|stages|, i requires 0 <= i < |stages| => if stages[i].id == id then f(stages[i]) else stages[i])
  }

  function StageStarted(job: Job, stageId: string, now: int): Job {
    if job.status == Cancelled then job
    else job.(
      status := Running,
      currentStage := Some(stageId),
      startedAt := if job.startedAt.Some? then job.startedAt else Some(now),
      stages := UpdateStages(job.stages, stageId, (s: Stage) => s.(status := Running, startedAt := Some(now))),
      updatedAt := now)
  }

  function StageCompleted(job: Job, stageId: string, partial: Option<string>, now: int): Job {
    if job.status == Cancelled then job
    else job.(
      stages := UpdateStages(job.stages, stageId,
        (s: Stage) => s.(status := Completed, completedAt := Some(now), partialResult := partial)),
      partialResult := if partial.Some? then partial else job.partialResult,
      updatedAt := now)
  }

  function Unleased(job: Job, now: int): Job {
    job.(leaseOwner := None, leaseUntil := None, updatedAt := now)
  }

  function JobCompleted(job: Job, result: Option<string>, now: int): Job {
    Unleased(job.(status := Completed, result := result, completedAt := Some(now)), now)
  }

  function JobPartial(job: Job, error: string, now: int): Job {
    Unleased(job.(status := Partial, error := Some(error), resumeFromStage := job.currentStage), now)
  }

  function JobFailed(job: Job, error: string, now: int): Job {
    Unleased(job.(status := Failed, error := Some(error), resumeFromStage := job.currentStage,
                  completedAt := Some(now)), now)
  }

  function JobCancelled(job: Job, reason: string, now: int): Job {
    if job.status in {Completed, Cancelled} then job
    else Unleased(job.(status := Cancelled, error := Some(reason), cancelledAt := Some(now),
                       completedAt := Some(now)), now)
  }

  predicate IsLeaseExpired(job: Job, now: int) {
    job.status == Running && (job.leaseUntil.None? || job.leaseUntil.value <= now)
  }

  function JobClaimed(job: Job, owner: string, leaseMs: int, now: int): Job {
    job.(
      status := Running,
      startedAt := if job.startedAt.Some? then job.startedAt else Some(now),
      leaseOwner := Some(owner),
      leaseUntil := Some(now + leaseMs),
      error := if job.status == Running then None else job.error,
      updatedAt := now)
  }

  /** A heartbeat is refused while another non-empty owner holds the job. */
  predicate HeartbeatAccepted(job: Job, owner: string) {
    job.status == Running && (job.leaseOwner.None? || job.leaseOwner.value == "" || job.leaseOwner.value == owner)
  }

  function JobHeartbeat(job: Job, owner: string, leaseMs: int, now: int): Job {
    if HeartbeatAccepted(job, owner)
    then job.(leaseOwner := Some(owner), leaseUntil := Some(now + leaseMs), updatedAt := now)
    else job
  }

  /** An empty type filter filters nothing. */
  predicate TypeMatches(job: Job, jobType: Option<string>) {
    jobType.None? || jobType.value == "" || job.jobType == jobType.value
  }

  predicate Recoverable(job: Job, jobType: Option<string>, maxAgeMs: int, now: int) {
    && TypeMatches(job, jobType)
    && job.status == Running
    && (IsLeaseExpired(job, now) || (maxAgeMs > 0 && job.startedAt.Some? && now - job.startedAt.value > maxAgeMs))
  }

  predicate Retryable(job: Job) {
    job.status !in {Cancelled, Running, Queued}
  }

  function JobRetried(job: Job, now: int): Job {
    if !Retryable(job) then job
    else Unleased(job.(
      status := Queued, error := None, retryCount := job.retryCount + 1, completedAt := None, cancelledAt := None,
      currentStage := None,
      stages := FreshStages(seq(|job.stages|,
        i requires 0 <= i < |job.stages| => (job.stages[i].id, job.stages[i].caption))),
      result := None, partialResult := None, resumeFromStage := None), now)
  }

  predicate Candidate(job: Job, jobType: Option<string>, now: int) {
    TypeMatches(job, jobType) && (job.status == Queued || IsLeaseExpired(job, now))
  }

  /** Claim order: oldest creation first; among equals the listing puts the latest update first. */
  predicate ClaimsBefore(a: Job, b: Job) {
    a.createdAt < b.createdAt || (a.createdAt == b.createdAt && a.updatedAt >= b.updatedAt)
  }

  ghost predicate FirstCandidate(s: Store, id: JobId, jobType: Option<string>, now: int) {
    && id in s && Candidate(s[id], jobType, now)
    && forall other :: other in s && Candidate(s[other], jobType, now) ==> ClaimsBefore(s[id], s[other])
  }

  // ------------------------------------------------------------------ operations and runs

  datatype Op =
    | Create(id: JobId, input: NewJob)
    | StartStage(id: JobId, stageId: string)
    | CompleteStage(id: JobId, stageId: string, partial: Option<string>)
    | Complete(id: JobId, result: Option<string>)
    | Fail(id: JobId, error: string)
    | MarkFailed(id: JobId, error: string)
    | Cancel(id: JobId, reason: string)
    | Claim(owner: string, leaseMs: int, jobType: Option<string>)
    | Heartbeat(id: JobId, owner: string, leaseMs: int)
    | Recover(jobType: Option<string>, maxAgeMs: int)
    | Retry(id: JobId)

  /** A lease handed out by a claim or extended by a heartbeat. */
  datatype Grant = Grant(id: JobId, owner: string, until: int)

  datatype Event = Event(op: Op, now: int, grant: Option<Grant>)

  function RecoverOne(job: Job, jobType: Option<string>, maxAgeMs: int, now: int): Job {
    if Recoverable(job, jobType, maxAgeMs, now) then JobPartial(job, LostMessage, now) else job
  }

  function RecoverAll(s: Store, jobType: Option<string>, maxAgeMs: int, now: int): Store {
    map id | id in s :: RecoverOne(s[id], jobType, maxAgeMs, now)
  }

  /** The jobs outside `rest` that a recovery sweep turns partial. */
  function RecoveredIds(s: Store, rest: set<JobId>, jobType: Option<string>, maxAgeMs: int, now: int): set<JobId> {
    set id | id in s && id !in rest && Recoverable(s[id], jobType, maxAgeMs, now)
  }

  lemma RecoveredIdsStep(s: Store, rest: set<JobId>, id: JobId, jobType: Option<string>, maxAgeMs: int, now: int)
    requires id in rest && rest <= s.Keys
    ensures |RecoveredIds(s, rest - {id}, jobType, maxAgeMs, now)| ==
      |RecoveredIds(s, rest, jobType, maxAgeMs, now)| + (if Recoverable(s[id], jobType, maxAgeMs, now) then 1 else 0)
  {
    var before, after := RecoveredIds(s, rest, jobType, maxAgeMs, now),
      RecoveredIds(s, rest - {id}, jobType, maxAgeMs, now);
    assert after == before + (if Recoverable(s[id], jobType, maxAgeMs, now) then {id} else {});
  }

  /** The store in the middle of a sweep, with the jobs in `rest` still to be looked at. */
  function RecoveredSoFar(s: Store, rest: set<JobId>, jobType: Option<string>, maxAgeMs: int, now: int): Store {
    map id | id in s :: if id in rest then s[id] else RecoverOne(s[id], jobType, maxAgeMs, now)
  }

  lemma RecoveredOneMore(s: Store, rest: set<JobId>, id: JobId, jobType: Option<string>, maxAgeMs: int, now: int)
    requires id in rest && id in s
    ensures var middle := RecoveredSoFar(s, rest, jobType, maxAgeMs, now);
      var more := RecoveredSoFar(s, rest - {id}, jobType, maxAgeMs, now);
      && middle[id] == s[id]
      && more == if Recoverable(s[id], jobType, maxAgeMs, now) then middle[id := JobPartial(s[id], LostMessage, now)]
                 else middle
  {
  }

  lemma NothingLeft(s: Store, jobType: Option<string>, maxAgeMs: int, now: int)
    ensures RecoveredSoFar(s, {}, jobType, maxAgeMs, now) == RecoverAll(s, jobType, maxAgeMs, now)
    ensures RecoveredSoFar(s, s.Keys, jobType, maxAgeMs, now) == s
  {
  }

  /** The effect of an operation on the one job it names. */
  function OnJob(op: Op, job: Job, now: int): Job
    requires op.StartStage? || op.CompleteStage? || op.Complete? || op.Fail? || op.MarkFailed? || op.Cancel?
          || op.Heartbeat? || op.Retry?
  {
    match op
    case StartStage(_, stageId) => StageStarted(job, stageId, now)
    case CompleteStage(_, stageId, partial) => StageCompleted(job, stageId, partial, now)
    case Complete(_, result) => JobCompleted(job, result, now)
    case Fail(_, error) => JobPartial(job, error, now)
    case MarkFailed(_, error) => JobFailed(job, error, now)
    case Cancel(_, reason) => JobCancelled(job, reason, now)
    case Heartbeat(_, owner, leaseMs) => JobHeartbeat(job, owner, leaseMs, now)
    case Retry(_) => JobRetried(job, now)
  }

  /** One atomic step of the service. Generated ids are fresh. */
  ghost predicate Step(s: Store, e: Event, s': Store) {
    match e.op
    case Create(id, input) => id !in s && s' == s[id := Created(id, input, e.now)] && e.grant == None
    case Claim(owner, leaseMs, jobType) =>
      if e.grant.Some? then
        && FirstCandidate(s, e.grant.value.id, jobType, e.now)
        && e.grant.value == Grant(e.grant.value.id, owner, e.now + leaseMs)
        && s' == s[e.grant.value.id := JobClaimed(s[e.grant.value.id], owner, leaseMs, e.now)]
      else
        s' == s && forall id :: id in s ==> !Candidate(s[id], jobType, e.now)
    case Recover(jobType, maxAgeMs) => s' == RecoverAll(s, jobType, maxAgeMs, e.now) && e.grant == None
    case Heartbeat(id, owner, leaseMs) =>
      && s' == (if id in s then s[id := OnJob(e.op, s[id], e.now)] else s)
      && e.grant == if id in s && HeartbeatAccepted(s[id], owner) then Some(Grant(id, owner, e.now + leaseMs)) else None
    case _ => s' == (if e.op.id in s then s[e.op.id := OnJob(e.op, s[e.op.id], e.now)] else s) && e.grant == None
  }

  /** A run from the empty store, under a clock that never goes back. */
  ghost predicate Run(states: seq<Store>, events: seq<Event>) {
    && |states| == |events| + 1
    && states[0] == map[]
    && (forall i :: 0 <= i < |events| ==> Step(states[i], events[i], states[i + 1]))
    && (forall i, j :: 0 <= i < j < |events| ==> events[i].now <= events[j].now)
  }

  lemma RunStep(states: seq<Store>, events: seq<Event>, m: nat)
    requires Run(states, events) && 0 < m < |states|
    ensures Step(states[m - 1], events[m - 1], states[m])
  {
    assert Step(states[m - 1], events[m - 1], states[m - 1 + 1]);
  }

  // ------------------------------------------------------------------ invariants of every run

  /** Owner and expiry are set together, and only while the job runs. */
  ghost predicate LeaseConsistent(job: Job) {
    && (job.leaseOwner.Some? <==> job.leaseUntil.Some?)
    && (job.leaseOwner.Some? ==> job.status == Running)
  }

  ghost predicate StoreConsistent(s: Store) {
    forall id :: id in s ==> s[id].id == id && LeaseConsistent(s[id])
  }

  lemma StepKeepsConsistency(s: Store, e: Event, s': Store)
    requires StoreConsistent(s) && Step(s, e, s')
    ensures StoreConsistent(s')
  {
    forall id | id in s' ensures s'[id].id == id && LeaseConsistent(s'[id]) {
      if id in s {
        assert LeaseConsistent(s[id]);
      }
    }
  }

  /** Over every run, leases are consistent in every state. */
  lemma {:induction false} LeasesConsistentInEveryRun(states: seq<Store>, events: seq<Event>, n: nat)
    requires Run(states, events) && n < |states|
    ensures StoreConsistent(states[n])
  {
    if n > 0 {
      LeasesConsistentInEveryRun(states, events, n - 1);
      RunStep(states, events, n);
      StepKeepsConsistency(states[n - 1], events[n - 1], states[n]);
    }
  }

  /** The step may take the lease of `id` away: a terminal operation, a cancellation, or its recovery. */
  ghost predicate Releases(s: Store, e: Event, id: JobId) {
    match e.op
    case Complete(j, _) => j == id
    case Fail(j, _) => j == id
    case MarkFailed(j, _) => j == id
    case Cancel(j, _) => j == id
    case Recover(jobType, maxAgeMs) => id in s && Recoverable(s[id], jobType, maxAgeMs, e.now)
    case _ => false
  }

  ghost predicate GrantedTo(e: Event, id: JobId, owner: string) {
    e.grant.Some? && e.grant.value.id == id && e.grant.value.owner == owner
  }

  ghost predicate HeldBy(s: Store, id: JobId, owner: string, until: int) {
    id in s && s[id].status == Running && s[id].leaseOwner == Some(owner) && s[id].leaseUntil == Some(until)
  }

  lemma GrantGivesLease(s: Store, e: Event, s': Store)
    requires Step(s, e, s') && e.grant.Some?
    ensures HeldBy(s', e.grant.value.id, e.grant.value.owner, e.grant.value.until)
  {
  }

  /** An unexpired lease survives every step that neither releases it nor re-grants it to its owner. */
  lemma LeaseSurvivesStep(s: Store, e: Event, s': Store, id: JobId, owner: string, until: int)
    requires Step(s, e, s') && HeldBy(s, id, owner, until) && owner != ""
    requires !Releases(s, e, id) && !GrantedTo(e, id, owner) && e.now < until
    ensures HeldBy(s', id, owner, until)
    ensures e.grant.Some? ==> e.grant.value.id != id
  {
  }

  /**
   * Mutual exclusion over every run: after the latest grant of a job to `owner`, no claim or heartbeat
   * by anyone else succeeds on that job before the lease expires, unless a step in between released it.
   */
  lemma {:induction false} UnexpiredLeaseExcludesOthers(
    states: seq<Store>, events: seq<Event>, i: nat, k: nat, id: JobId, owner: string, until: int, other: string)
    requires Run(states, events) && i < k < |events| && owner != "" && other != owner
    requires events[i].grant == Some(Grant(id, owner, until))
    requires forall m :: i < m < k ==> !GrantedTo(events[m], id, owner)
    requires forall m :: i < m < k ==> !Releases(states[m], events[m], id)
    requires GrantedTo(events[k], id, other)
    ensures events[k].now >= until
  {
    if events[k].now < until {
      RunStep(states, events, i + 1);
      GrantGivesLease(states[i], events[i], states[i + 1]);
      LeaseHeldUntil(states, events, i, k, id, owner, until);
      RunStep(states, events, k + 1);
      LeaseOrRelease(states[k], events[k], states[k + 1], id, owner, until);
    }
  }

  lemma LeaseOrRelease(s: Store, e: Event, s': Store, id: JobId, owner: string, until: int)
    requires Step(s, e, s') && HeldBy(s, id, owner, until) && owner != ""
    requires e.now < until && e.grant.Some? && e.grant.value.id == id
    ensures e.grant.value.owner == owner
  {
  }

  lemma {:induction false} LeaseHeldUntil(
    states: seq<Store>, events: seq<Event>, i: nat, k: nat, id: JobId, owner: string, until: int)
    requires Run(states, events) && i < k < |events| && owner != "" && events[k].now < until
    requires HeldBy(states[i + 1], id, owner, until)
    requires forall m :: i < m < k ==> !GrantedTo(events[m], id, owner)
    requires forall m :: i < m < k ==> !Releases(states[m], events[m], id)
    ensures HeldBy(states[k], id, owner, until)
    decreases k
  {
    if k > i + 1 {
      assert events[k - 1].now <= events[k].now;
      LeaseHeldUntil(states, events, i, k - 1, id, owner, until);
      RunStep(states, events, k);
      LeaseSurvivesStep(states[k - 1], events[k - 1], states[k], id, owner, until);
    }
  }

  /**
   * A cancelled job stays cancelled until a complete, fail or markFailed on it: those three do not
   * look at the status, every other operation leaves a cancelled job as it is.
   */
  lemma {:induction false} CancelledLeftOnlyByTerminalOps(states: seq<Store>, events: seq<Event>, i: nat, k: nat,
                                                          id: JobId)
    requires Run(states, events) && i <= k < |states|
    requires id in states[i] && states[i][id].status == Cancelled
    requires forall m :: i <= m < k ==> !Overwrites(events[m], id)
    ensures id in states[k] && states[k][id] == states[i][id]
    decreases k
  {
    if k > i {
      CancelledLeftOnlyByTerminalOps(states, events, i, k - 1, id);
      RunStep(states, events, k);
      assert !Overwrites(events[k - 1], id);
    }
  }

  ghost predicate Overwrites(e: Event, id: JobId) {
    (e.op.Complete? || e.op.Fail? || e.op.MarkFailed?) && e.op.id == id
  }

  /** A step takes a job out of cancelled exactly if it is a complete, fail or markFailed on it. */
  lemma CancelledLeftExactlyByTerminalOps(s: Store, e: Event, s': Store, id: JobId)
    requires Step(s, e, s') && id in s && s[id].status == Cancelled
    ensures id in s'
    ensures s'[id].status != Cancelled <==> Overwrites(e, id)
    ensures !Overwrites(e, id) ==> s'[id] == s[id]
  {
  }

  lemma RunGoesOn(states: seq<Store>, events: seq<Event>, e: Event, s': Store)
    requires Run(states, events) && Step(states[|states| - 1], e, s')
    requires forall i :: 0 <= i < |events| ==> events[i].now <= e.now
    ensures Run(states + [s'], events + [e])
  {
    var all, more := states + [s'], events + [e];
    forall i | 0 <= i < |more| ensures Step(all[i], more[i], all[i + 1]) {
      assert i < |events| ==> Step(states[i], events[i], states[i + 1]);
    }
  }

  /**
   * Terminal operations are not fenced by the lease. However a job came to be held under an unexpired lease,
   * the run can go on with a complete by somebody else - say a worker whose own lease ran out - and from then
   * on the holder's heartbeats have no effect.
   */
  lemma StaleWorkerCanComplete(states: seq<Store>, events: seq<Event>, id: JobId, holder: string, until: int, now: int,
                               result: Option<string>)
    requires Run(states, events) && HeldBy(states[|states| - 1], id, holder, until) && now < until
    requires forall i :: 0 <= i < |events| ==> events[i].now <= now
    ensures var s := states[|states| - 1];
      var s' := s[id := JobCompleted(s[id], result, now)];
      && Run(states + [s'], events + [Event(Complete(id, result), now, None)])
      && s'[id].status == Completed && s'[id].leaseOwner == None
      && forall leaseMs, later :: JobHeartbeat(s'[id], holder, leaseMs, later) == s'[id]
  {
    var s := states[|states| - 1];
    RunGoesOn(states, events, Event(Complete(id, result), now, None), s[id := JobCompleted(s[id], result, now)]);
  }

  /** The job waits for a worker: it is queued, or nobody holds it any more. */
  ghost predicate Waits(job: Job, jobType: Option<string>, now: int) {
    && (jobType.None? || jobType.value == "" || job.jobType == jobType.value)
    && (job.status == Queued ||
        (job.status == Running && (job.leaseUntil.None? || job.leaseUntil.value <= now)))
  }

  /** Of all waiting jobs this one was created first, and among those created together it was updated last. */
  ghost predicate OldestWaiting(s: Store, id: JobId, jobType: Option<string>, now: int) {
    && id in s && Waits(s[id], jobType, now)
    && forall other :: other in s && Waits(s[other], jobType, now) ==>
         s[id].createdAt < s[other].createdAt ||
         (s[id].createdAt == s[other].createdAt && s[id].updatedAt >= s[other].updatedAt)
  }

  lemma FirstIsOldest(s: Store, id: JobId, jobType: Option<string>, now: int)
    ensures FirstCandidate(s, id, jobType, now) <==> OldestWaiting(s, id, jobType, now)
  {
    forall other | other in s ensures Candidate(s[other], jobType, now) <==> Waits(s[other], jobType, now) {
    }
    if OldestWaiting(s, id, jobType, now) {
      forall other | other in s && Candidate(s[other], jobType, now) ensures ClaimsBefore(s[id], s[other]) {
        assert Waits(s[other], jobType, now);
      }
    }
  }

  /** A claim is granted the oldest of all waiting jobs, and refused exactly if none waits. */
  lemma ClaimGrantsOldest(s: Store, e: Event, s': Store)
    requires Step(s, e, s') && e.op.Claim?
    ensures e.grant.Some? ==> OldestWaiting(s, e.grant.value.id, e.op.jobType, e.now)
    ensures e.grant.None? ==> forall id :: id in s ==> !Waits(s[id], e.op.jobType, e.now)
  {
    if e.grant.Some? {
      FirstIsOldest(s, e.grant.value.id, e.op.jobType, e.now);
    } else {
      forall id | id in s ensures !Waits(s[id], e.op.jobType, e.now) {
        assert !Candidate(s[id], e.op.jobType, e.now);
      }
    }
  }

  /**
   * Queued jobs are not preferred: an expired job is granted over a queued one if it is older, and only if it is not
   * younger.
   */
  lemma QueuedNotPreferred(s: Store, e: Event, s': Store, queued: JobId, expired: JobId)
    requires Step(s, e, s') && e.op.Claim? && e.grant.Some? && e.op.jobType.None?
    requires queued in s && s[queued].status == Queued
    requires expired in s && s[expired].status == Running && s[expired].leaseUntil.Some?
    requires s[expired].leaseUntil.value <= e.now
    ensures s[expired].createdAt < s[queued].createdAt ==> e.grant.value.id != queued
    ensures s[queued].createdAt < s[expired].createdAt ==> e.grant.value.id != expired
  {
    ClaimGrantsOldest(s, e, s');
    assert Waits(s[queued], None, e.now) && Waits(s[expired], None, e.now);
  }

  /** The jobs that the claims among the events from `i` up to but not including `k` were granted. */
  function ClaimedJobs(events: seq<Event>, i: nat, k: nat): seq<JobId>
    requires i <= k <= |events|
    decreases k - i
  {
    if i == k then []
    else
      ClaimedJobs(events, i, k - 1) + ClaimedBy(events[k - 1])
  }

  function ClaimedBy(e: Event): seq<JobId> {
    if e.op.Claim? && e.grant.Some? then [e.grant.value.id] else []
  }

  /** The event is a successful claim that could have been granted this job. */
  ghost predicate Passes(s: Store, e: Event, id: JobId) {
    e.op.Claim? && e.grant.Some? ==> id in s && Waits(s[id], e.op.jobType, e.now)
  }

  /** The other jobs that were created no later than this one. */
  ghost function NoYounger(s: Store, id: JobId): set<JobId>
    requires id in s
  {
    set j | j in s && j != id && s[j].createdAt <= s[id].createdAt
  }

  /**
   * Waiting in line: while a job could be granted at every claim and is not, and no job is granted twice, there are no
   * more successful claims than other jobs created no later.
   */
  lemma WaitingIsBounded(states: seq<Store>, events: seq<Event>, i: nat, k: nat, id: JobId)
    requires Run(states, events) && i <= k <= |events| && id in states[i]
    requires forall m :: i <= m < k ==> Passes(states[m], events[m], id)
    requires id !in ClaimedJobs(events, i, k) && NoDuplicates(ClaimedJobs(events, i, k))
    ensures id in states[k]
    ensures |ClaimedJobs(events, i, k)| <= |NoYounger(states[k], id)|
  {
    ClaimedAreOlder(states, events, i, k, id);
    Pigeonhole(ClaimedJobs(events, i, k), NoYounger(states[k], id));
  }

  lemma {:induction false} ClaimedAreOlder(states: seq<Store>, events: seq<Event>, i: nat, k: nat, id: JobId)
    requires Run(states, events) && i <= k <= |events| && id in states[i]
    requires forall m :: i <= m < k ==> Passes(states[m], events[m], id)
    ensures id in states[k]
    ensures forall j :: j in ClaimedJobs(events, i, k) ==>
      j in states[k] && states[k][j].createdAt <= states[k][id].createdAt
    decreases k - i
  {
    if i < k {
      ClaimedAreOlder(states, events, i, k - 1, id);
      assert Passes(states[k - 1], events[k - 1], id);
      OneClaimMore(states, events, k, ClaimedJobs(events, i, k - 1), id);
    }
  }

  lemma OneClaimMore(states: seq<Store>, events: seq<Event>, k: nat, claimed: seq<JobId>, id: JobId)
    requires Run(states, events) && 0 < k <= |events| && id in states[k - 1]
    requires Passes(states[k - 1], events[k - 1], id)
    requires forall j :: j in claimed ==>
      j in states[k - 1] && states[k - 1][j].createdAt <= states[k - 1][id].createdAt
    ensures id in states[k]
    ensures forall j :: j in claimed + ClaimedBy(events[k - 1]) ==>
      j in states[k] && states[k][j].createdAt <= states[k][id].createdAt
  {
    RunStep(states, events, k);
    StepKeepsCreation(states[k - 1], events[k - 1], states[k]);
    if events[k - 1].op.Claim? && events[k - 1].grant.Some? {
      PassedForOlder(states[k - 1], events[k - 1], states[k], id);
    }
  }

  lemma PassedForOlder(s: Store, e: Event, s': Store, id: JobId)
    requires Step(s, e, s') && e.op.Claim? && e.grant.Some? && Passes(s, e, id)
    ensures e.grant.value.id in s && s[e.grant.value.id].createdAt <= s[id].createdAt
  {
    ClaimGrantsOldest(s, e, s');
  }

  lemma StepKeepsCreation(s: Store, e: Event, s': Store)
    requires Step(s, e, s')
    ensures forall id :: id in s ==> id in s' && s'[id].createdAt == s[id].createdAt
  {
  }

  // ------------------------------------------------------------------ what the service promises, in plain terms

  /** The stages with this id are changed like this, and no others. */
  ghost predicate OneStageChanged(before: seq<Stage>, after: seq<Stage>, id: string, change: Stage -> Stage) {
    && |after| == |before|
    && forall i :: 0 <= i < |before| ==> after[i] == if before[i].id == id then change(before[i]) else before[i]
  }

  /** Nobody else holds the job: there is no owner, an empty one, or this one. */
  ghost predicate Admits(job: Job, owner: string) {
    job.leaseOwner in {None, Some(""), Some(owner)}
  }

  /** The job after a sweep: partial if it ran and nobody holds it any more or it has run too long. */
  ghost function Swept(job: Job, jobType: Option<string>, maxAgeMs: int, now: int): Job {
    if && (jobType.None? || jobType.value == "" || job.jobType == jobType.value)
       && job.status == Running
       && (job.leaseUntil.None? || job.leaseUntil.value <= now
           || (maxAgeMs > 0 && job.startedAt.Some? && now - job.startedAt.value > maxAgeMs))
    then job.(status := Partial, error := Some("Lease expired or worker lost — retry to resume."),
              resumeFromStage := job.currentStage, leaseOwner := None, leaseUntil := None, updatedAt := now)
    else job
  }

  /** A sweep turns exactly the lost jobs partial, and counts them. */
  lemma SweepMeaning(s: Store, jobType: Option<string>, maxAgeMs: int, now: int)
    ensures var s' := RecoverAll(s, jobType, maxAgeMs, now);
      && s'.Keys == s.Keys
      && |RecoveredIds(s, {}, jobType, maxAgeMs, now)| == |set id | id in s && s'[id] != s[id]|
      && forall id :: id in s ==> s'[id] == Swept(s[id], jobType, maxAgeMs, now)
  {
    var s' := RecoverAll(s, jobType, maxAgeMs, now);
    assert RecoveredIds(s, {}, jobType, maxAgeMs, now) == set id | id in s && s'[id] != s[id];
  }

  // ------------------------------------------------------------------ the service

  class CaspaJobService {
    var store: Store

    constructor ()
      ensures store == map[]
    {
      store := map[];
    }

    method Create(id: JobId, input: NewJob, now: int) returns (job: Job)
      requires id !in store
      modifies this
      ensures Step(old(store), Event(Op.Create(id, input), now, None), store)
      ensures store == old(store)[id := job] && job.id == id && job.status == Queued && job.retryCount == 0
      ensures job.jobType == input.jobType && job.payload == input.payload && job.createdAt == job.updatedAt == now
      ensures job.userId == input.userId && job.projectId == input.projectId
      ensures job.leaseOwner == None && job.leaseUntil == None && job.result == None && job.error == None
      ensures |job.stages| == |input.stages| && forall i :: 0 <= i < |job.stages| ==>
        job.stages[i] == Stage(input.stages[i].0, input.stages[i].1, Queued, None, None, None)
    {
      job := Created(id, input, now);
      store := store[id := job];
    }

    method StartStage(id: JobId, stageId: string, now: int) returns (r: Option<Job>)
      modifies this
      ensures Step(old(store), Event(Op.StartStage(id, stageId), now, None), store)
      ensures r.Some? <==> id in old(store)
      ensures store == if r.Some? then old(store)[id := r.value] else old(store)
      ensures r.Some? && old(store[id].status) == Cancelled ==> store == old(store)
      ensures r.Some? && old(store[id].status) != Cancelled ==>
        && r.value == old(store[id]).(status := Running, currentStage := Some(stageId), updatedAt := now,
             startedAt := Some(if old(store[id].startedAt).Some? then old(store[id].startedAt).value else now),
             stages := r.value.stages)
        && OneStageChanged(old(store[id].stages), r.value.stages, stageId, (s: Stage) =>
             s.(status := Running, startedAt := Some(now)))
    {
      if id !in store {
        return None;
      }
      var job := store[id];
      if job.status == Cancelled {
        assert store == store[id := job];
        return Some(job);
      }
      var started := if job.startedAt.Some? then job.startedAt else Some(now);
      var stages := UpdateStages(job.stages, stageId, (s: Stage) => s.(status := Running, startedAt := Some(now)));
      job := job.(status := Running, currentStage := Some(stageId), startedAt := started);
      job := job.(stages := stages, updatedAt := now);
      assert stages == StageStarted(store[id], stageId, now).stages;
      store := store[id := job];
      return Some(job);
    }

    method CompleteStage(id: JobId, stageId: string, partial: Option<string>, now: int) returns (r: Option<Job>)
      modifies this
      ensures Step(old(store), Event(Op.CompleteStage(id, stageId, partial), now, None), store)
      ensures r.Some? <==> id in old(store)
      ensures store == if r.Some? then old(store)[id := r.value] else old(store)
      ensures r.Some? && old(store[id].status) == Cancelled ==> store == old(store)
      ensures r.Some? && old(store[id].status) != Cancelled ==>
        && r.value == old(store[id]).(updatedAt := now, stages := r.value.stages,
             partialResult := if partial.Some? then partial else old(store[id].partialResult))
        && OneStageChanged(old(store[id].stages), r.value.stages, stageId, (s: Stage) =>
             s.(status := Completed, completedAt := Some(now), partialResult := partial))
    {
      if id !in store {
        return None;
      }
      var job := store[id];
      if job.status == Cancelled {
        assert store == store[id := job];
        return Some(job);
      }
      var stages := UpdateStages(job.stages, stageId,
        (s: Stage) => s.(status := Completed, completedAt := Some(now), partialResult := partial));
      assert stages == StageCompleted(store[id], stageId, partial, now).stages;
      job := job.(stages := stages, updatedAt := now);
      if partial.Some? {
        job := job.(partialResult := partial);
      }
      store := store[id := job];
      return Some(job);
    }

    /** Neither of the next three operations looks at the status or at the lease owner. */
    method Complete(id: JobId, result: Option<string>, now: int) returns (r: Option<Job>)
      modifies this
      ensures Step(old(store), Event(Op.Complete(id, result), now, None), store)
      ensures r.Some? <==> id in old(store)
      ensures store == if r.Some? then old(store)[id := r.value] else old(store)
      ensures r.Some? ==> r.value == old(store[id]).(status := Completed, result := result, completedAt := Some(now),
        leaseOwner := None, leaseUntil := None, updatedAt := now)
    {
      if id !in store {
        return None;
      }
      var job := store[id].(status := Completed, result := result, completedAt := Some(now));
      job := job.(leaseOwner := None, leaseUntil := None, updatedAt := now);
      store := store[id := job];
      return Some(job);
    }

    method Fail(id: JobId, error: string, now: int) returns (r: Option<Job>)
      modifies this
      ensures Step(old(store), Event(Op.Fail(id, error), now, None), store)
      ensures r.Some? <==> id in old(store)
      ensures store == if r.Some? then old(store)[id := r.value] else old(store)
      ensures r.Some? ==> r.value == old(store[id]).(status := Partial, error := Some(error),
        resumeFromStage := old(store[id].currentStage), leaseOwner := None, leaseUntil := None, updatedAt := now)
    {
      if id !in store {
        return None;
      }
      var job := store[id].(status := Partial, error := Some(error), resumeFromStage := store[id].currentStage);
      job := job.(leaseOwner := None, leaseUntil := None, updatedAt := now);
      store := store[id := job];
      return Some(job);
    }

    method MarkFailed(id: JobId, error: string, now: int) returns (r: Option<Job>)
      modifies this
      ensures Step(old(store), Event(Op.MarkFailed(id, error), now, None), store)
      ensures r.Some? <==> id in old(store)
      ensures store == if r.Some? then old(store)[id := r.value] else old(store)
      ensures r.Some? ==> r.value == old(store[id]).(status := Failed, error := Some(error), completedAt := Some(now),
        resumeFromStage := old(store[id].currentStage), leaseOwner := None, leaseUntil := None, updatedAt := now)
    {
      if id !in store {
        return None;
      }
      var job := store[id].(status := Failed, error := Some(error), resumeFromStage := store[id].currentStage);
      job := job.(completedAt := Some(now), leaseOwner := None, leaseUntil := None, updatedAt := now);
      store := store[id := job];
      return Some(job);
    }

    method Cancel(id: JobId, reason: string, now: int) returns (r: Option<Job>)
      modifies this
      ensures Step(old(store), Event(Op.Cancel(id, reason), now, None), store)
      ensures r.Some? <==> id in old(store)
      ensures store == if r.Some? then old(store)[id := r.value] else old(store)
      ensures r.Some? ==> r.value == if old(store[id].status) in {Completed, Cancelled} then old(store[id])
        else old(store[id]).(status := Cancelled, error := Some(reason), cancelledAt := Some(now),
                             completedAt := Some(now), leaseOwner := None, leaseUntil := None, updatedAt := now)
    {
      if id !in store {
        return None;
      }
      var job := store[id];
      if job.status == Completed || job.status == Cancelled {
        assert store == store[id := job];
        return Some(job);
      }
      job := job.(status := Cancelled, error := Some(reason), cancelledAt := Some(now), completedAt := Some(now));
      job := job.(leaseOwner := None, leaseUntil := None, updatedAt := now);
      store := store[id := job];
      return Some(job);
    }

    /**
     * Hands the first candidate in claim order to `owner`: a queued job or one whose lease has run
     * out. Nothing is returned only when there is no candidate.
     */
    method ClaimNextJobWithLease(owner: string, leaseMs: int, jobType: Option<string>, now: int)
      returns (r: Option<Job>)
      requires forall id :: id in store ==> store[id].id == id
      modifies this
      ensures r.Some? ==>
        var e := Event(Claim(owner, leaseMs, jobType), now, Some(Grant(r.value.id, owner, now + leaseMs)));
        Step(old(store), e, store)
      ensures r.None? ==> Step(old(store), Event(Claim(owner, leaseMs, jobType), now, None), store)
      ensures r.None? ==> forall id :: id in store ==> !Waits(store[id], jobType, now)
      ensures r.Some? ==> OldestWaiting(old(store), r.value.id, jobType, now)
      ensures r.Some? ==> store == old(store)[r.value.id := r.value]
      ensures r.Some? ==>
        var was := old(store)[r.value.id];
        r.value == was.(status := Running, leaseOwner := Some(owner), leaseUntil := Some(now + leaseMs),
             startedAt := Some(if was.startedAt.Some? then was.startedAt.value else now), updatedAt := now,
             error := if was.status == Running then None else was.error)
    {
      var rest := store.Keys;
      var next: Option<JobId> := None;
      while rest != {}
        invariant rest <= store.Keys
        invariant next.Some? ==> next.value in store && Candidate(store[next.value], jobType, now)
        invariant forall id :: id in store && id !in rest && Candidate(store[id], jobType, now) ==>
          next.Some? && ClaimsBefore(store[next.value], store[id])
      {
        var id :| id in rest;
        rest := rest - {id};
        if Candidate(store[id], jobType, now) && (next.None? || !ClaimsBefore(store[next.value], store[id])) {
          next := Some(id);
        }
      }
      if next.None? {
        ClaimGrantsOldest(store, Event(Claim(owner, leaseMs, jobType), now, None), store);
        return None;
      }
      FirstIsOldest(store, next.value, jobType, now);
      var reread := store[next.value];
      var startedAt := if reread.startedAt.Some? then reread.startedAt else Some(now);
      var job := reread.(status := Running, startedAt := startedAt);
      job := job.(leaseOwner := Some(owner), leaseUntil := Some(now + leaseMs), updatedAt := now);
      if reread.status == Running {
        job := job.(error := None);
      }
      store := store[next.value := job];
      return Some(job);
    }

    /** Refused for a job that another owner holds; a no-op for a job that is not running. */
    method HeartbeatLease(id: JobId, owner: string, leaseMs: int, now: int) returns (r: Option<Job>)
      modifies this
      ensures var granted := id in old(store) && HeartbeatAccepted(old(store)[id], owner);
        Step(old(store), Event(Heartbeat(id, owner, leaseMs), now,
                               if granted then Some(Grant(id, owner, now + leaseMs)) else None), store)
      ensures r.None? <==> id !in store || (old(store[id].status) == Running && !Admits(old(store[id]), owner))
      ensures r.Some? ==> r.value == store[id]
      ensures id in store && old(store[id].status) == Running && Admits(old(store[id]), owner) ==>
        store[id] == old(store[id]).(leaseOwner := Some(owner), leaseUntil := Some(now + leaseMs), updatedAt := now)
      ensures id in store && (old(store[id].status) != Running || !Admits(old(store[id]), owner)) ==>
        store == old(store)
    {
      if id !in store {
        return None;
      }
      var job := store[id];
      if job.status != Running {
        assert store == store[id := job];
        return Some(job);
      }
      if job.leaseOwner.Some? && job.leaseOwner.value != "" && job.leaseOwner.value != owner {
        assert store == store[id := job];
        return None;
      }
      job := job.(leaseOwner := Some(owner), leaseUntil := Some(now + leaseMs), updatedAt := now);
      store := store[id := job];
      return Some(job);
    }

    /** Turns every running job whose lease ran out, or that ran too long, into a partial one. */
    method RecoverStuckJobs(jobType: Option<string>, maxAgeMs: int, now: int) returns (recovered: nat)
      modifies this
      ensures Step(old(store), Event(Recover(jobType, maxAgeMs), now, None), store)
      ensures recovered == |RecoveredIds(old(store), {}, jobType, maxAgeMs, now)|
      ensures store.Keys == old(store).Keys && recovered == |set id | id in store && store[id] != old(store)[id]|
      ensures forall id :: id in store ==> store[id] == Swept(old(store)[id], jobType, maxAgeMs, now)
    {
      recovered := 0;
      var rest := store.Keys;
      ghost var before := store;
      NothingLeft(before, jobType, maxAgeMs, now);
      while rest != {}
        invariant rest <= before.Keys
        invariant store == RecoveredSoFar(before, rest, jobType, maxAgeMs, now)
        invariant recovered == |RecoveredIds(before, rest, jobType, maxAgeMs, now)|
      {
        var id :| id in rest;
        RecoveredIdsStep(before, rest, id, jobType, maxAgeMs, now);
        RecoveredOneMore(before, rest, id, jobType, maxAgeMs, now);
        rest := rest - {id};
        var job := store[id];
        if Recoverable(job, jobType, maxAgeMs, now) {
          job := job.(status := Partial, error := Some(LostMessage), resumeFromStage := job.currentStage);
          job := job.(leaseOwner := None, leaseUntil := None, updatedAt := now);
          store := store[id := job];
          recovered := recovered + 1;
        }
      }
      SweepMeaning(before, jobType, maxAgeMs, now);
    }

    method Retry(id: JobId, now: int) returns (r: Option<Job>)
      modifies this
      ensures Step(old(store), Event(Op.Retry(id), now, None), store)
      ensures r.Some? <==> id in old(store)
      ensures store == if r.Some? then old(store)[id := r.value] else old(store)
      ensures r.Some? && old(store[id].status) in {Cancelled, Running, Queued} ==> r.value == old(store[id])
      ensures r.Some? && old(store[id].status) !in {Cancelled, Running, Queued} ==>
        && r.value == old(store[id]).(status := Queued, retryCount := old(store[id].retryCount) + 1, updatedAt := now,
             error := None, completedAt := None, cancelledAt := None, currentStage := None, result := None,
             partialResult := None, resumeFromStage := None, leaseOwner := None, leaseUntil := None,
             stages := r.value.stages)
        && |r.value.stages| == |old(store[id].stages)|
        && forall i :: 0 <= i < |r.value.stages| ==>
             var was := old(store[id].stages)[i];
             r.value.stages[i] == Stage(was.id, was.caption, Queued, None, None, None)
    {
      if id !in store {
        return None;
      }
      var job := store[id];
      if job.status == Cancelled || job.status == Running || job.status == Queued {
        assert store == store[id := job];
        return Some(job);
      }
      var stages := [];
      for i := 0 to |job.stages|
        invariant |stages| == i
        invariant forall j :: 0 <= j < i ==>
          stages[j] == Stage(job.stages[j].id, job.stages[j].caption, Queued, None, None, None)
      {
        stages := stages + [Stage(job.stages[i].id, job.stages[i].caption, Queued, None, None, None)];
      }
      assert stages == JobRetried(job, now).stages;
      job := job.(status := Queued, error := None, retryCount := job.retryCount + 1);
      job := job.(completedAt := None, cancelledAt := None);
      job := job.(currentStage := None, stages := stages, result := None, partialResult := None,
        resumeFromStage := None);
      job := job.(leaseOwner := None, leaseUntil := None, updatedAt := now);
      store := store[id := job];
      return Some(job);
    }
  }
}
