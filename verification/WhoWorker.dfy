/**
 * The worker itself: its four stages, a whole run on one job, and the claim of the next job. The service's store
 * and the persisted ledger are changed in place; `WhoRun` says what a run must make of them.
 */
module WhoWorker {
  import opened Common
  import opened CanonicalJson
  import opened JsonFiles
  import opened JsonValue
  import opened AuditLedger
  import opened Jobs
  import opened WhoRun

  const StageLeaseMs := 90000

  class Worker {
    const jobs: CaspaJobService
    const audit: WhoAudit
    var workerId: string

    constructor (jobs: CaspaJobService, audit: WhoAudit, workerId: string)
      ensures this.jobs == jobs && this.audit == audit && this.workerId == workerId
    {
      this.jobs, this.audit, this.workerId := jobs, audit, workerId;
    }

    ghost predicate Ready()
      reads this, audit
    {
      audit.Valid() && Ideal(audit.h)
    }

    // ---------------------------------------------------------------- the ledger

    /** One ledger entry about the job, under whatever the file system does. */
    method Record(action: string, metadata: Json, fault: AppendFault, w: World, resourceType: string,
                  resourceId: string, ghost note: Note) returns (ok: bool)
      requires Ready() && WellFormed(metadata) && !metadata.Undefined?
      requires forall at :: Filed(EntryInput(w.request.actorId, action, resourceType, resourceId, at, Some(metadata)))
                         == LineOf(w, note, at)
      modifies audit
      ensures Ready()
      ensures ok <==> fault == NoFault
      ensures Grew(old(audit.Chain()), audit.Chain(), note, fault, IsJson(metadata), w, audit.h)
    {
      var occurredAt: string := *;
      ghost var before := audit.Chain();
      var input := EntryInput(w.request.actorId, action, resourceType, resourceId, occurredAt, Some(metadata));
      var r := audit.Append(input, fault);
      if fault != BeforeSave {
        OneMoreStored(before, input, note, w, audit.h);
      }
      ok := r.Success?;
    }

    /** The ledger entry of the `catch` block; a failing append is ignored. */
    method CloseBroken(w: World, message: string, ghost e: World, ghost ending: Ending, ghost notes: seq<Note>,
                       ghost before: seq<Entry>)
      requires Ready() && ending.Broke? && ending.message == message
      requires e.closingFault == w.closingFault && e.request == w.request
      requires LedgerStep(before, audit.Chain(), notes, e, audit.h)
      modifies audit
      ensures Ready() && LedgerStep(before, audit.Chain(), notes + Closing(e, ending), e, audit.h)
    {
      ghost var middle := audit.Chain();
      var action := if LooksDenied(message) then "who.denied" else "who.failed";
      ghost var note := ClosingNote(message);
      ClosingLine(w, message, action);
      var ok := Record(action, ClosingMetadata(w.request.caseRef, message), w.closingFault, w, "who.job",
                       w.request.jobId, note);
      ClosingEntry(w, e, note, Closing(e, ending), middle, audit.Chain(), audit.h);
      LedgerTwice(before, middle, audit.Chain(), notes, Closing(e, ending), e, audit.h);
    }

    // ---------------------------------------------------------------- the work of the four stages

    method AuthorizeCase(w: World) returns (error: Option<string>)
      requires Ready()
      modifies audit
      ensures Ready() && error == WorkOf(w, 0).1
      ensures LedgerStep(old(audit.Chain()), audit.Chain(), WorkOf(w, 0).0, w, audit.h)
    {
      if w.policy.Failure? {
        return Some(w.policy.error);
      }
      ghost var before := audit.Chain();
      RequestedIsGood(w.request.q, w.request.caseRef);
      RoundTripOfJson(RequestedMetadata(w.request.q, w.request.caseRef));
      var ok := Record("who.requested", RequestedMetadata(w.request.q, w.request.caseRef), w.requestedFault, w,
                       "who.job", w.request.jobId, NoteRequested);
      StageRecords(w, 0, before, audit.Chain(), audit.h);
      return if ok then None else Some(w.ledgerError);
    }

    method Discover(id: JobId, w: World, ghost cancelled: bool, ghost first: Job) returns (error: Option<string>)
      requires id in jobs.store && InStage(jobs.store[id], id, 1, first, cancelled)
      modifies jobs
      ensures OnlyJobChanged(old(jobs.store), jobs.store, id) && InStage(jobs.store[id], id, 1, first, cancelled)
      ensures error == WorkOf(w, 1).1
    {
      Beat(id, 1, cancelled, first);
      return if w.lookup.Failure? then Some(w.lookup.error) else None;
    }

    method StoreDossier(w: World) returns (error: Option<string>)
      requires Ready()
      modifies audit
      ensures Ready() && error == WorkOf(w, 2).1
      ensures LedgerStep(old(audit.Chain()), audit.Chain(), WorkOf(w, 2).0, w, audit.h)
    {
      if w.dossier.Failure? {
        return Some(w.dossier.error);
      }
      if w.index.Failure? {
        return Some(w.index.error);
      }
      ghost var before := audit.Chain();
      var dossier := w.dossier.value;
      WrittenIsGood(w.request.caseRef, dossier, w.request.jobId);
      RoundTripOfJson(WrittenMetadata(w.request.caseRef, dossier, w.request.jobId));
      var ok := Record("dossier.written", WrittenMetadata(w.request.caseRef, dossier, w.request.jobId), w.writtenFault,
                       w, "who.dossier", dossier.id, NoteWritten);
      StageRecords(w, 2, before, audit.Chain(), audit.h);
      return if ok then None else Some(w.ledgerError);
    }

    method RecordCompletion(w: World) returns (error: Option<string>)
      requires Ready() && w.lookup.Success? && w.dossier.Success?
      modifies audit
      ensures Ready() && error == WorkOf(w, 3).1
      ensures LedgerStep(old(audit.Chain()), audit.Chain(), WorkOf(w, 3).0, w, audit.h)
    {
      ghost var before := audit.Chain();
      var metadata := CompletedMetadata(w.request.caseRef, w.dossier.value, w.lookup.value);
      CompletedMetadataIsGood(w.request.caseRef, w.dossier.value, w.lookup.value);
      CompletedIsFiled(w, "");
      var ok := Record("who.completed", metadata, w.completedFault, w, "who.job", w.request.jobId, NoteCompleted);
      StageRecords(w, 3, before, audit.Chain(), audit.h);
      return if ok then None else Some(w.ledgerError);
    }

    /** The work of one stage: calls to the outside world and at most one ledger entry. */
    method DoWork(id: JobId, k: nat, w: World, ghost cancelled: bool,
                  ghost first: Job) returns (error: Option<string>)
      requires Ready() && k < 4 && id in jobs.store && InStage(jobs.store[id], id, k, first, cancelled)
      requires k >= 2 ==> w.lookup.Success?
      requires k == 3 ==> w.dossier.Success?
      modifies jobs, audit
      ensures Ready() && OnlyJobChanged(old(jobs.store), jobs.store, id)
      ensures InStage(jobs.store[id], id, k, first, cancelled)
      ensures error == WorkOf(w, k).1
      ensures LedgerStep(old(audit.Chain()), audit.Chain(), WorkOf(w, k).0, w, audit.h)
    {
      LedgerUnchanged(audit.Chain(), w, audit.h);
      if k == 0 {
        error := AuthorizeCase(w);
      } else if k == 1 {
        error := Discover(id, w, cancelled, first);
      } else if k == 2 {
        error := StoreDossier(w);
      } else {
        error := RecordCompletion(w);
      }
    }

    // ---------------------------------------------------------------- one stage

    /** The operator's cancellation, when the world puts it at this point. */
    method OperatorActs(id: JobId, here: bool)
      requires id in jobs.store && jobs.store[id].id == id
      modifies jobs
      ensures Operated(old(jobs.store), jobs.store, id, here)
    {
      if here {
        var now: int := *;
        ghost var before := jobs.store;
        var r := jobs.Cancel(id, "Cancelled by operator", now);
        OperatorCancels(before, jobs.store, id, "Cancelled by operator", now);
      }
    }

    /** The operator's cancellation inside a stage. */
    method OperatorActsInside(id: JobId, k: nat, here: bool, ghost cancelled: bool, ghost first: Job)
      requires id in jobs.store && InStage(jobs.store[id], id, k, first, cancelled)
      modifies jobs
      ensures OnlyJobChanged(old(jobs.store), jobs.store, id)
      ensures InStage(jobs.store[id], id, k, first, cancelled || here)
    {
      ghost var before := jobs.store;
      OperatorActs(id, here);
      ActsInStage(before, jobs.store, id, k, first, cancelled, here);
    }

    /** A heartbeat of the worker, whose answer nobody looks at. */
    method Beat(id: JobId, k: nat, ghost cancelled: bool, ghost first: Job)
      requires id in jobs.store && InStage(jobs.store[id], id, k, first, cancelled)
      modifies jobs
      ensures OnlyJobChanged(old(jobs.store), jobs.store, id) && InStage(jobs.store[id], id, k, first, cancelled)
    {
      var now: int := *;
      ghost var before := jobs.store;
      var beat := jobs.HeartbeatLease(id, workerId, StageLeaseMs, now);
      ghost var grant :=
        if HeartbeatAccepted(before[id], workerId) then Some(Grant(id, workerId, now + StageLeaseMs)) else None;
      BeatsInStage(before, id, k, first, cancelled, workerId, StageLeaseMs,
                   Event(Heartbeat(id, workerId, StageLeaseMs), now, grant), jobs.store);
    }

    /**
     * From the first look to the work: the stage starts and the lease is renewed. The operator may act before either.
     */
    method BeginStage(id: JobId, k: nat, actsBeforeStart: bool, actsBeforeBeat: bool, ghost first: Job)
      requires k < 4 && id in jobs.store && jobs.store[id].id == id && DonePrefix(jobs.store[id], k, first)
      requires jobs.store[id].status != Cancelled
      modifies jobs
      ensures OnlyJobChanged(old(jobs.store), jobs.store, id)
      ensures InStage(jobs.store[id], id, k, first,
                      (actsBeforeStart && old(jobs.store)[id].status != Completed) || actsBeforeBeat)
    {
      ghost var cancelled := actsBeforeStart && jobs.store[id].status != Completed;
      OperatorActs(id, actsBeforeStart);
      var now: int := *;
      ghost var before := jobs.store;
      var started := jobs.StartStage(id, StageIds[k], now);
      BeginsStage(before, id, k, first, now, jobs.store);
      OperatorActsInside(id, k, actsBeforeBeat, cancelled, first);
      Beat(id, k, cancelled || actsBeforeBeat, first);
    }

    /** The stage up to the second look. An operator who acts in between may do so at any spot. */
    method WorkStage(id: JobId, k: nat, w: World, ghost e: World,
                     ghost first: Job) returns (error: Option<string>)
      requires Ready() && k < 4 && id in jobs.store && Startable(e, w, k, id, jobs.store[id], first)
      requires (k >= 2 ==> w.lookup.Success?) && (k == 3 ==> w.dossier.Success?)
      modifies jobs, audit
      ensures Ready() && OnlyJobChanged(old(jobs.store), jobs.store, id)
      ensures InStage(jobs.store[id], id, k, first, e.cancelAt == Some(During(k))) && error == WorkOf(e, k).1
      ensures LedgerStep(old(audit.Chain()), audit.Chain(), WorkOf(e, k).0, e, audit.h)
    {
      EffectiveWork(e, w, k, jobs.store[id].status);
      ghost var chain := audit.Chain();
      var acts := w.cancelAt == Some(During(k));
      ghost var cancelled := StartStage(id, k, acts, w.spot, first);
      error := DoWork(id, k, w, cancelled, first);
      OperatorActsInside(id, k, acts && w.spot > 2, cancelled, first);
      SameLookupSameStep(chain, audit.Chain(), WorkOf(w, k).0, w, e, audit.h);
    }

    /** The part of the stage before its work. */
    method StartStage(id: JobId, k: nat, acts: bool, spot: nat, ghost first: Job) returns (ghost cancelled: bool)
      requires k < 4 && id in jobs.store && jobs.store[id].id == id && DonePrefix(jobs.store[id], k, first)
      requires jobs.store[id].status != Cancelled
      modifies jobs
      ensures OnlyJobChanged(old(jobs.store), jobs.store, id) && InStage(jobs.store[id], id, k, first, cancelled)
      ensures cancelled <==> acts && spot <= 2 && !(spot == 0 && old(jobs.store)[id].status == Completed)
    {
      cancelled := acts && spot == 0 && jobs.store[id].status != Completed;
      BeginStage(id, k, acts && spot == 0, acts && spot == 1, first);
      cancelled := cancelled || (acts && spot == 1);
      OperatorActsInside(id, k, acts && spot == 2, cancelled, first);
      cancelled := cancelled || (acts && spot == 2);
    }

    /** The mark of a stage nobody was seen to cancel; the operator may act before it. */
    method EndStage(id: JobId, k: nat, acts: bool, ghost e: World, ghost first: Job)
      requires k < 4 && id in jobs.store && InStage(jobs.store[id], id, k, first, false)
      requires acts <==> e.cancelAt == Some(Unmarked(k))
      modifies jobs
      ensures OnlyJobChanged(old(jobs.store), jobs.store, id)
      ensures jobs.store[id].id == id && Entering(e, k + 1, jobs.store[id], first)
    {
      OperatorActsInside(id, k, acts, false, first);
      var now: int := *;
      ghost var before := jobs.store;
      var completed := jobs.CompleteStage(id, StageIds[k], Some(StageIds[k]), now);
      EndsStage(before, e, id, k, first, StageIds[k], now, jobs.store);
    }

    /** One call of `stage`; `e` is the world as far as it has an effect. */
    method RunStage(id: JobId, k: nat, w: World, ghost e: World,
                    ghost first: Job) returns (thrown: Option<Thrown>)
      requires Ready() && k < 4 && id in jobs.store && jobs.store[id].id == id && Entering(e, k, jobs.store[id], first)
      requires IsEffective(e, w, k, jobs.store[id].status)
      requires (k >= 2 ==> w.lookup.Success?) && (k == 3 ==> w.dossier.Success?)
      modifies jobs, audit
      ensures Ready() && OnlyJobChanged(old(jobs.store), jobs.store, id)
      ensures StageOver(e, k, id, thrown, jobs.store[id], first)
      ensures LedgerStep(old(audit.Chain()), audit.Chain(), StageActions(e, k), e, audit.h)
    {
      LedgerUnchanged(audit.Chain(), e, audit.h);
      ghost var before := jobs.store;
      OperatorActs(id, w.cancelAt == Some(Before(k)));
      FirstLook(e, w, k, id, before, jobs.store, first);
      if jobs.store[id].status == Cancelled {
        return Some(JobCancelledError);
      }
      EffectiveWork(e, w, k, jobs.store[id].status);
      var error := WorkStage(id, k, w, e, first);
      SecondLook(e, k, id, jobs.store[id], error, first);
      if error.Some? {
        return Some(WorkError(error.value));
      }
      if jobs.store[id].status == Cancelled {
        return Some(JobCancelledError);
      }
      EndStage(id, k, w.cancelAt == Some(Unmarked(k)), e, first);
      return None;
    }

    // ---------------------------------------------------------------- a whole run

    /** One stage of the `try` block, with the run so far. */
    method NextStage(id: JobId, k: nat, w: World, ghost e: World,
                     ghost ledger: seq<Entry>, ghost store: Store, ghost soFar: seq<Note>)
      returns (thrown: Option<Thrown>, ghost actions: seq<Note>)
      requires Ready() && k < 4
      requires Going(id, k, w, e, audit.h, ledger, store, audit.Chain(), jobs.store, soFar)
      modifies jobs, audit
      ensures Ready()
      ensures thrown.None? ==> Going(id, k + 1, w, e, audit.h, ledger, store, audit.Chain(), jobs.store, actions)
      ensures thrown.Some? ==> RunOver(id, e, audit.h, ledger, store, audit.Chain(), jobs.store, thrown)
    {
      EffectiveWork(e, w, k, jobs.store[id].status);
      ghost var chain, jobsThen := audit.Chain(), jobs.store;
      thrown := RunStage(id, k, w, e, store[id]);
      actions := soFar + StageActions(e, k);
      StageGoesOn(id, k, e, audit.h, ledger, store, soFar, chain, jobsThen, audit.Chain(), jobs.store, thrown);
      if thrown.None? {
        GoesOn(id, k, w, e, audit.h, ledger, store, soFar, chain, jobsThen, audit.Chain(), jobs.store, actions);
      }
    }

    /** The body of the `try` block: the four stages in order, up to the first that throws. */
    method RunStages(id: JobId, w: World) returns (thrown: Option<Thrown>)
      requires Ready() && id in jobs.store && jobs.store[id].id == id && WhoStages(jobs.store[id].stages)
      requires jobs.store[id].status != Cancelled
      modifies jobs, audit
      ensures Ready()
      ensures RunOver(id, Effective(w, old(jobs.store)[id].status), audit.h, old(audit.Chain()), old(jobs.store),
                      audit.Chain(), jobs.store, thrown)
    {
      ghost var ledger, store, actions := audit.Chain(), jobs.store, [];
      ghost var e := Effective(w, jobs.store[id].status);
      RunBegins(id, w, audit.h, ledger, store);
      thrown := None;
      for k := 0 to 4
        invariant Ready() && thrown == None
        invariant Going(id, k, w, e, audit.h, ledger, store, audit.Chain(), jobs.store, actions)
      {
        thrown, actions := NextStage(id, k, w, e, ledger, store, actions);
        if thrown.Some? {
          return;
        }
      }
      AllStagesOver(id, e, audit.h, ledger, store, audit.Chain(), jobs.store, actions);
    }

    /**
     * A whole run on a job with the four stages, whatever its status and whatever its stages have seen. A job that is
     * cancelled already is left alone. Any other job ends completed, cancelled or failed as the world decides,
     * without a lease; the stages whose mark was reached are completed and those after them untouched; the ledger is
     * extended by exactly the recorded actions; and a valid ledger stays valid exactly if the lookup was archived or
     * the completion did not get into the ledger.
     */
    method ProcessWhoJob(id: JobId, w: World)
      returns (final: Job)
      requires Ready() && id in jobs.store && jobs.store[id].id == id && WhoStages(jobs.store[id].stages)
      requires w.request.jobId == id
      modifies jobs, audit
      ensures Ready() && OnlyJobChanged(old(jobs.store), jobs.store, id)
      ensures id in jobs.store && final == jobs.store[id] && final.id == id
      ensures old(jobs.store)[id].status == Cancelled ==>
        jobs.store == old(jobs.store) && audit.Chain() == old(audit.Chain())
      ensures old(jobs.store)[id].status != Cancelled ==>
        RunLeaves(Effective(w, old(jobs.store)[id].status), final, old(jobs.store)[id], old(audit.Chain()),
                  audit.Chain(), audit.h)
    {
      if jobs.store[id].status == Cancelled {
        return jobs.store[id];
      }
      ghost var chain, first, e := audit.Chain(), jobs.store[id], Effective(w, jobs.store[id].status);
      var thrown := RunStages(id, w);
      LedgerStaysValidIff(e);
      assert RunFrom(e, 0).1 + [] == RunFrom(e, 0).1;
      if thrown == Some(JobCancelledError) {
        return jobs.store[id];
      }
      if thrown.None? {
        final := Finish(id, w, e, first);
      } else {
        CloseBroken(w, thrown.value.message, e, RunFrom(e, 0).0, RunFrom(e, 0).1, chain);
        final := GiveUp(id, w, thrown.value.message, e, first);
      }
    }

    /** After the last stage nobody looks any more: the job is completed even if the operator cancelled it. */
    method Finish(id: JobId, w: World, ghost e: World, ghost first: Job) returns (final: Job)
      requires StagesEnd(e, id, None, jobs.store, first) && e.request == w.request
      modifies jobs
      ensures OnlyJobChanged(old(jobs.store), jobs.store, id)
      ensures id in jobs.store && final == jobs.store[id] && final.id == id && JobEnded(final, e, first)
    {
      var now: int := *;
      ghost var before := jobs.store;
      OperatorActs(id, w.cancelAt == Some(Before(4)));
      CancelKeepsEnd(id, e, None, first, w.cancelAt == Some(Before(4)), before, jobs.store);
      before := jobs.store;
      var done := jobs.Complete(id, Some(w.request.result), now);
      CompletedEnd(id, e, first, now, before, jobs.store);
      return done.value;
    }

    /** The job is marked failed, even if the operator cancelled it since the throw. */
    method GiveUp(id: JobId, w: World, message: string, ghost e: World, ghost first: Job) returns (final: Job)
      requires StagesEnd(e, id, Some(WorkError(message)), jobs.store, first)
      modifies jobs
      ensures OnlyJobChanged(old(jobs.store), jobs.store, id)
      ensures id in jobs.store && final == jobs.store[id] && final.id == id && JobEnded(final, e, first)
    {
      var now: int := *;
      ghost var before := jobs.store;
      OperatorActs(id, w.cancelAt == Some(AfterThrow));
      CancelKeepsEnd(id, e, Some(WorkError(message)), first, w.cancelAt == Some(AfterThrow), before, jobs.store);
      before := jobs.store;
      var failed := jobs.MarkFailed(id, message, now);
      FailedEnd(id, e, first, message, now, before, jobs.store);
      return failed.value;
    }

    /**
     * Claims the next lookup job and runs it. Nothing changes exactly when no lookup job waits; otherwise the one
     * created first, queued or with an expired lease, ends as a whole run on it does.
     */
    method RunWhoWorkerOnce(generatedId: string, leaseMs: int, claimedAt: int, w: World) returns (final: Option<Job>)
      requires Ready() && WhoShaped(jobs.store)
      modifies this, jobs, audit
      ensures Ready() && WhoShaped(jobs.store)
      ensures final.None? ==> jobs.store == old(jobs.store) && audit.Chain() == old(audit.Chain())
      ensures final.None? <==> forall id :: id in old(jobs.store) ==>
        !Waits(old(jobs.store)[id], Some("who.lookup"), claimedAt)
      ensures final.Some? ==>
        && OldestWaiting(old(jobs.store), final.value.id, Some("who.lookup"), claimedAt)
        && OnlyJobChanged(old(jobs.store), jobs.store, final.value.id) && final.value == jobs.store[final.value.id]
        && RunLeaves(ForJob(w, final.value.id), final.value, old(jobs.store)[final.value.id], old(audit.Chain()),
                     audit.Chain(), audit.h)
    {
      if workerId == "" {
        workerId := "who-" + generatedId;
      }
      ghost var before := jobs.store;
      var claimed := jobs.ClaimNextJobWithLease(workerId, leaseMs, Some(WhoJobType), claimedAt);
      if claimed.None? {
        return None;
      }
      var id := claimed.value.id;
      ClaimedIsWho(before, id, workerId, leaseMs, claimedAt, jobs.store);
      ghost var given := jobs.store[id];
      var done := ProcessWhoJob(id, ForJob(w, id));
      SameEnd(done, ForJob(w, id), given, before[id]);
      EndKeepsShape(before, jobs.store, id, ForJob(w, id), before[id]);
      return Some(done);
    }
  }
}
