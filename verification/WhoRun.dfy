/**
 * A run of the worker that takes a lookup job through its four stages and records it in the persisted
 * audit ledger. What the outside world answers - the policy check, the lookup, the dossier store, the file
 * system under the ledger, and an operator who may cancel - is a parameter, `World`.
 */
module WhoRun {
  import opened Common
  import opened CanonicalJson
  import opened JsonFiles
  import opened JsonValue
  import opened AuditLedger
  import opened Jobs

  const WhoJobType := "who.lookup"
  const StageIds := ["policy", "discover", "dossier", "audit"]

  /** What a run can record in the ledger; the last two close a broken run. */
  datatype Note =
    NoteRequested | NoteWritten | NoteCompleted | NoteDenied(message: string) | NoteFailed(message: string)

  /** The notes of an undisturbed run, in order. */
  const MainNotes := [NoteRequested, NoteWritten, NoteCompleted]

  datatype Lookup = Lookup(archiveId: Option<string>, confirmed: int, checked: int)

  datatype Dossier = Dossier(id: string, entityId: string)

  /** What a run is asked to do, and the result it has to show for it if nothing stops it. */
  datatype Request = Request(jobId: JobId, actorId: string, caseRef: string, q: string, result: string)

  /**
   * When the operator cancels: just before a stage looks at the job (stage 4: after the last stage, before the
   * job is completed), between the two looks of a stage, after its second look but before it is marked completed,
   * or after an error was thrown but before the job is marked failed. Between the two looks there are several spots:
   * 0 is before the stage is started, 1 before the lease is renewed, 2 before the work and any other after it.
   */
  datatype CancelPoint = Before(stage: nat) | During(stage: nat) | Unmarked(stage: nat) | AfterThrow

  datatype World = World(
    request: Request,
    policy: Result<(), string>,
    lookup: Result<Lookup, string>,
    dossier: Result<Dossier, string>,
    index: Result<(), string>,
    requestedFault: AppendFault, writtenFault: AppendFault, completedFault: AppendFault, closingFault: AppendFault,
    ledgerError: string,
    cancelAt: Option<CancelPoint>, spot: nat)

  /** What a stage can throw. */
  datatype Thrown = JobCancelledError | WorkError(message: string)

  /** How a run ends: all stages done, stopped by the operator, or broken by an error, in a given stage. */
  datatype Ending = Finished | Stopped(stage: nat) | Broke(stage: nat, message: string)

  // ------------------------------------------------------------------ classification of errors

  function LowerChar(c: char): char {
    if 'A' <= c <= 'Z' then (c as int + 32) as char else c
  }

  predicate StartsWithIgnoringCase(text: string, word: string) {
    |word| <= |text| && forall i :: 0 <= i < |word| ==> LowerChar(text[i]) == word[i]
  }

  predicate ContainsIgnoringCase(text: string, word: string) {
    exists i :: 0 <= i <= |text| && StartsWithIgnoringCase(text[i..], word)
  }

  predicate LooksDenied(message: string) {
    || ContainsIgnoringCase(message, "denied")
    || ContainsIgnoringCase(message, "authorization")
    || ContainsIgnoringCase(message, "case")
  }

  function ClosingNote(message: string): Note {
    if LooksDenied(message) then NoteDenied(message) else NoteFailed(message)
  }

  /** The text holds the word, each letter small or capital. */
  ghost predicate HoldsWord(text: string, word: string) {
    exists i: nat :: WordAt(text, word, i)
  }

  ghost predicate WordAt(text: string, word: string, i: nat) {
    i + |word| <= |text| && forall k :: 0 <= k < |word| ==> text[i + k] in {word[k], Capital(word[k])}
  }

  function Capital(letter: char): char {
    if 'a' <= letter <= 'z' then letter - 'a' + 'A' else letter
  }

  lemma ContainsMeaning(text: string, word: string)
    requires forall k :: 0 <= k < |word| ==> 'a' <= word[k] <= 'z'
    ensures ContainsIgnoringCase(text, word) <==> HoldsWord(text, word)
  {
    if i :| 0 <= i <= |text| && StartsWithIgnoringCase(text[i..], word) {
      forall k | 0 <= k < |word| ensures text[i + k] in {word[k], Capital(word[k])} {
        assert text[i..][k] == text[i + k] && LowerChar(text[i..][k]) == word[k];
      }
      assert WordAt(text, word, i);
    }
    if i: nat :| WordAt(text, word, i) {
      forall k | 0 <= k < |word| ensures LowerChar(text[i..][k]) == word[k] {
        assert text[i..][k] == text[i + k];
      }
      assert StartsWithIgnoringCase(text[i..], word);
    }
  }

  /** A broken run is closed as denied if and only if its error holds one of three words, in any capitalisation. */
  lemma DeniedMeaning(message: string)
    ensures ClosingNote(message) == NoteDenied(message) <==>
      HoldsWord(message, "denied") || HoldsWord(message, "authorization") || HoldsWord(message, "case")
    ensures ClosingNote(message) in {NoteDenied(message), NoteFailed(message)}
  {
    ContainsMeaning(message, "denied");
    ContainsMeaning(message, "authorization");
    ContainsMeaning(message, "case");
  }

  // ------------------------------------------------------------------ what the work of a stage does

  function LedgerWork(note: Note, fault: AppendFault, w: World): (seq<Note>, Option<string>) {
    match fault
    case NoFault => ([note], None)
    case BeforeSave => ([], Some(w.ledgerError))
    case AfterSave => ([note], Some(w.ledgerError))
  }

  /** What the work of stage `k` records, and the error it throws, if any. */
  function WorkOf(w: World, k: nat): (seq<Note>, Option<string>)
    requires k < 4
  {
    if k == 0 then
      if w.policy.Failure? then ([], Some(w.policy.error)) else LedgerWork(NoteRequested, w.requestedFault, w)
    else if k == 1 then
      if w.lookup.Failure? then ([], Some(w.lookup.error)) else ([], None)
    else if k == 2 then
      if w.dossier.Failure? then ([], Some(w.dossier.error))
      else if w.index.Failure? then ([], Some(w.index.error))
      else LedgerWork(NoteWritten, w.writtenFault, w)
    else LedgerWork(NoteCompleted, w.completedFault, w)
  }

  /** The operator cancels before the first stage is started. */
  predicate CancelsBeforeStart(w: World) {
    w.cancelAt == Some(Before(0)) || (w.cancelAt == Some(During(0)) && w.spot == 0)
  }

  /** A completed job cannot be cancelled until the first stage has set it running again. */
  function Effective(w: World, status: Status): World {
    if status == Completed && CancelsBeforeStart(w) then w.(cancelAt := None) else w
  }

  /** `e` is the effective world of a run that is about to enter stage `k`, where the job has this status. */
  ghost predicate IsEffective(e: World, w: World, k: nat, status: Status) {
    if k == 0 then e == Effective(w, status)
    else e == w || (CancelsBeforeStart(w) && e == w.(cancelAt := None))
  }

  lemma EffectiveWork(e: World, w: World, k: nat, status: Status)
    requires k < 4 && IsEffective(e, w, k, status)
    ensures WorkOf(e, k) == WorkOf(w, k) && e.lookup == w.lookup && e.dossier == w.dossier && e.request == w.request
    ensures w.cancelAt == Some(Unmarked(k)) <==> e.cancelAt == Some(Unmarked(k))
    ensures (status == Completed ==> k == 0) ==>
      (e.cancelAt == Some(During(k)) <==>
         w.cancelAt == Some(During(k)) && !(w.spot == 0 && status == Completed))
  {
  }

  /** When stage `k` first looks at the job, it is cancelled already. */
  predicate CancelledBy(w: World, k: nat) {
    w.cancelAt == Some(Before(k)) || (k > 0 && w.cancelAt == Some(Unmarked(k - 1)))
  }

  /** The rest of a run from stage `k` on: how it ends and what it records before any closing entry. */
  function RunFrom(w: World, k: nat): (Ending, seq<Note>)
    requires k <= 4
    decreases 4 - k, w
  {
    if k == 4 then (Finished, [])
    else if CancelledBy(w, k) then (Stopped(k), [])
    else
      var work := WorkOf(w, k);
      if work.1.Some? then (Broke(k, work.1.value), work.0)
      else if w.cancelAt == Some(During(k)) then (Stopped(k), work.0)
      else
        var rest := RunFrom(w, k + 1);
        (rest.0, work.0 + rest.1)
  }

  /** The entry that closes a broken run, unless the ledger refuses it. */
  function Closing(w: World, ending: Ending): seq<Note> {
    if ending.Broke? && w.closingFault != BeforeSave then [ClosingNote(ending.message)] else []
  }

  /** All that a run leaves in the ledger, the closing entry included. */
  function Recorded(w: World): seq<Note> {
    var run := RunFrom(w, 0);
    run.1 + Closing(w, run.0)
  }

  /** Nothing in the world goes wrong. */
  predicate AllWell(w: World) {
    && w.policy.Success? && w.lookup.Success? && w.dossier.Success? && w.index.Success?
    && w.requestedFault == NoFault && w.writtenFault == NoFault && w.completedFault == NoFault
  }

  /** The stage that looks next after the operator cancels; 4 if none does. */
  function SeenAt(p: CancelPoint): nat {
    match p
    case Before(k) => k
    case During(k) => k
    case Unmarked(k) => k + 1
    case AfterThrow => 4
  }

  /** The operator cancels at a point after which some stage looks. */
  predicate CancelSeen(w: World) {
    w.cancelAt.Some? && SeenAt(w.cancelAt.value) < 4
  }

  function StageAction(k: nat): seq<Note> {
    if k == 0 then [NoteRequested]
    else if k == 2 then [NoteWritten]
    else if k == 3 then [NoteCompleted]
    else []
  }

  /** The main actions that the stages from `a` up to but not including `b` record. */
  function ActionsBetween(a: nat, b: nat): seq<Note>
    requires a <= b <= 4
    decreases b - a
  {
    if a == b then [] else StageAction(a) + ActionsBetween(a + 1, b)
  }

  ghost predicate RecordsUpTo(acts: seq<Note>, k: nat, stage: nat) {
    k <= stage < 4 && (acts == ActionsBetween(k, stage) || acts == ActionsBetween(k, stage + 1))
  }

  lemma WorkRecordsStageAction(w: World, k: nat)
    requires k < 4
    ensures WorkOf(w, k).0 == StageAction(k) || (WorkOf(w, k).1.Some? && WorkOf(w, k).0 == [])
  {
  }

  lemma OneStage(k: nat)
    requires k < 4
    ensures ActionsBetween(k, k) == [] && ActionsBetween(k, k + 1) == StageAction(k)
  {
    assert StageAction(k) + [] == StageAction(k);
  }

  lemma StageThenRest(k: nat, stage: nat, acts: seq<Note>)
    requires RecordsUpTo(acts, k + 1, stage)
    ensures RecordsUpTo(StageAction(k) + acts, k, stage)
  {
  }

  lemma {:induction false} RunFromPrefix(w: World, k: nat)
    requires k <= 4
    ensures RunFrom(w, k).0.Finished? ==> RunFrom(w, k).1 == ActionsBetween(k, 4)
    ensures !RunFrom(w, k).0.Finished? ==> RecordsUpTo(RunFrom(w, k).1, k, RunFrom(w, k).0.stage)
    decreases 4 - k
  {
    if k < 4 {
      var (ending, acts) := RunFrom(w, k + 1);
      RunFromPrefix(w, k + 1);
      WorkRecordsStageAction(w, k);
      OneStage(k);
      if !ending.Finished? {
        StageThenRest(k, ending.stage, acts);
      }
    }
  }

  lemma {:induction false} RunFinishes(w: World, k: nat)
    requires k <= 4
    ensures AllWell(w) && !CancelSeen(w) ==> RunFrom(w, k).0.Finished?
    ensures RunFrom(w, k).0.Finished? ==> forall i :: k <= i < 4 ==> WorkOf(w, i).1.None?
    decreases 4 - k
  {
    if k < 4 {
      RunFinishes(w, k + 1);
    }
  }

  /**
   * Every run ends in one of three ways. It finishes exactly when nothing goes wrong and no stage sees
   * a cancellation, with requested, written and completed recorded in that order. Otherwise it stops or
   * breaks in some stage, with the actions of the stages before it - and possibly of that stage -
   * recorded, and a broken run adds one closing entry unless the ledger refuses it.
   */
  lemma RunEndsCleanly(w: World)
    ensures var ending := RunFrom(w, 0).0;
      && (ending.Finished? <==> AllWell(w) && !CancelSeen(w))
      && (ending.Finished? ==> Recorded(w) == MainNotes)
      && (ending.Stopped? ==> ending.stage < 4 && CancelSeen(w))
      && (ending.Broke? ==> ending.stage < 4 && !AllWell(w))
      && (!ending.Finished? ==> exists acts ::
            RecordsUpTo(acts, 0, ending.stage) && Recorded(w) == acts + Closing(w, ending))
  {
    var run := RunFrom(w, 0);
    RunFromPrefix(w, 0);
    RunFinishes(w, 0);
    RunReasons(w, 0);
    if run.0.Finished? {
      AllWorkDone(w);
      assert ActionsBetween(0, 4) == MainNotes;
      assert Recorded(w) == MainNotes;
    } else {
      assert RecordsUpTo(run.1, 0, run.0.stage) && Recorded(w) == run.1 + Closing(w, run.0);
    }
  }

  /** What can go wrong in a run, in the order in which it is met, with the stage and the error thrown. */
  function Problems(w: World): seq<(nat, Option<string>)> {
    [(0, if w.policy.Failure? then Some(w.policy.error) else None),
     (0, if w.requestedFault == NoFault then None else Some(w.ledgerError)),
     (1, if w.lookup.Failure? then Some(w.lookup.error) else None),
     (2, if w.dossier.Failure? then Some(w.dossier.error) else None),
     (2, if w.index.Failure? then Some(w.index.error) else None),
     (2, if w.writtenFault == NoFault then None else Some(w.ledgerError)),
     (3, if w.completedFault == NoFault then None else Some(w.ledgerError))]
  }

  /** The `i`-th problem, in this stage and with this error, is met and none of those between `from` and it. */
  ghost predicate MeetsProblem(w: World, from: nat, i: nat, stage: nat, error: string) {
    && i < |Problems(w)| && Problems(w)[i] == (stage, Some(error))
    && forall j :: 0 <= j < i && Problems(w)[j].0 >= from ==> Problems(w)[j].1.None?
  }

  lemma ProblemOfStage(w: World, k: nat)
    requires k < 4
    ensures WorkOf(w, k).1.Some? ==> exists i: nat :: MeetsProblem(w, k, i, k, WorkOf(w, k).1.value)
    ensures WorkOf(w, k).1.None? ==> forall j :: 0 <= j < 7 && Problems(w)[j].0 == k ==> Problems(w)[j].1.None?
  {
    var all := Problems(w);
    assert all[0].0 == all[1].0 == 0 && all[2].0 == 1 && all[3].0 == all[4].0 == all[5].0 == 2 && all[6].0 == 3;
    if error :| WorkOf(w, k).1 == Some(error) {
      var first := [0, 2, 3, 6][k];
      var i: nat :| first <= i < 7 && all[i] == (k, Some(error)) && forall j :: first <= j < i ==> all[j].1.None?;
      assert MeetsProblem(w, k, i, k, error);
    }
  }

  /** A run breaks at the first thing that goes wrong, with its error. */
  lemma {:induction false} BreaksAtFirstProblem(w: World, k: nat)
    requires k <= 4 && forall j :: 0 <= j < 7 && Problems(w)[j].0 < k ==> Problems(w)[j].1.None?
    ensures var ending := RunFrom(w, k).0;
      ending.Broke? ==> exists i: nat :: MeetsProblem(w, 0, i, ending.stage, ending.message)
    decreases 4 - k
  {
    if k < 4 {
      ProblemOfStage(w, k);
      if WorkOf(w, k).1.None? {
        BreaksAtFirstProblem(w, k + 1);
      } else {
        var i: nat :| MeetsProblem(w, k, i, k, WorkOf(w, k).1.value);
        assert MeetsProblem(w, 0, i, k, WorkOf(w, k).1.value);
      }
    }
  }

  lemma AllWorkDone(w: World)
    requires forall i :: 0 <= i < 4 ==> WorkOf(w, i).1.None?
    ensures AllWell(w)
  {
    assert WorkOf(w, 0).1.None? && WorkOf(w, 1).1.None? && WorkOf(w, 2).1.None? && WorkOf(w, 3).1.None?;
  }

  lemma {:induction false} RunReasons(w: World, k: nat)
    requires k <= 4
    ensures RunFrom(w, k).0.Finished? ==> !CancelSeen(w) || SeenAt(w.cancelAt.value) < k
    ensures RunFrom(w, k).0.Stopped? ==> CancelSeen(w)
    ensures RunFrom(w, k).0.Broke? ==> !AllWell(w)
    decreases 4 - k
  {
    if k < 4 {
      RunReasons(w, k + 1);
    }
  }

  // ------------------------------------------------------------------ the job during a run

  /** These are the four stages, whatever has become of them. */
  ghost predicate WhoStages(stages: seq<Stage>) {
    |stages| == 4 && forall i :: 0 <= i < 4 ==> stages[i].id == StageIds[i]
  }

  /** What no run changes in a job. */
  ghost predicate SameRequest(job: Job, first: Job) {
    && job.id == first.id && job.userId == first.userId && job.projectId == first.projectId
    && job.jobType == first.jobType && job.payload == first.payload && job.retryCount == first.retryCount
    && job.createdAt == first.createdAt
  }

  /**
   * The first `k` stages are marked completed, stage `k` may be running, and those after it are as they were in
   * `first`, the job before the run; so is its result.
   */
  ghost predicate DonePrefix(job: Job, k: nat, first: Job) {
    && SameRequest(job, first) && job.result == first.result && MarkedUpTo(job.stages, k, first.stages)
  }

  ghost predicate MarkedUpTo(stages: seq<Stage>, k: nat, first: seq<Stage>) {
    && WhoStages(stages) && WhoStages(first)
    && (forall i :: 0 <= i < 4 && i < k ==> stages[i].status == Completed)
    && (k < 4 ==> stages[k] == first[k] || stages[k].status == Running)
    && (forall i :: k < i < 4 ==> stages[i] == first[i])
  }

  /**
   * The number of stages marked completed when stage `k` is reached: one less if the operator cancelled before the
   * mark.
   */
  function Marks(w: World, k: nat): nat {
    if k > 0 && w.cancelAt == Some(Unmarked(k - 1)) then k - 1 else k
  }

  function StageOf(ending: Ending): nat {
    if ending.Finished? then 4 else ending.stage
  }

  ghost predicate OnlyJobChanged(before: Store, after: Store, id: JobId) {
    && after.Keys == before.Keys
    && forall other :: other in before && other != id ==> after[other] == before[other]
  }

  /** The status of the job at the end. */
  function FinalStatus(ending: Ending): Status {
    match ending
    case Finished => Completed
    case Stopped(_) => Cancelled
    case Broke(_, _) => Failed
  }

  /** The job a run leaves behind, when it was `first` at the start. */
  ghost predicate JobEnded(job: Job, w: World, first: Job) {
    var ending := RunFrom(w, 0).0;
    && job.leaseOwner == None && job.leaseUntil == None && job.status == FinalStatus(ending)
    && (ending.Broke? ==> job.error == Some(ending.message))
    && SameRequest(job, first) && MarkedUpTo(job.stages, Marks(w, StageOf(ending)), first.stages)
    && job.completedAt.Some?
    && job.result == if ending.Finished? then Some(w.request.result) else first.result
  }

  /** On a job that starts with all stages queued, exactly the marked stages are completed. */
  lemma FreshJobEnded(job: Job, w: World, first: Job)
    requires JobEnded(job, w, first) && forall i :: 0 <= i < |first.stages| ==> first.stages[i].status == Queued
    ensures forall i :: 0 <= i < 4 ==> (job.stages[i].status == Completed <==> i < Marks(w, StageOf(RunFrom(w, 0).0)))
  {
  }

  // ------------------------------------------------------------------ the fate of a cancellation

  /** No work of the first `k` stages throws. */
  predicate NoThrowBefore(w: World, k: nat) {
    forall i :: 0 <= i < k && i < 4 ==> WorkOf(w, i).1.None?
  }

  /** The run gets to the point where the operator cancels. */
  ghost predicate CancelReached(w: World) {
    w.cancelAt.Some? &&
    match w.cancelAt.value
    case Before(k) => k <= 4 && NoThrowBefore(w, k)
    case During(k) => k < 4 && NoThrowBefore(w, k)
    case Unmarked(k) => k < 4 && NoThrowBefore(w, k + 1)
    case AfterThrow => !NoThrowBefore(w, 4)
  }

  /** Some stage looks at the job afterwards, and the work that the cancellation interrupts, if any, returns. */
  predicate Honoured(w: World)
    requires w.cancelAt.Some?
  {
    match w.cancelAt.value
    case Before(k) => k < 4
    case During(k) => k < 4 && WorkOf(w, k).1.None?
    case Unmarked(k) => k < 3
    case AfterThrow => false
  }

  /** The run up to stage `k`, when nothing stopped it before, is the run from there. */
  lemma {:induction false} ReachesStage(w: World, j: nat, k: nat)
    requires j <= k <= 4 && NoThrowBefore(w, k)
    requires forall i :: j <= i < k ==> !CancelledBy(w, i) && w.cancelAt != Some(During(i))
    ensures RunFrom(w, j).0 == RunFrom(w, k).0
    decreases k - j
  {
    if j < k {
      assert WorkOf(w, j).1.None?;
      ReachesStage(w, j + 1, k);
    }
  }

  lemma {:induction false} SomeStageThrows(w: World, k: nat)
    requires k <= 4 && NoThrowBefore(w, k) && !NoThrowBefore(w, 4) && w.cancelAt == Some(AfterThrow)
    ensures RunFrom(w, k).0.Broke?
    decreases 4 - k
  {
    if WorkOf(w, k).1.None? {
      SomeStageThrows(w, k + 1);
    }
  }

  /**
   * A cancellation that the run gets to ends the job cancelled exactly if some stage still looks at the job and
   * the work it interrupts returns. It is lost in two ways: to a throw, which ends the job failed, and after the
   * last look, when the job ends completed.
   */
  lemma CancellationFate(w: World)
    requires CancelReached(w)
    ensures FinalStatus(RunFrom(w, 0).0) == Cancelled <==> Honoured(w)
    ensures FinalStatus(RunFrom(w, 0).0) == Completed <==>
      w.cancelAt == Some(Before(4)) || w.cancelAt == Some(Unmarked(3))
  {
    match w.cancelAt.value
    case Before(k) => ReachesStage(w, 0, k);
    case During(k) => ReachesStage(w, 0, k);
    case Unmarked(k) => ReachesStage(w, 0, k + 1);
    case AfterThrow => SomeStageThrows(w, 0);
  }

  /** A cancellation that the run does not get to changes nothing. */
  lemma {:induction false} UnreachedCancellation(w: World, k: nat)
    requires k <= 4 && NoThrowBefore(w, k) && !CancelReached(w)
    ensures RunFrom(w, k) == RunFrom(w.(cancelAt := None), k)
    decreases 4 - k
  {
    if k < 4 {
      assert WorkOf(w, k) == WorkOf(w.(cancelAt := None), k);
      if WorkOf(w, k).1.None? {
        UnreachedCancellation(w, k + 1);
      }
    }
  }

  // ------------------------------------------------------------------ the ledger during a run

  /** What the lookup says for the record. */
  function CompletedMembers(w: World): seq<Member<Json>> {
    if w.lookup.Failure? then []
    else
      var archive := w.lookup.value.archiveId;
      (if archive.Some? then [Member("archiveId", String(archive.value))] else [])
      + [Member("confirmed", Number(Decimal(w.lookup.value.confirmed))),
         Member("checked", Number(Decimal(w.lookup.value.checked)))]
  }

  function DossierOf(w: World): Dossier {
    if w.dossier.Success? then w.dossier.value else Dossier("", "")
  }

  /** The line that a note is in the ledger, written at this time: who, what, on which resource, and the details. */
  function LineOf(w: World, note: Note, at: string): EntryInput {
    var r := w.request;
    match note
    case NoteRequested => EntryInput(r.actorId, "who.requested", "who.job", r.jobId, at,
      Some(Object([Member("q", String(r.q)), Member("caseRef", String(r.caseRef))])))
    case NoteWritten => EntryInput(r.actorId, "dossier.written", "who.dossier", DossierOf(w).id, at,
      Some(Object([Member("caseRef", String(r.caseRef)), Member("entityId", String(DossierOf(w).entityId)),
                   Member("jobId", String(r.jobId))])))
    case NoteCompleted => EntryInput(r.actorId, "who.completed", "who.job", r.jobId, at,
      Some(Object([Member("caseRef", String(r.caseRef)), Member("dossierId", String(DossierOf(w).id))]
                  + CompletedMembers(w))))
    case NoteDenied(message) => EntryInput(r.actorId, "who.denied", "who.job", r.jobId, at,
      Some(Object([Member("caseRef", String(r.caseRef)), Member("error", String(message))])))
    case NoteFailed(message) => EntryInput(r.actorId, "who.failed", "who.job", r.jobId, at,
      Some(Object([Member("caseRef", String(r.caseRef)), Member("error", String(message))])))
  }

  /** The entry records this note. */
  ghost predicate Notes(e: Entry, note: Note, w: World) {
    e.input == LineOf(w, note, e.input.occurredAt)
  }

  /** The ledger is longer by entries that record these notes. */
  ghost predicate Extends(before: seq<Entry>, after: seq<Entry>, notes: seq<Note>, w: World) {
    && |after| == |before| + |notes|
    && after[..|before|] == before
    && forall i :: 0 <= i < |notes| ==> Notes(after[|before| + i], notes[i], w)
  }

  lemma ExtendsTwice(a: seq<Entry>, b: seq<Entry>, c: seq<Entry>, s: seq<Note>, t: seq<Note>, w: World)
    requires Extends(a, b, s, w) && Extends(b, c, t, w)
    ensures Extends(a, c, s + t, w)
  {
    assert c[..|a|] == c[..|b|][..|a|];
    forall i | 0 <= i < |s + t| ensures Notes(c[|a| + i], (s + t)[i], w) {
      if i < |s| {
        assert c[|a| + i] == c[..|b|][|a| + i];
      } else {
        assert c[|a| + i] == c[|b| + (i - |s|)];
      }
    }
  }

  /** What an input is once it is read back from the file. */
  function Filed(input: EntryInput): EntryInput {
    if input.metadata.Some? then input.(metadata := Some(RoundTrip(input.metadata.value))) else input
  }

  lemma OneMoreStored(before: seq<Entry>, input: EntryInput, note: Note, w: World, h: Hashing)
    requires Ideal(h) && GoodInput(input) && input.metadata.Some? && !input.metadata.value.Undefined?
    requires Filed(input) == LineOf(w, note, input.occurredAt)
    ensures var after := before + [StoredEntry(before, input, h)];
      Extends(before, after, [note], w) && (Chained(after, h) <==> Chained(before, h) && Clean(input))
  {
    var e := StoredEntry(before, input, h);
    StoredEntryFits(before, input, h);
    ChainedAppend(before, e, h);
    assert e.input == Filed(input);
    assert Notes(e, note, w);
  }

  /** The one ledger entry of a run that may carry an undefined value: a completion without an archive. */
  ghost predicate SoundActions(w: World, notes: seq<Note>) {
    NoteCompleted in notes ==> w.lookup.Success? && w.lookup.value.archiveId.Some?
  }

  function TextMember(key: string, value: string): Member<Json> {
    Member(key, String(value))
  }

  function RequestedMetadata(q: string, caseRef: string): Json {
    Object([TextMember("q", q), TextMember("caseRef", caseRef)])
  }

  function WrittenMetadata(caseRef: string, dossier: Dossier, jobId: JobId): Json {
    Object([TextMember("caseRef", caseRef), TextMember("entityId", dossier.entityId), TextMember("jobId", jobId)])
  }

  /** The archive id is undefined when the lookup result was not archived. */
  function CompletedMetadata(caseRef: string, dossier: Dossier, lookup: Lookup): Json {
    Object([TextMember("caseRef", caseRef), TextMember("dossierId", dossier.id),
            Member("archiveId", if lookup.archiveId.Some? then String(lookup.archiveId.value) else Undefined),
            Member("confirmed", Number(Decimal(lookup.confirmed))), Member("checked", Number(Decimal(lookup.checked)))])
  }

  function ClosingMetadata(caseRef: string, message: string): Json {
    Object([TextMember("caseRef", caseRef), TextMember("error", message)])
  }

  lemma OneIsFiled(m: Member<Json>)
    ensures RoundTripMembers([m]) == if m.value.Undefined? then [] else [Member(m.key, RoundTrip(m.value))]
  {
    assert [m][1..] == [];
  }

  lemma FiledInParts(first: seq<Member<Json>>, middle: Member<Json>, others: seq<Member<Json>>)
    requires forall m :: m in first ==> IsJson(m.value)
    requires forall m :: m in others ==> IsJson(m.value)
    ensures RoundTripMembers(first + [middle] + others) ==
      first + (if middle.value.Undefined? then [] else [Member(middle.key, RoundTrip(middle.value))]) + others
  {
    RoundTripConcat(first + [middle], others);
    RoundTripConcat(first, [middle]);
    RoundTripOfMembers(first);
    RoundTripOfMembers(others);
    OneIsFiled(middle);
  }

  /** Read back from the file, a completion has the archive id if there is one. */
  lemma CompletedIsFiled(w: World, at: string)
    requires w.lookup.Success? && w.dossier.Success?
    ensures RoundTrip(CompletedMetadata(w.request.caseRef, w.dossier.value, w.lookup.value))
      == LineOf(w, NoteCompleted, at).metadata.value
  {
    var archive := w.lookup.value.archiveId;
    var first := [Member("caseRef", String(w.request.caseRef)), Member("dossierId", String(w.dossier.value.id))];
    var middle := Member("archiveId", if archive.Some? then String(archive.value) else Undefined);
    var others := [Member("confirmed", Number(Decimal(w.lookup.value.confirmed))),
                   Member("checked", Number(Decimal(w.lookup.value.checked)))];
    FiledInParts(first, middle, others);
    assert CompletedMetadata(w.request.caseRef, w.dossier.value, w.lookup.value).members == first + [middle] + others;
    FiledParts(first, if archive.Some? then [middle] else [], others);
    assert CompletedMembers(w) == (if archive.Some? then [middle] else []) + others;
  }

  lemma FiledParts<T>(a: seq<T>, b: seq<T>, c: seq<T>)
    ensures a + b + c == a + (b + c)
  {
  }

  lemma RequestedIsGood(q: string, caseRef: string)
    ensures WellFormed(RequestedMetadata(q, caseRef)) && IsJson(RequestedMetadata(q, caseRef))
  {
    NamesInAnyOrder(RequestedMetadata(q, caseRef).members);
  }

  lemma WrittenIsGood(caseRef: string, dossier: Dossier, jobId: JobId)
    ensures WellFormed(WrittenMetadata(caseRef, dossier, jobId)) && IsJson(WrittenMetadata(caseRef, dossier, jobId))
  {
    NamesInAnyOrder(WrittenMetadata(caseRef, dossier, jobId).members);
  }

  lemma ClosingIsGood(caseRef: string, message: string)
    ensures WellFormed(ClosingMetadata(caseRef, message)) && IsJson(ClosingMetadata(caseRef, message))
  {
    NamesInAnyOrder(ClosingMetadata(caseRef, message).members);
  }

  lemma CompletedKeys(caseRef: string, dossier: Dossier, lookup: Lookup)
    ensures var ms := CompletedMetadata(caseRef, dossier, lookup).members; DistinctKeys(ms) && Enumerable(ms)
  {
    var ms := CompletedMetadata(caseRef, dossier, lookup).members;
    NamesInAnyOrder(ms);
    forall i, j | 0 <= i < j < |ms| ensures ms[i].key != ms[j].key {
      assert |ms[i].key| != |ms[j].key| || ms[i].key[0] != ms[j].key[0] || ms[i].key[1] != ms[j].key[1];
    }
  }

  lemma CompletedMetadataIsGood(caseRef: string, dossier: Dossier, lookup: Lookup)
    ensures WellFormed(CompletedMetadata(caseRef, dossier, lookup))
    ensures IsJson(CompletedMetadata(caseRef, dossier, lookup)) <==> lookup.archiveId.Some?
  {
    DecimalIsToken(lookup.confirmed);
    DecimalIsToken(lookup.checked);
    var ms := CompletedMetadata(caseRef, dossier, lookup).members;
    CompletedKeys(caseRef, dossier, lookup);
    assert ms[2] in ms;
  }

  // ------------------------------------------------------------------ the state between stages

  /** What the job looks like when stage `k` is about to look at it. */
  ghost predicate Entering(w: World, k: nat, job: Job, first: Job) {
    && DonePrefix(job, Marks(w, k), first)
    && (if Marks(w, k) < k then Resting(job) else job.status != Cancelled && (job.status == Completed ==> k == 0))
  }

  /** The first `k` stages of a run that began with this ledger and these jobs are over. */
  ghost predicate InRun(id: JobId, k: nat, w: World, h: Hashing, ledger: seq<Entry>, store: Store,
                        ledgerNow: seq<Entry>, storeNow: Store, soFar: seq<Note>)
  {
    && id in store && id in storeNow && storeNow[id].id == id && Entering(w, k, storeNow[id], store[id])
    && OnlyJobChanged(store, storeNow, id)
    && LedgerStep(ledger, ledgerNow, soFar, w, h)
    && Reached(w, k, soFar)
    && (k >= 2 ==> w.lookup.Success?) && (k >= 3 ==> w.dossier.Success?)
  }

  /** The stages of that run are over, with this exception or none. */
  ghost predicate RunOver(id: JobId, w: World, h: Hashing, ledger: seq<Entry>, store: Store,
                          ledgerNow: seq<Entry>, storeNow: Store, thrown: Option<Thrown>)
  {
    && OnlyJobChanged(store, storeNow, id)
    && LedgerStep(ledger, ledgerNow, RunFrom(w, 0).1, w, h)
    && id in store && StagesEnd(w, id, thrown, storeNow, store[id])
  }

  lemma {:induction false} AllStagesOver(id: JobId, w: World, h: Hashing, ledger: seq<Entry>, store: Store,
                      ledgerNow: seq<Entry>, storeNow: Store, soFar: seq<Note>)
    requires InRun(id, 4, w, h, ledger, store, ledgerNow, storeNow, soFar)
    ensures RunOver(id, w, h, ledger, store, ledgerNow, storeNow, None)
  {
    assert soFar + [] == soFar;
  }

  lemma RunBegins(id: JobId, w: World, h: Hashing, ledger: seq<Entry>, store: Store)
    requires id in store && store[id].id == id && WhoStages(store[id].stages)
    requires store[id].status != Cancelled
    ensures Going(id, 0, w, Effective(w, store[id].status), h, ledger, store, ledger, store, [])
  {
    var e := Effective(w, store[id].status);
    LedgerUnchanged(ledger, e, h);
    assert [] + RunFrom(e, 0).1 == RunFrom(e, 0).1;
  }

  /** The ledger grew by `actions`, and is still valid exactly if it was and the actions are sound. */
  ghost predicate LedgerStep(before: seq<Entry>, after: seq<Entry>, actions: seq<Note>, w: World, h: Hashing) {
    && Extends(before, after, actions, w)
    && (Chained(after, h) <==> Chained(before, h) && SoundActions(w, actions))
  }

  lemma LedgerUnchanged(a: seq<Entry>, w: World, h: Hashing)
    ensures LedgerStep(a, a, [], w, h)
  {
  }

  lemma SameLine(w: World, e: World, note: Note, at: string)
    requires e.request == w.request
    requires note.NoteDenied? || note.NoteFailed? || (e.lookup == w.lookup && e.dossier == w.dossier)
    ensures LineOf(e, note, at) == LineOf(w, note, at)
  {
  }

  lemma SameNotes(w: World, e: World, notes: seq<Note>, before: seq<Entry>, after: seq<Entry>)
    requires Extends(before, after, notes, w) && e.request == w.request
    requires (e.lookup == w.lookup && e.dossier == w.dossier) ||
      forall n :: n in notes ==> n.NoteDenied? || n.NoteFailed?
    ensures Extends(before, after, notes, e)
  {
    forall i | 0 <= i < |notes| ensures Notes(after[|before| + i], notes[i], e) {
      assert Notes(after[|before| + i], notes[i], w);
      SameLine(w, e, notes[i], after[|before| + i].input.occurredAt);
    }
  }

  /** When the operator cancels does not show in the entries. */
  lemma SameLookupSameStep(before: seq<Entry>, after: seq<Entry>, actions: seq<Note>, w: World, e: World, h: Hashing)
    requires LedgerStep(before, after, actions, w, h)
    requires e.lookup == w.lookup && e.dossier == w.dossier && e.request == w.request
    ensures LedgerStep(before, after, actions, e, h)
  {
    SameNotes(w, e, actions, before, after);
  }

  lemma {:induction false} LedgerTwice(a: seq<Entry>, b: seq<Entry>, c: seq<Entry>, s: seq<Note>, t: seq<Note>,
                                       w: World, h: Hashing)
    requires LedgerStep(a, b, s, w, h) && LedgerStep(b, c, t, w, h)
    ensures LedgerStep(a, c, s + t, w, h)
  {
    ExtendsTwice(a, b, c, s, t, w);
    assert NoteCompleted in s + t <==> NoteCompleted in s || NoteCompleted in t;
  }

  /** The ledger grew by an entry unless the append failed before the save; `fine` if the metadata is JSON. */
  ghost predicate Grew(before: seq<Entry>, after: seq<Entry>, note: Note, fault: AppendFault, fine: bool, w: World,
                       h: Hashing)
  {
    && Extends(before, after, if fault == BeforeSave then [] else [note], w)
    && (Chained(after, h) <==> Chained(before, h) && (fault == BeforeSave || fine))
  }

  function FaultOf(w: World, k: nat): AppendFault {
    if k == 0 then w.requestedFault else if k == 2 then w.writtenFault else w.completedFault
  }

  /** The entry of a stage whose calls to the outside world went well. */
  lemma StageRecords(w: World, k: nat, before: seq<Entry>, after: seq<Entry>, h: Hashing)
    requires k in {0, 2, 3} && (k == 0 ==> w.policy.Success?) && (k == 2 ==> w.dossier.Success? && w.index.Success?)
    requires Grew(before, after, StageAction(k)[0], FaultOf(w, k), k == 3 ==> Archived(w), w, h)
    ensures LedgerStep(before, after, WorkOf(w, k).0, w, h)
    ensures WorkOf(w, k).1 == if FaultOf(w, k) == NoFault then None else Some(w.ledgerError)
  {
  }

  /** What the `catch` block hands to the ledger is the line of the closing note. */
  lemma ClosingLine(w: World, message: string, action: string)
    requires action == if LooksDenied(message) then "who.denied" else "who.failed"
    ensures WellFormed(ClosingMetadata(w.request.caseRef, message))
    ensures IsJson(ClosingMetadata(w.request.caseRef, message))
    ensures var metadata := Some(ClosingMetadata(w.request.caseRef, message));
      forall at :: LineOf(w, ClosingNote(message), at)
                == Filed(EntryInput(w.request.actorId, action, "who.job", w.request.jobId, at, metadata))
  {
    ClosingIsGood(w.request.caseRef, message);
    RoundTripOfJson(ClosingMetadata(w.request.caseRef, message));
  }

  /** The entry that closes a broken run. */
  lemma ClosingEntry(w: World, e: World, note: Note, notes: seq<Note>, before: seq<Entry>, after: seq<Entry>,
                     h: Hashing)
    requires (note.NoteDenied? || note.NoteFailed?) && e.request == w.request
    requires notes == if w.closingFault == BeforeSave then [] else [note]
    requires Grew(before, after, note, w.closingFault, true, w, h)
    ensures LedgerStep(before, after, notes, e, h)
  {
    SameNotes(w, e, notes, before, after);
  }

  /** The first `k` stages recorded `soFar`, and the rest of the run is the run from stage `k`. */
  ghost predicate Reached(w: World, k: nat, soFar: seq<Note>) {
    k <= 4 && RunFrom(w, 0) == (RunFrom(w, k).0, soFar + RunFrom(w, k).1)
  }

  lemma ReachStep(w: World, k: nat, soFar: seq<Note>)
    requires k < 4 && Reached(w, k, soFar)
    ensures CancelledBy(w, k) || w.cancelAt == Some(During(k)) || WorkOf(w, k).1.Some? ==>
      RunFrom(w, 0) == (RunFrom(w, k).0, soFar + StageActions(w, k))
    ensures !CancelledBy(w, k) && w.cancelAt != Some(During(k)) && WorkOf(w, k).1.None? ==>
      Reached(w, k + 1, soFar + StageActions(w, k))
  {
    ConcatAssociates(soFar, StageActions(w, k), RunFrom(w, k + 1).1);
  }

  /** The actions of one stage of a run, nothing if the operator cancelled before it. */
  function StageActions(w: World, k: nat): seq<Note>
    requires k < 4
  {
    if CancelledBy(w, k) then [] else WorkOf(w, k).0
  }

  /** What was thrown out of the stages, and the job at that point, agree with the ending. */
  ghost predicate StagesEnd(w: World, id: JobId, thrown: Option<Thrown>, store: Store, first: Job) {
    var ending := RunFrom(w, 0).0;
    && id in store && store[id].id == id && DonePrefix(store[id], Marks(w, StageOf(ending)), first)
    && match thrown
       case None => ending.Finished?
       case Some(JobCancelledError) =>
         ending.Stopped? && Resting(store[id])
       case Some(WorkError(message)) => ending.Broke? && ending.message == message
  }

  lemma CompletedEnd(id: JobId, w: World, first: Job, now: int, store: Store, storeNow: Store)
    requires StagesEnd(w, id, None, store, first)
    requires Step(store, Event(Complete(id, Some(w.request.result)), now, None), storeNow)
    ensures OnlyJobChanged(store, storeNow, id) && JobEnded(storeNow[id], w, first)
  {
  }

  lemma FailedEnd(id: JobId, w: World, first: Job, message: string, now: int, store: Store, storeNow: Store)
    requires StagesEnd(w, id, Some(WorkError(message)), store, first)
    requires Step(store, Event(MarkFailed(id, message), now, None), storeNow)
    ensures OnlyJobChanged(store, storeNow, id) && JobEnded(storeNow[id], w, first)
  {
  }

  /** The run is about to enter stage `k`, and `e` is its world as far as it has an effect. */
  ghost predicate Going(id: JobId, k: nat, w: World, e: World, h: Hashing, ledger: seq<Entry>, store: Store,
                        ledgerNow: seq<Entry>, storeNow: Store, soFar: seq<Note>)
  {
    InRun(id, k, e, h, ledger, store, ledgerNow, storeNow, soFar) && IsEffective(e, w, k, storeNow[id].status)
  }

  lemma GoesOn(id: JobId, k: nat, w: World, e: World, h: Hashing, ledger: seq<Entry>, store: Store, soFar: seq<Note>,
               before: seq<Entry>, storeBefore: Store, after: seq<Entry>, storeAfter: Store, actions: seq<Note>)
    requires Going(id, k, w, e, h, ledger, store, before, storeBefore, soFar)
    requires InRun(id, k + 1, e, h, ledger, store, after, storeAfter, actions)
    ensures Going(id, k + 1, w, e, h, ledger, store, after, storeAfter, actions)
  {
  }

  /** What the operator does to the jobs: nothing, or the cancellation of this job. */
  ghost predicate Operated(before: Store, after: Store, id: JobId, here: bool) {
    && id in before && before[id].id == id && OnlyJobChanged(before, after, id)
    && SameRequest(after[id], before[id]) && after[id].stages == before[id].stages
    && after[id].result == before[id].result
    && if here && before[id].status !in {Completed, Cancelled} then Resting(after[id]) else after == before
  }

  /** Cancelled and over, with no lease left. */
  predicate Resting(job: Job) {
    job.status == Cancelled && job.leaseOwner == None && job.leaseUntil == None && job.completedAt.Some?
  }

  lemma OperatorCancels(before: Store, after: Store, id: JobId, reason: string, now: int)
    requires id in before && before[id].id == id && Step(before, Event(Cancel(id, reason), now, None), after)
    ensures Operated(before, after, id, true)
  {
  }

  lemma CancelKeepsEnd(id: JobId, w: World, thrown: Option<Thrown>, first: Job, here: bool, before: Store,
                       after: Store)
    requires StagesEnd(w, id, thrown, before, first) && Operated(before, after, id, here)
    ensures StagesEnd(w, id, thrown, after, first)
  {
  }

  /** A job inside stage `k`, cancelled meanwhile or not. */
  ghost predicate InStage(job: Job, id: JobId, k: nat, first: Job, cancelled: bool) {
    job.id == id && DonePrefix(job, k, first) && if cancelled then Resting(job) else job.status == Running
  }

  lemma ActsInStage(before: Store, after: Store, id: JobId, k: nat, first: Job, cancelled: bool, here: bool)
    requires id in before && InStage(before[id], id, k, first, cancelled) && Operated(before, after, id, here)
    ensures InStage(after[id], id, k, first, cancelled || here)
  {
  }

  lemma BeginsStage(s: Store, id: JobId, k: nat, first: Job, now: int, s': Store)
    requires k < 4 && id in s && s[id].id == id && DonePrefix(s[id], k, first)
    requires Step(s, Event(StartStage(id, StageIds[k]), now, None), s')
    ensures OnlyJobChanged(s, s', id)
    ensures if s[id].status == Cancelled then s' == s else InStage(s'[id], id, k, first, false)
  {
  }

  lemma BeatsInStage(s: Store, id: JobId, k: nat, first: Job, cancelled: bool, owner: string, leaseMs: int,
                     e: Event, s': Store)
    requires id in s && InStage(s[id], id, k, first, cancelled)
    requires e.op == Heartbeat(id, owner, leaseMs) && Step(s, e, s')
    ensures OnlyJobChanged(s, s', id) && InStage(s'[id], id, k, first, cancelled)
  {
  }

  lemma EndsStage(s: Store, w: World, id: JobId, k: nat, first: Job, partial: string, now: int, s': Store)
    requires k < 4 && id in s && InStage(s[id], id, k, first, w.cancelAt == Some(Unmarked(k)))
    requires Step(s, Event(CompleteStage(id, StageIds[k], Some(partial)), now, None), s')
    ensures OnlyJobChanged(s, s', id) && s'[id].id == id && Entering(w, k + 1, s'[id], first)
  {
  }

  /** What a call of stage `k` throws, and what it leaves of the job. */
  ghost predicate StageOver(w: World, k: nat, id: JobId, thrown: Option<Thrown>, job: Job, first: Job)
    requires k < 4
  {
    && job.id == id
    && match thrown
       case None =>
         && !CancelledBy(w, k) && w.cancelAt != Some(During(k)) && WorkOf(w, k).1 == None
         && Entering(w, k + 1, job, first)
       case Some(JobCancelledError) =>
         && (CancelledBy(w, k) || (w.cancelAt == Some(During(k)) && WorkOf(w, k).1 == None))
         && DonePrefix(job, Marks(w, k), first) && Resting(job)
       case Some(WorkError(message)) =>
         !CancelledBy(w, k) && WorkOf(w, k).1 == Some(message) && DonePrefix(job, k, first)
  }

  /** What a stage finds at its first look, after the operator may have acted. */
  lemma FirstLook(e: World, w: World, k: nat, id: JobId, before: Store, after: Store, first: Job)
    requires k < 4 && id in before && Entering(e, k, before[id], first) && IsEffective(e, w, k, before[id].status)
    requires Operated(before, after, id, w.cancelAt == Some(Before(k)))
    ensures CancelledBy(e, k) <==> after[id].status == Cancelled
    ensures CancelledBy(e, k) ==> StageOver(e, k, id, Some(JobCancelledError), after[id], first)
    ensures !CancelledBy(e, k) ==> Startable(e, w, k, id, after[id], first)
  {
  }

  /** The stage can be started on this job. */
  ghost predicate Startable(e: World, w: World, k: nat, id: JobId, job: Job, first: Job) {
    && job.id == id && DonePrefix(job, k, first) && IsEffective(e, w, k, job.status)
    && job.status != Cancelled && (job.status == Completed ==> k == 0)
  }

  /** What a stage finds at its second look, if it gets to it. */
  lemma SecondLook(e: World, k: nat, id: JobId, job: Job, error: Option<string>, first: Job)
    requires k < 4 && !CancelledBy(e, k) && error == WorkOf(e, k).1
    requires InStage(job, id, k, first, e.cancelAt == Some(During(k)))
    ensures error.Some? ==> StageOver(e, k, id, Some(WorkError(error.value)), job, first)
    ensures error.None? && job.status == Cancelled ==> StageOver(e, k, id, Some(JobCancelledError), job, first)
    ensures error.None? && job.status != Cancelled ==>
      e.cancelAt != Some(During(k)) && InStage(job, id, k, first, false)
  {
  }

  /** After stage `k` the run is in its next stage or over. */
  lemma StageGoesOn(id: JobId, k: nat, w: World, h: Hashing, ledger: seq<Entry>, store: Store, soFar: seq<Note>,
                    before: seq<Entry>, storeBefore: Store, after: seq<Entry>, storeAfter: Store,
                    thrown: Option<Thrown>)
    requires k < 4 && InRun(id, k, w, h, ledger, store, before, storeBefore, soFar)
    requires OnlyJobChanged(storeBefore, storeAfter, id) && LedgerStep(before, after, StageActions(w, k), w, h)
    requires StageOver(w, k, id, thrown, storeAfter[id], store[id])
    ensures thrown.None? ==> InRun(id, k + 1, w, h, ledger, store, after, storeAfter, soFar + StageActions(w, k))
    ensures thrown.Some? ==> RunOver(id, w, h, ledger, store, after, storeAfter, thrown)
  {
    LedgerTwice(ledger, before, after, soFar, StageActions(w, k), w, h);
    ReachStep(w, k, soFar);
  }

  // ------------------------------------------------------------------ what a run does to the validity of the ledger

  predicate Archived(w: World) {
    w.lookup.Success? && w.lookup.value.archiveId.Some?
  }

  /** From stage `k` on nothing stops the run before the work of the last stage. */
  predicate ReachesLastWork(w: World, k: nat) {
    && (forall i :: k <= i < 4 ==> !CancelledBy(w, i))
    && (forall i :: k <= i < 3 ==> w.cancelAt != Some(During(i)) && WorkOf(w, i).1.None?)
  }

  /** The completion gets into the ledger: the last stage works, and its append does not fail before the save. */
  predicate CompletionStored(w: World) {
    ReachesLastWork(w, 0) && w.completedFault != BeforeSave
  }

  lemma {:induction false} CompletionRecordedFrom(w: World, k: nat)
    requires k < 4
    ensures NoteCompleted in RunFrom(w, k).1 <==> ReachesLastWork(w, k) && w.completedFault != BeforeSave
    decreases 4 - k
  {
    WorkRecordsStageAction(w, k);
    if k < 3 {
      CompletionRecordedFrom(w, k + 1);
    }
  }

  /**
   * Whatever happens in it, a run leaves a valid ledger valid if and only if the lookup was archived or the
   * completion does not get into the ledger.
   */
  lemma LedgerStaysValidIff(w: World)
    ensures NoteCompleted in Recorded(w) <==> CompletionStored(w)
    ensures SoundActions(w, Recorded(w)) <==> Archived(w) || !CompletionStored(w)
  {
    CompletionRecordedFrom(w, 0);
  }

  /** The same world, asked about this job. */
  function ForJob(w: World, id: JobId): World {
    w.(request := w.request.(jobId := id))
  }

  /** A run in this world left this job, which was `first` before, and this ledger. */
  ghost predicate RunLeaves(w: World, job: Job, first: Job, before: seq<Entry>, after: seq<Entry>, h: Hashing) {
    && JobEnded(job, w, first)
    && Extends(before, after, Recorded(w), w)
    && (Chained(after, h) <==> Chained(before, h) && (Archived(w) || !CompletionStored(w)))
  }

  // ------------------------------------------------------------------ the jobs of the worker

  /** Every lookup job has the four stages. */
  ghost predicate WhoShaped(store: Store) {
    forall id :: id in store ==> store[id].id == id && (store[id].jobType == WhoJobType ==> WhoStages(store[id].stages))
  }

  /** Lookup jobs are created with the four stages. */
  ghost predicate CreatesWhoJobs(e: Event) {
    e.op.Create? && e.op.input.jobType == WhoJobType ==>
      |e.op.input.stages| == 4 && forall i :: 0 <= i < 4 ==> e.op.input.stages[i].0 == StageIds[i]
  }

  ghost predicate SameStageIds(a: seq<Stage>, b: seq<Stage>) {
    |a| == |b| && forall i :: 0 <= i < |a| ==> a[i].id == b[i].id
  }

  lemma OnJobKeepsStages(op: Op, job: Job, now: int)
    requires op.StartStage? || op.CompleteStage? || op.Complete? || op.Fail? || op.MarkFailed? || op.Cancel?
          || op.Heartbeat? || op.Retry?
    ensures var after := OnJob(op, job, now);
      after.id == job.id && after.jobType == job.jobType && SameStageIds(job.stages, after.stages)
  {
  }

  /** No step changes the id, the type or the stage ids of a job. */
  lemma StepKeepsJob(s: Store, e: Event, s': Store, id: JobId)
    requires Step(s, e, s') && id in s
    ensures id in s' && s'[id].id == s[id].id && s'[id].jobType == s[id].jobType
    ensures SameStageIds(s[id].stages, s'[id].stages)
  {
    if !e.op.Create? && !e.op.Claim? && !e.op.Recover? && e.op.id == id {
      OnJobKeepsStages(e.op, s[id], e.now);
    }
  }

  lemma StepKeepsShape(s: Store, e: Event, s': Store)
    requires WhoShaped(s) && Step(s, e, s') && CreatesWhoJobs(e)
    ensures WhoShaped(s')
  {
    forall id | id in s'
      ensures s'[id].id == id && (s'[id].jobType == WhoJobType ==> WhoStages(s'[id].stages))
    {
      if id in s {
        StepKeepsJob(s, e, s', id);
      }
    }
  }

  /** In every run of the service in which lookup jobs are created with the four stages, they keep them. */
  lemma {:induction false} ShapeInEveryRun(states: seq<Store>, events: seq<Event>, n: nat)
    requires Run(states, events) && n < |states| && forall m :: 0 <= m < |events| ==> CreatesWhoJobs(events[m])
    ensures WhoShaped(states[n])
  {
    if n > 0 {
      ShapeInEveryRun(states, events, n - 1);
      RunStep(states, events, n);
      StepKeepsShape(states[n - 1], events[n - 1], states[n]);
    }
  }

  /** A claimed lookup job is a running one of the shape, with the stages it had. */
  lemma ClaimedIsWho(s: Store, id: JobId, owner: string, leaseMs: int, now: int, s': Store)
    requires WhoShaped(s)
    requires Step(s, Event(Claim(owner, leaseMs, Some(WhoJobType)), now, Some(Grant(id, owner, now + leaseMs))), s')
    ensures id in s && OnlyJobChanged(s, s', id) && s'[id].id == id && s'[id].status == Running
    ensures s'[id].stages == s[id].stages && s'[id].result == s[id].result && SameRequest(s'[id], s[id])
    ensures WhoStages(s[id].stages)
  {
  }

  lemma SameEnd(job: Job, w: World, first: Job, same: Job)
    requires JobEnded(job, w, first) && SameRequest(first, same)
    requires first.stages == same.stages && first.result == same.result
    ensures JobEnded(job, w, same)
  {
  }

  lemma EndKeepsShape(before: Store, after: Store, id: JobId, w: World, first: Job)
    requires WhoShaped(before) && id in before && OnlyJobChanged(before, after, id)
    requires after[id].id == id && JobEnded(after[id], w, first)
    ensures WhoShaped(after)
  {
  }
}
