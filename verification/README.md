# Verified models of the OCrowley core

Dafny models of the parts of OCrowley that decide something: what to run in which order, who owns a job, what an
audit ledger proves, when a search stops, whether a task may execute. Each model keeps the branches, constants and
error cases of the code it stands for; what the code does to mutable state is done by methods on classes, and each
such method is tied to a specification about which the properties below are proved. `dafny verify dfyconfig.toml`
checks everything.

| file | what it models |
|---|---|
| `Planner.dfy` | the dependency graph: Kahn's sort over blocking edges, the cycle flag, and the phases cut from the order |
| `Json.dfy` | JSON values, and a reader of JSON text written from the grammar, which the printers are proved against |
| `CanonicalJson.dfy`, `JsonFiles.dfy` | the canonical printer of the audit package, and what writing to a JSON file and reading back does to a value |
| `AuditLedger.dfy`, `MemoryLedger.dfy` | hash-chained entries and their verification, the persisted chain of the people-lookup worker, and the ledger in memory, which keeps its callers' metadata objects |
| `Jobs.dfy` | the leased job service: every public operation as one atomic step under a clock that never goes back |
| `WhoRun.dfy`, `WhoWorker.dfy` | what a run of the four-stage worker does under every combination of faults and cancellation, and the worker itself over that service and that ledger: its stages, a whole run, and the claim of the next job |
| `TaskMachine.dfy`, `Filing.dfy`, `Dispatcher.dfy`, `Clients.dfy`, `Timeouts.dfy` | the agent task dispatcher: task states, queues of shared mutable tasks, retries, dead letters, cancellation, timeout sweeps, and clients that keep to the protocol |
| `Records.dfy`, `StateManager.dfy` | state records and the lists and dictionaries in them as heap objects, the append-only history, deep-copied snapshots |
| `Coordinator.dfy` | the coordinator that drives the dispatcher and copies every change to the state manager |
| `Evidence.dfy`, `Critique.dfy`, `NewEntity.dfy`, `CritiqueLoop.dfy` | the evidence store, the deterministic score, what one new entity does to it, the critique loop and the engine's use of it |
| `Seeds.dfy`, `Refinement.dfy`, `Discovery.dfy` | the seed-refinement loop, and the engine that files what every sweep finds |
| `Stream.dfy` | the newline reader of the model client |
| `Geo.dfy` | greedy clustering of geographic points |
| `Pool.dfy` | the worker pool that shares one counter |
| `Memory.dfy` | the memory store with expiring entries |
| `Approval.dfy` | the approval chain and the gatekeeper over it |
| `Common.dfy` | options, results and a few facts about sequences and sets |

## What the proofs found

The code is modelled as it is. Where it does something that its comments or its purpose do not suggest, a lemma or a
contract says exactly when.

- **Planner.** The sort fails with a missing key exactly when a blocking edge names an unknown task. Only the first
  phase can hold several tasks; every later one holds one, because all unblocked tasks come first in the order. The
  first `get_phases` on a cyclic graph returns the phases of the sortable part, later calls return none.
- **Canonical text.** Whatever the collation, two values print alike exactly when they have the same sorted form. That
  is the same as being equal up to the order of keys exactly if the collation tells different keys apart, array indices
  excepted, which objects list first in any case. A locale collation that ties two names breaks this, and an array
  holding just `undefined` prints like the empty array.
- **Persisted ledger.** The comment in `whoAudit.ts` says that undefined metadata is left out so that the JSON round
  trip matches the hash. That covers metadata that is undefined as a whole, not undefined properties in it: the chain
  verifies exactly when no append carried one. The worker's own `who.completed` entry carries one whenever the lookup
  was not archived. So a run, however it ends, leaves a valid ledger valid exactly if the lookup was archived or the
  completion did not get into the ledger: because the run was stopped or broken before the work of the last stage, or
  because the append failed before the save. A cancellation or a failure after that save does not help.
- **Ledger operations.** `verify` can raise instead of answering, when a stored hash has the length of the expected one
  in UTF-16 units but not in bytes. `appendWhoAudit` can fail after the entry is already in the chain. The ledger in
  memory keeps the metadata objects of its callers: it verifies exactly while every one of them has the sorted form
  it had when it was appended, and otherwise names the first entry whose metadata changed.
- **Jobs.** The comment on claiming says queued jobs are preferred; the code picks the oldest candidate, queued or
  expired, so a job waits for no more successful claims than there are jobs created no later. Complete, fail and markFailed
  ask for neither the status nor the lease owner: they are the only operations that take a job out of cancelled, each
  of them does, and a worker whose lease was taken over can still complete the job, after which the new owner's
  heartbeats have no effect.
- **Cancelling a lookup.** An operator's cancellation that the run gets to ends the job cancelled exactly if some stage
  still looks at the job afterwards and the work it interrupts returns. It is lost in two ways. If the interrupted work
  throws, or the cancellation comes after a throw, `markFailed` overwrites it. If it comes after the second look of the
  last stage, nobody looks any more and `complete` overwrites it.
- **Dispatcher.** A task keeps the metadata dictionary it was enqueued with, unless that is empty, and completing it
  merges the result into that dictionary. Tasks enqueued with one dictionary therefore see each other's results, and so
  does the caller.
- **Coordinator.** When a failed task is queued again, the dispatcher forgets the agent before the coordinator asks for
  it. The state manager keeps the agent on record, and the agent stays busy in the registry. The task states agree
  throughout, and the history alone gives every task's state, agent and error on record.
- **Critique.** Evidence about known entities never lowers the score, which is what bounds the rounds. One item about a
  new entity can, because depth is an average. With `n` entities, `e` of them empty, that keep `k` findings, the
  unrounded marks fall exactly when `8(k - n) > 55e` if `k` is at most `5n`, and exactly when `8n(5n + 4 - k) > 55e`
  beyond that cap. Five hits about one entity score 95; a sixth item about a stranger brings that down to 79.
- **Refinement.** Two of the declared stop reasons, `llm-converged` and `policy-denied`, are never returned. The key of
  a seed is its kind, a colon and its value, so two different seeds share one exactly when a kind itself holds a colon
  and the rest of it is missing from its value.
- **Approvals.** The comment on the red level says "always blocked"; approving each of its gates in turn clears it. A
  chain whose last missing approval is the automated pass can proceed but is not approved until some gate is approved
  again. Making a new chain for a task wipes the violations of the old one.

## Modelling decisions

- Strings are sequences of Unicode scalar values. Lone surrogates, which JavaScript strings may hold, are not part of
  this model. Timestamps are integers, scores, distances and expiry times are reals.
- The hash is any function that never collides, yields ASCII text and never yields `GENESIS`. The collation is a
  parameter of the printer, and nothing about ledgers restricts it; entries count as the same if their metadata has the
  same sorted form. A number is its printed token. The reader that says what a text means follows the grammar of RFC
  8259, strings in its section 7, and knows none of the printers.
- What a lookup job asks for, and the result a finished run gives it, are parts of the `World`.
- Network queries, tools, extractors and model replies are arbitrary functions or values of a `World`; a query that
  throws is `None` or a failure. Clock readings come from the caller or are arbitrary; where order matters, the
  contract asks for a clock that does not go back.
- The four consecutive calls of `stage` in the worker are one loop over the stage numbers, each with its own work.
- The pool is a state machine whose steps run one worker to its next await; a schedule is any list of worker numbers.
  `MapPool` runs it with an arbitrary choice at each step.
- Generated task ids are assumed not to repeat.
- When the operator cancels a lookup is a point of the `World`: before a stage looks at the job, at any spot between its
  two looks, between the second look and the mark, after the last stage, or after a throw.

## Model

| member | source | states |
|---|---|---|
| Planner.DependencyGraph.TopologicalSort | python/ocrowley_planner/ocrowley_planner/dependency_analyzer.py:71-100 | fails exactly when a blocking edge leaves the task set, with that key; otherwise returns, without repeats and blockers first, exactly the tasks that no cycle holds back; afterwards the cycle flag is set if and only if the blocking edges contain a cycle |
| Planner.DependencyGraph.KahnOrder | python/ocrowley_planner/ocrowley_planner/dependency_analyzer.py:73-93 | the order alone, before the flag: same tasks, same failure, graph untouched |
| Planner.DependencyGraph.BuildAdjacency | python/ocrowley_planner/ocrowley_planner/dependency_analyzer.py:74-80 | adjacency lists and in-degrees count every blocking edge, duplicates included, or the first unknown key is reported |
| Planner.DependencyGraph.Drain | python/ocrowley_planner/ocrowley_planner/dependency_analyzer.py:86-93 | when the work list is empty, the sorted tasks are exactly those no cycle holds back |
| Planner.KahnFinal | python/ocrowley_planner/ocrowley_planner/dependency_analyzer.py:86-95 | at the end of the main loop, a task is missing from the order if and only if it is on or behind a cycle |
| Planner.SortCompleteIffAcyclic | python/ocrowley_planner/ocrowley_planner/dependency_analyzer.py:95-98 | comparing lengths is a sound and complete cycle test: the order has all tasks if and only if the blocking edges are acyclic |
| Planner.StuckTasksAreBehindCycle | python/ocrowley_planner/ocrowley_planner/dependency_analyzer.py:95-98 | any set of tasks in which each has a blocker in the set is behind a cycle, by a pigeonhole walk |
| Planner.SortedWalk | python/ocrowley_planner/ocrowley_planner/dependency_analyzer.py:86-93 | no walk along blocking edges into a sorted task repeats or leaves the tasks sorted before it |
| Planner.MissingKeyMeaning | python/ocrowley_planner/ocrowley_planner/dependency_analyzer.py:77-80 | a missing key is reported if and only if some blocking edge has an end outside the task set |
| Planner.DependencyGraph.GetPhases | python/ocrowley_planner/ocrowley_planner/dependency_analyzer.py:102-152 | a graph flagged cyclic has no phases; any other graph gets the phases cut from a correct sort of it, cyclic or not, and the flag becomes truthful |
| Planner.DependencyGraph.CutPhases | python/ocrowley_planner/ocrowley_planner/dependency_analyzer.py:108-152 | the loop makes exactly the greedy groups of the order, numbered from 1, each with its duration and the blockers the code attaches to it |
| Planner.PhasesAreASchedule | python/ocrowley_planner/ocrowley_planner/dependency_analyzer.py:102-152 | the phases concatenate to the order; every blocker of a task is in a strictly earlier phase; the first phase is the list of all unblocked tasks and later ones are singletons; on an acyclic graph the durations add up to the time of all tasks |
| Planner.PhaseMeaning | python/ocrowley_planner/ocrowley_planner/dependency_analyzer.py:113-152 | each phase has its number from one and can run in parallel; its blockers are exactly what blocks the first task of the next phase, and in the last phase exactly the tasks that anything blocks |
| Planner.GroupsShape | python/ocrowley_planner/ocrowley_planner/dependency_analyzer.py:113-138 | after the unblocked tasks every blocked task opens a phase of its own |
| Planner.DependencyGraph.AddDependency | python/ocrowley_planner/ocrowley_planner/dependency_analyzer.py:67-69 | adding an edge keeps the graph valid: a cycle flag that was set stays truthful |
| CanonicalJson.StableIsRead | packages/audit/src/index.ts:24-30 | read by the grammar of JSON, the printed text of any well-formed value in front of anything that may follow one is that value with its keys sorted, and the rest, whatever the collation |
| CanonicalJson.EscapeIsShortest | packages/audit/src/index.ts:27-29 | of all ways to write a character in a string, the printer takes the shortest, with small hexadecimal letters; with the reading of every escape this fixes each of them |
| CanonicalJson.SortIsStable | packages/audit/src/index.ts:27 | the sorted keys are a permutation of the given ones in the order of the collation, and keys that it ties stay in their order |
| CanonicalJson.StableTellsSortedForms | packages/audit/src/index.ts:24-30 | under any collation, two values print to the same text if and only if they have the same sorted form |
| CanonicalJson.StableIsCanonical | packages/audit/src/index.ts:24-30 | under a total collation that tells names apart, two values print to the same text if and only if they are equal up to the order of keys at every depth |
| CanonicalJson.StableIsUniquelyDecodable | packages/audit/src/index.ts:24-30 | under any collation, a printed value followed by anything that may follow a value determines the value, up to the order of keys, and the rest |
| CanonicalJson.CanonicalIffNamesApart | packages/audit/src/index.ts:27 | the printer is canonical if and only if the collation never ties two different keys neither of which is an array index |
| CanonicalJson.TiedKeysBreakCanonicity | packages/audit/src/index.ts:27 | for any two tied keys that are no array indices, one object written in both orders prints to two texts |
| CanonicalJson.UndefinedCollides | packages/audit/src/index.ts:25 | outside JSON uniqueness fails: `[undefined]` and `[]` print alike and differ |
| CanonicalJson.EmitInjective | packages/audit/src/index.ts:24-30 | the text of a value in sorted form, with whatever follows, determines the value and what follows, through strings, numbers, arrays and objects |
| CanonicalJson.EscapeIsPrefixFree | packages/audit/src/index.ts:27-29 | string tokens: an escaped character determines the character whatever follows it, and none begins like the closing quote |
| JsonFiles.FaithfulRoundTrip | packages/persistence/src/fileStore.ts:12-31 | a value that comes back from a JSON file equal up to key order held nothing undefined |
| JsonFiles.StableSurvivesRoundTrip | packages/persistence/src/fileStore.ts:12-31 | the canonical text of a value is the same after writing it to a file and reading it back if and only if the value holds nothing undefined |
| JsonFiles.RoundTripIsRead | packages/persistence/src/fileStore.ts:12-31 | the round trip is what reading the written text by the grammar of JSON gives: undefined members are gone and undefined elements are null |
| AuditLedger.HashDeterminesEntry | packages/audit/src/index.ts:32-33 | under any collation, equal hashes mean equal entries, up to the order of metadata keys that the collation restores, and conversely |
| AuditLedger.WhatIsHashed | packages/audit/src/index.ts:32-43 | the digest is taken of a text that reads, by the grammar of JSON, as an object with exactly the fields of the entry under their names |
| AuditLedger.ComparisonMeaning | packages/audit/src/index.ts:54 | the comparison of hashes finds equal exactly the same text, and raises exactly on a text with the expected number of UTF-16 units that is not ASCII |
| AuditLedger.SameEntryMeaning | packages/audit/src/index.ts:24-33 | same entries have metadata equal up to the order of keys; if the collation tells names apart, entries that agree otherwise are the same if and only if their metadata is |
| AuditLedger.HeadCommitsToLedger | packages/audit/src/index.ts:35-59 | of two ledgers with the same last hash, one of which verifies, the other verifies if and only if it holds the same entries: any edit, insertion, removal or reordering below the last entry is caught |
| AuditLedger.EqualHeadsEqualLedgers | packages/audit/src/index.ts:35-59 | two ledgers that verify and share their last hash hold the same entries |
| AuditLedger.VerifyEntries | packages/audit/src/index.ts:49-59 | says valid exactly for chained ledgers; otherwise names the sequence field of the first broken entry, all before it being chained; raises exactly on a hash with the expected UTF-16 length and another byte length |
| MemoryLedger.Ledger.Append | packages/audit/src/index.ts:38-45 | adds one entry with the next sequence number, the last hash and its own hash over the metadata of the moment, keeps the caller's metadata object, and keeps the invariant that what was appended is a valid chain |
| MemoryLedger.Ledger.Verify | packages/audit/src/index.ts:49-59 | after any run of appends, whatever callers do to their metadata: valid exactly while every metadata object has the sorted form it had when it was appended, otherwise the number of the first entry whose metadata changed; never raises |
| AuditLedger.ChainedIffUnchanged | packages/audit/src/index.ts:35-59 | entries that differ from a valid chain in metadata only are a valid chain if and only if all metadata has the same sorted form |
| AuditLedger.ReportMeaning | packages/audit/src/index.ts:49-59 | the report is valid if and only if no entry changed, and names an entry if and only if it is the first that did |
| AuditLedger.StoredEntryFits | packages/osint/src/audit/whoAudit.ts:44-61 | an entry read back from the file matches its hash if and only if its metadata had nothing undefined inside |
| AuditLedger.StoredChainValidIffClean | packages/osint/src/audit/whoAudit.ts:34-63 | a chain persisted append by append verifies if and only if no append carried something undefined inside its metadata |
| AuditLedger.StoredChainReport | packages/osint/src/audit/whoAudit.ts:70-85 | verification of a persisted chain reports the first unclean append, counted from one, and never raises |
| AuditLedger.WhoAudit.Append | packages/osint/src/audit/whoAudit.ts:34-63 | extends the stored chain by the entry as it survives the file; a fault before the save leaves the chain alone, one after it is reported although the entry is stored |
| AuditLedger.WhoAudit.Verify | packages/osint/src/audit/whoAudit.ts:70-85 | the verdict of the chain walk over the stored entries, with their number |
| Jobs.LeasesConsistentInEveryRun | packages/jobs/src/CaspaJobService.ts:106-303 | in every state of every run the lease owner is set exactly when the lease end is, and only on running jobs |
| Jobs.UnexpiredLeaseExcludesOthers | packages/jobs/src/CaspaJobService.ts:194-245 | after the latest grant of a job to an owner, no claim or heartbeat by another owner succeeds before the lease ends, unless a complete, fail, markFailed, cancel or recovery of that job came between |
| Jobs.LeaseSurvivesStep | packages/jobs/src/CaspaJobService.ts:106-303 | one step that neither releases the job nor re-grants it leaves an unexpired lease as it is, and grants the job to nobody |
| Jobs.CancelledLeftOnlyByTerminalOps | packages/jobs/src/CaspaJobService.ts:138-181 | over every run a cancelled job stays exactly as it is until a complete, fail or markFailed on it |
| Jobs.CancelledLeftExactlyByTerminalOps | packages/jobs/src/CaspaJobService.ts:138-181 | a step takes a job out of cancelled if and only if it is one of these three operations on it, and any other leaves the job as it is |
| Jobs.StaleWorkerCanComplete | packages/jobs/src/CaspaJobService.ts:138-146 | every run that ends with an unexpired lease goes on with a complete by anyone, which takes the lease away and leaves the holder's heartbeats without effect |
| Jobs.ClaimGrantsOldest | packages/jobs/src/CaspaJobService.ts:194-230 | in every claim step the granted job waits, and no waiting job was created earlier, or together with it and updated later; a claim without a grant found no waiting job |
| Jobs.WaitingIsBounded | packages/jobs/src/CaspaJobService.ts:194-230 | in every run, while a job could be granted at each successful claim and is not, and no job is granted twice, there are at most as many successful claims as other jobs created no later |
| Jobs.QueuedNotPreferred | packages/jobs/src/CaspaJobService.ts:194-230 | of a queued and an expired job, the one created later is never granted while the other waits, whichever it is: queued jobs are not preferred |
| Jobs.CaspaJobService.ClaimNextJobWithLease | packages/jobs/src/CaspaJobService.ts:194-230 | grants, of all jobs of the type that are queued or whose lease is over, the one created first, and among those created together one updated last; gives it the owner, the lease end and the first start time; answers nothing exactly if no job waits; the call is one step of the protocol |
| Jobs.CaspaJobService.HeartbeatLease | packages/jobs/src/CaspaJobService.ts:232-245 | refused for a job another owner holds, no effect on a job that is not running, otherwise a new lease; one step of the protocol |
| Jobs.CaspaJobService.RecoverStuckJobs | packages/jobs/src/CaspaJobService.ts:251-275 | turns exactly the running jobs whose lease is missing or over, or that started too long ago, into partial ones with the recovery message, to resume at their stage and without a lease, and counts the jobs it changed |
| Jobs.CaspaJobService.Retry | packages/jobs/src/CaspaJobService.ts:277-303 | leaves cancelled, running and queued jobs alone; any other is queued with fresh stages, without result, error, times or lease, and with one more retry counted |
| Jobs.CaspaJobService.StartStage | packages/jobs/src/CaspaJobService.ts:106-120 | on any job but a cancelled one, sets it running in that stage; nothing else changes |
| Jobs.CaspaJobService.CompleteStage | packages/jobs/src/CaspaJobService.ts:122-136 | completes that stage only, keeping the lease and an earlier partial result when none is given |
| Jobs.CaspaJobService.Cancel | packages/jobs/src/CaspaJobService.ts:169-181 | leaves completed and cancelled jobs alone; any other ends cancelled without a lease |
| Jobs.CaspaJobService.MarkFailed | packages/jobs/src/CaspaJobService.ts:158-167 | ends any job failed without a lease, to be resumed from its current stage |
| Jobs.CaspaJobService.Complete | packages/jobs/src/CaspaJobService.ts:138-146 | ends any job completed with the given result and without a lease; every other field and job stays |
| Jobs.CaspaJobService.Fail | packages/jobs/src/CaspaJobService.ts:148-156 | ends any job partial with the error, to resume from its current stage, without a lease |
| Jobs.CaspaJobService.Create | packages/jobs/src/CaspaJobService.ts:52-74 | a queued job with every stage queued, under its id, with the input it was given; no other job changes |
| WhoRun.RunEndsCleanly | packages/osint/src/jobs/whoWorker.ts:75-226 | a run finishes exactly when nothing fails and no stage sees a cancellation, with requested, written and completed recorded in that order; otherwise it stops or breaks in one stage with the actions of a prefix recorded, and a broken run adds one denied or failed entry unless the ledger refuses it |
| WhoRun.CancellationFate | packages/osint/src/jobs/whoWorker.ts:51-226 | a cancellation the run gets to, at any point from before the first look to just before `complete` or `markFailed`, ends the job cancelled if and only if a stage still looks and the interrupted work returns; it ends the job completed if and only if it came after the last look |
| WhoRun.UnreachedCancellation | packages/osint/src/jobs/whoWorker.ts:51-226 | a cancellation placed behind the point where the run ends changes nothing |
| WhoWorker.Worker.ProcessWhoJob | packages/osint/src/jobs/whoWorker.ts:75-226 | on a job of any status, with its stages in any state: a cancelled job is left alone; any other ends completed, cancelled or failed as the world decides, without a lease, the stages whose mark was reached completed and those after them untouched; it carries the result of the run if and only if it ends completed, otherwise the result it had; a cancellation of a completed job before its first stage has started it again has no effect; no other job changes; the ledger grows by exactly the recorded actions, each line with its actor, job and metadata, and stays valid if and only if the lookup was archived or the completion did not get in |
| WhoWorker.Worker.RunWhoWorkerOnce | packages/osint/src/jobs/whoWorker.ts:228-251 | claims the lookup job created first among those that are queued or whose lease is over, and ends it as a whole run does, with the result if it completes; if and only if no lookup job waits, nothing happens |
| WhoWorker.Worker.Finish | packages/osint/src/jobs/whoWorker.ts:182-201 | the job ends completed with the result of the run, even if the operator cancels it after the last stage |
| WhoWorker.Worker.GiveUp | packages/osint/src/jobs/whoWorker.ts:222-224 | the job ends failed, even if the operator cancels it after the throw |
| WhoRun.FreshJobEnded | packages/osint/src/jobs/whoWorker.ts:75-226 | on a job whose stages were all queued, exactly the stages whose mark was reached are completed at the end |
| WhoRun.ShapeInEveryRun | packages/osint/src/jobs/whoJobTypes.ts:3-10 | in every run of the service in which lookup jobs are created with the four stages, every lookup job has them in every state, retries and recoveries included |
| WhoWorker.Worker.RunStage | packages/osint/src/jobs/whoWorker.ts:51-73 | one stage: refused before it starts, broken by its work, cancelled behind its work, or completed, with the operator acting at any spot of it |
| WhoWorker.Worker.RunStages | packages/osint/src/jobs/whoWorker.ts:82-180 | the four stages in order up to the first that throws, with job and ledger in the state that ending calls for, from any job that is not cancelled |
| WhoRun.LedgerStaysValidIff | packages/osint/src/jobs/whoWorker.ts:51-226 | for every run: it records the completion if and only if nothing stops it before the work of the last stage and that append does not fail before the save, and it leaves a valid ledger valid if and only if the lookup was archived or the completion was not recorded |
| WhoRun.DeniedMeaning | packages/osint/src/jobs/whoWorker.ts:210 | a broken run is recorded as denied exactly if its message holds one of the words denied, authorization and case, in any mixture of capitals, and otherwise as failed |
| WhoRun.BreaksAtFirstProblem | packages/osint/src/jobs/whoWorker.ts:75-226 | a run that breaks does so at the first thing that goes wrong - the policy check, the lookup, the dossier, its index, or one of the ledger appends - and with its error |
| TaskMachine.RequeuesExactly | python/ocrowley_agents/ocrowley_agents/task_dispatcher.py:215-249 | whatever any client does in between, a new task is put back into its queue by each of its first max_retries - 1 failures and by no later one; without retries by none |
| TaskMachine.NextFailure | python/ocrowley_agents/ocrowley_agents/task_dispatcher.py:215-249 | the failure after k others is refused a retry if and only if k + 1 reaches max_retries; a task put back is unassigned, a dead one keeps its agent |
| TaskMachine.RunsAreBounded | python/ocrowley_agents/ocrowley_agents/task_dispatcher.py:158-271 | in every run the moves made and the moves still possible stay within four for each attempt and three more for each task enqueued |
| TaskMachine.MovesDecreaseWeight | python/ocrowley_agents/ocrowley_agents/task_dispatcher.py:158-271 | every dequeue, dispatch, start, complete, fail and cancel lowers the measure of what a task has left, and leaves it in a state that fits its place |
| Dispatcher.TaskDispatcher.EnqueueTask | python/ocrowley_agents/ocrowley_agents/task_dispatcher.py:130-156 | a new queued task at the end of its own priority's queue; it keeps the caller's dictionary unless there is none or it is empty; nothing else changes |
| Dispatcher.TaskDispatcher.DequeueNextTask | python/ocrowley_agents/ocrowley_agents/task_dispatcher.py:158-169 | the head of the high queue, or else of the medium one, or else of the low one, which it leaves; nothing if and only if all are empty |
| Dispatcher.TaskDispatcher.DispatchToAgent | python/ocrowley_agents/ocrowley_agents/task_dispatcher.py:171-188 | assigns exactly queued and failed tasks, and changes nothing else of them |
| Dispatcher.TaskDispatcher.StartTask | python/ocrowley_agents/ocrowley_agents/task_dispatcher.py:190-199 | starts exactly assigned tasks, with the time of the start |
| Dispatcher.TaskDispatcher.CompleteTask | python/ocrowley_agents/ocrowley_agents/task_dispatcher.py:201-213 | moves a task in progress to the completed ones and merges its result in place into the dictionary it was enqueued with, which others may share; refuses any other task |
| Dispatcher.TaskDispatcher.FailTask | python/ocrowley_agents/ocrowley_agents/task_dispatcher.py:215-249 | counts the failure; if that is still less than max_retries, the task goes back to the end of its own queue, unassigned and not started, otherwise to the end of the dead letters with its agent; asks nothing first |
| Dispatcher.TaskDispatcher.CancelTask | python/ocrowley_agents/ocrowley_agents/task_dispatcher.py:251-271 | cancels the first queued task with the id, or else the one in progress under it, or answers that there is none |
| Clients.Client.Take | python/ocrowley_agents/ocrowley_agents/task_dispatcher.py:158-169 | a dequeue is one move of one task from its queue to the client's hands - the oldest of the highest non-empty queue - and keeps every created task in exactly one place |
| Clients.Client.DispatchTo | python/ocrowley_agents/ocrowley_agents/task_dispatcher.py:171-188 | dispatching a task in hands is one move and keeps every task in exactly one place |
| Clients.Client.Begin | python/ocrowley_agents/ocrowley_agents/task_dispatcher.py:190-199 | starting a task is one move or none, and keeps every task in exactly one place |
| Clients.Client.Finish | python/ocrowley_agents/ocrowley_agents/task_dispatcher.py:201-213 | completing a task is one move or none, and keeps every task in exactly one place |
| Clients.Client.GiveUp | python/ocrowley_agents/ocrowley_agents/task_dispatcher.py:215-249 | failing a task that is held or running is one move, to its queue if one more failure is less than max_retries and to the dead letters otherwise, and keeps every task in exactly one place |
| Clients.Client.CancelById | python/ocrowley_agents/ocrowley_agents/task_dispatcher.py:251-271 | cancelling is one move of a queued or running task, or none, and keeps every task in exactly one place |
| Timeouts.CheckTimeouts | python/ocrowley_agents/ocrowley_agents/task_dispatcher.py:273-287 | fails exactly the tasks in progress that started longer ago than their timeout and answers their ids, each once; each of them is queued again, unassigned, or dead, as one more failure compares with its retries, every other task is as it was in place, state and attempts; and the sweep is a sequence of moves of the system, one for each id |
| Sweeping.TrailContinuesRun | python/ocrowley_agents/ocrowley_agents/task_dispatcher.py:273-287 | a sweep continues any run of the system by as many moves as it fails tasks, so the bound on runs covers sweeps |
| Filing.FileFail | python/ocrowley_agents/ocrowley_agents/task_dispatcher.py:227-249 | the structures after a failure hold every task exactly where its place says: own-priority queue, in progress, completed or dead letters |
| StateManager.StateManager.SnapshotRunRestore | python/ocrowley_agents/ocrowley_agents/state_manager.py:349-368 | restoring a snapshot after any script of updates, snapshots and restorations brings every issue, agent, task and memory reference back to its value at creation, the lists and dictionaries inside the records included |
| StateManager.StateManager.Perform | python/ocrowley_agents/ocrowley_agents/state_manager.py:149-368 | no operation of the manager, in-place changes of lists and dictionaries included, changes the contents of a taken snapshot at either level |
| StateManager.StateManager.CreateSnapshot | python/ocrowley_agents/ocrowley_agents/state_manager.py:349-360 | the snapshot holds new records around new containers with the present values, shared with nothing |
| StateManager.StateManager.RestoreSnapshot | python/ocrowley_agents/ocrowley_agents/state_manager.py:362-368 | the live records and their containers become new copies of the snapshot's; the history stays |
| StateManager.StateManager.UpdateTaskState | python/ocrowley_agents/ocrowley_agents/state_manager.py:287-316 | writes the given fields of one task's record and appends its transition from the old state to the new one, with the agent and the error given; an unknown task changes nothing |
| StateManager.StateManager.AssignAgentToIssue | python/ocrowley_agents/ocrowley_agents/state_manager.py:205-216 | appends the agent to the issue's own list in place, once; no other record or container changes |
| Records.DeepCopy | python/ocrowley_agents/ocrowley_agents/state_manager.py:349-368 | a new record for every name, around a new list and a new dictionary, none of them shared, with the same contents two levels deep |
| Coordinator.Coordinator.DispatchIssue | python/ocrowley_agents/ocrowley_agents/coordinator.py:70-120 | a new task at the end of its queue, on which the three accounts agree: dispatcher, state manager and replayed history all say queued; the issue gets a record with the title and priority of the context unless it has one; the task keeps the context's own dictionary unless that is empty |
| Coordinator.Coordinator.DispatchToAgent | python/ocrowley_agents/ocrowley_agents/coordinator.py:122-164 | refused exactly for unknown and blocked agents and for tasks neither queued nor failed; otherwise the task is assigned in all three accounts, which keep agreeing for every task, and the agent joins the issue's list once |
| Coordinator.Coordinator.StartTask | python/ocrowley_agents/ocrowley_agents/coordinator.py:166-175 | started in all three accounts, with its agent busy in the registry, or in none |
| Coordinator.Coordinator.CompleteTask | python/ocrowley_agents/ocrowley_agents/coordinator.py:177-210 | completed in all three accounts, with its result merged into its dictionary, its agent idle and one more completion counted for it, or in none |
| Coordinator.Coordinator.FailTask | python/ocrowley_agents/ocrowley_agents/coordinator.py:212-245 | queued again or failed in all three accounts, with the error on record; the state manager keeps the agent on record; only a final failure sets the agent idle and counts against it, so after a retry the agent stays as busy as it was |
| TaskAccounts.AgreeAfterUpdate | python/ocrowley_agents/ocrowley_agents/state_manager.py:287-316 | an update written from the recorded state keeps a task's record, its replayed history and its state one, with no gap between entries, and the history still gives the agent and the error on record |
| TaskAccounts.UnknownTask | python/ocrowley_agents/ocrowley_agents/state_manager.py:277-285 | a history that speaks only of known tasks replays a new task as its new record has it: queued, without agent or error |
| Critique.ScoreRange | packages/osint/src/critiqueLoop.ts:115-125 | the score lies in 0 to 95 |
| NewEntity.ScoreInWholeNumbers | packages/osint/src/critiqueLoop.ts:115-125 | the score in whole numbers: of n entities, e with nothing listed and nothing kept and k findings kept, (55(n - e) + 8 min(k, 5n) - 10en)/n rounded half up and kept between 0 and 95 |
| Critique.FullMarks | packages/osint/src/critiqueLoop.ts:115-125 | the score is 95 if and only if no entity is empty and the entities keep at least 79/16 findings on average |
| Critique.ScoreNeverDrops | packages/osint/src/critiqueLoop.ts:70-125 | more findings for the same entities never lower the score |
| Critique.KnownEvidenceNeverLowersScore | packages/osint/src/recursiveEngine.ts:90-113 | appending evidence about entities already among the findings never lowers the score and keeps the list of entities |
| NewEntity.NewEntityLowersScore | packages/osint/src/recursiveEngine.ts:90-113 | one item of evidence about an entity that is not among the findings lowers the unrounded marks if and only if the kept findings outweigh the empty entities, in whole numbers and with the cap at five; otherwise the score does not drop, and it drops if and only if the new marks are below the half-way mark of the old score |
| NewEntity.MarksFallExactly | packages/osint/src/critiqueLoop.ts:70-125 | the same on findings: the exact condition under which a new entity with one finding lowers the unrounded marks |
| NewEntity.ScoreFallsExactly | packages/osint/src/critiqueLoop.ts:115-125 | the exact condition under which the rounded score falls |
| NewEntity.FiveHitsThenStranger | packages/osint/src/recursiveEngine.ts:90-113 | five items about one entity score 95, and a sixth about another brings it to 79 |
| Critique.FindingsMeaning | packages/osint/src/recursiveEngine.ts:90-113 | the findings list every entity that a seed names or an item is about, `*` items apart, once, in order of first mention, each with the number of items about it |
| Critique.ComputeFindings | packages/osint/src/recursiveEngine.ts:90-113 | the map-filling loops compute those findings |
| CritiqueLoop.RunCritiqueLoop | packages/osint/src/critiqueLoop.ts:138-180 | stops at the first round that reaches the target, completes a plateau or dries up, in that order of precedence, or at the limit; returns the reports in order, the reason and the last score |
| Plateau.PlateauBound | packages/osint/src/critiqueLoop.ts:149-179 | with scores between 0 and 95 that never drop, a run has at most (95/epsilon + 1) * plateauRounds + 1 rounds, whatever the limit |
| Plateau.StopMeaning | packages/osint/src/critiqueLoop.ts:154-179 | why a round ends the loop, in terms of the scores: the target is reached; or else the last plateauRounds rounds each gained less than epsilon; or else nothing new came and nothing is suggested |
| Plateau.RoundsWithoutPlateau | packages/osint/src/critiqueLoop.ts:165-170 | without a plateau every big gain is followed by fewer small ones than a plateau takes |
| Plateau.BigGainsCost | packages/osint/src/critiqueLoop.ts:165-167 | when scores never drop, the gains of at least epsilon fit into the total gain |
| CritiqueLoop.RunEngineCritique | packages/osint/src/recursiveEngine.ts:180-216 | with the deterministic critic and enrichment about known entities only, the loop keeps the plateau bound on an evidence store that grows by new keys, and each report scores the store of its round |
| Seeds.KeyMeaning | packages/osint/src/refinementLoop.ts:60-62 | two seeds share a key if and only if they have the same kind and the same folded value, or one kind is the other with a colon and more behind it and exactly that is missing from its value |
| Seeds.DedupedIsFirsts | packages/osint/src/refinementLoop.ts:64-72 | among kinds without a colon, deduplication keeps, in order, the seeds that do not repeat the kind and folded value of an earlier one |
| Seeds.DedupedMeaning | packages/osint/src/refinementLoop.ts:64-72 | deduplication loses no key, keeps none twice and invents no seed |
| Seeds.DedupedKeepsFirst | packages/osint/src/refinementLoop.ts:64-72 | of the seeds under one key the first is kept |
| Seeds.DedupeSeeds | packages/osint/src/refinementLoop.ts:64-72 | the filter over a set of seen keys computes that list; for kinds without a colon it is the first seed of every kind and folded value, in order |
| Seeds.AddedMeaning | packages/osint/src/refinementLoop.ts:146-151 | a sweep adds one confident seed for every new key it found and none under a known key |
| Seeds.AddedIsNew | packages/osint/src/refinementLoop.ts:146-151 | among kinds without a colon, a sweep adds, in order, the first of every confident seed whose kind and folded value no seed had |
| Seeds.NothingAdded | packages/osint/src/refinementLoop.ts:146-163 | a sweep adds nothing if and only if the key of every confident seed it found was known; for kinds without a colon, if and only if each repeats the kind and folded value of a seed there was |
| Refinement.SeedsStayDistinct | packages/osint/src/refinementLoop.ts:96-157 | after every sweep of every run the seed keys are pairwise distinct |
| Refinement.SeedsAccountedFor | packages/osint/src/refinementLoop.ts:153-181 | the seed list only grows, and has as many seeds as the deduplicated initial ones plus all newSeedsCount |
| Refinement.SweepsAreBounded | packages/osint/src/refinementLoop.ts:104-187 | if all seed keys come from a finite set, the sweeps are at most the number of its keys the initial seeds lack, plus one |
| Refinement.NoNewRefinementsMeaning | packages/osint/src/refinementLoop.ts:159-163 | the run stops for want of refinements if and only if the item budget is unspent and every confident seed of the last sweep was known before it; for kinds without a colon, known means that a seed of the same kind and folded value was there |
| Refinement.ReasonMeaning | packages/osint/src/refinementLoop.ts:101-187 | what every stop reason says about the run, each if and only if: budget-exhausted when the items reach the cap; diminishing-returns when they do not, a sweep after the first added seeds and overlapped enough; max-sweeps at the limit without either; error before it, on a query that throws; and the other two never |
| Refinement.SweepMeaning | packages/osint/src/refinementLoop.ts:104-181 | every record of a run: its number, a query on the seeds before it, seeds that only grow by the counted ones, and a reason exactly when it should have one, the budget before the want of seeds before the overlap |
| Refinement.SweepAdds | packages/osint/src/refinementLoop.ts:138-157 | what a sweep adds, among kinds without a colon: of the discovered seeds, or else of the extracted ones, the first confident one of each kind and folded value that was not there |
| Refinement.SweepOverlap | packages/osint/src/refinementLoop.ts:134-135 | the overlap on record is the share of the sweep's item keys that some earlier sweep had |
| Refinement.EntriesMeaning | packages/osint/src/refinementLoop.ts:114-117 | the items of a run: one under every key that some sweep brought, given or made of the sweep's number and the position, and each under a key it came with |
| Refinement.OverlapMeaning | packages/osint/src/refinementLoop.ts:74-78 | the overlap is the number of this sweep's keys seen before over the number of its keys, or 1 without keys; so it is between 0 and 1, and 1 if and only if the sweep has no key that earlier sweeps lack |
| Refinement.FilingKeepsEntries | packages/osint/src/refinementLoop.ts:114-117 | filing a sweep's items changes no earlier entry, repeats no key and leaves an entry under every key |
| Refinement.StoresAgree | packages/osint/src/recursiveEngine.ts:148-163 | when item keys line up with items, the loop's items are the engine's evidence store, item for item, after every sweep |
| Discovery.Engine.RunRefinementLoop | packages/osint/src/refinementLoop.ts:80-197 | the loop with its separate lists and sets produces a run as specified: active and all seeds coincide, the used keys are the keys of the seeds, the items are first seen first kept, the reason is the one the records call for, the engine's store holds what every recorded sweep returned, and the list of seeds begins with the initial ones, for kinds without a colon the first of every kind and folded value |
| Discovery.Assess | packages/osint/src/refinementLoop.ts:119-181 | the record of one sweep: budget first, otherwise the confident seeds under new keys are added, and the reason to stop is the one the order of the code gives |
| Discovery.Engine.Keep | packages/osint/src/recursiveEngine.ts:156-161 | files the items whose key the store does not have |
| Discovery.DiscoveryMeaning | packages/osint/src/recursiveEngine.ts:151-178 | whatever ended discovery: distinct keys, initial seeds first, all growth accounted for, and the two stores equal when the tools keep keys and items in line |
| Evidence.MergedMeaning | packages/osint/src/recursiveEngine.ts:156-161 | the evidence store keeps one item under every key, the first that came, and never exchanges one |
| Discovery.Collector.PushItem | packages/osint/src/toolkit.ts:74-84 | keys stay in line with items and free of repeats |
| Stream.ReadStream | packages/ai-client/src/OllamaClient.ts:189-227 | what is passed on are the responses of the lines of the whole text but its last piece, wherever the chunks were cut, and the result is the concatenation of what was passed on |
| Stream.ResponsesOneMore | packages/ai-client/src/OllamaClient.ts:209-222 | a line gives a response exactly if it is not blank, parses, and its response is not empty |
| Stream.SplitConcat | packages/ai-client/src/OllamaClient.ts:205-207 | splitting a buffer with more text appended: the complete lines stay, the last piece is split again with what follows |
| Stream.JoinOfSplit | packages/ai-client/src/OllamaClient.ts:206 | splitting cuts at every newline and loses nothing else |
| Stream.SplitOfJoin | packages/ai-client/src/OllamaClient.ts:206 | only one list of newline-free pieces joins to a text |
| Stream.UnterminatedLineIsNotRead | packages/ai-client/src/OllamaClient.ts:201-207 | text after the last newline changes nothing |
| Stream.TerminatedLinesAreRead | packages/ai-client/src/OllamaClient.ts:206-209 | every line ended by a newline is read |
| Geo.ClusterGeoPoints | packages/osint/src/geospatial.ts:37-55 | the clusters are those of a greedy net: a partition of the points, each member nearer than the threshold to its centre and to no earlier centre, with centre, points and radius as the code sets them |
| Geo.Gather | packages/osint/src/geospatial.ts:43-54 | takes exactly the unused points in range of the centre, in order, and marks them used |
| Geo.NearMeaning | packages/osint/src/geospatial.ts:46-47 | comparing squares decides whether the distance, the hypotenuse over the coordinates, is below the threshold, of whatever sign |
| Geo.ClusterShape | packages/osint/src/geospatial.ts:43-53 | a cluster begins with its centre, and its radius is a hundredth of a degree for each of its points |
| Geo.ClustersAddUp | packages/osint/src/geospatial.ts:41-54 | together the clusters have exactly as many points as were given |
| Geo.ClustersCover | packages/osint/src/geospatial.ts:41-54 | each given point is in a cluster |
| Geo.MembersAreNear | packages/osint/src/geospatial.ts:46-50 | the Euclidean distance of a member from its centre is below the threshold, unless it is the centre |
| Geo.ClusterCentresAreApart | packages/osint/src/geospatial.ts:41-54 | the Euclidean distance between two centres is at least the threshold |
| GreedyNet.NetIsUnique | packages/osint/src/geospatial.ts:41-54 | a list of points has only one greedy net: two nets put every point at the same centre |
| GreedyNet.NetSize | packages/osint/src/geospatial.ts:41-54 | the groups of a greedy net list every point exactly once |
| Pool.MapPool | packages/osint/src/probeBetter.ts:40-51 | with at least one worker, every index is called once and in order and has its result, under every interleaving; with none, nothing is called |
| PoolSteps.EverySchedule | packages/osint/src/probeBetter.ts:43-49 | for every schedule: calls go up by one and never repeat, no more are unanswered than min(concurrency, n), at most 2n + workers steps are possible; with a worker, all workers are done if and only if that many steps were taken, and then every index has its result |
| PoolSteps.RunLength | packages/osint/src/probeBetter.ts:43-49 | the steps taken and the steps remaining always make 2n + workers |
| PoolSteps.EveryScheduleCanFinish | packages/osint/src/probeBetter.ts:43-49 | every possible schedule can be continued to one that finishes, so no choice of workers leads into a dead end |
| PoolSteps.StepKeepsInv | packages/osint/src/probeBetter.ts:44-47 | every index below the counter is in flight with one worker or has its result |
| Memory.MemoryStore.Recall | python/ocrowley_memory/ocrowley_memory/memory_store.py:93-118 | the value of an entry stored and not deleted whose end, if any, has not passed and whose scope the filter lets through; dropped entries make no difference |
| Memory.MemoryStore.GetAll | python/ocrowley_memory/ocrowley_memory/memory_store.py:197-215 | exactly the entries in scope whose end has not passed, of all stored and not deleted, with their values |
| Memory.MemoryStore.GetMetadata | python/ocrowley_memory/ocrowley_memory/memory_store.py:217-222 | the metadata a store that never drops an entry would give |
| Memory.MemoryStore.ActiveSize | python/ocrowley_memory/ocrowley_memory/memory_store.py:161-164 | the number of stored entries whose end has not passed |
| Memory.MemoryStore.Store | python/ocrowley_memory/ocrowley_memory/memory_store.py:53-91 | refuses what cannot be serialized and changes nothing then; otherwise stores the entry, and drops every expired one exactly if the last cleanup was more than 60 seconds ago |
| Memory.MemoryStore.Cleanup | python/ocrowley_memory/ocrowley_memory/memory_store.py:136-155 | keeps exactly the entries that are still good and counts the others |
| Memory.MemoryStore.Forget | python/ocrowley_memory/ocrowley_memory/memory_store.py:120-134 | deletes; the answer is sure only for entries that are still good |
| Expiry.StoredUntilTtl | python/ocrowley_memory/ocrowley_memory/memory_store.py:69-118 | a value stored for ttl seconds is recalled up to and including the last of them and not later, one stored without ttl for ever, through its own scope or none |
| Expiry.DroppingLiveEntryShows | python/ocrowley_memory/ocrowley_memory/memory_store.py:113-116 | dropping an entry that is still good would show at once |
| Expiry.SizeBetween | python/ocrowley_memory/ocrowley_memory/memory_store.py:157-164 | the raw size lies between the number of good entries and the number ever kept |
| ApprovalState.EveryRunIsSound | python/ocrowley_policy/ocrowley_policy/approval_gate.py:82-187 | in every run approved means all gates approved and no violation, each gate's status is its latest event in the history, and the chain's status is the latest event about the chain |
| ApprovalState.StepKeepsSound | python/ocrowley_policy/ocrowley_policy/approval_gate.py:114-187 | each operation keeps that |
| ApprovalState.InitialGatesMeaning | python/ocrowley_policy/ocrowley_policy/approval_gate.py:82-97 | the gates of each risk level by name: three at green, then reviewer, human and emergency board, one more at each level up to red; all pending and unsigned |
| ApprovalState.JudgedMeaning | python/ocrowley_policy/ocrowley_policy/approval_gate.py:262-282 | the verdict names the violations if there are any, or else exactly the pending gates, or else the status unless it is approved |
| ApprovalState.ClearIffApproved | python/ocrowley_policy/ocrowley_policy/approval_gate.py:262-282 | in such states execution is clear if and only if the status is approved |
| ApprovalState.ViolationIsForever | python/ocrowley_policy/ocrowley_policy/approval_gate.py:164-169 | once a violation is recorded, no operations ever clear the chain |
| ApprovalState.WhenApprovalIsMissed | python/ocrowley_policy/ocrowley_policy/approval_gate.py:114-178 | status and gates part ways exactly when the automated pass comes last or an approved chain is escalated to a board that has already approved |
| ApprovalState.ApprovingAgainRepairs | python/ocrowley_policy/ocrowley_policy/approval_gate.py:145-148 | approving any gate again then approves the chain |
| ApprovalState.EveryLevelCanBeCleared | python/ocrowley_policy/ocrowley_policy/approval_gate.py:82-97 | at every risk level, red included, approving each gate in turn clears the chain |
| ApprovalState.EventNamesTellKinds | python/ocrowley_policy/ocrowley_policy/approval_gate.py:143-187 | the event names of the history tell the kinds apart, whatever the gates are called |
| Approval.ApprovalChain.ApproveGate | python/ocrowley_policy/ocrowley_policy/approval_gate.py:136-150 | signs the gate with actor and comment and logs it; approves and logs the chain exactly if there is then no violation and every gate is approved; an unknown gate changes nothing |
| Approval.ApprovalChain.RejectGate | python/ocrowley_policy/ocrowley_policy/approval_gate.py:152-162 | signs the gate with actor and reason, logs it and rejects the chain; an unknown gate changes nothing |
| Approval.ApprovalChain.Escalate | python/ocrowley_policy/ocrowley_policy/approval_gate.py:171-178 | adds a pending board gate if there is none, and marks and logs the escalation |
| Approval.ThemisApprovalGate.CanExecute | python/ocrowley_policy/ocrowley_policy/approval_gate.py:262-282 | the first obstacle in the order the code looks for them, or clear |
| Approval.ThemisApprovalGate.BlockNogoOperation | python/ocrowley_policy/ocrowley_policy/approval_gate.py:284-292 | records the violation on the task's chain, or on a new critical one, which ends blocked |
| Approval.ThemisApprovalGate.CreateApprovalChain | python/ocrowley_policy/ocrowley_policy/approval_gate.py:243-256 | a new chain with the pending gates of its risk level takes the place of the old one, violations and all |

## Left out

- Network clients, the web shell, the bridges, command-line tools, people lookup and model providers: effects on systems that are not modelled; their answers are arbitrary.
- Await points inside one job-service call: a claim lists, reads and writes as one step here, as within a single worker loop; two processes can interleave inside it. The raw `patch` is not an operation of the protocol.
- WhoWorker.Worker.ProcessWhoJob: does not take a job whose file is gone, of which every service call would say so; claims never grant one.
- The worker's polling loop, progress events, the reading of actor, case and query out of the job's payload, and the contents of the job's result, which are parameters; the partial result of a stage, for which the stage's id stands.
- Blanks between JSON tokens, and so the indentation of JSON files.
- The seconds in a timeout's error text; the order in which a timeout sweep lists the tasks (any order is allowed).
- The registry's own counters and heartbeats; the coordinator's monitor thread, callbacks, post-mortems, vetoes and audit log; locks and real threads everywhere.
- Containers nested inside the values of a state record's metadata, which are plain strings here, and references that a caller keeps to a live record.
- Gate objects of an approval chain are values inside it, so a caller who keeps one and changes it is not represented; timestamps, the decision log and chains made with hand-written gates are absent.
- The keyword and risk heuristics of the dependency analyzer, and phase titles.
- Lone surrogates, the printing of numbers, and the details of locale collation: the ledgers allow any, and the laws about equality up to key order any total preorder. Keys such as `__proto__`.
- The case folding and trimming of seed values is an arbitrary function; an extractor or a callback that throws aborts the refinement loop and is not modelled.
- The critique's gaps, flags, query texts and brief, beyond the score and whether queries are suggested; prompt text.
- Byte decoding of the stream: chunks are decoded text; a response that is not a string is not modelled.
- Floating-point rounding: scores, overlaps and distances are exact, and a distance is below the threshold when the squares say so.
- Bounds of the clustered points; coordinates that are not numbers.
- A pool function that rejects; the pool here assumes that every call returns.
- JSON encoding of the memory store, which sees dropped entries; each cleanup reads the clock once here.
- Cryptography: only that the hash does not collide, is ASCII and is never the genesis marker.
