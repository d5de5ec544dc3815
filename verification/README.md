# A verified model of the pipeline runner

The repository drives an ordered list of compiled stages through a durable state machine. Every
transition is saved; the process may die between two saves; a later run loads the saved state, repairs
it and goes on. Around that machine sit a Git scope attestor, a stream parser, a child-process
executor and a review clerk. This project models those parts in Dafny and proves what they promise.

## How the model is built

**Values first.** `RunDefs`, `PipelineStates`, `Transitions`, `Routing`, `Validation` and `Reconcile`
hold the data and the pure transitions. Where the source loops over accumulators or fills a record in
place, a method with invariants does the same and is proved equal to the function the lemmas use.

**The protocol.** `Durable` defines the invariant `Inv`; `Steps` defines the events (one per save),
when the runner takes each (`Enabled`) and what it leaves behind (`Apply`). `Steps`, `Approvals` and
`Recovery` prove that each event keeps `Inv`, `Protocol` lifts this to histories, and `Theorems` reads
the promises off the invariant. A history is any sequence of enabled events. A crash is a history that
stops early, and `Protocol.CrashAndResume` joins the next run to it, so one history covers any number
of runs with crashes after any save.

**The runner.** `Runner.RunContext` is the source's mutable context. Its methods follow the source's
functions (`RunStageStep`, `SettleExecution`, `RunFinalScopeStep`, `RunLoop`, …). Executor, attestor,
clock, abort signal, budget verdict and feature HEAD are arbitrary functions of time in `Environment`;
`Lawful` states the contracts the source relies on. Its ghost fields `states` and `events` record every
save, and `Valid()` says they form a history, so the theorems about histories hold of what the loop does.
What a step concludes, what it saves, in which order and at what time is fixed by a script, a function of
the environment's answers; every method is proved to follow its script, and a run to be a chain of
scripted steps (`Scripted`, `RunIsScripted`), so a body that skipped or swapped a step would not verify.

**Meaning, field by field.** What the checks, the transitions and the routes compute is stated a second time
in terms of the raw fields, and proved to agree for every input: `Acceptance` gives the rules of the store in
their order (`AcceptedIffEveryRuleIsMet`), `Routing.KindIff` and `RouteIff` when each decision and each route
is taken, `RunDefs.CompiledRendersTheDefinition` what a compiled stage holds, `Effects.EventShows` the whole
next state of every event, and `Outcomes` how every step and every run ends. From `Effects` follows that no
crash loses what a stage has to answer (`TasksSurvive`, `RejectionReachesItsTarget`).

**What is abstract.** A content digest is its preimage: a scope digest is the octet stream that is
hashed, a RunDef digest is the RunDef. "The digests are equal" is then a statement about streams, and
injectivity of the framing is proved, not assumed. Collision resistance of SHA-256 is what this replaces.
Text decoding and JSON parsing are arbitrary deterministic functions (with a decoder state), a stage
handoff is an opaque string, and dollars are exact reals.

**Assumptions carried as preconditions.** A run id is new: no archived receipt carries it (`FreshId`), and
neither does the receipt a recovery request expects, which an earlier run wrote (the source generates the
id for each run and does not compare it).
Stage ids are identifiers, which start with a letter, so the key order of a JavaScript record is the
compiled order. A failing save changes nothing on disk. A recovery request has the bounds the action
enforces before it calls the runner (`ValidRecovery`). A loaded state was made under the RunDef its
digest names, with the same gate registry and default timeout (`Loadable`).

## What turned out differently

* *After a regression everything behind the target reruns* holds within one run and fails across a
  crash. A run that stands at position `p` resumes there exactly when stage `p` is not already complete
  (`Resumption.ResumesWhereItStood`); `Resumption.CrashAfterRegressionSkipsAStage` is a concrete history
  in which a passed stage behind the target keeps its old attempt.
* *A finished run needs no repair* holds exactly when the run starts with no stage marked running, or is
  not aborted before its first step (`Runner.RunContext.RunPipelineStages`). A recovery retry does not
  reconcile first: `Example.AbortedRetryLeavesARepair` is a history from a fresh start (done, corrected,
  crashed while a stage runs, retried, aborted) whose last state every later load repairs, and
  `Example.RunAbortedRetry` shows that the runner itself produces that state.
* *Equal digests mean equal scopes* fails for paths with unpaired surrogates, which the path check
  accepts and UTF-8 encoding merges (`Scopes.UnpairedSurrogatesShareADigest`). A digest belongs to one
  list alone exactly when none of its paths holds an unpaired surrogate or U+FFFD
  (`Scopes.DigestIsOwnIffPathsDistinctive`). The comparison stays exact for all paths because it also
  compares the paths (`Scopes.MatchIsEquality`).
* *Every invalidation names a path* fails exactly for a recorded scope without paths whose digest is not
  that of the empty scope; a scope made by this code always names one (`Scopes.InvalidationNamesAPath`,
  with the failing scopes in `Scopes.UnnamedInvalidation`).
* *Attaching an approval gives a state the store accepts* fails for terminal states older than receipts:
  their version is not raised. The version fits exactly when it is at least 2 or the state is pending or
  running (`Legacy.AttachmentIsCompatibleIff`, `Legacy.TerminalLegacyAttachmentIsRefused`).
* A plain resume never adopts another RunDef: the branch that would is unreachable
  (`Starting.PlainResumeKeepsItsDefinition`).
* *A resolved duplicate has a resolved canonical* holds exactly when the canonical is not blocking, or the
  first disposition that answers for it closes it or is itself a covered duplicate
  (`ReviewGates.DuplicateFollowsItsCanonicalIff`); one disposition per finding is enough. The planner
  looks at any disposition, so with two for one finding the duplicate can be resolved while its canonical
  waits for a human (`ReviewGates.RepeatedEntryDetachesDuplicate`).

## Model

| member | source | states |
|---|---|---|
| Protocol.EverySavedStateIsValid | src/state/fs-state-validation.ts:433-508 | From a fresh state, over any runs and crashes, every state handed to the store passes its whole check and meets each of its rules, read off the fields |
| Protocol.EventKeepsInv | src/core/runner-transitions.ts:106-462 | Every transition the runner takes keeps the invariant, and only adds attempts and archive records |
| Protocol.HistoryKeepsInv | src/core/pipeline-runner.ts:341-356 | The invariant holds at every point of every history |
| Protocol.RecordsOnlyGrow | src/core/runner-transitions.ts:149-213 | Between any two points of a history, attempt histories are extended only and archived receipts stay where they are |
| Protocol.CrashAndResume | src/actions/run-pipeline-execution.ts:221-251 | A run cut off after any save, followed by a run from what was saved, is again one history |
| Theorems.HistoriesAccountForEverything | src/core/runner-transitions.ts:149-213 | Attempts are numbered 1 to n without gaps, a passed stage reports its last attempt, and economics is the sum of all recorded usage |
| Theorems.ApprovalCoversCompleteWork | src/core/runner-transitions.ts:223-253 | An active checkpoint names a passed stage whose whole prefix is complete, a receipt or done state covers every stage, and a running stage runs alone, behind any checkpoint, with no receipt active |
| Theorems.CorrectionArchives | src/core/runner-transitions.ts:409-447 | A correction appends exactly one record, of the receipt and of the request that superseded it; the target and all later stages become pending, the target with the reason as its only finding, the others with none; earlier stages, histories, economics and regressions stay |
| Theorems.RecoveryArchivesAtMostOnce | src/core/pipeline-runner.ts:361-397 | However a recovery is repeated across crashes, no receipt run id is archived by two corrections |
| Theorems.CorrectionForcesALaterReview | src/core/scope-attestation.ts:471-485 | With one code review, a correction leaves it pending and every later approval names a strictly later attempt of it |
| Theorems.RetryResumesUntilReapproved | src/core/pipeline-runner.ts:365-374 | Until the next correction, a request is taken as a retry exactly when it is the applied one and no new approval is active |
| Theorems.ArchiveLengthWithoutCorrection | src/core/runner-transitions.ts:409-447 | Nothing but a correction lengthens the archive |
| Durable.InvIsValid | src/state/fs-state-validation.ts:497-508 | Every state with the invariant is accepted by the store and meets each of its rules |
| Acceptance.AcceptedIffEveryRuleIsMet | src/state/fs-state-validation.ts:418-508 | A state is accepted exactly when every rule holds of its fields: done needs a receipt; a checkpoint is of this story and definition and names a passed stage at its latest attempt; a receipt extends it with disjoint paths; archive numbers run from 1, run ids differ, gates are in the histories; usage is not negative |
| Acceptance.RefusedByTheFirstBrokenRule | src/state/fs-state-validation.ts:473-508 | A state is refused for exactly the first rule it breaks |
| Durable.InitialInv | src/state/pipeline-state.ts:411-437 | A fresh state has the invariant |
| Durable.ArchiveSurvives | src/state/fs-state-validation.ts:390-415 | Archived receipts keep matching when histories only grow |
| Durable.CheckpointSurvives | src/state/fs-state-validation.ts:433-454 | A checkpoint stays valid when only a later stage changes |
| Steps.MarkRunningKeepsInv | src/core/runner-transitions.ts:106-134 | Marking the stage at the loop position running keeps the invariant and the position |
| Steps.SettleKeepsInv | src/core/runner-transitions.ts:149-172 | Folding an outcome in keeps the invariant and leaves the loop one on, at the regression target, or at its end, within the regression limit; what each stage then holds is `Effects.EventShows` |
| Effects.EventShows | src/core/runner-transitions.ts:106-462 | For each of the ten events every stage and every root field of the next state, from the last state and the answers: a rejected gate sends its findings and the handoff to the stage named by `onFail`, a pass hands on to the successor, an attempt records what the child reported |
| Effects.SavesShow | src/core/pipeline-runner.ts:795-798 | Every save of every run is the state its event describes |
| Effects.TasksSurvive | src/state/state-reconcile.ts:109-169 | Between two settled attempts, over any crashes, repairs and adoptions, no stage loses its findings or its handoff |
| Effects.RejectionReachesItsTarget | src/core/runner-transitions.ts:568-595 | Until the next settled attempt the regression target holds exactly the findings the gate gave (of a code stage those lifted) and the child's handoff |
| Effects.HandoffReachesTheSuccessor | src/core/runner-transitions.ts:540-566 | Until the next settled attempt the successor of a passed stage holds the child's handoff and keeps its own findings |
| Effects.CorrectionReachesItsTarget | src/core/runner-transitions.ts:330-370 | Until the next settled attempt the reset target of a correction holds exactly its reason, and the later stages nothing |
| Steps.ExecutorErrorKeepsInv | src/core/runner-transitions.ts:187-213 | An executor failure becomes one more failed attempt, and no stage is left running |
| Steps.RunningIsPosition | src/core/runner-transitions.ts:106-134 | A running stage is where the loop stands, with no receipt and not done |
| Steps.RegressionResetKeepsInv | src/core/runner-transitions.ts:568-595 | Resetting a regression target makes only it pending and drops the approval |
| Approvals.AttachReviewKeepsInv | src/core/runner-transitions.ts:223-234 | Attaching the checkpoint of a passed review keeps the invariant |
| Approvals.AttachFinalKeepsInv | src/core/runner-transitions.ts:244-253 | Attaching a receipt keeps the invariant, with or without a checkpoint before it |
| Approvals.FinalizeKeepsInv | src/core/runner-transitions.ts:271-286 | Ending a run keeps the invariant; done needs a receipt |
| Approvals.InvalidateKeepsInv | src/core/runner-transitions.ts:453-462 | Invalidation costs one regression, resets from the named stage on, and puts the loop there |
| Approvals.ResetShape | src/core/runner-transitions.ts:330-370 | A reset makes the target and everything behind it pending, keeps histories, and changes nothing before it |
| Recovery.CorrectionKeepsInv | src/core/runner-transitions.ts:409-447 | Superseding a receipt keeps the invariant |
| Recovery.TargetPrecedesReview | src/core/scope-attestation.ts:471-485 | The inferred reset target lies strictly before the code review the receipt names |
| Recovery.AdoptKeepsInv | src/actions/run-pipeline-identity.ts:134-160 | Adopting a definition that differs only in timeouts keeps the invariant |
| Recovery.AdoptedArchiveOk | src/actions/run-pipeline-identity.ts:147-160 | After an adoption every archived receipt still matches, in order and unchanged |
| Recovery.EqualExceptTimeoutsIsTransitive | src/rundef/identity.ts:34-45 | Chains of timeout-only changes compose |
| Recovery.ReconcileKeepsInv | src/state/state-reconcile.ts:72-87 | Repairing a loaded state keeps the invariant and leaves no stage running |
| Recovery.ReconcileFixedPoint | src/state/state-reconcile.ts:109-275 | A finished state needs no repair exactly when no stage is marked running |
| Runner.RunContext.constructor | src/core/pipeline-runner.ts:332-339 | A run starts with an empty list of executed stages and the loaded state as its history |
| Runner.RunContext.Transition | src/core/pipeline-runner.ts:795-798 | Each save extends the history by one enabled event |
| Runner.RunContext.RunOneStep | src/core/pipeline-runner.ts:358-359 | A step follows its script, moves one on or back for one regression or ends, and leaves no stage running if it executed one |
| Runner.RunContext.RunStageStep | src/core/pipeline-runner.ts:636-649 | Marked running, executed, settled, attested, concluded, in this order; an abort before it changes nothing |
| Runner.RunContext.SettleExecutorError | src/core/pipeline-runner.ts:756-769 | A thrown executor error ends the run and leaves no stage running |
| Runner.RunContext.SettleExecution | src/core/pipeline-runner.ts:684-718 | The outcome is saved, then a passed review is attested, then the route decides |
| Runner.RunContext.ConcludeStep | src/core/pipeline-runner.ts:743-754 | After settling the loop goes where the route leads, or the run ends without being done |
| Runner.RunContext.PersistPassedReview | src/core/scope-attestation.ts:256-281 | Only a passed code review is attested; success leaves the loop one on with the checkpoint behind it |
| Runner.RunContext.AttestReview | src/core/scope-attestation.ts:112-136 | An accepted checkpoint carries the run identity and the gate of the passed attempt |
| Runner.RunContext.BackfillReviewCheckpoint | src/core/scope-attestation.ts:322-356 | Success means a pipeline with a review has a checkpoint; a failed save leaves stages and position as they were |
| Runner.RunContext.PersistFinalScopeAttestation | src/core/scope-attestation.ts:300-320 | A missing review checkpoint is attested first; only then the final scope, from the state that left |
| Runner.RunContext.AttestFinalScope | src/core/scope-attestation.ts:194-213 | A receipt is attached only for the requested run, on complete stages, and changes no stage |
| Runner.RunContext.RunFinalScopeStep | src/core/pipeline-runner.ts:582-634 | Past the last stage the run is done with a receipt, goes back for one regression, or needs attention |
| Runner.RunContext.TerminalCorrectionEligibility | src/core/pipeline-runner.ts:410-455 | A target is given exactly for a coherent done state with the expected receipt, an inferable target, an unchanged scope and the base as HEAD |
| Runner.RunContext.MaybeApplyTerminalCorrection | src/core/pipeline-runner.ts:361-397 | Rejected changes nothing, a retry saves nothing, otherwise exactly one save: the correction |
| Runner.RunContext.RunLoop | src/core/pipeline-runner.ts:341-356 | The loop ends for every environment; its path starts at the first incomplete stage, the executed stages are the stages on that path, each step is the scripted one, only the last one ends, and a stage stays marked running exactly when one was and the first step is aborted |
| Runner.RunContext.LegacyReviewToReset | src/core/pipeline-runner.ts:553-580 | Before the loop every state of this runner is valid and has no legacy review to reset |
| Runner.RunContext.ScriptGoesOn | src/core/pipeline-runner.ts:349-355 | A chain of scripted steps stays one when the next step is added |
| Runner.RunContext.RunToOutcome | src/core/pipeline-runner.ts:276-283 | Bounds on regressions and executions; done means a receipt over complete stages; the final state needs no repair exactly when none was marked running at the start or the run is not aborted before its first step |
| Runner.RunContext.RunPipelineStages | src/core/pipeline-runner.ts:276-283 | As above, with a correction first: it precedes every execution, the scripted loop starts from the corrected state, and nothing else archives |
| Runner.RunContext.FinalizeRun | src/core/pipeline-runner.ts:771-793 | The last save is the terminal state |
| Outcomes.StageStepConcludes | src/core/pipeline-runner.ts:636-754 | What a stage step saves and how it concludes, from the abort signal, the executor, the attestor and the budget: an abort or a budget overrun needs attention, a pass leads on, a rejected gate back, anything else fails the run |
| Outcomes.FinalStepConcludes | src/core/pipeline-runner.ts:582-634 | Past the last stage: done exactly with a receipt for this run, back to the reviewed stage exactly when its scope or base is stale and a regression is left, otherwise attention |
| Outcomes.BackfillComesFirst | src/core/scope-attestation.ts:322-356 | A review without a checkpoint is attested first; confirmed and saved, the step goes on from there, otherwise nothing is saved |
| Outcomes.RunFailsIff | src/core/runner-evaluation.ts:144-164 | A run ends failed exactly when its last step executed a stage that was neither accepted nor sent back, not aborted and within the budget |
| Outcomes.RunIsDoneIff | src/core/pipeline-runner.ts:582-602 | A run ends done exactly when its last step asked for the final receipt and got one for this run |
| Outcomes.SupersededIff | src/core/pipeline-runner.ts:410-455 | When a receipt may be superseded, on the fields and the answers: done, nothing to repair, the expected run id, a review whose `onFail` is an earlier stage, a receipt the attestor reproduces, and its base as the head |
| Runner.RunIsBounded | src/core/pipeline-runner.ts:341-356 | At most n times (remaining regressions + 1) executions, and regressions never above the larger of limit and start |
| Runner.DoneEndsInOnePass | src/core/pipeline-runner.ts:341-356 | A done run that executed anything ends with one unbroken pass through the last stage |
| Runner.FirstIncompleteIsPosition | src/state/state-reconcile.ts:102-107 | The first incomplete stage of a valid state is a place where the loop may stand |
| Paths.StageVisitsAreBounded | src/core/routing.ts:175-198 | A path of single steps and drops visits at most n stages per drop and for its first pass |
| Paths.EndsInAscent | src/core/routing.ts:66-79 | Every path ends in an unbroken ascent that begins at its start or right after a drop |
| Resumption.ResumesWhereItStood | src/state/state-reconcile.ts:102-107 | A crash at a position resumes there exactly when that stage is not complete, and never before it |
| Resumption.CrashAfterRegressionSkipsAStage | src/core/runner-transitions.ts:568-595 | A reachable history in which a stage behind a regression target is not rerun after a crash |
| Protocol.HistoryKeepsConfiguration | src/actions/run-pipeline-identity.ts:52-73 | No save changes what a resume is checked against |
| Example.RecoveryIsReachable | src/core/pipeline-runner.ts:361-397 | From a fresh start a done run, the adoption of its definition and a correction are reachable, so the recovery theorems have instances |
| Example.AbortedRetryLeavesARepair | src/actions/run-pipeline-execution.ts:186-201 | A reachable retry start with a stage marked running, and the finished state that every later load repairs |
| Example.RunAbortedRetry | src/core/pipeline-runner.ts:636-640 | The runner, retried from any such start and aborted at once, saves the terminal status only and leaves the repair |
| Legacy.LegacyReviewIsRedone | src/core/runner-transitions.ts:286-297 | The reset of a legacy review returns it and all behind it to pending, keeps histories, happens once, and lets approvals attach at the current version |
| Legacy.LegacyReviewIff | src/core/pipeline-runner.ts:553-580 | Which review is reset: the first passed one of a valid state older than receipts that is pending or running without an approval |
| Legacy.NoLegacyReview | src/core/pipeline-runner.ts:568-580 | No state of this runner's versions is reset that way |
| Legacy.AttachmentIsCompatibleIff | src/core/runner-transitions.ts:597-605 | An approval attached to a valid state fits its version exactly from version 2 on or while pending or running |
| Legacy.TerminalLegacyAttachmentIsRefused | src/state/fs-state-validation.ts:349-362 | Otherwise the store refuses the attached state for its version |
| Starting.StartIsInOrder | src/actions/run-pipeline-execution.ts:186-251 | Whatever was loaded, a successful start gives a valid state under the active definition; without recovery no stage is running |
| Starting.StartsIff | src/actions/run-pipeline-execution.ts:186-251 | When a run may start: fresh without anything loaded; otherwise the same configuration and definition, or a retry of a correction that differs in timeouts only, and no repair pending on a done state to be recovered |
| Starting.FreshStartShows | src/state/pipeline-state.ts:411-437 | Every field of a fresh start |
| Starting.StartIsOneEvent | src/actions/run-pipeline-execution.ts:186-251 | Starting from a loaded state is one event of the protocol |
| Starting.LoadedFitsActiveStages | src/actions/run-pipeline-identity.ts:52-73 | A state that passes the identity check is valid for the active stages and may adopt their definition |
| Starting.PlainResumeKeepsItsDefinition | src/actions/run-pipeline-execution.ts:221-238 | Without a recovery request only the exact definition resumes |
| Starting.RecoveryUnderAnotherDefinition | src/actions/run-pipeline-identity.ts:105-124 | A done state needs its exact definition; a retry under other timeouts stays a retry and keeps all work |
| Starting.InvIgnoresTimeouts | src/rundef/identity.ts:34-45 | The invariant does not depend on timeouts |
| Starting.HistoryIgnoresTimeouts | src/rundef/identity.ts:34-45 | A history under one set of timeouts is a history under any other, so runs may change them |
| RunDefs.CheckCrossFieldInvariants | src/rundef/schema.ts:160-174 | Reports exactly the violated cross-field rules, each with its position |
| RunDefs.CheckOnFailTarget | src/rundef/schema.ts:215-245 | Reports exactly a missing or a non-earlier target of one stage |
| RunDefs.NoIssueIffWellFormed | src/rundef/schema.ts:160-267 | No rule is violated exactly when ids are unique, targets are earlier, gates pair with targets and budgets are not empty |
| RunDefs.IsRunDefIff | src/rundef/schema.ts:21-81 | A definition is accepted exactly when every field is in order and its stages fit together |
| RunDefs.EqualExceptTimeoutsIff | src/rundef/identity.ts:34-45 | Two definitions are equal up to timeouts exactly when one arises from the other by setting timeouts |
| RunDefs.CompileFromIsPointwise | src/rundef/compile.ts:365-385 | Compilation works stage by stage and succeeds exactly when every gate is registered |
| RunDefs.CompiledRendersTheDefinition | src/rundef/compile.ts:203-385 | Compiling gives a list of stages exactly when gates are registered and the list renders the definition field by field: kind, timeout (own or default), command and arguments, workflow, agent, gate, thinking, model, budget, extensions, findings file, names |
| RunDefs.CompiledRunDefIsRoutable | src/rundef/compile.ts:365-385 | A valid definition compiles to stages with unique ids, index equal to position, and strictly earlier targets |
| RunDefs.TimeoutsDoNotChangeThePipeline | src/rundef/identity.ts:34-45 | Definitions equal up to timeouts compile alike up to timeouts |
| Routing.CompiledStagesNeverMisroute | src/core/routing.ts:143-182 | On compiled stages a failed gate never meets a missing or non-earlier target, and lacks a target only on a code stage |
| Routing.RouteLeadsOnOrBack | src/core/routing.ts:66-198 | A pass leads one on or completes; a failed gate goes to an earlier stage for one regression within the limit; anything else fails |
| Routing.KindIff | src/core/stage-decision.ts:92-210 | When each of the six kinds of attempt is given, as a condition on the execution, and which findings it reports; a gate fails exactly for a clean gated agent with a rejecting verdict, or a code stage that ran to its end and exits 1 with findings |
| Routing.RouteIff | src/core/routing.ts:66-198 | Where every execution leads: each route and each failure code as a condition on the execution, the stage list and the counters |
| Routing.RoutableStagesRegressIff | src/core/routing.ts:143-198 | On compiled stages a stage regresses exactly when its gate rejects, it has an `onFail`, and a regression is left |
| PipelineStates.CreateInitialPipelineState | src/state/pipeline-state.ts:411-437 | Exactly the compiled stages, all pending, nothing recorded |
| PipelineStates.RecordedUsageAdds | src/core/runner-transitions.ts:477-486 | One more attempt of one stage adds exactly its usage to the total over all histories |
| Validation.HasUniqueExpectedReceiptRunIds | src/state/fs-state-validation.ts:189-199 | True exactly when no two records expect the same receipt |
| Reconcile.ReconcilePipelineState | src/state/state-reconcile.ts:72-87 | The issues are exactly the repairs that were needed, and there are none exactly when nothing changed |
| Reconcile.ReconcileStageRecord | src/state/state-reconcile.ts:109-169 | Rebuilds exactly the compiled stages and reports every stage repair |
| Reconcile.RepairPipelineFields | src/state/state-reconcile.ts:171-247 | Repairs the root fields and reports exactly those that contradicted each other |
| Reconcile.RecomputeEconomics | src/state/state-reconcile.ts:265-275 | The total of every attempt of every stage |
| Reconcile.ReportsIffChanged | src/state/state-reconcile.ts:72-87 | A repair is reported exactly when the state changes |
| Reconcile.ReconcileIsIdempotent | src/state/state-reconcile.ts:72-87 | On every state, a second reconciliation finds nothing to repair, whatever the clock says |
| Transitions.LastPassedIsLast | src/core/scope-attestation.ts:390-405 | The final gate names exactly the passed stage behind which none is passed, and is missing exactly when no stage passed |
| Transitions.PassedReviewIsTheOnlyOne | src/core/scope-attestation.ts:419-452 | A gate is backfilled exactly for the only passed code review, and only with a complete identity; ambiguity gives nothing |
| Transitions.TargetInferredIff | src/core/scope-attestation.ts:471-485 | A target is inferred exactly when the receipt names a code review whose `onFail` is an earlier stage, and it is that stage |
| Transitions.FirstIncompleteIff | src/state/state-reconcile.ts:102-107 | The result is the one position before which every stage is passed or skipped and at which none is |
| Scopes.CanonicalizeFiles | src/security/final-scope-receipt.ts:234-252 | Accepts exactly valid, distinct paths and returns the files in path order |
| Scopes.CanonicalOrderIsInputIndependent | src/security/final-scope-receipt.ts:234-252 | Two inputs have the same canonical form exactly when they hold the same files |
| Scopes.ValidPathIff | src/security/final-scope-receipt.ts:259-268 | A path is accepted exactly without control characters, backslashes and drive letters, and with segments that are neither empty nor dots |
| Scopes.LessIff | src/security/final-scope-receipt.ts:270-271 | The path order: by the first differing code unit, a prefix first |
| Scopes.CreateScope | src/security/final-scope-receipt.ts:273-288 | Feeding the hash piece by piece gives the framed stream of all files |
| Scopes.ReadStreamInverts | src/security/final-scope-receipt.ts:273-288 | A reader recovers every path and every content from the stream, and tells tombstones from empty files |
| Scopes.DigestDeterminesEntries | src/security/final-scope-receipt.ts:273-288 | Digests agree exactly when encoded paths and contents agree, position by position |
| Scopes.DigestDeterminesFiles | src/security/final-scope-receipt.ts:273-288 | Without unpaired surrogates the digest alone determines the files |
| Scopes.DigestIsOwnIffPathsDistinctive | src/security/final-scope-receipt.ts:273-288 | No other list has the digest of this one exactly when no path of it holds an unpaired surrogate or U+FFFD; nothing is asked of the others |
| Scopes.OwnDigest | src/security/final-scope-receipt.ts:273-288 | One list with such paths is determined by its digest against every other list |
| Scopes.UnpairedSurrogatesShareADigest | src/security/final-scope-receipt.ts:259-288 | Two different valid paths with one digest |
| Scopes.MatchIsEquality | src/security/final-scope-receipt.ts:290-293 | Two scopes match exactly when their files are equal |
| Scopes.CompareFinalScopeToReview | src/security/final-scope-receipt.ts:177-198 | Fails exactly on invalid or repeated paths; otherwise compares the canonical files |
| Scopes.ChangedPathsAreExact | src/security/final-scope-receipt.ts:295-302 | When path sets differ, the changed paths are exactly the ascending list, without repetition, of the paths in one scope only |
| Scopes.UnnamedInvalidation | src/security/final-scope-receipt.ts:295-302 | Every recorded scope without paths and with a digest of something is invalidated without a name, although the store accepts its paths |
| Scopes.AttestsIffReviewedUnchanged | src/security/final-scope-receipt.ts:177-198 | Attests exactly when the files outside the documents are the reviewed files |
| Scopes.AttestedPathsPartition | src/security/final-scope-receipt.ts:177-198 | Attested documents and reviewed paths are disjoint and together are the final paths |
| Scopes.AttestedDigestsReadBack | src/security/final-scope-receipt.ts:177-198 | From the digests of an attested comparison all files of the tree and all documents can be read back |
| Scopes.InvalidationNamesAPath | src/security/final-scope-receipt.ts:295-302 | Exactly when an invalidation names no path, and that it always names one for a scope made here |
| Scopes.AttestationDeterminesTree | src/security/final-scope-receipt.ts:177-198 | Two trees attested alike against one review are the same tree |
| Scopes.SortedFilesHaveCanonicalPaths | src/state/fs-state-validation.ts:99-119 | Scopes made here pass the store's path check |
| GitParsing.ParseChangedPaths | src/actions/git-scope-attestor.ts:391-412 | Accepts exactly the status listings of supported, distinct entries and returns their observations |
| GitParsing.ParseCommittedPaths | src/actions/git-scope-attestor.ts:414-434 | Accepts exactly the listings of supported, distinct changes and returns their observations |
| GitParsing.SupportedIff | src/actions/git-scope-attestor.ts:363-417 | The letters of the entries and changes that are supported |
| GitParsing.StatusSays | src/actions/git-scope-attestor.ts:363-372 | Exactly the entries deleted in the index or the working tree are expected to be absent, the other supported ones to be there, and files under `.pi/pipeline/` are left out |
| GitParsing.ChangesSay | src/actions/git-scope-attestor.ts:418-434 | Exactly the committed deletions are expected to be absent |
| GitParsing.MergePathObservations | src/actions/git-scope-attestor.ts:88-97 | One observation per path, in path order, the latest winning |
| GitParsing.DirtyOverridesCommitted | src/actions/git-scope-attestor.ts:88-97 | The working tree overrides what was committed |
| GitParsing.TerminatedOfSplit | src/actions/git-scope-attestor.ts:391-412 | Splitting at NUL loses nothing |
| GitAttestor.ObserveGitScope | src/actions/git-scope-attestor.ts:107-181 | Succeeds exactly when both listings parse, every path is found as listed and deletions are confirmed; then the scope holds exactly the listed paths with the bytes read; a tombstone stands only for a listed deletion found missing and confirmed |
| GitAttestor.AttestObservedScope | src/actions/git-scope-attestor.ts:297-319 | The answer is that of the classification for an ordered observed scope, or a rejection |
| GitAttestor.GitAttestorIsHonest | src/actions/git-scope-attestor.ts:186-319 | The attestor echoes the gate, builds canonical scopes, extends the given checkpoint and keeps documents apart: all the runner relies on |
| GitAttestor.ReviewAnsweredIff | src/actions/git-scope-attestor.ts:297-319 | A review is answered exactly with the checkpoint of the request's identity and gate, the observed branch and base, and the files that are not documentation, and exactly when their paths are canonical |
| GitAttestor.StaleBaseIff | src/actions/git-scope-attestor.ts:221-257 | A stale base is reported exactly when the base moved on the same branch within the feature and nothing moved meanwhile, with both bases |
| GitAttestor.ScopeChangedIff | src/actions/git-scope-attestor.ts:259-276 | A changed scope is reported exactly when branch and base stand and the files under review differ |
| GitAttestor.UnreviewedIsReceiptedIff | src/actions/git-scope-attestor.ts:259-295 | Without a review everything observed is receipted exactly when all paths are canonical |
| GitAttestor.StaleBaseIsCorrelated | src/actions/git-scope-attestor.ts:221-257 | A stale-base answer about a real checkpoint passes the runner's correlation check |
| GitAttestor.ConfirmedIffReviewedFilesUnchanged | src/actions/git-scope-attestor.ts:259-295 | A review is confirmed later exactly when branch, base and all files that are not documents are unchanged |
| GitAttestor.ChangedScopeNamesAPath | src/actions/git-scope-attestor.ts:259-276 | When files changed, a changed path is named |
| GitAttestor.ReattestationReproducesTheReceipt | src/actions/git-scope-attestor.ts:278-295 | Re-attesting gives the same receipt exactly when branch, base and the whole tree are unchanged |
| Utf.EncodeConcat | src/executors/pi/headless-jsonl-parser.ts:98-118 | Encoding a string in two parts gives the same octets unless the cut splits a surrogate pair |
| Utf.EncodeUnpaired | src/executors/pi/headless-jsonl-parser.ts:126-133 | An unpaired surrogate encodes to U+FFFD |
| Utf.EncodingIsOwnIffDistinctive | src/security/final-scope-receipt.ts:276-278 | No other string has the encoding of this one exactly when it holds no unpaired surrogate and no U+FFFD |
| Utf.DecodeInvertsEncode | src/executors/pi/headless-jsonl-parser.ts:98-118 | The encoder of section 3 of RFC 3629 loses nothing on well-formed strings |
| Jsonl.FeedConcat | src/executors/pi/headless-jsonl-parser.ts:152-170 | Feeding octets in two parts is feeding them at once |
| Jsonl.FeedIsSplit | src/executors/pi/headless-jsonl-parser.ts:152-190 | Scanning octet by octet is splitting the whole stream at newlines |
| Jsonl.FeedChunksIsParseWhole | src/executors/pi/headless-jsonl-parser.ts:192-209 | Finishing after any feeding is parsing the whole input in one go |
| Jsonl.ParseWholeReports | src/executors/pi/headless-jsonl-parser.ts:211-255 | Records are exactly the lines that are not blank, relevant and parse to something that is not transient; issues exactly the relevant lines that do not parse, with message and the first 1000 characters; both ascend by line, and every line is counted |
| Jsonl.SplitRejoins | src/executors/pi/headless-jsonl-parser.ts:156-163 | The lines are what lies between newlines: joined by newlines they are the input |
| Jsonl.HeldIsOpenTrail | src/executors/pi/headless-jsonl-parser.ts:98-150 | What is held back is exactly the trailing high surrogate of the text since the last byte chunk |
| Jsonl.FedBytesAreWholeBytes | src/executors/pi/headless-jsonl-parser.ts:98-150 | For every list of chunks, octets consumed and held are the encoding of the joined text |
| Jsonl.TextCutIsInvisible | src/executors/pi/headless-jsonl-parser.ts:98-150 | However a string is cut, the octets are the encoding of the whole string |
| Jsonl.ByteCutIsInvisible | src/executors/pi/headless-jsonl-parser.ts:144-170 | However a byte stream is cut, the octets are the stream |
| Jsonl.HeadlessJsonlParser.Push | src/executors/pi/headless-jsonl-parser.ts:152-170 | A chunk is taken in order; after the end it is refused and nothing changes |
| Jsonl.HeadlessJsonlParser.BytesOfChunk | src/executors/pi/headless-jsonl-parser.ts:144-150 | The octets to scan make the parser fed with one chunk more |
| Jsonl.HeadlessJsonlParser.ScanBytes | src/executors/pi/headless-jsonl-parser.ts:156-169 | The loop over octets with pending buffers feeds them in order |
| Jsonl.HeadlessJsonlParser.ConsumeLineBytes | src/executors/pi/headless-jsonl-parser.ts:172-190 | A line is the pending buffers followed by its last slice |
| Jsonl.HeadlessJsonlParser.FlushHeldSurrogate | src/executors/pi/headless-jsonl-parser.ts:126-133 | A held surrogate becomes replacement octets of the pending line |
| Jsonl.HeadlessJsonlParser.Finish | src/executors/pi/headless-jsonl-parser.ts:192-209 | At the end, for every chunking, the parser holds what one pass over the whole input gives: exactly the records and issues its lines call for, in order |
| Jsonl.ParseHeadlessJsonl | src/executors/pi/headless-jsonl-parser.ts:319-323 | One call on a string or on octets gives exactly the records and issues of the lines of the input |
| LocalCode.EveryOrderIsSafe | src/executors/code/local-code-executor.ts:233-329 | Under every order of events: one settlement, SIGTERM at most once and first, SIGKILL at most once and after it, an armed timer while unsettled, and a result that tells whether the child was being terminated |
| LocalCode.SettlementIsFinal | src/executors/code/local-code-executor.ts:280-321 | The first settlement is never changed or repeated |
| LocalCode.WhatSettles | src/executors/code/local-code-executor.ts:233-321 | Which event settles a run and with what, for every order before it: the first close with its exit code, the kill timer of an interrupted run, an error of one that was not; the flags tell whether timeout and abort came before |
| LocalCode.EscalationStaysArmed | src/executors/code/local-code-executor.ts:255-266 | Once terminating, the kill timer stays armed until it fires, even when the child closes early |
| LocalCode.KillTimerSettles | src/executors/code/local-code-executor.ts:262-265 | When the kill timer fires the run is settled and a spawned child has had both signals |
| LocalCode.TimersSettleEveryRun | src/executors/code/local-code-executor.ts:207-231 | After any events, timeout and kill timer alone settle the run |
| LocalCode.TerminatedNeverPasses | src/core/stage-decision.ts:107-123 | A child that was being terminated never passes its stage, whatever its exit code |
| LocalCode.CloseDecides | src/core/stage-decision.ts:154-192 | The first close of a child left alone decides its stage: exit code 0 passes, 1 with findings fails the gate, anything else fails |
| LocalCode.LocalRun.constructor | src/executors/code/local-code-executor.ts:154-238 | A started run with everything attached, already terminating when the signal was raised before |
| LocalCode.LocalRun.Terminate | src/executors/code/local-code-executor.ts:255-266 | Signals and arms the kill timer once, and not after settlement |
| LocalCode.LocalRun.ResolveOnce | src/executors/code/local-code-executor.ts:280-287 | Settles once and keeps escalation armed while terminating |
| LocalCode.LocalRun.RejectOnce | src/executors/code/local-code-executor.ts:314-321 | Settles once with the spawn error and disarms everything |
| LocalCode.LocalRun.OnTimeout | src/executors/code/local-code-executor.ts:218-223 | The timeout as the step of the life it stands for |
| LocalCode.LocalRun.OnAbort | src/executors/code/local-code-executor.ts:224-226 | The abort signal as the step of the life it stands for |
| LocalCode.LocalRun.OnError | src/executors/code/local-code-executor.ts:243-247 | The error event as the step of the life it stands for; ignored while terminating |
| LocalCode.LocalRun.OnClose | src/executors/code/local-code-executor.ts:248-251 | The close event as the step of the life it stands for |
| LocalCode.LocalRun.OnKillTimer | src/executors/code/local-code-executor.ts:262-265 | The kill timer as the step of the life it stands for |
| ReviewGates.PlanActions | tools/review-gates/reconcile_threads.py:104-219 | One action per disposition in order, judged by ruling and evidence, then one for every unanswered blocking finding |
| ReviewGates.ActionIff | tools/review-gates/reconcile_threads.py:144-215 | Every action in terms of rulings, existing commits and green tests: a fix resolves exactly with both a commit and a green test, an absence with either, a duplicate with a closed canonical, anything else by a ruling |
| ReviewGates.VerifiedClosers | tools/review-gates/reconcile_threads.py:117-136 | Exactly the findings closed in this batch by a ruling or by evidence |
| ReviewGates.EachBlockingFindingOnce | tools/review-gates/reconcile_threads.py:144-219 | Every blocking finding gets exactly one action that is not a skip |
| ReviewGates.DuplicateResolvesIffCovered | tools/review-gates/reconcile_threads.py:189-202 | An unruled duplicate resolves exactly when its canonical is not blocking or is closed in the batch |
| ReviewGates.RingResolvesNothing | tools/review-gates/reconcile_threads.py:117-202 | A ring of machine duplicate claims of any length resolves nothing |
| ReviewGates.NothingResolvesUnsupported | tools/review-gates/reconcile_threads.py:144-219 | Every resolved finding has a ruling, evidence, or a covered canonical |
| ReviewGates.ResolvedIffFirstAnswerResolves | tools/review-gates/reconcile_threads.py:144-215 | A finding is resolved exactly when the first disposition that answers for it closes it or is a covered duplicate |
| ReviewGates.DuplicateFollowsItsCanonicalIff | tools/review-gates/reconcile_threads.py:189-202 | A resolved unruled duplicate has a settled canonical exactly when that is not blocking or its first answer resolves it |
| ReviewGates.DuplicateFollowsItsCanonical | tools/review-gates/reconcile_threads.py:189-202 | With one disposition per finding, a resolved duplicate of an open finding has a resolved canonical |
| ReviewGates.RepeatedEntryDetachesDuplicate | tools/review-gates/reconcile_threads.py:117-202 | With two dispositions for one finding that fails |
| ReviewGates.PlanAutoDefer | tools/review-gates/reconcile_threads.py:79-101 | One deferral for each undecided advisory finding that has a thread, in the order of the queue |
| ReviewGates.AutoDeferYieldsToDispositions | tools/review-gates/reconcile_threads.py:401-406 | A finding with any disposition, even of unknown kind, is never deferred by policy |

## Left out

- Runner.RunContext.RunLoop: runs from states of version 0 and 1 are not modelled, because their terminal states cannot take an approval; the reset of a legacy review is proved as a transition (`Legacy.LegacyReviewIsRedone`) and as never needed by other states.
- Failure codes, reason strings, observers, events and debug logs: an outcome is its status.
- The lexical form of digests (64 hexadecimal digits): a digest is its preimage.
- Filling the optional fields of a compiled stage one by one: they are optional values here.
- Canonical JSON text: the digest of a RunDef is the RunDef, so the text form is not modelled.
- Snapshots with both bytes and an absence mark, or with neither: the file datatype excludes them.
- Structural checks of loaded JSON (types, unknown keys, handoff bounds): a loaded state is typed.
- Budgets: the verdict is an arbitrary input of each step.
- Rounding of dollar amounts: sums are exact.
- UTF-8 decoding, `JSON.parse` and text decoder internals: arbitrary deterministic functions.
- The documentation-path rules: a parameter of the attestor.
- Reading base, branch and HEAD from Git, symbolic links and path confinement: answers of the view.
- Process spawning, output capture and lifting of findings: the executor model keeps signals, timers and settlement.
- The dispatch lock: it rests on directory creation and process probing.
- Redaction and the text of handoffs, replies and comments.
- Applying review actions on GitHub, the fenced push, and collecting rulings.
- YAML loading, model selection and the command line.
