/**
 One run of the pipeline: the loop over the stages with its saves.  The environment answers every
 call; its functions take the number of calls made so far, so it is an arbitrary environment.
 */
module Runner {
  import opened Basics
  import opened RunDefs
  import opened Scopes
  import opened PipelineStates
  import opened Routing
  import opened Transitions
  import opened Validation
  import opened Reconcile
  import opened Attestation
  import opened Durable
  import opened Steps
  import opened Approvals
  import opened Recovery
  import opened Protocol
  import opened Theorems
  import opened Legacy
  import opened Paths

  datatype ExecutorAnswer = Executed(execution: Execution) | Threw

  datatype Environment = Environment(
    execute: (nat, nat) -> ExecutorAnswer,         // time, stage position
    attest: (nat, ScopeRequest) -> ScopeResult,
    clock: nat -> Time,
    aborted: nat -> bool,
    overBudget: nat -> bool,
    headOid: nat -> Option<string>,
    backfillSaveFails: nat -> bool)

  /** The contracts of the injected effects. */
  ghost predicate Lawful(env: Environment) {
    && (forall t, q {:trigger env.attest(t, q)} :: WellFormedRequest(q) ==> Honest(q, env.attest(t, q)))
    && (forall t {:trigger env.clock(t)} :: IsIsoTimestamp(env.clock(t)))
    && (forall t, p {:trigger env.execute(t, p)} :: env.execute(t, p).Executed? ==> ValidExecution(env.execute(t, p).execution))
  }

  datatype TerminalRecovery = TerminalRecovery(kind: RecoveryKind, expectedReceiptRunId: string, reason: string)

  datatype Step =
    | Advance(next: Option<CompiledStage>)
    | Ended(status: RunStatus)

  /** What some of the runner's code concludes, the saves it makes, and the time it ends. */
  datatype Script<+R> = Script(result: R, saves: seq<Event>, end: nat) {
    ghost function After(first: seq<Event>): Script<R> {
      this.(saves := first + saves)
    }
  }

  /** Positions the loop stepped at, the number of saves before each step, and the time of each. */
  datatype Trace = Trace(visited: seq<nat>, cuts: seq<nat>, times: seq<nat>) {
    function Then(position: nat, cut: nat, time: nat): Trace {
      Trace(visited + [position], cuts + [cut], times + [time])
    }
  }

  datatype CorrectionStep = Proceed | RejectCorrection

  function StatusOf(status: RunStatus): PipelineStatus {
    match status
    case RunDone => Done
    case RunFailed => Failed
    case RunNeedsAttention => NeedsAttention
  }

  /** The state belongs to this run: same story, a bound definition, and a run id not archived before. */
  ghost predicate Bound(s: PipelineState, storyId: string, runId: string) {
    s.storyId == storyId && NonBlank(s.runDefId) && s.runDefDigest.Sha256? && FreshId(s, runId)
  }

  lemma BoundKept(a: PipelineState, b: PipelineState, storyId: string, runId: string)
    requires Bound(a, storyId, runId) && SameHeader(a, b)
    ensures Bound(b, storyId, runId)
  {
    assert Archive(a) == Archive(b);
  }

  /** Which events keep the story, the definition and the archive. */
  lemma EventKeepsHeader(stages: Stages, s: PipelineState, e: Event)
    requires !e.Correct? && !e.Adopt?
    ensures SameHeader(s, Apply(stages, s, e))
  {
  }

  lemma HistoryExtends(stages: Stages, states: seq<PipelineState>, events: seq<Event>, e: Event)
    requires History(stages, states, events) && Enabled(stages, states[|states| - 1], e)
    ensures History(stages, states + [Apply(stages, states[|states| - 1], e)], events + [e])
  {
    hide Enabled, Apply;
  }

  lemma FirstIncompleteIsPosition(stages: Stages, s: PipelineState)
    requires WellCompiled(stages) && Inv(stages, s)
    ensures AtPosition(stages, s, FirstIncomplete(s, stages))
  {
    hide RecordOk, ArchiveOk, HeaderOk, ValidCheckpoint, ValidReceipt, HistoryMatches, FreshId, WellCompiled;
    var p := FirstIncomplete(s, stages);
    assert forall q :: 0 <= q < |stages| ==> StageAt(s.stages, stages, q) == StageOf(s, stages[q].id);
    if s.reviewCheckpoint.Some? {
      CheckpointStage(stages, s);
      assert StageIndex(stages, s.reviewCheckpoint.value.qualityGate.stageId) < p;
    }
  }

  // ----- What a step may do -----

  function PositionOfNext(stages: Stages, next: Option<CompiledStage>): nat {
    if next.None? then |stages| else next.value.index
  }

  predicate IsStageOf(stages: Stages, stage: CompiledStage) {
    stage.index < |stages| && stages[stage.index] == stage
  }

  /** The loop moves one position on, or back at the cost of one regression; done is final and complete. */
  ghost predicate StepOk(stages: Stages, before: PipelineState, after: PipelineState, p: nat, step: Step, max: nat) {
    match step
    case Advance(next) =>
      var q := PositionOfNext(stages, next);
      && (next.Some? ==> IsStageOf(stages, next.value))
      && AtPosition(stages, after, q) && Calm(stages, after.stages)
      && ((q == p + 1 && after.regressions == before.regressions)
          || (q <= p && q < |stages| && after.regressions == before.regressions + 1 <= max))
    case Ended(status) =>
      && (after.regressions == before.regressions || after.regressions == before.regressions + 1 <= max)
      && (status.RunDone? ==> p == |stages| && after.finalScopeReceipt.Some? && AllComplete(stages, after.stages)
                              && after.regressions == before.regressions)
  }

  /** A passed stage's gate is well formed, so an honest answer for this run can be attached. */
  lemma ReviewAnswerAttaches(stages: Stages, s: PipelineState, p: nat, gate: QualityGate, request: ScopeRequest, c: Checkpoint)
    requires WellCompiled(stages) && RecordOk(stages, s) && s.finalScopeReceipt.None?
    requires p < |stages| && IsCodeReview(stages[p]) && Prefix(stages, s.stages, p) && IsGateOf(gate, StageAt(s.stages, stages, p))
    requires request.ReviewRequest? && Bound(s, request.identity.storyId, request.identity.runId)
    requires request.qualityGate == gate && request.identity.runDefId == s.runDefId && request.identity.runDefDigest == s.runDefDigest
    requires NonBlank(request.identity.storyId) && NonBlank(request.identity.runId)
    ensures WellFormedRequest(request)
    ensures Honest(request, ReviewCheckpointed(c)) && MatchesRequest(c, request.identity) ==> MayAttachReview(stages, s, p, c)
  {
    hide ValidCheckpoint, IsCodeReview, NonBlank, TotalUsage, Prefix;
    KnownStage(stages, s, p);
  }

  lemma GateOfSettledStage(stages: Stages, t: PipelineState, p: nat, previous: StageState, o: Outcome)
    requires p < |stages| && o.decision.passed && previous.id == o.stageId
    requires SameCore(StageAt(t.stages, stages, p), BuildFinishedStage(previous, o))
    ensures IsGateOf(QualityGate(o.stageId, o.attempt, Passed, o.finishedAt), StageAt(t.stages, stages, p))
  {
  }

  /** Attaching a review at `p` leaves the loop at the position after it. */
  lemma AttachedPosition(stages: Stages, s: PipelineState, p: nat, c: Checkpoint)
    requires WellCompiled(stages) && RecordOk(stages, s) && p < |stages| && MayAttachReview(stages, s, p, c)
    requires AtPosition(stages, s, p + 1) && Calm(stages, s.stages)
    ensures AtPosition(stages, AttachReviewCheckpoint(s, c), p + 1) && Calm(stages, AttachReviewCheckpoint(s, c).stages)
  {
    KnownStage(stages, s, p);
    hide RecordOk, Prefix, ValidCheckpoint, IsCodeReview, FreshId, Calm;
    StageAtItsIndex(stages, p);
  }

  lemma PositionPrefix(stages: Stages, s: PipelineState, p: nat)
    requires AtPosition(stages, s, p + 1)
    ensures Prefix(stages, s.stages, p)
  {
  }

  lemma AttachReviewIsEnabled(stages: Stages, s: PipelineState, p: nat, c: Checkpoint)
    requires MayAttachReview(stages, s, p, c)
    ensures Enabled(stages, s, AttachReview(p, c))
    ensures AttachReviewCheckpoint(s, c) == Apply(stages, s, AttachReview(p, c))
  {
  }

  lemma ClockIsIso(env: Environment, t: nat)
    requires Lawful(env)
    ensures IsIsoTimestamp(env.clock(t))
  {
  }

  lemma MarkedRunning(stages: Stages, s: PipelineState, p: nat, at: Time)
    requires WellCompiled(stages) && Inv(stages, s) && p < |stages| && AtPosition(stages, s, p)
    ensures var t := MarkStageRunning(s, stages[p].id, at);
            && Enabled(stages, s, MarkRunning(p, at)) && t == Apply(stages, s, MarkRunning(p, at))
            && StageAt(t.stages, stages, p).status.StageRunning? && t.regressions == s.regressions
  {
    MarkRunningKeepsInv(stages, s, p, at);
    hide Inv, AtPosition, WellCompiled;
  }

  lemma ErroredWell(stages: Stages, s: PipelineState, p: nat, at: Time)
    requires WellCompiled(stages) && Inv(stages, s) && p < |stages| && StageAt(s.stages, stages, p).status.StageRunning?
    ensures var t := ApplyExecutorError(s, stages[p].id, StageAt(s.stages, stages, p).attempts + 1, at);
            && Enabled(stages, s, ExecutorError(p, at)) && t == Apply(stages, s, ExecutorError(p, at))
            && Calm(stages, t.stages) && t.regressions == s.regressions
  {
    hide Inv, WellCompiled, Calm, StateGrows;
    ExecutorErrorKeepsInv(stages, s, p, at);
  }

  lemma StepIgnoresMarking(stages: Stages, before: PipelineState, marked: PipelineState, after: PipelineState, p: nat, step: Step, max: nat)
    requires StepOk(stages, marked, after, p, step, max) && marked.regressions == before.regressions
    ensures StepOk(stages, before, after, p, step, max)
  {
    hide AtPosition, Calm, AllComplete;
  }

  lemma ExecutionIsValid(env: Environment, t: nat, p: nat)
    requires Lawful(env) && env.execute(t, p).Executed?
    ensures ValidExecution(env.execute(t, p).execution)
  {
    hide ValidExecution;
  }

  lemma EndedIsOk(stages: Stages, before: PipelineState, after: PipelineState, p: nat, status: RunStatus, max: nat)
    requires !status.RunDone? && after.regressions == before.regressions
    ensures StepOk(stages, before, after, p, Ended(status), max)
  {
  }

  function NextOf(stages: Stages, action: RouteAction): Option<CompiledStage> {
    match action
    case Continue(id) => FindStage(stages, id)
    case Regress(id) => FindStage(stages, id)
    case Complete => None
    case Fail(_) => None
  }

  /** The state right after an attempt at position `p` was folded in. */
  ghost predicate JustSettled(stages: Stages, before: PipelineState, t: PipelineState, p: nat, o: Outcome, max: nat) {
    && p < |stages| && MovedTo(stages, before, t, p, o.route) && o.stageId == stages[p].id
    && LeadsOnOrBack(stages, p, o.decision.passed, o.route, before.regressions, max)
    && (o.decision.passed ==>
         && AtPosition(stages, t, p + 1) && t.finalScopeReceipt.None?
         && IsGateOf(QualityGate(o.stageId, o.attempt, Passed, o.finishedAt), StageAt(t.stages, stages, p)))
  }

  /** Settling is enabled for a running stage, and a passed attempt can be attested right after. */
  lemma SettledWell(stages: Stages, s: PipelineState, p: nat, execution: Execution, max: nat, at: Time)
    requires WellCompiled(stages) && Inv(stages, s) && p < |stages| && StageAt(s.stages, stages, p).status.StageRunning?
    requires ValidExecution(execution) && IsIsoTimestamp(at)
    ensures var o := OutcomeOf(stages, s, p, execution, max, at);
            && Enabled(stages, s, Settle(p, execution, max, at))
            && ApplyStageOutcome(s, o) == Apply(stages, s, Settle(p, execution, max, at))
            && JustSettled(stages, s, ApplyStageOutcome(s, o), p, o, max)
  {
    hide Inv, AtPosition, Calm, RecordOk, StageOk, WellCompiled, CheckStageDecision, RouteStageDecision, StateGrows, Recorded,
         ApplyStageOutcome, LeadsOnOrBack, ValidExecution, IsIsoTimestamp, IsGateOf, MovedTo;
    SettleKeepsInv(stages, s, p, execution, max, at);
    RunningIsPosition(stages, s, p);
    KnownId(stages, s, p);
    RouteLeadsOnOrBack(stages, p, CheckStageDecision(stages[p], execution), s.regressions, max);
    KindIff(stages[p], execution);
    var o := OutcomeOf(stages, s, p, execution, max, at);
    if o.decision.passed {
      PassedMovesOn(stages, s, ApplyStageOutcome(s, o), p, o.route, max);
      SettledReceipt(s, o);
      GateOfSettledStage(stages, ApplyStageOutcome(s, o), p, StageAt(s.stages, stages, p), o);
    }
  }

  lemma PassedMovesOn(stages: Stages, s: PipelineState, t: PipelineState, p: nat, route: Route, max: nat)
    requires p < |stages| && MovedTo(stages, s, t, p, route) && LeadsOnOrBack(stages, p, true, route, s.regressions, max)
    ensures AtPosition(stages, t, p + 1)
  {
    hide AtPosition, Calm;
  }

  lemma KnownId(stages: Stages, s: PipelineState, p: nat)
    requires Inv(stages, s) && p < |stages|
    ensures StageAt(s.stages, stages, p).id == stages[p].id
  {
    hide ApprovalOk, ArchiveOk, RunningOk, HeaderOk, RecordOk;
    KnownStageId(stages, s, p);
  }

  lemma SettledReceipt(s: PipelineState, o: Outcome)
    requires s.finalScopeReceipt.None?
    ensures ApplyStageOutcome(s, o).finalScopeReceipt.None?
  {
  }

  /** What a passed attempt left behind, as far as attesting it needs. */
  lemma SettledPassed(stages: Stages, before: PipelineState, t: PipelineState, p: nat, o: Outcome)
    requires exists max: nat :: JustSettled(stages, before, t, p, o, max)
    ensures Calm(stages, t.stages)
    ensures o.decision.passed ==>
      && AtPosition(stages, t, p + 1) && t.finalScopeReceipt.None?
      && IsGateOf(QualityGate(o.stageId, o.attempt, Passed, o.finishedAt), StageAt(t.stages, stages, p))
  {
    hide Calm, AtPosition, IsGateOf;
  }

  /** An outcome after settling, possibly after an attached review. */
  lemma SettledOutcome(stages: Stages, before: PipelineState, settled: PipelineState, after: PipelineState, p: nat, o: Outcome, status: RunStatus, max: nat)
    requires JustSettled(stages, before, settled, p, o, max)
    requires after.regressions == settled.regressions && after.stages == settled.stages && !status.RunDone?
    ensures StepOk(stages, before, after, p, Ended(status), max) && Calm(stages, after.stages)
  {
    hide AtPosition, IsGateOf;
  }

  /** Where the loop goes next, after an attempt whose route did not fail. */
  lemma SettledAdvance(stages: Stages, before: PipelineState, settled: PipelineState, after: PipelineState, p: nat, o: Outcome, next: Option<CompiledStage>, max: nat)
    requires WellCompiled(stages) && JustSettled(stages, before, settled, p, o, max) && !o.route.action.Fail?
    requires after.regressions == settled.regressions && after.stages == settled.stages
    requires if o.decision.passed then AtPosition(stages, after, p + 1) else after == settled
    requires next == NextOf(stages, o.route.action)
    ensures StepOk(stages, before, after, p, Advance(next), max) && Calm(stages, after.stages)
  {
    hide AtPosition, Calm, IsGateOf;
    if o.route.action.Continue? {
      StageAtItsIndex(stages, p + 1);
    }
    if next.Some? {
      var i := if o.route.action.Continue? then StageIndex(stages, o.route.action.next) else StageIndex(stages, o.route.action.target);
      assert stages[i].index == i;
    }
  }

  // ----- The final scope -----

  datatype FinalScope = ReceiptAttached | ScopeInvalidated | ScopeRejected

  /** The one passed review, as the loop finds it past the last stage, can be attested again. */
  lemma BackfillGate(stages: Stages, s: PipelineState, p: nat)
    requires AtPosition(stages, s, |stages|) && ApprovalOk(stages, s) && s.reviewCheckpoint.None?
    requires RecordOk(stages, s) && PassedReviewPosition(s, stages) == Some(p)
    ensures p < |stages| && IsCodeReview(stages[p]) && Prefix(stages, s.stages, p) && s.finalScopeReceipt.None?
    ensures StageOf(s, stages[p].id).finishedAt.Some?
    ensures IsGateOf(QualityGate(stages[p].id, StageOf(s, stages[p].id).attempts, Passed, StageOf(s, stages[p].id).finishedAt.value),
                     StageAt(s.stages, stages, p))
  {
    hide PassedReviewPosition, CheckpointOk, ValidReceipt, IsCodeReview, StageOk, IdSet, TotalUsage;
    KnownStageId(stages, s, p);
  }

  lemma KnownStageId(stages: Stages, s: PipelineState, p: nat)
    requires RecordOk(stages, s) && p < |stages|
    ensures StageAt(s.stages, stages, p).id == stages[p].id
  {
    KnownStage(stages, s, p);
  }

  lemma BackfilledPosition(stages: Stages, s: PipelineState, p: nat, c: Checkpoint)
    requires WellCompiled(stages) && RecordOk(stages, s) && MayAttachReview(stages, s, p, c) && AtPosition(stages, s, |stages|)
    ensures AtPosition(stages, AttachReviewCheckpoint(s, c), |stages|)
    ensures AttachReviewCheckpoint(s, c).regressions == s.regressions && AttachReviewCheckpoint(s, c).stages == s.stages
  {
    KnownStageId(stages, s, p);
    hide RecordOk, Prefix, ValidCheckpoint, IsCodeReview, FreshId;
    StageAtItsIndex(stages, p);
  }

  lemma AttachedCheckpoint(s: PipelineState, c: Checkpoint)
    ensures AttachReviewCheckpoint(s, c).reviewCheckpoint.Some?
  {
  }

  /** The gate sent with a final request is well formed. */
  lemma FinalGateIsValid(stages: Stages, s: PipelineState)
    requires WellCompiled(stages) && RecordOk(stages, s) && ApprovalOk(stages, s) && FinalQualityGate(s, Ids(stages)).Some?
    ensures ValidQualityGate(FinalQualityGate(s, Ids(stages)).value)
  {
    hide TotalUsage, IdSet, Prefix, HistoryMatches, IsCodeReview, HasReview, ValidReceipt, NonBlank;
    if s.reviewCheckpoint.None? {
      var q := PositionOf(stages, LastPassed(s, Ids(stages)).value);
      KnownStage(stages, s, q);
    }
  }

  function FinalIdentity(s: PipelineState, storyId: string, runId: string): Identity {
    Identity(storyId, if s.reviewCheckpoint.Some? then s.reviewCheckpoint.value.runId else runId, s.runDefId, s.runDefDigest)
  }

  lemma FinalRequestIsWellFormed(stages: Stages, s: PipelineState, storyId: string, runId: string)
    requires ApprovalOk(stages, s) && Bound(s, storyId, runId) && NonBlank(storyId) && NonBlank(runId)
    requires FinalQualityGate(s, Ids(stages)).Some? && ValidQualityGate(FinalQualityGate(s, Ids(stages)).value)
    ensures WellFormedRequest(FinalRequest(FinalIdentity(s, storyId, runId), s.reviewCheckpoint, FinalQualityGate(s, Ids(stages)).value))
  {
    hide ValidReceipt, HistoryMatches, IsCodeReview, HasReview, Prefix, NonBlank, ValidQualityGate, LastPassed, FreshId;
  }

  /** An honest receipt for the requested run extends the active checkpoint, so it can be attached. */
  lemma FinalAnswerAttaches(stages: Stages, s: PipelineState, storyId: string, runId: string, r: Receipt)
    requires AtPosition(stages, s, |stages|) && Bound(s, storyId, runId) && (HasReview(stages) ==> s.reviewCheckpoint.Some?)
    requires FinalQualityGate(s, Ids(stages)).Some?
    requires var request := FinalRequest(FinalIdentity(s, storyId, runId), s.reviewCheckpoint, FinalQualityGate(s, Ids(stages)).value);
             Honest(request, FinalReceipted(r)) && MatchesRequest(r.checkpoint, request.identity)
    ensures MayAttachFinal(stages, s, r)
  {
    hide ValidCheckpoint, ValidReceipt, Disjoint, NonBlank, LastPassed, Prefix, HasReview;
  }

  /** Whatever a lawful attestor answers: a receipt for this request may be attached. */
  lemma FinalAnswer(stages: Stages, s: PipelineState, storyId: string, runId: string, env: Environment, t: nat)
    requires WellCompiled(stages) && Inv(stages, s) && Lawful(env) && NonBlank(storyId) && NonBlank(runId) && Bound(s, storyId, runId)
    requires AtPosition(stages, s, |stages|) && (HasReview(stages) ==> s.reviewCheckpoint.Some?) && FinalQualityGate(s, Ids(stages)).Some?
    ensures var request := FinalRequest(FinalIdentity(s, storyId, runId), s.reviewCheckpoint, FinalQualityGate(s, Ids(stages)).value);
            var answer := env.attest(t, request);
            answer.FinalReceipted? && MatchesRequest(answer.receipt.checkpoint, request.identity) ==> MayAttachFinal(stages, s, answer.receipt)
  {
    hide *;
    var request := FinalRequest(FinalIdentity(s, storyId, runId), s.reviewCheckpoint, FinalQualityGate(s, Ids(stages)).value);
    InvRecord(stages, s);
    InvApproval(stages, s);
    FinalGateIsValid(stages, s);
    FinalRequestIsWellFormed(stages, s, storyId, runId);
    HonestAnswer(env, t, request);
    var answer := env.attest(t, request);
    if answer.FinalReceipted? && MatchesRequest(answer.receipt.checkpoint, request.identity) {
      FinalAnswerAttaches(stages, s, storyId, runId, answer.receipt);
    }
  }

  lemma FinalAttached(stages: Stages, s: PipelineState, r: Receipt)
    requires MayAttachFinal(stages, s, r) && AtPosition(stages, s, |stages|)
    ensures Enabled(stages, s, AttachFinal(r)) && AttachFinalScopeReceipt(s, r) == Apply(stages, s, AttachFinal(r))
    ensures AttachFinalScopeReceipt(s, r).finalScopeReceipt.Some? && AllComplete(stages, s.stages)
    ensures AttachFinalScopeReceipt(s, r).stages == s.stages && AttachFinalScopeReceipt(s, r).regressions == s.regressions
  {
    hide ValidReceipt, ValidCheckpoint, Disjoint, LastPassed, Prefix, HasReview;
  }

  lemma HonestAnswer(env: Environment, t: nat, request: ScopeRequest)
    requires Lawful(env) && WellFormedRequest(request)
    ensures Honest(request, env.attest(t, request))
  {
    hide WellFormedRequest, Honest, ValidExecution;
  }

  /** Invalidation leads back to the stage the checkpoint names, at the cost of one regression. */
  lemma InvalidationLeadsBack(stages: Stages, s: PipelineState, max: nat)
    requires WellCompiled(stages) && Inv(stages, s) && AtPosition(stages, s, |stages|) && s.reviewCheckpoint.Some? && s.regressions < max
    ensures var id := s.reviewCheckpoint.value.qualityGate.stageId;
            && id in Ids(stages) && Enabled(stages, s, InvalidateReview)
            && InvalidateReviewApproval(s, Ids(stages), id) == Apply(stages, s, InvalidateReview)
            && Calm(stages, InvalidateReviewApproval(s, Ids(stages), id).stages)
            && StepOk(stages, s, InvalidateReviewApproval(s, Ids(stages), id), |stages|, Advance(FindStage(stages, id)), max)
  {
    hide Inv, WellCompiled, Calm, StateGrows, ResetFrom, InvalidateReviewApproval, Ids, AtPosition, AllComplete, StepOk, Enabled, Apply;
    CheckpointInIds(stages, s);
    PastTheEndIsCalm(stages, s);
    InvalidateKeepsInv(stages, s);
    InvalidationIsEnabled(stages, s);
    var id := s.reviewCheckpoint.value.qualityGate.stageId;
    StageHasItsIndex(stages, StageIndex(stages, id));
    BackByOne(stages, s, InvalidateReviewApproval(s, Ids(stages), id), StageIndex(stages, id), max);
  }

  lemma InvalidationIsEnabled(stages: Stages, s: PipelineState)
    requires AllComplete(stages, s.stages) && s.reviewCheckpoint.Some? && s.reviewCheckpoint.value.qualityGate.stageId in Ids(stages)
    ensures Enabled(stages, s, InvalidateReview)
    ensures InvalidateReviewApproval(s, Ids(stages), s.reviewCheckpoint.value.qualityGate.stageId) == Apply(stages, s, InvalidateReview)
  {
    hide AllComplete, Ids, InvalidateReviewApproval;
  }

  lemma BackByOne(stages: Stages, before: PipelineState, after: PipelineState, k: nat, max: nat)
    requires k < |stages| && stages[k].index == k && AtPosition(stages, after, k) && Calm(stages, after.stages)
    requires after.regressions == before.regressions + 1 <= max
    ensures StepOk(stages, before, after, |stages|, Advance(Some(stages[k])), max)
  {
    hide AtPosition, Calm;
  }

  lemma StageHasItsIndex(stages: Stages, i: nat)
    requires WellCompiled(stages) && i < |stages|
    ensures stages[i].index == i
  {
  }

  lemma PastTheEndIsCalm(stages: Stages, s: PipelineState)
    requires AtPosition(stages, s, |stages|)
    ensures Calm(stages, s.stages) && AllComplete(stages, s.stages)
  {
  }

  lemma DoneIsOk(stages: Stages, before: PipelineState, after: PipelineState, max: nat)
    requires after.finalScopeReceipt.Some? && AllComplete(stages, after.stages) && after.regressions == before.regressions
    ensures StepOk(stages, before, after, |stages|, Ended(RunDone), max)
  {
    hide AllComplete;
  }

  // ----- Whole runs -----

  /** Ids of the stages on a path, in order; position `n` is the final attestation. */
  ghost function VisitedIds(stages: Stages, visited: seq<nat>): seq<string> {
    if visited == [] then []
    else
      var last := visited[|visited| - 1];
      VisitedIds(stages, visited[..|visited| - 1]) + (if last < |stages| then [stages[last].id] else [])
  }

  lemma {:induction false} VisitedIdsCount(stages: Stages, visited: seq<nat>)
    ensures |VisitedIds(stages, visited)| == StageVisits(visited, |stages|)
    decreases |visited|
  {
    if visited != [] {
      VisitedIdsCount(stages, visited[..|visited| - 1]);
    }
  }

  /** The loop is about to step at the end of `visited`, having run the stages before it. */
  ghost predicate LoopAt(stages: Stages, r0: nat, max: nat, ran: seq<string>, visited: seq<nat>, s: PipelineState) {
    && visited != [] && IsPath(visited, |stages|)
    && ran == VisitedIds(stages, visited[..|visited| - 1])
    && AtPosition(stages, s, visited[|visited| - 1])
    && s.regressions == r0 + Drops(visited) && (s.regressions > r0 ==> s.regressions <= max)
  }

  /** The loop ended at the end of `visited`; only the last stage may not have run. */
  ghost predicate LoopEnded(stages: Stages, r0: nat, max: nat, ran: seq<string>, visited: seq<nat>, s: PipelineState, status: RunStatus) {
    && visited != [] && IsPath(visited, |stages|)
    && (ran == VisitedIds(stages, visited) || ran == VisitedIds(stages, visited[..|visited| - 1]))
    && r0 + Drops(visited) <= s.regressions <= r0 + Drops(visited) + 1
    && (s.regressions > r0 ==> s.regressions <= max)
    && (status.RunDone? ==>
         && visited[|visited| - 1] == |stages| && s.regressions == r0 + Drops(visited)
         && s.finalScopeReceipt.Some? && AllComplete(stages, s.stages))
  }

  ghost function RanHere(stages: Stages, p: nat): seq<string> {
    if p < |stages| then [stages[p].id] else []
  }

  lemma StepAdvances(stages: Stages, r0: nat, max: nat, ran: seq<string>, visited: seq<nat>, before: PipelineState, after: PipelineState, next: Option<CompiledStage>)
    requires LoopAt(stages, r0, max, ran, visited, before)
    requires StepOk(stages, before, after, visited[|visited| - 1], Advance(next), max)
    ensures LoopAt(stages, r0, max, ran + RanHere(stages, visited[|visited| - 1]), visited + [PositionOfNext(stages, next)], after)
  {
    hide AtPosition, Calm;
    var q := PositionOfNext(stages, next);
    PathExtends(visited, |stages|, q);
    assert (visited + [q])[..|visited|] == visited;
  }

  lemma StepEnds(stages: Stages, r0: nat, max: nat, ran: seq<string>, visited: seq<nat>, before: PipelineState, after: PipelineState, status: RunStatus)
    requires LoopAt(stages, r0, max, ran, visited, before)
    requires StepOk(stages, before, after, visited[|visited| - 1], Ended(status), max)
    ensures LoopEnded(stages, r0, max, ran + RanHere(stages, visited[|visited| - 1]), visited, after, status)
    ensures LoopEnded(stages, r0, max, ran, visited, after, status)
  {
    hide AtPosition, Calm, AllComplete;
    assert visited[|visited| - 1] == |stages| ==> ran + RanHere(stages, visited[|visited| - 1]) == ran;
  }

  lemma MulMonotone(n: nat, a: nat, b: nat)
    requires a <= b
    ensures n * a <= n * b
  {
  }

  /** Regressions and executions of one run that starts with `r0` regressions. */
  ghost predicate WithinBounds(stages: Stages, max: nat, r0: nat, regressions: nat, executions: nat) {
    && regressions <= (if r0 < max then max else r0)
    && executions <= |stages| * ((if r0 < max then max - r0 else 0) + 1)
  }

  /** A later load would leave the state as it is. */
  ghost predicate NeedsNoRepair(stages: Stages, s: PipelineState) {
    forall now: Time :: ReconcileState(s, Ids(stages), now) == s
  }

  lemma FinishedNeedsNoRepair(stages: Stages, s: PipelineState)
    requires Inv(stages, s) && IsTerminal(s.status) && s.currentStage.None? && s.finishedAt.Some?
    ensures NeedsNoRepair(stages, s) <==> Calm(stages, s.stages)
  {
    hide Inv, Calm, ReconcileState;
    forall now: Time ensures ReconcileState(s, Ids(stages), now) == s <==> Calm(stages, s.stages) {
      ReconcileFixedPoint(stages, s, now);
    }
    assert ReconcileState(s, Ids(stages), EPOCH) == s <==> Calm(stages, s.stages);
  }

  /** One run executes at most `n` stages per regression it may still take, plus one pass. */
  lemma RunIsBounded(stages: Stages, r0: nat, max: nat, ran: seq<string>, visited: seq<nat>, s: PipelineState, status: RunStatus)
    requires LoopEnded(stages, r0, max, ran, visited, s, status)
    ensures WithinBounds(stages, max, r0, s.regressions, |ran|)
  {
    hide AllComplete;
    var n := |stages|;
    var left := if r0 < max then max - r0 else 0;
    VisitedIdsCount(stages, visited);
    StageVisitsAreBounded(visited, n);
    MulStep(n, Drops(visited));
    assert Drops(visited) <= left;
    MulMonotone(n, Drops(visited) + 1, left + 1);
    FrontIsShorter(stages, visited);
  }

  lemma FrontIsShorter(stages: Stages, visited: seq<nat>)
    requires visited != []
    ensures |VisitedIds(stages, visited[..|visited| - 1])| <= |VisitedIds(stages, visited)|
  {
  }

  lemma FinalOnlyRunsNothing(stages: Stages, visited: seq<nat>)
    requires |visited| == 1 && visited[0] == |stages|
    ensures VisitedIds(stages, visited) == [] && VisitedIds(stages, visited[..0]) == []
  {
  }

  /** A done run that executed any stage ends with one unbroken pass through the last stage. */
  lemma DoneEndsInOnePass(stages: Stages, r0: nat, max: nat, ran: seq<string>, visited: seq<nat>, s: PipelineState) returns (t: nat)
    requires LoopEnded(stages, r0, max, ran, visited, s, RunDone) && ran != []
    ensures t < |visited| - 1 && visited[|visited| - 1] == |stages|
    ensures forall i :: t <= i < |visited| ==> visited[i] == |stages| - (|visited| - 1 - i)
  {
    hide AllComplete;
    t := EndsInAscent(visited, |stages|);
    if |visited| == 1 {
      FinalOnlyRunsNothing(stages, visited);
    }
  }

  /** The measure of the loop: regressions that may still be taken, then positions left. */
  function RegressionsLeft(max: nat, s: PipelineState): nat {
    if s.regressions < max then max - s.regressions else 0
  }

  lemma StepDescends(stages: Stages, before: PipelineState, after: PipelineState, p: nat, next: Option<CompiledStage>, max: nat)
    requires StepOk(stages, before, after, p, Advance(next), max)
    ensures var q := PositionOfNext(stages, next);
            RegressionsLeft(max, after) < RegressionsLeft(max, before)
            || (RegressionsLeft(max, after) == RegressionsLeft(max, before) && p < q <= |stages|)
  {
    hide Calm, Prefix;
  }

  lemma LoopStarts(stages: Stages, s: PipelineState, max: nat, p: nat)
    requires AtPosition(stages, s, p)
    ensures LoopAt(stages, s.regressions, max, [], [p], s)
  {
    hide AtPosition;
    assert AtPosition(stages, s, p) ==> p <= |stages| by { PositionInRange(stages, s, p); }
  }

  lemma PositionInRange(stages: Stages, s: PipelineState, p: nat)
    ensures AtPosition(stages, s, p) ==> p <= |stages|
  {
  }

  /** A running stage is not complete, so the first incomplete stage is a stage. */
  lemma RunningIsAhead(stages: Stages, s: PipelineState)
    ensures Calm(stages, s.stages) || FirstIncomplete(s, stages) < |stages|
  {
    if !Calm(stages, s.stages) {
      var q :| 0 <= q < |stages| && StageAt(s.stages, stages, q).status.StageRunning?;
      assert StageOf(s, stages[q].id) == StageAt(s.stages, stages, q);
    }
  }

  lemma StageHasItsIndexIfAny(stages: Stages, p: nat)
    requires WellCompiled(stages)
    ensures p < |stages| ==> IsStageOf(stages, stages[p]) && stages[p].index == p
  {
  }

  lemma AdvancePosition(stages: Stages, before: PipelineState, after: PipelineState, p: nat, next: Option<CompiledStage>, max: nat)
    requires StepOk(stages, before, after, p, Advance(next), max)
    ensures AtPosition(stages, after, PositionOfNext(stages, next)) && PositionOfNext(stages, next) <= |stages|
    ensures next.Some? ==> IsStageOf(stages, next.value)
  {
    hide Calm, Prefix;
  }

  // ----- Terminal recovery -----

  lemma DoneHasReceipt(stages: Stages, r0: nat, max: nat, ran: seq<string>, visited: seq<nat>, s: PipelineState, status: RunStatus)
    requires LoopEnded(stages, r0, max, ran, visited, s, status)
    ensures status.RunDone? ==> s.finalScopeReceipt.Some?
  {
    hide AllComplete;
  }

  lemma FinalizedLoop(stages: Stages, r0: nat, max: nat, ran: seq<string>, visited: seq<nat>, s: PipelineState, t: PipelineState, status: RunStatus)
    requires LoopEnded(stages, r0, max, ran, visited, s, status)
    requires t.stages == s.stages && t.regressions == s.regressions && t.finalScopeReceipt == s.finalScopeReceipt
    ensures LoopEnded(stages, r0, max, ran, visited, t, status)
  {
    hide AllComplete;
  }

  predicate ValidRecovery(r: TerminalRecovery) {
    BoundedReceiptId(r.expectedReceiptRunId) && BoundedReason(r.reason)
  }

  /** The receipt is checked against the scope it was issued for. */
  function CorrectionRequest(s: PipelineState, storyId: string, receipt: Receipt): ScopeRequest {
    FinalRequest(Identity(storyId, receipt.checkpoint.runId, s.runDefId, s.runDefDigest),
                 Some(receipt.checkpoint), receipt.checkpoint.qualityGate)
  }

  /** When a receipt may be superseded: coherent done state, expected receipt, target, scope and head. */
  ghost predicate Eligible(stages: Stages, s: PipelineState, storyId: string, env: Environment, t: nat, r: TerminalRecovery) {
    && s.status.Done? && ReconcileState(s, Ids(stages), env.clock(t)) == s
    && s.reviewCheckpoint.Some? && s.finalScopeReceipt.Some?
    && s.finalScopeReceipt.value.checkpoint.runId == r.expectedReceiptRunId
    && InferResetTarget(stages, s.finalScopeReceipt.value).Some?
    && env.attest(t, CorrectionRequest(s, storyId, s.finalScopeReceipt.value)) == FinalReceipted(s.finalScopeReceipt.value)
    && env.headOid(t) == Some(s.finalScopeReceipt.value.checkpoint.baseOid)
  }

  function CorrectionOf(stages: Stages, s: PipelineState, r: TerminalRecovery, target: string, at: Time, runId: string): Correction {
    Correction(r.kind, r.expectedReceiptRunId, r.reason, target, at, runId)
  }

  lemma EligibleMayCorrect(stages: Stages, s: PipelineState, storyId: string, env: Environment, t: nat, r: TerminalRecovery, runId: string, at: Time)
    requires Eligible(stages, s, storyId, env, t, r) && ValidRecovery(r) && IsIsoTimestamp(at) && NonBlank(runId)
    ensures var target := InferResetTarget(stages, s.finalScopeReceipt.value).value;
            var c := CorrectionOf(stages, s, r, target, at, runId);
            && target in Ids(stages) && MayCorrect(stages, s, c) && Enabled(stages, s, Correct(c))
            && ApplyTerminalCorrection(s, Ids(stages), c) == Apply(stages, s, Correct(c))
  {
    hide ReconcileState, InferResetTarget, IsIsoTimestamp, NonBlank, BoundedReason, BoundedReceiptId, ApplyTerminalCorrection;
    InferredInIds(stages, s.finalScopeReceipt.value);
  }

  /** After the correction the state still belongs to this run, and no stage is marked running. */
  lemma CorrectionStaysBound(stages: Stages, s: PipelineState, c: Correction, storyId: string, runId: string)
    requires WellCompiled(stages) && Inv(stages, s) && MayCorrect(stages, s, c) && c.resetTargetStageId in Ids(stages)
    requires Bound(s, storyId, runId) && c.expectedReceiptRunId != runId
    ensures var t := ApplyTerminalCorrection(s, Ids(stages), c);
            && Inv(stages, t) && Bound(t, storyId, runId) && t.regressions == s.regressions
            && Archive(t) == Archive(s) + [ArchiveRecord(s, c)]
  {
    hide Inv, WellCompiled, StateGrows, ResetFrom, MayCorrect, ArchiveRecord, StageIndex, ApplyTerminalCorrection, Bound;
    CorrectionInIds(stages, s, c);
    CorrectionKeepsInv(stages, s, c);
    CorrectionKeepsBound(s, Ids(stages), c, storyId, runId);
  }

  lemma CorrectionKeepsBound(s: PipelineState, ids: seq<string>, c: Correction, storyId: string, runId: string)
    requires s.finalScopeReceipt.Some? && s.finalScopeReceipt.value.checkpoint.runId == c.expectedReceiptRunId && c.resetTargetStageId in ids
    requires Bound(s, storyId, runId) && c.expectedReceiptRunId != runId
    ensures Bound(ApplyTerminalCorrection(s, ids, c), storyId, runId)
  {
    hide ArchiveRecord, NonBlank, ResetStages;
    var t := ApplyTerminalCorrection(s, ids, c);
    RecordId(s, c);
    assert forall k :: 0 <= k < |Archive(s)| ==> Archive(t)[k] == Archive(s)[k];
  }

  lemma RecordId(s: PipelineState, c: Correction)
    requires s.finalScopeReceipt.Some?
    ensures ArchiveRecord(s, c).expectedReceiptRunId == c.expectedReceiptRunId
  {
  }

  lemma CorrectedIsCalm(stages: Stages, s: PipelineState, c: Correction)
    requires WellCompiled(stages) && Inv(stages, s) && MayCorrect(stages, s, c) && c.resetTargetStageId in Ids(stages)
    ensures Calm(stages, s.stages) && Calm(stages, ApplyTerminalCorrection(s, Ids(stages), c).stages)
  {
    hide Inv, WellCompiled, StateGrows, InferResetTarget, ApplyTerminalCorrection, StageIndex, Prefix, BoundedReason;
    CorrectionKeepsInv(stages, s, c);
    InvApproval(stages, s);
    ReceiptIsComplete(stages, s);
    AllCompleteIsCalm(stages, s.stages);
    var k := StageIndex(stages, c.resetTargetStageId);
    ResetIsCalm(stages, s, ApplyTerminalCorrection(s, Ids(stages), c), k);
  }

  lemma ReceiptIsComplete(stages: Stages, s: PipelineState)
    requires ApprovalOk(stages, s) && s.finalScopeReceipt.Some?
    ensures AllComplete(stages, s.stages)
  {
    hide AllComplete, CheckpointOk, ValidReceipt;
  }

  lemma ResetIsCalm(stages: Stages, s: PipelineState, t: PipelineState, k: nat)
    requires ResetFrom(stages, s, t, k) && Calm(stages, s.stages)
    ensures Calm(stages, t.stages)
  {
  }

  class RunContext {
    const stages: Stages
    const storyId: string
    const runId: string
    const maxRegressions: nat
    const env: Environment
    var state: PipelineState
    var stagesRun: seq<string>
    var time: nat
    ghost var states: seq<PipelineState>  // the start and every state saved since
    ghost var events: seq<Event>

    ghost predicate Valid()
      reads this
    {
      && WellCompiled(stages) && Lawful(env) && NonBlank(storyId) && NonBlank(runId)
      && Inv(stages, state) && Bound(state, storyId, runId)
      && History(stages, states, events) && states[|states| - 1] == state
    }

    constructor (stages: Stages, storyId: string, runId: string, maxRegressions: nat, env: Environment, start: PipelineState)
      requires WellCompiled(stages) && Lawful(env) && NonBlank(storyId) && NonBlank(runId)
      requires Inv(stages, start) && Bound(start, storyId, runId)
      ensures Valid() && state == start && stagesRun == [] && states == [start] && events == [] && time == 0
      ensures this.stages == stages && this.storyId == storyId && this.runId == runId
      ensures this.maxRegressions == maxRegressions && this.env == env
    {
      this.stages, this.storyId, this.runId, this.maxRegressions, this.env := stages, storyId, runId, maxRegressions, env;
      state, stagesRun, time := start, [], 0;
      states, events := [start], [];
    }

    // ----- The script of a step: what it concludes, what it saves, and the time it ends -----

    /** The answer about a passed review that the runner accepts. */
    function Accepted(t: nat, s: PipelineState, gate: QualityGate): Option<Checkpoint> {
      var identity := Identity(storyId, runId, s.runDefId, s.runDefDigest);
      var answer := env.attest(t, ReviewRequest(identity, gate));
      if answer.ReviewCheckpointed? && MatchesRequest(answer.checkpoint, identity) then Some(answer.checkpoint) else None
    }

    function Conclusion(o: Outcome, overBudget: bool): Step {
      var failure := StageFailureOutcome(o.decision, overBudget, o.route);
      if failure.Some? then Ended(failure.value) else Advance(NextOf(stages, o.route.action))
    }

    ghost function ReviewScript(s: PipelineState, t: nat, p: nat, passed: bool, gate: QualityGate): Script<bool>
      requires p < |stages|
    {
      if !passed || !IsCodeReview(stages[p]) then Script(true, [], t)
      else
        var accepted := Accepted(t, s, gate);
        Script(accepted.Some?, if accepted.Some? then [AttachReview(p, accepted.value)] else [], t + 1)
    }

    ghost function ConcludeScript(s: PipelineState, t: nat, p: nat, o: Outcome): Script<Step>
      requires p < |stages|
    {
      var review := ReviewScript(s, t, p, o.decision.passed, QualityGate(o.stageId, o.attempt, Passed, o.finishedAt));
      Script(if review.result then Conclusion(o, env.overBudget(review.end + 1)) else Ended(RunNeedsAttention), review.saves, review.end + 1)
    }

    ghost function SettleScript(s: PipelineState, t: nat, p: nat, execution: Execution): Script<Step>
      requires p < |stages|
    {
      var settle := Settle(p, execution, maxRegressions, env.clock(t));
      var o := OutcomeOf(stages, s, p, execution, maxRegressions, env.clock(t));
      ConcludeScript(ApplyStageOutcome(s, o), t + 1, p, o).After([settle])
    }

    ghost function StageScript(s: PipelineState, t: nat, p: nat): Script<Step>
      requires p < |stages|
    {
      if env.aborted(t + 1) then Script(Ended(RunNeedsAttention), [], t + 1)
      else
        var mark := MarkRunning(p, env.clock(t + 1));
        var answer := env.execute(t + 1, p);
        if answer.Threw? then Script(Ended(RunNeedsAttention), [mark, ExecutorError(p, env.clock(t + 2))], t + 2)
        else SettleScript(MarkStageRunning(s, stages[p].id, env.clock(t + 1)), t + 2, p, answer.execution).After([mark])
    }

    ghost function BackfillScript(s: PipelineState, t: nat): Script<bool> {
      if s.reviewCheckpoint.Some? || !HasReview(stages) then Script(true, [], t)
      else
        var position := PassedReviewPosition(s, stages);
        if position.None? then Script(false, [], t)
        else
          var stage := StageOf(s, stages[position.value].id);
          var accepted := Accepted(t, s, QualityGate(stages[position.value].id, stage.attempts, Passed, stage.finishedAt.value));
          var ok := accepted.Some? && !env.backfillSaveFails(t + 1);
          Script(ok, if ok then [AttachReview(position.value, accepted.value)] else [], t + 1)
    }

    function FinalVerdict(s: PipelineState, answer: ScopeResult): FinalScope {
      match answer
      case ReviewScopeChanged(_) => ScopeInvalidated
      case ReviewBaseStale(previous, current) =>
        if IsValidStaleBase(previous, current, s.reviewCheckpoint) then ScopeInvalidated else ScopeRejected
      case FinalReceipted(receipt) =>
        if MatchesRequest(receipt.checkpoint, FinalIdentity(s, storyId, runId)) then ReceiptAttached else ScopeRejected
      case ReviewCheckpointed(_) => ScopeRejected
      case Rejected => ScopeRejected
    }

    ghost function AttestScript(s: PipelineState, t: nat): Script<FinalScope> {
      var gate := FinalQualityGate(s, Ids(stages));
      if gate.None? then Script(ScopeRejected, [], t)
      else
        var answer := env.attest(t, FinalRequest(FinalIdentity(s, storyId, runId), s.reviewCheckpoint, gate.value));
        var verdict := FinalVerdict(s, answer);
        Script(verdict, if answer.FinalReceipted? && verdict.ReceiptAttached? then [AttachFinal(answer.receipt)] else [], t + 1)
    }

    /** The state after at most one save. */
    ghost function Saved(s: PipelineState, saves: seq<Event>): PipelineState {
      if saves == [] then s else Apply(stages, s, saves[0])
    }

    ghost function ScopeScript(s: PipelineState, t: nat): Script<FinalScope> {
      var backfill := BackfillScript(s, t);
      if !backfill.result then Script(ScopeRejected, backfill.saves, backfill.end)
      else AttestScript(Saved(s, backfill.saves), backfill.end).After(backfill.saves)
    }

    /** What follows from the verdict on the scope; `s` is the state after the attestation. */
    function Verdict(s: PipelineState, verdict: FinalScope): Step {
      if verdict.ReceiptAttached? then Ended(RunDone)
      else if verdict.ScopeRejected? || s.reviewCheckpoint.None? || s.regressions >= maxRegressions then Ended(RunNeedsAttention)
      else Advance(FindStage(stages, s.reviewCheckpoint.value.qualityGate.stageId))
    }

    ghost function FinalScript(s: PipelineState, t: nat): Script<Step> {
      var scope := ScopeScript(s, t);
      var step := Verdict(Saved(s, scope.saves), scope.result);
      Script(step, if step.Advance? then scope.saves + [InvalidateReview] else scope.saves, scope.end)
    }

    /** The step at position `p`, as the environment's answers determine it. */
    ghost function StepScript(s: PipelineState, t: nat, p: nat): Script<Step> {
      if p < |stages| then StageScript(s, t, p) else FinalScript(s, t)
    }

    /** The method that ends here did what the script says, no more and no less. */
    ghost predicate Follows<R>(script: Script<R>, result: R, wasEvents: seq<Event>)
      reads this
    {
      result == script.result && events == wasEvents + script.saves && time == script.end
    }

    // ----- The steps -----

    /** Sets the state and saves it. */
    method Transition(next: PipelineState, ghost e: Event)
      requires Valid() && Enabled(stages, state, e) && !e.Correct? && !e.Adopt? && next == Apply(stages, state, e)
      modifies `state, `states, `events
      ensures Valid() && state == next && events == old(events) + [e] && states == old(states) + [next]
      ensures SameHeader(old(state), state)
    {
      hide Inv, Enabled, Apply, WellCompiled, Lawful, Bound, History, SameHeader;
      EventKeepsInv(stages, state, e);
      EventKeepsHeader(stages, state, e);
      BoundKept(state, next, storyId, runId);
      HistoryExtends(stages, states, events, e);
      state := next;
      states := states + [next];
      events := events + [e];
    }

    function Now(): Time
      reads this
    {
      env.clock(time)
    }

    /** Asks the attestor about a passed review; anything but a matching checkpoint is a rejection. */
    method AttestReview(p: nat, gate: QualityGate) returns (attested: Option<Checkpoint>)
      requires Valid() && p < |stages| && IsCodeReview(stages[p]) && Prefix(stages, state.stages, p)
      requires IsGateOf(gate, StageAt(state.stages, stages, p)) && state.finalScopeReceipt.None?
      modifies `time
      ensures Valid()
      ensures attested.Some? ==> MayAttachReview(stages, state, p, attested.value)
      ensures attested == Accepted(old(time), state, gate) && time == old(time) + 1
    {
      var request := ReviewRequest(Identity(storyId, runId, state.runDefId, state.runDefDigest), gate);
      var answer := env.attest(time, request);
      time := time + 1;
      if answer.ReviewCheckpointed? && MatchesRequest(answer.checkpoint, request.identity) {
        InvRecord(stages, state);
        ReviewAnswerAttaches(stages, state, p, gate, request, answer.checkpoint);
        return Some(answer.checkpoint);
      }
      attested := None;
    }

    /** Attests and saves a passed code review; a rejection is reported, other stages need nothing. */
    method PersistPassedReview(stage: CompiledStage, passed: bool, gate: QualityGate) returns (ok: bool)
      requires Valid() && IsStageOf(stages, stage)
      requires passed ==>
        && AtPosition(stages, state, stage.index + 1) && Calm(stages, state.stages) && state.finalScopeReceipt.None?
        && IsGateOf(gate, StageAt(state.stages, stages, stage.index))
      modifies `time, `state, `states, `events
      ensures Valid() && old(states) <= states && old(events) <= events && SameHeader(old(state), state) && state.regressions == old(state.regressions)
      ensures state.stages == old(state.stages)
      ensures ok && passed ==> AtPosition(stages, state, stage.index + 1)
      ensures !passed ==> ok && state == old(state)
      ensures Follows(ReviewScript(old(state), old(time), stage.index, passed, gate), ok, old(events))
    {
      hide Accepted, Inv, Enabled, History, Lawful, Bound, MayAttachReview, AtPosition, Calm, IsCodeReview, WellCompiled, IsGateOf;
      if !passed || !IsCodeReview(stage) {
        return true;
      }
      var p := stage.index;
      PositionPrefix(stages, state, p);
      var attested := AttestReview(p, gate);
      if attested.None? {
        return false;
      }
      InvRecord(stages, state);
      AttachedPosition(stages, state, p, attested.value);
      AttachReviewIsEnabled(stages, state, p, attested.value);
      Transition(AttachReviewCheckpoint(state, attested.value), AttachReview(p, attested.value));
      ok := true;
    }

    /** Runs one stage: mark it running, execute it, fold the outcome in, and attest a passed review. */
    method RunStageStep(stage: CompiledStage) returns (step: Step)
      requires Valid() && IsStageOf(stages, stage) && AtPosition(stages, state, stage.index)
      modifies this
      ensures Valid() && old(states) <= states && old(events) <= events && SameHeader(old(state), state)
      ensures StepOk(stages, old(state), state, stage.index, step, maxRegressions)
      ensures (stagesRun == old(stagesRun) && state == old(state) && step.Ended?)
              || (stagesRun == old(stagesRun) + [stage.id] && Calm(stages, state.stages))
      ensures stagesRun == old(stagesRun) <==> env.aborted(old(time) + 1)
      ensures Follows(StageScript(old(state), old(time), stage.index), step, old(events))
    {
      hide SettleScript, Inv, History, Lawful, Bound, AtPosition, Calm, WellCompiled, StepOk, MarkStageRunning;
      var p := stage.index;
      time := time + 1;
      if env.aborted(time) {
        EndedIsOk(stages, state, state, p, RunNeedsAttention, maxRegressions);
        return Ended(RunNeedsAttention);
      }
      MarkedRunning(stages, state, p, Now());
      Transition(MarkStageRunning(state, stage.id, Now()), MarkRunning(p, Now()));
      var answer := env.execute(time, p);
      time := time + 1;
      match answer {
        case Threw => step := SettleExecutorError(stage);
        case Executed(execution) =>
          ExecutionIsValid(env, time - 1, p);
          step := SettleExecution(stage, execution);
      }
      StepIgnoresMarking(stages, old(state), MarkStageRunning(old(state), stage.id, env.clock(old(time) + 1)), state, p, step, maxRegressions);
    }

    /** Folds an executor failure into the state; the run needs attention. */
    method SettleExecutorError(stage: CompiledStage) returns (step: Step)
      requires Valid() && IsStageOf(stages, stage) && StageAt(state.stages, stages, stage.index).status.StageRunning?
      modifies this
      ensures Valid() && old(states) <= states && old(events) <= events && SameHeader(old(state), state)
      ensures StepOk(stages, old(state), state, stage.index, step, maxRegressions)
      ensures stagesRun == old(stagesRun) + [stage.id] && Calm(stages, state.stages)
      ensures step == Ended(RunNeedsAttention) && time == old(time)
      ensures events == old(events) + [ExecutorError(stage.index, env.clock(time))]
    {
      hide Inv, History, Lawful, Bound, Calm, WellCompiled, StepOk, ApplyExecutorError;
      var p := stage.index;
      ErroredWell(stages, state, p, Now());
      Transition(ApplyExecutorError(state, stage.id, StageAt(state.stages, stages, p).attempts + 1, Now()), ExecutorError(p, Now()));
      stagesRun := stagesRun + [stage.id];
      step := Ended(RunNeedsAttention);
      EndedIsOk(stages, old(state), state, p, RunNeedsAttention, maxRegressions);
    }

    /** Folds a finished execution into the state and concludes the step. */
    method SettleExecution(stage: CompiledStage, execution: Execution) returns (step: Step)
      requires Valid() && IsStageOf(stages, stage) && ValidExecution(execution)
      requires StageAt(state.stages, stages, stage.index).status.StageRunning?
      modifies this
      ensures Valid() && old(states) <= states && old(events) <= events && SameHeader(old(state), state)
      ensures StepOk(stages, old(state), state, stage.index, step, maxRegressions)
      ensures stagesRun == old(stagesRun) + [stage.id] && Calm(stages, state.stages)
      ensures Follows(SettleScript(old(state), old(time), stage.index, execution), step, old(events))
    {
      hide ConcludeScript, Inv, History, Lawful, Bound, AtPosition, Calm, WellCompiled, StepOk, MovedTo, JustSettled, ApplyStageOutcome, ValidExecution;
      var p, at := stage.index, Now();
      var o := OutcomeOf(stages, state, p, execution, maxRegressions, at);
      ClockIsIso(env, time);
      SettledWell(stages, state, p, execution, maxRegressions, at);
      Transition(ApplyStageOutcome(state, o), Settle(p, execution, maxRegressions, at));
      time := time + 1;
      stagesRun := stagesRun + [stage.id];
      step := ConcludeStep(stage, o, old(state));
    }

    /** Attests a passed review, then ends the run or moves on as the route says. */
    method ConcludeStep(stage: CompiledStage, o: Outcome, ghost before: PipelineState) returns (step: Step)
      requires Valid() && IsStageOf(stages, stage) && JustSettled(stages, before, state, stage.index, o, maxRegressions)
      modifies `time, `state, `states, `events
      ensures Valid() && old(states) <= states && old(events) <= events && SameHeader(old(state), state)
      ensures StepOk(stages, before, state, stage.index, step, maxRegressions) && Calm(stages, state.stages)
      ensures Follows(ConcludeScript(old(state), old(time), stage.index, o), step, old(events))
    {
      hide ReviewScript, Inv, History, Lawful, Bound, AtPosition, Calm, WellCompiled, StepOk, MovedTo, JustSettled, IsGateOf;
      var p := stage.index;
      SettledPassed(stages, before, state, p, o);
      var ok := PersistPassedReview(stage, o.decision.passed, QualityGate(o.stageId, o.attempt, Passed, o.finishedAt));
      time := time + 1;
      if !ok {
        SettledOutcome(stages, before, old(state), state, p, o, RunNeedsAttention, maxRegressions);
        return Ended(RunNeedsAttention);
      }
      var failure := StageFailureOutcome(o.decision, env.overBudget(time), o.route);
      if failure.Some? {
        SettledOutcome(stages, before, old(state), state, p, o, failure.value, maxRegressions);
        return Ended(failure.value);
      }
      var next := NextOf(stages, o.route.action);
      SettledAdvance(stages, before, old(state), state, p, o, next, maxRegressions);
      step := Advance(next);
    }

    /** Attests a passed review that has no checkpoint yet; a failed save leaves the state as it was. */
    method BackfillReviewCheckpoint() returns (ok: bool)
      requires Valid() && AtPosition(stages, state, |stages|)
      modifies `time, `state, `states, `events
      ensures Valid() && old(states) <= states && old(events) <= events && SameHeader(old(state), state) && AtPosition(stages, state, |stages|)
      ensures state.regressions == old(state.regressions) && state.stages == old(state.stages)
      ensures ok ==> (HasReview(stages) ==> state.reviewCheckpoint.Some?)
      ensures Follows(BackfillScript(old(state), old(time)), ok, old(events)) && state == Saved(old(state), events[|old(events)|..])
    {
      hide Accepted, Inv, Enabled, Apply, History, Lawful, Bound, MayAttachReview, AtPosition, IsCodeReview, WellCompiled, IsGateOf, StageOf,
           AttachReviewCheckpoint, PassedReviewPosition, RecordOk, ApprovalOk, Prefix, StageAt;
      if state.reviewCheckpoint.Some? || !exists i :: 0 <= i < |stages| && IsCodeReview(stages[i]) {
        return true;
      }
      var position := PassedReviewPosition(state, stages);
      if position.None? {
        return false;
      }
      var p := position.value;
      var stage := StageOf(state, stages[p].id);
      InvRecord(stages, state);
      InvApproval(stages, state);
      BackfillGate(stages, state, p);
      var attested := AttestReview(p, QualityGate(stages[p].id, stage.attempts, Passed, stage.finishedAt.value));
      if attested.None? || env.backfillSaveFails(time) {
        return false;
      }
      BackfilledPosition(stages, state, p, attested.value);
      AttachReviewIsEnabled(stages, state, p, attested.value);
      AttachedCheckpoint(state, attested.value);
      Transition(AttachReviewCheckpoint(state, attested.value), AttachReview(p, attested.value));
      ok := true;
    }

    /** Makes sure a passed review has its checkpoint, then re-attests the current scope. */
    method PersistFinalScopeAttestation() returns (result: FinalScope)
      requires Valid() && AtPosition(stages, state, |stages|)
      modifies `time, `state, `states, `events
      ensures Valid() && old(states) <= states && old(events) <= events && SameHeader(old(state), state)
      ensures state.regressions == old(state.regressions) && state.stages == old(state.stages)
      ensures result.ReceiptAttached? ==> state.finalScopeReceipt.Some? && AllComplete(stages, state.stages)
      ensures !result.ReceiptAttached? ==> AtPosition(stages, state, |stages|)
      ensures Follows(ScopeScript(old(state), old(time)), result, old(events))
      ensures !result.ReceiptAttached? ==> state == Saved(old(state), events[|old(events)|..])
    {
      hide BackfillScript, AttestScript, Saved, Inv, Enabled, Valid, AtPosition, AllComplete, HasReview;
      var backfilled := BackfillReviewCheckpoint();
      if !backfilled {
        return ScopeRejected;
      }
      result := AttestFinalScope();
    }

    /** Asks for the final receipt; a matching one is attached and saved. */
    method AttestFinalScope() returns (result: FinalScope)
      requires Valid() && AtPosition(stages, state, |stages|) && (HasReview(stages) ==> state.reviewCheckpoint.Some?)
      modifies `time, `state, `states, `events
      ensures Valid() && old(states) <= states && old(events) <= events && SameHeader(old(state), state)
      ensures state.regressions == old(state.regressions) && state.stages == old(state.stages)
      ensures result.ReceiptAttached? ==> state.finalScopeReceipt.Some? && AllComplete(stages, state.stages)
      ensures !result.ReceiptAttached? ==> AtPosition(stages, state, |stages|) && state == old(state) && events == old(events)
      ensures Follows(AttestScript(old(state), old(time)), result, old(events))
    {
      hide Inv, Enabled, History, Lawful, Bound, MayAttachFinal, AtPosition, WellCompiled, FinalQualityGate, AttachFinalScopeReceipt,
           HasReview, Honest, WellFormedRequest, FinalIdentity, AllComplete, ValidQualityGate;
      var gate := FinalQualityGate(state, Ids(stages));
      if gate.None? {
        return ScopeRejected;
      }
      var request := FinalRequest(FinalIdentity(state, storyId, runId), state.reviewCheckpoint, gate.value);
      var answer := env.attest(time, request);
      FinalAnswer(stages, state, storyId, runId, env, time);
      time := time + 1;
      if answer.ReviewScopeChanged? {
        return ScopeInvalidated;
      }
      if answer.ReviewBaseStale? {
        return if IsValidStaleBase(answer.previousBaseOid, answer.currentBaseOid, state.reviewCheckpoint) then ScopeInvalidated else ScopeRejected;
      }
      if !answer.FinalReceipted? || !MatchesRequest(answer.receipt.checkpoint, request.identity) {
        return ScopeRejected;
      }
      FinalAttached(stages, state, answer.receipt);
      Transition(AttachFinalScopeReceipt(state, answer.receipt), AttachFinal(answer.receipt));
      result := ReceiptAttached;
    }

    /** Past the last stage: done with a receipt, back to the review if its scope moved, or stuck. */
    method RunFinalScopeStep() returns (step: Step)
      requires Valid() && AtPosition(stages, state, |stages|)
      modifies `time, `state, `states, `events
      ensures Valid() && old(states) <= states && old(events) <= events && SameHeader(old(state), state) && Calm(stages, state.stages)
      ensures StepOk(stages, old(state), state, |stages|, step, maxRegressions)
      ensures Follows(FinalScript(old(state), old(time)), step, old(events))
    {
      hide ScopeScript, Saved, Inv, Enabled, History, Lawful, Bound, AtPosition, WellCompiled, StepOk, Calm, AllComplete, InvalidateReviewApproval;
      var result := PersistFinalScopeAttestation();
      if result.ReceiptAttached? {
        AllCompleteIsCalm(stages, state.stages);
        DoneIsOk(stages, old(state), state, maxRegressions);
        return Ended(RunDone);
      }
      PastTheEndIsCalm(stages, state);
      if result.ScopeRejected? || state.reviewCheckpoint.None? || state.regressions >= maxRegressions {
        EndedIsOk(stages, old(state), state, |stages|, RunNeedsAttention, maxRegressions);
        return Ended(RunNeedsAttention);
      }
      var id := state.reviewCheckpoint.value.qualityGate.stageId;
      ghost var approved := state;
      InvalidationLeadsBack(stages, state, maxRegressions);
      Transition(InvalidateReviewApproval(state, Ids(stages), id), InvalidateReview);
      step := Advance(FindStage(stages, id));
      StepIgnoresMarking(stages, old(state), approved, state, |stages|, step, maxRegressions);
    }

    // ----- The run -----

    /** Whether the request may supersede the active receipt, and which stage it resets. */
    method TerminalCorrectionEligibility(recovery: TerminalRecovery) returns (target: Option<string>)
      requires Valid()
      ensures target.Some? <==> Eligible(stages, state, storyId, env, time, recovery)
      ensures target.Some? ==> state.finalScopeReceipt.Some? && target == InferResetTarget(stages, state.finalScopeReceipt.value)
    {
      hide Inv, WellCompiled, Lawful, Bound, History, InferResetTarget, ReconcileState;
      if state.status.Done? && ReconcileState(state, Ids(stages), Now()) != state {
        return None;
      }
      if !state.status.Done? || state.reviewCheckpoint.None? || state.finalScopeReceipt.None? {
        return None;
      }
      var receipt := state.finalScopeReceipt.value;
      if receipt.checkpoint.runId != recovery.expectedReceiptRunId {
        return None;
      }
      target := InferResetTarget(stages, receipt);
      if target.None? {
        return None;
      }
      var observed := env.attest(time, CorrectionRequest(state, storyId, receipt));
      if observed != FinalReceipted(receipt) || env.headOid(time) != Some(receipt.checkpoint.baseOid) {
        return None;
      }
    }

    /**
     Supersedes the active receipt once, before any stage is chosen.  A retry of a correction that
     was already applied goes on without saving; a rejected request changes nothing.
     */
    method MaybeApplyTerminalCorrection(recovery: Option<TerminalRecovery>) returns (step: CorrectionStep)
      requires Valid() && (recovery.Some? ==> ValidRecovery(recovery.value))
      requires recovery.Some? ==> recovery.value.expectedReceiptRunId != runId
      modifies `time, `state, `states, `events
      ensures Valid() && CorrectionStepOk(old(state), old(time), recovery, step, old(states), old(events))
      ensures time == if events == old(events) then old(time) else old(time) + 1
    {
      hide Inv, WellCompiled, Lawful, Bound, History, Eligible, InferResetTarget, ApplyTerminalCorrection, IsIsoTimestamp, MayCorrect, Enabled;
      if recovery.None? || RetryMatches(state, recovery.value.expectedReceiptRunId, recovery.value.reason) {
        return Proceed;
      }
      var target := TerminalCorrectionEligibility(recovery.value);
      if target.None? {
        return RejectCorrection;
      }
      var c := CorrectionOf(stages, state, recovery.value, target.value, Now(), runId);
      ClockIsIso(env, time);
      EligibleMayCorrect(stages, state, storyId, env, time, recovery.value, runId, Now());
      CorrectionStaysBound(stages, state, c, storyId, runId);
      CorrectedIsCalm(stages, state, c);
      HistoryExtends(stages, states, events, Correct(c));
      time := time + 1;
      state := ApplyTerminalCorrection(state, Ids(stages), c);
      states := states + [state];
      events := events + [Correct(c)];
      step := Proceed;
    }

    /** Rejected: nothing changed.  Applied: exactly one save, the correction.  Otherwise no save. */
    ghost predicate CorrectionStepOk(was: PipelineState, t: nat, recovery: Option<TerminalRecovery>, step: CorrectionStep,
                                     wasStates: seq<PipelineState>, wasEvents: seq<Event>)
      reads this
    {
      var retry := recovery.None? || RetryMatches(was, recovery.value.expectedReceiptRunId, recovery.value.reason);
      && (step.RejectCorrection? <==> !retry && !Eligible(stages, was, storyId, env, t, recovery.value))
      && (retry || step.RejectCorrection? ==> state == was && states == wasStates && events == wasEvents)
      && (!retry && step.Proceed? ==>
           && Calm(stages, was.stages)
           && InferResetTarget(stages, was.finalScopeReceipt.value).Some?
           && var c := CorrectionOf(stages, was, recovery.value, InferResetTarget(stages, was.finalScopeReceipt.value).value,
                                    env.clock(t), runId);
              && events == wasEvents + [Correct(c)] && states == wasStates + [state]
              && was.finalScopeReceipt.value.checkpoint.runId == c.expectedReceiptRunId
              && Archive(state) == Archive(was) + [ArchiveRecord(was, c)])
      && state.regressions == was.regressions
      && (Calm(stages, state.stages) <==> Calm(stages, was.stages))
    }

    /** The stage at the loop position, or past the last one the final scope. */
    method RunOneStep(next: Option<CompiledStage>) returns (step: Step)
      requires Valid() && (next.Some? ==> IsStageOf(stages, next.value)) && AtPosition(stages, state, PositionOfNext(stages, next))
      modifies this
      ensures Valid() && old(states) <= states && old(events) <= events && SameHeader(old(state), state)
      ensures StepOk(stages, old(state), state, PositionOfNext(stages, next), step, maxRegressions)
      ensures stagesRun == old(stagesRun) + RanHere(stages, PositionOfNext(stages, next)) || (step.Ended? && stagesRun == old(stagesRun))
      ensures Calm(stages, state.stages) <==> Calm(stages, old(state).stages) || stagesRun != old(stagesRun)
      ensures next.Some? ==> (stagesRun == old(stagesRun) <==> env.aborted(old(time) + 1)) && (step.Advance? ==> !env.aborted(old(time) + 1))
      ensures Follows(StepScript(old(state), old(time), PositionOfNext(stages, next)), step, old(events))
    {
      hide StageScript, FinalScript, Inv, WellCompiled, Lawful, Bound, History, StepOk, Calm, AtPosition;
      if next.Some? {
        step := RunStageStep(next.value);
      } else {
        PastTheEndIsCalm(stages, state);
        step := RunFinalScopeStep();
      }
    }

    /**
     A run as its environment scripts it.  The step at `visited[i]` began after save number `cuts[i]` at
     time `times[i]`; its saves and its end are those of the script, and its result leads to the next
     position.  The last step is still open.
     */
    ghost predicate Scripted(states: seq<PipelineState>, events: seq<Event>, trace: Trace) {
      var n := |trace.visited|;
      && n > 0 && |trace.cuts| == |trace.times| == n && |states| == |events| + 1
      && (forall i :: 0 <= i < n ==> trace.cuts[i] <= |events|)
      && forall i :: 0 <= i < n - 1 ==>
           && trace.cuts[i] <= trace.cuts[i + 1]
           && StepTaken(StepScript(states[trace.cuts[i]], trace.times[i], trace.visited[i]), events[trace.cuts[i]..trace.cuts[i + 1]],
                        trace.times[i + 1], trace.visited[i + 1])
    }

    ghost predicate StepTaken(script: Script<Step>, saves: seq<Event>, end: nat, position: nat) {
      script.saves == saves && script.end == end && script.result.Advance? && PositionOfNext(stages, script.result.next) == position
    }

    /** The last step ended the run with this status at this time. */
    ghost predicate ScriptEnds(states: seq<PipelineState>, events: seq<Event>, trace: Trace, status: RunStatus, end: nat) {
      && Scripted(states, events, trace)
      && var last := |trace.visited| - 1;
         StepScript(states[trace.cuts[last]], trace.times[last], trace.visited[last])
         == Script(Ended(status), events[trace.cuts[last]..], end)
    }

    /** A longer history with one more step. */
    lemma ScriptGoesOn(states: seq<PipelineState>, events: seq<Event>, trace: Trace,
                       states': seq<PipelineState>, events': seq<Event>, position: nat, end: nat)
      requires Scripted(states, events, trace) && trace.cuts[|trace.cuts| - 1] == |events|
      requires states <= states' && events <= events' && |states'| == |events'| + 1
      requires StepTaken(StepScript(states[|events|], trace.times[|trace.times| - 1], trace.visited[|trace.visited| - 1]),
                         events'[|events|..], end, position)
      ensures Scripted(states', events', trace.Then(position, |events'|, end))
    {
      hide StepScript, StepTaken;
      var n := |trace.visited|;
      var next := trace.Then(position, |events'|, end);
      forall i | 0 <= i < n
        ensures next.cuts[i] <= next.cuts[i + 1]
        ensures StepTaken(StepScript(states'[next.cuts[i]], next.times[i], next.visited[i]), events'[next.cuts[i]..next.cuts[i + 1]],
                          next.times[i + 1], next.visited[i + 1])
      {
        if i < n - 1 {
          assert events'[trace.cuts[i]..trace.cuts[i + 1]] == events[trace.cuts[i]..trace.cuts[i + 1]];
        } else {
          assert events'[|events|..|events'|] == events'[|events|..];
        }
      }
    }

    /** The saves made since do not change what was scripted before. */
    lemma ScriptStands(states: seq<PipelineState>, events: seq<Event>, trace: Trace, states': seq<PipelineState>, events': seq<Event>)
      requires Scripted(states, events, trace) && states <= states' && events <= events' && |states'| == |events'| + 1
      ensures Scripted(states', events', trace)
    {
      hide StepScript, StepTaken;
      forall i | 0 <= i < |trace.visited| - 1
        ensures StepTaken(StepScript(states'[trace.cuts[i]], trace.times[i], trace.visited[i]), events'[trace.cuts[i]..trace.cuts[i + 1]],
                          trace.times[i + 1], trace.visited[i + 1])
      {
        assert events'[trace.cuts[i]..trace.cuts[i + 1]] == events[trace.cuts[i]..trace.cuts[i + 1]];
      }
    }

    /** Between two steps: where the loop stands, what it has run, and the script so far. */
    ghost predicate Between(r0: nat, ran0: seq<string>, trace: Trace, p: nat)
      reads this
    {
      && ran0 <= stagesRun && Scripted(states, events, trace)
      && trace.visited[|trace.visited| - 1] == p && trace.cuts[|trace.cuts| - 1] == |events| && trace.times[|trace.times| - 1] == time
      && LoopAt(stages, r0, maxRegressions, stagesRun[|ran0|..], trace.visited, state)
    }

    lemma TwoSame(first: seq<Event>, saves: seq<Event>)
      ensures (first + saves)[|first|..] == saves
    {
    }

    /** One more step of the loop, which did not end it. */
    lemma GoOn(r0: nat, ran0: seq<string>, trace: Trace, p: nat, following: Option<CompiledStage>,
                      was: PipelineState, wasTime: nat, ran: seq<string>, wasStates: seq<PipelineState>, wasEvents: seq<Event>)
      returns (next: Trace)
      requires Valid() && ran0 <= ran && wasStates != [] && was == wasStates[|wasStates| - 1]
      requires Scripted(wasStates, wasEvents, trace) && trace.visited[|trace.visited| - 1] == p
      requires trace.cuts[|trace.cuts| - 1] == |wasEvents| && trace.times[|trace.times| - 1] == wasTime
      requires LoopAt(stages, r0, maxRegressions, ran[|ran0|..], trace.visited, was)
      requires wasStates <= states && stagesRun == ran + RanHere(stages, p)
      requires StepOk(stages, was, state, p, Advance(following), maxRegressions)
      requires Follows(StepScript(was, wasTime, p), Advance(following), wasEvents)
      ensures next == trace.Then(PositionOfNext(stages, following), |events|, time)
      ensures Between(r0, ran0, next, PositionOfNext(stages, following))
    {
      hide Inv, WellCompiled, Lawful, Bound, StepOk, StepScript, LoopAt, RanHere;
      next := trace.Then(PositionOfNext(stages, following), |events|, time);
      TwoSame(wasEvents, StepScript(was, wasTime, p).saves);
      ScriptGoesOn(wasStates, wasEvents, trace, states, events, PositionOfNext(stages, following), time);
      StepAdvances(stages, r0, maxRegressions, ran[|ran0|..], trace.visited, was, state, following);
      assert stagesRun[|ran0|..] == ran[|ran0|..] + RanHere(stages, p);
    }

    /** The first step is still to come, and it is the step of a stage. */
    ghost predicate NotYetRun(ran0: seq<string>, start: nat, p: nat)
      reads this
    {
      stagesRun == ran0 && time == start && p < |stages|
    }

    /** The review of a legacy state that is reset before the loop; this run's states are valid and have none. */
    method LegacyReviewToReset() returns (review: Option<nat>)
      requires Valid()
      ensures ValidState(state) && review == LegacyPassedReview(stages, state, true) && review.None?
    {
      hide Inv, WellCompiled, Lawful, Bound, History, LegacyPassedReview, ValidState;
      InvIsValid(stages, state);
      review := LegacyPassedReview(stages, state, true);
      NoLegacyReview(stages, state, true);
    }

    /** Steps from the first incomplete stage until an outcome. */
    method RunLoop() returns (status: RunStatus, ghost trace: Trace)
      requires Valid()
      modifies this
      ensures Valid() && old(states) <= states && old(events) <= events && SameHeader(old(state), state)
      ensures old(stagesRun) <= stagesRun
      ensures LoopEnded(stages, old(state).regressions, maxRegressions, stagesRun[|old(stagesRun)|..], trace.visited, state, status)
      ensures ScriptEnds(states, events, trace, status, time)
      ensures trace.visited[0] == FirstIncomplete(old(state), stages) && trace.cuts[0] == |old(events)| && trace.times[0] == old(time)
      ensures Calm(stages, state.stages) <==> Calm(stages, old(state).stages) || !env.aborted(old(time) + 1)
    {
      hide Inv, WellCompiled, Lawful, Bound, History, StepOk, Calm, AtPosition, FirstIncomplete, LoopAt, LoopEnded, RanHere, StepScript,
           Scripted, ScriptEnds, ValidState, LegacyPassedReview;
      var legacy := LegacyReviewToReset();
      assert legacy.None?;
      ghost var r0, ran0 := state.regressions, stagesRun;
      var p := FirstIncomplete(state, stages);
      trace := Trace([p], [|events|], [time]);
      LoopBegins(p);
      var next := if p < |stages| then Some(stages[p]) else None;
      StageHasItsIndexIfAny(stages, p);
      RunningIsAhead(stages, state);
      while true
        invariant Valid() && old(states) <= states && old(events) <= events && SameHeader(old(state), state)
        invariant p == PositionOfNext(stages, next) && (next.Some? ==> IsStageOf(stages, next.value))
        invariant Between(r0, ran0, trace, p) && AtPosition(stages, state, p) && p <= |stages|
        invariant trace.visited != [] && trace.visited[0] == FirstIncomplete(old(state), stages)
        invariant trace.cuts != [] && trace.cuts[0] == |old(events)| && trace.times != [] && trace.times[0] == old(time)
        invariant Calm(stages, state.stages) <==> Calm(stages, old(state).stages) || stagesRun != ran0
        invariant Calm(stages, old(state).stages) || NotYetRun(ran0, old(time), p) || (stagesRun != ran0 && !env.aborted(old(time) + 1))
        decreases RegressionsLeft(maxRegressions, state), |stages| - p
      {
        ghost var was, wasTime, ran, wasStates, wasEvents := state, time, stagesRun, states, events;
        StateIsLast();
        var step := RunOneStep(next);
        if step.Ended? {
          Ends(r0, ran0, trace, p, step.status, was, wasTime, ran, wasStates, wasEvents);
          return step.status, trace;
        }
        StepDescends(stages, was, state, p, step.next, maxRegressions);
        AdvancePosition(stages, was, state, p, step.next, maxRegressions);
        trace := GoOn(r0, ran0, trace, p, step.next, was, wasTime, ran, wasStates, wasEvents);
        next := step.next;
        p := PositionOfNext(stages, next);
      }
    }

    lemma StateIsLast()
      requires Valid()
      ensures states != [] && state == states[|states| - 1]
    {
      hide Inv, WellCompiled, Lawful, Bound;
    }

    lemma LoopBegins(p: nat)
      requires Valid() && p == FirstIncomplete(state, stages)
      ensures AtPosition(stages, state, p) && p <= |stages|
      ensures Between(state.regressions, stagesRun, Trace([p], [|events|], [time]), p)
    {
      hide Inv, WellCompiled, Lawful, Bound, StepScript, AtPosition, LoopAt, FirstIncomplete;
      FirstIncompleteIsPosition(stages, state);
      PositionInRange(stages, state, p);
      LoopStarts(stages, state, maxRegressions, p);
      assert stagesRun[|stagesRun|..] == [];
    }

    /** The step that ended the loop. */
    lemma Ends(r0: nat, ran0: seq<string>, trace: Trace, p: nat, status: RunStatus,
               was: PipelineState, wasTime: nat, ran: seq<string>, wasStates: seq<PipelineState>, wasEvents: seq<Event>)
      requires Valid() && ran0 <= ran && wasStates != [] && was == wasStates[|wasStates| - 1]
      requires Scripted(wasStates, wasEvents, trace) && trace.visited[|trace.visited| - 1] == p
      requires trace.cuts[|trace.cuts| - 1] == |wasEvents| && trace.times[|trace.times| - 1] == wasTime
      requires LoopAt(stages, r0, maxRegressions, ran[|ran0|..], trace.visited, was)
      requires wasStates <= states && (stagesRun == ran + RanHere(stages, p) || stagesRun == ran)
      requires StepOk(stages, was, state, p, Ended(status), maxRegressions)
      requires Follows(StepScript(was, wasTime, p), Ended(status), wasEvents)
      ensures ran0 <= stagesRun && LoopEnded(stages, r0, maxRegressions, stagesRun[|ran0|..], trace.visited, state, status)
      ensures ScriptEnds(states, events, trace, status, time)
    {
      hide Inv, WellCompiled, Lawful, Bound, StepOk, StepScript, LoopAt, RanHere, LoopEnded;
      StepEnds(stages, r0, maxRegressions, ran[|ran0|..], trace.visited, was, state, status);
      assert stagesRun != ran ==> stagesRun[|ran0|..] == ran[|ran0|..] + RanHere(stages, p);
      TwoSame(wasEvents, StepScript(was, wasTime, p).saves);
      ScriptStands(wasStates, wasEvents, trace, states, events);
    }

    /** The last save of a run: its terminal status. */
    method FinalizeRun(status: RunStatus)
      requires Valid() && (status.RunDone? ==> state.finalScopeReceipt.Some?)
      modifies `time, `state, `states, `events
      ensures Valid() && state == FinalizeState(old(state), StatusOf(status), env.clock(old(time)))
      ensures events == old(events) + [Finalize(StatusOf(status), env.clock(old(time)))] && time == old(time) + 1
      ensures states == old(states) + [state] && SameHeader(old(state), state)
    {
      hide Inv, WellCompiled, Lawful, Bound, History;
      time := time + 1;
      Transition(FinalizeState(state, StatusOf(status), env.clock(time - 1)), Finalize(StatusOf(status), env.clock(time - 1)));
    }

    /**
     The loop and the terminal save.  The path of the loop bounds the executions and the regressions,
     done means every stage is complete under a receipt, and the final state needs repair exactly when a
     crash had left a stage running and the run is aborted before its first step.
     */
    method RunToOutcome() returns (status: RunStatus, ghost trace: Trace)
      requires Valid() && stagesRun == []
      modifies this
      ensures Valid() && old(states) <= states && old(events) <= events && SameHeader(old(state), state)
      ensures LoopEnded(stages, old(state).regressions, maxRegressions, stagesRun, trace.visited, state, status)
      ensures WithinBounds(stages, maxRegressions, old(state).regressions, state.regressions, |stagesRun|)
      ensures RunIsScripted(old(state), |old(events)|, old(time), trace, status)
      ensures state.status == StatusOf(status) && state.currentStage.None? && state.finishedAt.Some?
      ensures NeedsNoRepair(stages, state) <==> Calm(stages, old(state).stages) || !env.aborted(old(time) + 1)
    {
      hide Inv, WellCompiled, Lawful, Bound, History, Calm, LoopEnded, FirstIncomplete, NeedsNoRepair, WithinBounds, Ids;
      status, trace := RunLoop();
      assert stagesRun[|old(stagesRun)|..] == stagesRun;
      ghost var ended, loopStates, loopEvents, end := state, states, events, time;
      DoneHasReceipt(stages, old(state).regressions, maxRegressions, stagesRun, trace.visited, state, status);
      FinalizeRun(status);
      FinalizedLoop(stages, old(state).regressions, maxRegressions, stagesRun, trace.visited, ended, state, status);
      RunIsBounded(stages, old(state).regressions, maxRegressions, stagesRun, trace.visited, state, status);
      FinishedNeedsNoRepair(stages, state);
      assert states[..|states| - 1] == loopStates && events[..|events| - 1] == loopEvents;
    }

    /**
     One run: an optional correction, then the loop.  A rejected correction saves nothing.  An applied
     one is the first save, before any stage is executed, and the only save of the run that archives.
     */
    method RunPipelineStages(recovery: Option<TerminalRecovery>) returns (status: RunStatus, ghost trace: Trace)
      requires Valid() && stagesRun == [] && (recovery.Some? ==> ValidRecovery(recovery.value))
      requires recovery.Some? ==> recovery.value.expectedReceiptRunId != runId
      modifies this
      ensures Valid() && old(states) <= states && old(events) <= events
      ensures Rejects(old(state), old(time), recovery) ==>
        status.RunNeedsAttention? && state == old(state) && states == old(states) && events == old(events) && stagesRun == []
      ensures !Rejects(old(state), old(time), recovery) ==>
        && LoopEnded(stages, old(state).regressions, maxRegressions, stagesRun, trace.visited, state, status)
        && WithinBounds(stages, maxRegressions, old(state).regressions, state.regressions, |stagesRun|)
        && state.status == StatusOf(status) && state.currentStage.None? && state.finishedAt.Some?
        && state.status in {Done, Failed, NeedsAttention}
        && (state.status == Done <==> status == RunDone) && (state.status == Failed <==> status == RunFailed)
        && (NeedsNoRepair(stages, state) <==> Calm(stages, old(state).stages) || !env.aborted(old(time) + 1))
      ensures Applies(old(state), old(time), recovery) ==>
        && |events| > |old(events)| && InferResetTarget(stages, old(state).finalScopeReceipt.value).Some?
        && events[|old(events)|] == Correct(Correction(
             kind := recovery.value.kind, expectedReceiptRunId := recovery.value.expectedReceiptRunId, reason := recovery.value.reason,
             resetTargetStageId := InferResetTarget(stages, old(state).finalScopeReceipt.value).value,
             supersededAt := env.clock(old(time)), supersededByRunId := runId))
        && |Archive(state)| == |Archive(old(state))| + 1
      ensures !Applies(old(state), old(time), recovery) ==> Archive(state) == Archive(old(state))
      ensures !Applies(old(state), old(time), recovery) && !Rejects(old(state), old(time), recovery) ==>
        RunIsScripted(old(state), |old(events)|, old(time), trace, status)
      ensures Applies(old(state), old(time), recovery) ==>
        && |states| > |old(states)|
        && RunIsScripted(states[|old(states)|], |old(events)| + 1, old(time) + 1, trace, status)
    {
      hide Inv, WellCompiled, Lawful, Bound, History, Calm, LoopEnded, Eligible, RetryMatches, InferResetTarget, ArchiveRecord, FirstIncomplete,
           ReconcileState, Ids, WithinBounds, NeedsNoRepair, RunIsScripted;
      var step := MaybeApplyTerminalCorrection(recovery);
      if step.RejectCorrection? {
        return RunNeedsAttention, Trace([], [], []);
      }
      status, trace := RunToOutcome();
    }

    /** The loop follows its script from the given start, and one save, of the status, comes after it. */
    ghost predicate RunIsScripted(start: PipelineState, saves: nat, t: nat, trace: Trace, status: RunStatus)
      reads this
    {
      && states != [] && events != [] && time > 0
      && ScriptEnds(states[..|states| - 1], events[..|events| - 1], trace, status, time - 1)
      && events[|events| - 1] == Finalize(StatusOf(status), env.clock(time - 1))
      && trace.visited[0] == FirstIncomplete(start, stages) && trace.cuts[0] == saves && trace.times[0] == t
    }

    /** The request is refused: it is no retry and the receipt may not be superseded. */
    ghost predicate Rejects(was: PipelineState, t: nat, recovery: Option<TerminalRecovery>) {
      && recovery.Some? && !RetryMatches(was, recovery.value.expectedReceiptRunId, recovery.value.reason)
      && !Eligible(stages, was, storyId, env, t, recovery.value)
    }

    ghost predicate Applies(was: PipelineState, t: nat, recovery: Option<TerminalRecovery>) {
      && recovery.Some? && !RetryMatches(was, recovery.value.expectedReceiptRunId, recovery.value.reason)
      && Eligible(stages, was, storyId, env, t, recovery.value)
    }
  }
}
