/** The events of the durable protocol, and the proof that each keeps the invariant. */
module Steps {
  import opened Basics
  import opened RunDefs
  import opened Scopes
  import opened PipelineStates
  import opened Routing
  import opened Transitions
  import opened Validation
  import opened Reconcile
  import opened Durable

  /** Where the loop stands: about to run stage `p`, or, past the last stage, to attest the final scope. */
  ghost predicate AtPosition(stages: Stages, s: PipelineState, p: nat) {
    && p <= |stages|
    && Prefix(stages, s.stages, p)
    && (s.reviewCheckpoint.Some? ==> StageIndex(stages, s.reviewCheckpoint.value.qualityGate.stageId) < p)
    && (s.finalScopeReceipt.Some? ==> p == |stages|)
    && forall q :: 0 <= q < |stages| && q != p ==> !StageAt(s.stages, stages, q).status.StageRunning?
  }

  ghost predicate ValidExecution(e: Execution) {
    e.durationMs >= 0.0 && (e.usage.Some? ==> ValidUsage(e.usage.value))
  }

  datatype Event =
    | MarkRunning(p: nat, at: Time)
    | Settle(p: nat, execution: Execution, maxRegressions: nat, at: Time)
    | ExecutorError(p: nat, at: Time)
    | AttachReview(p: nat, checkpoint: Checkpoint)
    | AttachFinal(receipt: Receipt)
    | InvalidateReview
    | Finalize(status: PipelineStatus, at: Time)
    | Correct(correction: Correction)
    | ReconcileLoaded(now: Time)
    | Adopt(def: RunDef)

  /** The gate of a passed stage at its latest attempt. */
  predicate IsGateOf(gate: QualityGate, stage: StageState) {
    && gate.stageId == stage.id && gate.attempt == stage.attempts && gate.status == Passed
    && stage.status.StagePassed? && stage.finishedAt == Some(gate.finishedAt)
  }

  /** The attestor echoes the requested gate, with a well-formed scope, for a run id not archived before. */
  ghost predicate MayAttachReview(stages: Stages, s: PipelineState, p: nat, c: Checkpoint) {
    && p < |stages| && IsCodeReview(stages[p]) && Prefix(stages, s.stages, p) && s.finalScopeReceipt.None?
    && ValidCheckpoint(c) && MatchesIdentity(c, s) && FreshId(s, c.runId)
    && IsGateOf(c.qualityGate, StageAt(s.stages, stages, p))
  }

  /** The receipt extends the active checkpoint; without one it names the last passed stage. */
  ghost predicate MayAttachFinal(stages: Stages, s: PipelineState, r: Receipt) {
    && AllComplete(stages, s.stages) && ValidReceipt(r) && Disjoint(r.checkpoint.reviewed, r.docs)
    && (s.reviewCheckpoint.Some? ==> s.reviewCheckpoint == Some(r.checkpoint))
    && (s.reviewCheckpoint.None? ==>
         && !HasReview(stages) && MatchesIdentity(r.checkpoint, s) && FreshId(s, r.checkpoint.runId)
         && LastPassed(s, Ids(stages)).Some?
         && FinalQualityGate(s, Ids(stages)) == Some(r.checkpoint.qualityGate))
  }

  /** A run ends done, failed, or in need of attention; done requires a receipt. */
  predicate MayFinalize(s: PipelineState, status: PipelineStatus) {
    status.Failed? || status.NeedsAttention? || (status.Done? && s.finalScopeReceipt.Some?)
  }

  /** A done state whose receipt has the expected run id and implies the reset target. */
  ghost predicate MayCorrect(stages: Stages, s: PipelineState, c: Correction) {
    && s.status.Done? && s.finalScopeReceipt.Some?
    && s.finalScopeReceipt.value.checkpoint.runId == c.expectedReceiptRunId
    && InferResetTarget(stages, s.finalScopeReceipt.value) == Some(c.resetTargetStageId)
    && BoundedReceiptId(c.expectedReceiptRunId) && BoundedReason(c.reason)
    && IsIsoTimestamp(c.supersededAt) && NonBlank(c.supersededByRunId)
  }

  /** The active definition is the recorded one, or differs only in timeouts while no approval is active. */
  ghost predicate MayAdopt(s: PipelineState, def: RunDef) {
    && IsRunDef(def)
    && (ComputeDigest(def) == s.runDefDigest
        || (s.runDefIdentity.Some? && EqualExceptTimeouts(s.runDefIdentity.value, def)
            && s.reviewCheckpoint.None? && s.finalScopeReceipt.None?))
  }

  /** When the runner takes each step, and what the attestor, the clock and the executor promise. */
  ghost predicate Enabled(stages: Stages, s: PipelineState, e: Event) {
    match e
    case MarkRunning(p, _) => p < |stages| && AtPosition(stages, s, p)
    case Settle(p, execution, _, at) =>
      p < |stages| && StageAt(s.stages, stages, p).status.StageRunning? && ValidExecution(execution) && IsIsoTimestamp(at)
    case ExecutorError(p, _) => p < |stages| && StageAt(s.stages, stages, p).status.StageRunning?
    case AttachReview(p, c) => MayAttachReview(stages, s, p, c)
    case AttachFinal(r) => MayAttachFinal(stages, s, r)
    case InvalidateReview => AllComplete(stages, s.stages) && s.reviewCheckpoint.Some?
    case Finalize(status, _) => MayFinalize(s, status)
    case Correct(c) => MayCorrect(stages, s, c)
    case ReconcileLoaded(_) => true
    case Adopt(def) => MayAdopt(s, def)
  }

  function OutcomeOf(stages: Stages, s: PipelineState, p: nat, execution: Execution, max: nat, at: Time): Outcome
    requires p < |stages|
  {
    var decision := CheckStageDecision(stages[p], execution);
    Outcome(stages[p].id, StageAt(s.stages, stages, p).attempts + 1, decision, execution,
            RouteStageDecision(stages, stages[p], decision, s.regressions, max), at)
  }

  /** A loaded state takes the active definition; archived records keep or receive the one they were made under. */
  function AdoptRunDef(s: PipelineState, def: RunDef): PipelineState {
    var records := Archive(s);
    var kept := if s.runDefIdentity.None? then records else Backfill(records, s.runDefIdentity.value);
    s.(runDefDigest := ComputeDigest(def), runDefIdentity := Some(def),
       superseded := if s.superseded.None? then None else Some(kept))
  }

  function Backfill(records: seq<SupersededReceipt>, identity: RunDef): (r: seq<SupersededReceipt>)
    ensures |r| == |records|
    ensures forall k :: 0 <= k < |records| ==> r[k] == BackfillOne(records[k], identity)
  {
    if records == [] then [] else [BackfillOne(records[0], identity)] + Backfill(records[1..], identity)
  }

  function BackfillOne(record: SupersededReceipt, identity: RunDef): SupersededReceipt {
    if record.runDefIdentity.None? && record.receipt.checkpoint.runDefDigest == ComputeDigest(identity)
    then record.(runDefIdentity := Some(identity))
    else record
  }

  lemma IdAt(stages: Stages, q: nat)
    requires q < |stages|
    ensures stages[q].id in Ids(stages)
  {
    assert Ids(stages)[q] == stages[q].id;
  }

  lemma PositionOf(stages: Stages, id: string) returns (q: nat)
    requires id in Ids(stages)
    ensures q < |stages| && stages[q].id == id
  {
    q :| 0 <= q < |stages| && Ids(stages)[q] == id;
  }

  lemma ReviewGateInIds(stages: Stages, s: PipelineState)
    requires ApprovalOk(stages, s) && s.reviewCheckpoint.Some?
    ensures s.reviewCheckpoint.value.qualityGate.stageId in Ids(stages)
  {
    IdAt(stages, StageIndex(stages, s.reviewCheckpoint.value.qualityGate.stageId));
  }

  lemma InferredInIds(stages: Stages, receipt: Receipt)
    requires InferResetTarget(stages, receipt).Some?
    ensures InferResetTarget(stages, receipt).value in Ids(stages)
  {
    var i :| 0 <= i < |stages| && stages[i].id == InferResetTarget(stages, receipt).value;
    IdAt(stages, i);
  }

  /** The state an event leaves behind; a transition the source refuses with an exception changes nothing. */
  ghost function Apply(stages: Stages, s: PipelineState, e: Event): PipelineState {
    match e
    case MarkRunning(p, at) => if p < |stages| then MarkStageRunning(s, stages[p].id, at) else s
    case Settle(p, execution, max, at) =>
      if p < |stages| then ApplyStageOutcome(s, OutcomeOf(stages, s, p, execution, max, at)) else s
    case ExecutorError(p, at) =>
      if p < |stages| then ApplyExecutorError(s, stages[p].id, StageAt(s.stages, stages, p).attempts + 1, at) else s
    case AttachReview(_, c) => AttachReviewCheckpoint(s, c)
    case AttachFinal(r) => AttachFinalScopeReceipt(s, r)
    case InvalidateReview => Invalidated(stages, s)
    case Finalize(status, at) => if MayFinalize(s, status) then FinalizeState(s, status, at) else s
    case Correct(c) => Corrected(stages, s, c)
    case ReconcileLoaded(now) => ReconcileState(s, Ids(stages), now)
    case Adopt(def) => AdoptRunDef(s, def)
  }

  function Invalidated(stages: Stages, s: PipelineState): PipelineState {
    if s.reviewCheckpoint.Some? && s.reviewCheckpoint.value.qualityGate.stageId in Ids(stages)
    then InvalidateReviewApproval(s, Ids(stages), s.reviewCheckpoint.value.qualityGate.stageId)
    else s
  }

  function Corrected(stages: Stages, s: PipelineState, c: Correction): PipelineState {
    if s.finalScopeReceipt.Some? && s.finalScopeReceipt.value.checkpoint.runId == c.expectedReceiptRunId
       && c.resetTargetStageId in Ids(stages)
    then ApplyTerminalCorrection(s, Ids(stages), c)
    else s
  }

  // ----- Changing one stage -----

  /** What a one-stage change must establish of the new state `t`; everything else is unchanged. */
  ghost predicate OneStageChange(stages: Stages, s: PipelineState, t: PipelineState, p: nat) {
    && p < |stages|
    && SameHeader(s, t) && s.version == t.version && t.finalScopeReceipt.None?
    && !t.status.Done? && (t.status.Running? || t.status == s.status)
    && (t.reviewCheckpoint.Some? ==>
         && t.reviewCheckpoint == s.reviewCheckpoint
         && StageIndex(stages, s.reviewCheckpoint.value.qualityGate.stageId) < p)
    && s.stages.Keys == t.stages.Keys && SameExceptAt(stages, s.stages, t.stages, p)
    && StageOk(stages[p].id, StageAt(t.stages, stages, p)) && StageGrows(StageAt(s.stages, stages, p), StageAt(t.stages, stages, p))
    && (StageAt(t.stages, stages, p).status.StageRunning? ==> Prefix(stages, s.stages, p))
    && forall q :: 0 <= q < |stages| && q != p ==> !StageAt(s.stages, stages, q).status.StageRunning?
  }

  lemma OneStageGrows(stages: Stages, s: PipelineState, t: PipelineState, p: nat)
    requires RecordOk(stages, s) && OneStageChange(stages, s, t, p)
    ensures StateGrows(s, t)
    ensures forall id :: id in t.stages ==> StageOk(id, t.stages[id])
  {
    forall id | id in s.stages
      ensures StageGrows(s.stages[id], t.stages[id]) && StageOk(id, t.stages[id])
    {
      var q := PositionOf(stages, id);
      if q != p {
        assert SameCore(StageAt(s.stages, stages, q), StageAt(t.stages, stages, q));
      }
    }
  }

  lemma OneStageRunning(stages: Stages, s: PipelineState, t: PipelineState, p: nat)
    requires RunningOk(stages, s.stages) && OneStageChange(stages, s, t, p)
    ensures RunningOk(stages, t.stages)
  {
    hide StageOk, StageGrows, StageIndex;
    forall q | 0 <= q < |stages| && StageAt(t.stages, stages, q).status.StageRunning?
      ensures Prefix(stages, t.stages, q)
    {
      assert q != p ==> SameCore(StageAt(s.stages, stages, q), StageAt(t.stages, stages, q));
      forall r | 0 <= r < q ensures IsComplete(StageAt(t.stages, stages, r).status) {
        assert SameCore(StageAt(s.stages, stages, r), StageAt(t.stages, stages, r));
      }
    }
  }

  lemma OneStageApproval(stages: Stages, s: PipelineState, t: PipelineState, p: nat)
    requires ApprovalOk(stages, s) && OneStageChange(stages, s, t, p)
    ensures ApprovalOk(stages, t)
  {
    hide StageOk, StageGrows, CheckpointOk;
    if t.reviewCheckpoint.Some? {
      CheckpointSurvives(stages, s, t, p);
    }
  }

  lemma OneStageRecord(stages: Stages, s: PipelineState, t: PipelineState, p: nat)
    requires RecordOk(stages, s) && OneStageChange(stages, s, t, p)
    requires t.economics == TotalUsage(Ids(stages), t.stages)
    ensures RecordOk(stages, t) && StateGrows(s, t)
  {
    hide StageOk, SameExceptAt, StageGrows, Prefix, TotalUsage, StateGrows, IdSet;
    OneStageGrows(stages, s, t, p);
  }

  lemma OneStageArchiveAndHeader(stages: Stages, s: PipelineState, t: PipelineState, p: nat)
    requires ArchiveOk(s) && HeaderOk(s) && OneStageChange(stages, s, t, p) && StateGrows(s, t)
    ensures ArchiveOk(t) && HeaderOk(t)
  {
    hide ArchiveOk, ValidIdentity, StageOk, SameExceptAt, StageGrows, Prefix;
    ArchiveSurvives(s, t);
  }

  lemma OneStageKeepsInv(stages: Stages, s: PipelineState, t: PipelineState, p: nat)
    requires Inv(stages, s) && OneStageChange(stages, s, t, p)
    requires t.economics == TotalUsage(Ids(stages), t.stages)
    ensures Inv(stages, t) && StateGrows(s, t)
  {
    hide ApprovalOk, ArchiveOk, RunningOk, HeaderOk, RecordOk, OneStageChange, StateGrows;
    OneStageRecord(stages, s, t, p);
    OneStageRunning(stages, s, t, p);
    OneStageApproval(stages, s, t, p);
    OneStageArchiveAndHeader(stages, s, t, p);
  }

  /** Replacing the stage at `p` leaves the others as they were. */
  lemma ReplacedAt(stages: Stages, s: PipelineState, t: PipelineState, p: nat, stage: StageState)
    requires WellCompiled(stages) && RecordOk(stages, s) && p < |stages| && stage.id == stages[p].id
    requires t.stages == s.stages[stage.id := stage]
    ensures s.stages.Keys == t.stages.Keys && StageAt(t.stages, stages, p) == stage && SameExceptAt(stages, s.stages, t.stages, p)
    ensures forall q :: 0 <= q < |stages| && q != p ==> StageAt(t.stages, stages, q) == StageAt(s.stages, stages, q)
  {
    IdAt(stages, p);
    forall q | 0 <= q < |stages| && q != p ensures StageAt(t.stages, stages, q) == StageAt(s.stages, stages, q) {
      assert stages[q].id != stages[p].id;
    }
  }

  /** `t` is `s` with the stage at `p` replaced, its approval kept or dropped. */
  ghost predicate Replaces(stages: Stages, s: PipelineState, t: PipelineState, p: nat, stage: StageState) {
    && p < |stages| && stage.id == stages[p].id && t.stages == s.stages[stage.id := stage]
    && SameHeader(s, t) && s.version == t.version && t.finalScopeReceipt.None?
    && !t.status.Done? && (t.status.Running? || t.status == s.status)
    && (t.reviewCheckpoint.Some? ==>
         && t.reviewCheckpoint == s.reviewCheckpoint
         && StageIndex(stages, s.reviewCheckpoint.value.qualityGate.stageId) < p)
    && StageOk(stage.id, stage) && StageGrows(StageAt(s.stages, stages, p), stage)
    && (stage.status.StageRunning? ==> Prefix(stages, s.stages, p))
    && forall q :: 0 <= q < |stages| && q != p ==> !StageAt(s.stages, stages, q).status.StageRunning?
  }

  lemma ReplaceKeepsInv(stages: Stages, s: PipelineState, t: PipelineState, p: nat, stage: StageState)
    requires WellCompiled(stages) && Inv(stages, s) && Replaces(stages, s, t, p, stage)
    requires t.economics == TotalUsage(Ids(stages), t.stages)
    ensures Inv(stages, t) && StateGrows(s, t) && StageAt(t.stages, stages, p) == stage
    ensures forall q :: 0 <= q < |stages| && q != p ==> StageAt(t.stages, stages, q) == StageAt(s.stages, stages, q)
  {
    hide ApprovalOk, ArchiveOk, RunningOk, HeaderOk, RecordOk, Replaces, OneStageChange, StateGrows, WellCompiled, StageAt;
    ReplaceIsOneStage(stages, s, t, p, stage);
    OneStageKeepsInv(stages, s, t, p);
  }

  lemma ReplaceIsOneStage(stages: Stages, s: PipelineState, t: PipelineState, p: nat, stage: StageState)
    requires WellCompiled(stages) && RecordOk(stages, s) && Replaces(stages, s, t, p, stage)
    ensures OneStageChange(stages, s, t, p) && StageAt(t.stages, stages, p) == stage
    ensures forall q :: 0 <= q < |stages| && q != p ==> StageAt(t.stages, stages, q) == StageAt(s.stages, stages, q)
  {
    ReplacedAt(stages, s, t, p, stage);
    hide RecordOk, WellCompiled, StageOk, StageGrows, Prefix, StageIndex, StageAt;
  }

  lemma KnownStage(stages: Stages, s: PipelineState, p: nat)
    requires RecordOk(stages, s) && p < |stages|
    ensures stages[p].id in s.stages && StageAt(s.stages, stages, p) == s.stages[stages[p].id] && StageOk(stages[p].id, StageAt(s.stages, stages, p))
  {
    IdAt(stages, p);
  }

  /** A replacement that keeps the stage's history keeps the economics. */
  lemma ReplaceSameHistory(stages: Stages, s: PipelineState, t: PipelineState, p: nat, stage: StageState)
    requires WellCompiled(stages) && Inv(stages, s) && Replaces(stages, s, t, p, stage)
    requires stage.history == StageAt(s.stages, stages, p).history && t.economics == s.economics
    ensures Inv(stages, t) && StateGrows(s, t) && StageAt(t.stages, stages, p) == stage
    ensures forall q :: 0 <= q < |stages| && q != p ==> StageAt(t.stages, stages, q) == StageAt(s.stages, stages, q)
  {
    hide ApprovalOk, ArchiveOk, RunningOk, HeaderOk, StageOk, StageGrows, Prefix, StageIndex;
    KnownStage(stages, s, p);
    SameHistoriesSameUsage(Ids(stages), s.stages, t.stages);
    ReplaceKeepsInv(stages, s, t, p, stage);
  }

  /** A replacement that records one more attempt adds its usage. */
  lemma ReplaceWithEntry(stages: Stages, s: PipelineState, t: PipelineState, p: nat, stage: StageState, entry: Attempt)
    requires WellCompiled(stages) && Inv(stages, s) && Replaces(stages, s, t, p, stage)
    requires stage.history == StageAt(s.stages, stages, p).history + [entry] && t.economics == Plus(s.economics, UsageOf(entry))
    ensures Inv(stages, t) && StateGrows(s, t) && StageAt(t.stages, stages, p) == stage
    ensures forall q :: 0 <= q < |stages| && q != p ==> StageAt(t.stages, stages, q) == StageAt(s.stages, stages, q)
  {
    hide ApprovalOk, ArchiveOk, RunningOk, HeaderOk, StageOk, StageGrows, Prefix, StageIndex;
    KnownStage(stages, s, p);
    IdAt(stages, p);
    RecordedUsageAdds(Ids(stages), s.stages, t.stages, stages[p].id, entry);
    ReplaceKeepsInv(stages, s, t, p, stage);
  }

  lemma MarkRunningKeepsInv(stages: Stages, s: PipelineState, p: nat, at: Time)
    requires WellCompiled(stages) && Inv(stages, s) && p < |stages| && AtPosition(stages, s, p)
    ensures var t := MarkStageRunning(s, stages[p].id, at);
            Inv(stages, t) && StateGrows(s, t) && AtPosition(stages, t, p) && StageAt(t.stages, stages, p).status.StageRunning?
  {
    NotDoneAt(stages, s, p);
    KnownStageOk(stages, s, p);
    hide Inv, WellCompiled, StateGrows, AtPosition, Replaces, MarkStageRunning, StageOk;
    MarkingReplaces(stages, s, p, at);
    var t, stage := MarkStageRunning(s, stages[p].id, at), MarkedStage(StageAt(s.stages, stages, p), at);
    ReplaceSameHistory(stages, s, t, p, stage);
    MarkedPosition(stages, s, t, p);
  }

  function MarkedStage(stage: StageState, at: Time): StageState {
    stage.(status := StageRunning, startedAt := Some(at), finishedAt := None)
  }

  lemma KnownStageOk(stages: Stages, s: PipelineState, p: nat)
    requires Inv(stages, s) && p < |stages|
    ensures StageOk(stages[p].id, StageAt(s.stages, stages, p))
  {
    hide ApprovalOk, ArchiveOk, RunningOk, HeaderOk, StageOk;
    KnownStage(stages, s, p);
  }

  lemma MarkingReplaces(stages: Stages, s: PipelineState, p: nat, at: Time)
    requires p < |stages| && AtPosition(stages, s, p) && s.finalScopeReceipt.None? && !s.status.Done?
    requires StageOk(stages[p].id, StageAt(s.stages, stages, p))
    ensures var t, stage := MarkStageRunning(s, stages[p].id, at), MarkedStage(StageAt(s.stages, stages, p), at);
            Replaces(stages, s, t, p, stage) && t.economics == s.economics && stage.history == StageAt(s.stages, stages, p).history
            && t.reviewCheckpoint == s.reviewCheckpoint && t.finalScopeReceipt == s.finalScopeReceipt
  {
    hide Prefix, StageIndex, ValidAttempt;
  }

  /** Before the end of the pipeline there is no receipt, so the state is not done. */
  lemma NotDoneAt(stages: Stages, s: PipelineState, p: nat)
    requires Inv(stages, s) && p < |stages| && AtPosition(stages, s, p)
    ensures s.finalScopeReceipt.None? && !s.status.Done?
  {
    hide RecordOk, ApprovalOk, ArchiveOk, RunningOk, ValidIdentity;
  }

  lemma MarkedPosition(stages: Stages, s: PipelineState, t: PipelineState, p: nat)
    requires p < |stages| && AtPosition(stages, s, p)
    requires t.reviewCheckpoint == s.reviewCheckpoint && t.finalScopeReceipt == s.finalScopeReceipt
    requires forall q :: 0 <= q < |stages| && q != p ==> StageAt(t.stages, stages, q) == StageAt(s.stages, stages, q)
    ensures AtPosition(stages, t, p)
  {
    hide StageIndex;
  }

  // ----- Settling an attempt -----

  ghost predicate Calm(stages: Stages, record: StageMap) {
    forall q :: 0 <= q < |stages| ==> !StageAt(record, stages, q).status.StageRunning?
  }

  /** A running stage is where the loop stands: no other stage runs and no approval covers it. */
  lemma RunningIsPosition(stages: Stages, s: PipelineState, p: nat)
    requires Inv(stages, s) && p < |stages| && StageAt(s.stages, stages, p).status.StageRunning?
    ensures AtPosition(stages, s, p) && s.finalScopeReceipt.None? && !s.status.Done?
  {
    hide ValidCheckpoint, ValidIdentity, StageOk, ArchiveOk;
    forall q | 0 <= q < |stages| && StageAt(s.stages, stages, q).status.StageRunning?
      ensures q == p
    {
      assert Prefix(stages, s.stages, q) && Prefix(stages, s.stages, p);
    }
    if s.reviewCheckpoint.Some? {
      var g := StageIndex(stages, s.reviewCheckpoint.value.qualityGate.stageId);
      assert StageAt(s.stages, stages, g).status.StagePassed? && Prefix(stages, s.stages, g);
    }
  }

  lemma IsoTimestampIsNotBlank(t: Time)
    requires IsIsoTimestamp(t)
    ensures NonBlank(t)
  {
    assert !IsSpace(t[|t| - 1]);
  }

  /** The state with the attempt recorded, before the route is followed. */
  function Recorded(stages: Stages, s: PipelineState, o: Outcome): PipelineState {
    WithStage(
      s.(regressions := o.route.regressions, economics := AccumulateEconomics(s.economics, o.execution.usage)),
      BuildFinishedStage(StageOf(s, o.stageId), o))
  }

  lemma FinishedStageIsOk(stage: StageState, o: Outcome)
    requires StageOk(o.stageId, stage) && o.attempt == stage.attempts + 1
    requires ValidExecution(o.execution) && IsIsoTimestamp(o.finishedAt) && (o.decision.passed <==> o.decision.kind == Passed)
    ensures StageOk(o.stageId, BuildFinishedStage(stage, o)) && StageGrows(stage, BuildFinishedStage(stage, o))
  {
    IsoTimestampIsNotBlank(o.finishedAt);
  }

  lemma RecordedKeepsInv(stages: Stages, s: PipelineState, p: nat, o: Outcome)
    requires WellCompiled(stages) && Inv(stages, s) && p < |stages| && StageAt(s.stages, stages, p).status.StageRunning?
    requires o.stageId == stages[p].id && o.attempt == StageAt(s.stages, stages, p).attempts + 1
    requires ValidExecution(o.execution) && IsIsoTimestamp(o.finishedAt) && (o.decision.passed <==> o.decision.kind == Passed)
    ensures var t := Recorded(stages, s, o);
            Inv(stages, t) && StateGrows(s, t) && Calm(stages, t.stages)
            && StageAt(t.stages, stages, p) == BuildFinishedStage(StageAt(s.stages, stages, p), o)
            && forall q :: 0 <= q < |stages| && q != p ==> StageAt(t.stages, stages, q) == StageAt(s.stages, stages, q)
  {
    KnownStageOk(stages, s, p);
    hide Inv, WellCompiled, StateGrows, AtPosition, Replaces, Recorded, Calm, ValidExecution, StageOk;
    var previous := StageAt(s.stages, stages, p);
    RunningIsPosition(stages, s, p);
    RecordingReplaces(stages, s, p, o);
    ReplaceLeavesCalm(stages, s, Recorded(stages, s, o), p, BuildFinishedStage(previous, o), BuildAttempt(previous, o));
    ReplaceWithEntry(stages, s, Recorded(stages, s, o), p, BuildFinishedStage(previous, o), BuildAttempt(previous, o));
  }

  lemma RecordingReplaces(stages: Stages, s: PipelineState, p: nat, o: Outcome)
    requires p < |stages| && AtPosition(stages, s, p) && s.finalScopeReceipt.None? && !s.status.Done?
    requires StageOk(stages[p].id, StageAt(s.stages, stages, p))
    requires o.stageId == stages[p].id && o.attempt == StageAt(s.stages, stages, p).attempts + 1
    requires ValidExecution(o.execution) && IsIsoTimestamp(o.finishedAt) && (o.decision.passed <==> o.decision.kind == Passed)
    ensures var previous := StageAt(s.stages, stages, p);
            && Replaces(stages, s, Recorded(stages, s, o), p, BuildFinishedStage(previous, o))
            && Recorded(stages, s, o).economics == Plus(s.economics, UsageOf(BuildAttempt(previous, o)))
            && BuildFinishedStage(previous, o).history == previous.history + [BuildAttempt(previous, o)]
            && !BuildFinishedStage(previous, o).status.StageRunning?
  {
    FinishedStageIsOk(StageAt(s.stages, stages, p), o);
    hide StageOk, StageGrows, ValidExecution, IsIsoTimestamp, Prefix, StageIndex;
  }

  lemma SameCoreIsOk(id: string, a: StageState, b: StageState)
    requires StageOk(id, a) && SameCore(a, b)
    ensures StageOk(id, b) && StageGrows(a, b)
  {
  }

  lemma FailedStageIsOk(id: string, a: StageState, b: StageState, entry: Attempt)
    requires StageOk(id, a) && b.id == id && b.status.StageFailed? && b.attempts == a.attempts + 1
    requires b.history == a.history + [entry] && entry.attempt == a.attempts + 1 && ValidAttempt(entry)
    ensures StageOk(id, b) && StageGrows(a, b)
  {
  }

  lemma HandoffReplaces(stages: Stages, s: PipelineState, p: nat, handoff: Option<string>)
    requires RecordOk(stages, s) && p < |stages| && Calm(stages, s.stages) && AtPosition(stages, s, p)
    requires !s.status.Done? && s.finalScopeReceipt.None?
    ensures var stage := StageAt(s.stages, stages, p).(upstreamHandoff := handoff);
            Replaces(stages, s, WithStage(s, stage), p, stage)
  {
    KnownStage(stages, s, p);
    SameCoreIsOk(stages[p].id, StageAt(s.stages, stages, p), StageAt(s.stages, stages, p).(upstreamHandoff := handoff));
  }

  /** Handing context to the next stage changes nothing the invariant speaks of. */
  lemma HandoffKeepsInv(stages: Stages, s: PipelineState, p: nat, handoff: Option<string>)
    requires WellCompiled(stages) && Inv(stages, s) && p < |stages| && Calm(stages, s.stages) && AtPosition(stages, s, p)
    requires !s.status.Done? && s.finalScopeReceipt.None?
    ensures var t := WithStage(s, StageAt(s.stages, stages, p).(upstreamHandoff := handoff));
            Inv(stages, t) && StateGrows(s, t) && SameCores(stages, s.stages, t.stages)
  {
    HandoffReplaces(stages, s, p, handoff);
    hide Inv, Replaces, Calm, AtPosition, StateGrows, WellCompiled;
    var stage := StageAt(s.stages, stages, p).(upstreamHandoff := handoff);
    ReplaceSameHistory(stages, s, WithStage(s, stage), p, stage);
  }

  /** Equal up to what stages carry for their next attempt. */
  ghost predicate SameCores(stages: Stages, a: StageMap, b: StageMap) {
    forall q :: 0 <= q < |stages| ==> SameCore(StageAt(a, stages, q), StageAt(b, stages, q))
  }

  /** Resetting one stage to pending and dropping approval. */
  lemma RegressionResetKeepsInv(stages: Stages, s: PipelineState, k: nat, findings: Option<seq<string>>, handoff: Option<string>)
    requires WellCompiled(stages) && Inv(stages, s) && k < |stages| && Calm(stages, s.stages) && !s.status.Done?
    ensures var t := ResetRegressionTarget(s, stages[k].id, findings, handoff);
            Inv(stages, t) && StateGrows(s, t) && StageAt(t.stages, stages, k).status.StagePending?
            && forall q :: 0 <= q < |stages| && q != k ==> StageAt(t.stages, stages, q) == StageAt(s.stages, stages, q)
  {
    hide Inv, WellCompiled, StateGrows, Replaces, ResetRegressionTarget, Calm;
    var previous := StageAt(s.stages, stages, k);
    ResettingReplaces(stages, s, k, findings, handoff);
    ReplaceSameHistory(stages, s, ResetRegressionTarget(s, stages[k].id, findings, handoff), k, ResetTarget(previous, findings, handoff));
  }

  function ResetTarget(previous: StageState, findings: Option<seq<string>>, handoff: Option<string>): StageState {
    StageState(previous.id, StagePending, previous.attempts, None, None, previous.history, findings, handoff)
  }

  lemma ResettingReplaces(stages: Stages, s: PipelineState, k: nat, findings: Option<seq<string>>, handoff: Option<string>)
    requires WellCompiled(stages) && Inv(stages, s) && k < |stages| && Calm(stages, s.stages) && !s.status.Done?
    ensures var t := ResetRegressionTarget(s, stages[k].id, findings, handoff);
            Replaces(stages, s, t, k, ResetTarget(StageAt(s.stages, stages, k), findings, handoff)) && t.economics == s.economics
  {
    KnownStage(stages, s, k);
    hide ApprovalOk, ArchiveOk, RunningOk, HeaderOk, RecordOk, WellCompiled, Prefix;
  }

  lemma StateGrowsTransitive(a: PipelineState, b: PipelineState, c: PipelineState)
    requires StateGrows(a, b) && StateGrows(b, c)
    ensures StateGrows(a, c)
  {
  }

  /** Where the loop stands after an attempt: one on, at the regression target, or at the end of the run. */
  ghost predicate MovedTo(stages: Stages, s: PipelineState, t: PipelineState, p: nat, route: Route) {
    && Calm(stages, t.stages) && t.regressions == route.regressions
    && match route.action
       case Continue(next) => p + 1 < |stages| && next == stages[p + 1].id && AtPosition(stages, t, p + 1) && t.regressions == s.regressions
       case Complete => p + 1 == |stages| && AtPosition(stages, t, p + 1) && t.regressions == s.regressions
       case Regress(target) =>
         && t.regressions == s.regressions + 1
         && 0 <= StageIndex(stages, target) < p && AtPosition(stages, t, StageIndex(stages, target))
       case Fail(_) => t.regressions == s.regressions
  }

  lemma SettleContinues(stages: Stages, s: PipelineState, base: PipelineState, p: nat, handoff: Option<string>)
    requires WellCompiled(stages) && Inv(stages, base) && Calm(stages, base.stages) && p + 1 < |stages|
    requires AtPosition(stages, base, p + 1) && !base.status.Done? && base.finalScopeReceipt.None? && base.regressions == s.regressions
    ensures var t := WithStage(base, StageAt(base.stages, stages, p + 1).(upstreamHandoff := handoff));
            Inv(stages, t) && StateGrows(base, t) && MovedTo(stages, s, t, p, Route(Continue(stages[p + 1].id), s.regressions))
            && SameCores(stages, base.stages, t.stages)
  {
    hide Inv, StateGrows, WellCompiled;
    HandoffKeepsInv(stages, base, p + 1, handoff);
    SameCoresPosition(stages, base, WithStage(base, StageAt(base.stages, stages, p + 1).(upstreamHandoff := handoff)), p + 1);
    hide SameCores, AtPosition, Calm;
  }

  lemma SameCoresPosition(stages: Stages, a: PipelineState, b: PipelineState, p: nat)
    requires AtPosition(stages, a, p) && Calm(stages, a.stages) && SameCores(stages, a.stages, b.stages)
    requires b.reviewCheckpoint == a.reviewCheckpoint && b.finalScopeReceipt == a.finalScopeReceipt
    ensures AtPosition(stages, b, p) && Calm(stages, b.stages)
  {
    hide StageIndex;
    assert forall q :: 0 <= q < |stages| ==> SameCore(StageAt(a.stages, stages, q), StageAt(b.stages, stages, q));
  }

  lemma SettleRegresses(stages: Stages, s: PipelineState, base: PipelineState, p: nat, target: string, findings: Option<seq<string>>, handoff: Option<string>)
    requires WellCompiled(stages) && Inv(stages, base) && Calm(stages, base.stages) && !base.status.Done?
    requires p < |stages| && Prefix(stages, base.stages, p) && 0 <= StageIndex(stages, target) < p && base.regressions == s.regressions + 1
    ensures var t := ResetRegressionTarget(base, target, findings, handoff);
            Inv(stages, t) && StateGrows(base, t) && MovedTo(stages, s, t, p, Route(Regress(target), s.regressions + 1))
  {
    hide Inv, StateGrows, WellCompiled, AtPosition, Calm, Prefix, StageAt;
    var k := StageIndex(stages, target);
    RegressionResetKeepsInv(stages, base, k, findings, handoff);
    RegressedPosition(stages, base, ResetRegressionTarget(base, target, findings, handoff), k, p);
  }

  lemma RegressedPosition(stages: Stages, base: PipelineState, t: PipelineState, k: nat, p: nat)
    requires k < p < |stages| && Prefix(stages, base.stages, p) && Calm(stages, base.stages)
    requires t.reviewCheckpoint.None? && t.finalScopeReceipt.None? && StageAt(t.stages, stages, k).status.StagePending?
    requires forall q :: 0 <= q < |stages| && q != k ==> StageAt(t.stages, stages, q) == StageAt(base.stages, stages, q)
    ensures AtPosition(stages, t, k) && Calm(stages, t.stages)
  {
  }

  /** After recording, the loop can stand one position on when the attempt passed. */
  lemma RecordedPosition(stages: Stages, s: PipelineState, p: nat, o: Outcome)
    requires p < |stages| && AtPosition(stages, s, p) && s.finalScopeReceipt.None? && o.stageId == stages[p].id
    requires var t := Recorded(stages, s, o);
             Calm(stages, t.stages) && StageAt(t.stages, stages, p) == BuildFinishedStage(StageAt(s.stages, stages, p), o)
             && forall q :: 0 <= q < |stages| && q != p ==> StageAt(t.stages, stages, q) == StageAt(s.stages, stages, q)
    ensures Prefix(stages, Recorded(stages, s, o).stages, p)
    ensures o.decision.passed ==> AtPosition(stages, Recorded(stages, s, o), p + 1)
  {
  }

  lemma SettleKeepsInv(stages: Stages, s: PipelineState, p: nat, execution: Execution, max: nat, at: Time)
    requires WellCompiled(stages) && Inv(stages, s) && p < |stages| && StageAt(s.stages, stages, p).status.StageRunning?
    requires ValidExecution(execution) && IsIsoTimestamp(at)
    ensures var o := OutcomeOf(stages, s, p, execution, max, at);
            var t := ApplyStageOutcome(s, o);
            && Inv(stages, t) && StateGrows(s, t) && MovedTo(stages, s, t, p, o.route)
            && (o.decision.passed ==> SameCore(StageAt(t.stages, stages, p), BuildFinishedStage(StageAt(s.stages, stages, p), o)))
            && (o.route.action.Regress? ==> t.regressions <= max)
  {
    var o := OutcomeOf(stages, s, p, execution, max, at);
    var base := Recorded(stages, s, o);
    RunningIsPosition(stages, s, p);
    KindIff(stages[p], execution);
    RouteLeadsOnOrBack(stages, p, o.decision, s.regressions, max);
    hide Inv, StateGrows, CheckStageDecision, RouteStageDecision, StageIndex, AtPosition, Calm;
    RecordedKeepsInv(stages, s, p, o);
    RecordedPosition(stages, s, p, o);
    SettleFollowsRoute(stages, s, base, p, o, max);
    StateGrowsTransitive(s, base, ApplyStageOutcome(s, o));
  }

  lemma SettleFollowsRoute(stages: Stages, s: PipelineState, base: PipelineState, p: nat, o: Outcome, max: nat)
    requires WellCompiled(stages) && p < |stages| && base == Recorded(stages, s, o)
    requires LeadsOnOrBack(stages, p, o.decision.passed, o.route, s.regressions, max)
    requires Inv(stages, base) && Calm(stages, base.stages) && !base.status.Done? && base.finalScopeReceipt.None?
    requires Prefix(stages, base.stages, p) && (o.decision.passed ==> AtPosition(stages, base, p + 1))
    ensures var t := ApplyStageOutcome(s, o);
            && Inv(stages, t) && StateGrows(base, t) && MovedTo(stages, s, t, p, o.route)
            && (o.decision.passed ==> SameCore(StageAt(t.stages, stages, p), StageAt(base.stages, stages, p)))
            && (o.route.action.Regress? ==> t.regressions <= max)
  {
    hide Inv, Prefix;
    match o.route.action
    case Continue(next) =>
      StageAtItsIndex(stages, p + 1);
      SettleContinues(stages, s, base, p, HandoffOf(o.execution));
    case Complete =>
    case Fail(_) =>
    case Regress(target) => SettleRegresses(stages, s, base, p, target, o.decision.findings, HandoffOf(o.execution));
  }

  /** The stage an executor failure leaves behind. */
  function ErroredStage(stage: StageState, at: Time): StageState {
    StageState(stage.id, StageFailed, stage.attempts + 1, stage.startedAt, Some(at),
               stage.history + [ErrorEntry(stage, at)], None, None)
  }

  function ErrorEntry(stage: StageState, at: Time): Attempt {
    Attempt(stage.attempts + 1, AttemptFailed, stage.startedAt, Some(at), None, None, None, None, None)
  }

  lemma ErrorReplaces(stages: Stages, s: PipelineState, p: nat, at: Time)
    requires RecordOk(stages, s) && p < |stages| && AtPosition(stages, s, p)
    requires !s.status.Done? && s.finalScopeReceipt.None?
    ensures var stage := StageAt(s.stages, stages, p);
            var t := ApplyExecutorError(s, stages[p].id, stage.attempts + 1, at);
            Replaces(stages, s, t, p, ErroredStage(stage, at)) && t.economics == Plus(s.economics, UsageOf(ErrorEntry(stage, at)))
  {
    var stage := StageAt(s.stages, stages, p);
    KnownStage(stages, s, p);
    FailedStageIsOk(stages[p].id, stage, ErroredStage(stage, at), ErrorEntry(stage, at));
  }

  lemma ExecutorErrorKeepsInv(stages: Stages, s: PipelineState, p: nat, at: Time)
    requires WellCompiled(stages) && Inv(stages, s) && p < |stages| && StageAt(s.stages, stages, p).status.StageRunning?
    ensures var t := ApplyExecutorError(s, stages[p].id, StageAt(s.stages, stages, p).attempts + 1, at);
            Inv(stages, t) && StateGrows(s, t) && Calm(stages, t.stages)
  {
    RunningIsPosition(stages, s, p);
    ErrorReplaces(stages, s, p, at);
    var stage := StageAt(s.stages, stages, p);
    var t := ApplyExecutorError(s, stages[p].id, stage.attempts + 1, at);
    ReplaceLeavesCalm(stages, s, t, p, ErroredStage(stage, at), ErrorEntry(stage, at));
  }

  lemma ReplaceLeavesCalm(stages: Stages, s: PipelineState, t: PipelineState, p: nat, stage: StageState, entry: Attempt)
    requires WellCompiled(stages) && Inv(stages, s) && Replaces(stages, s, t, p, stage) && !stage.status.StageRunning?
    requires stage.history == StageAt(s.stages, stages, p).history + [entry] && t.economics == Plus(s.economics, UsageOf(entry))
    ensures Inv(stages, t) && StateGrows(s, t) && Calm(stages, t.stages)
  {
    hide Inv, WellCompiled, StateGrows, StageOk, StageGrows;
    ReplaceWithEntry(stages, s, t, p, stage, entry);
  }
}
