/** What the invariant means over whole histories. */
module Theorems {
  import opened Basics
  import opened RunDefs
  import opened PipelineStates
  import opened Routing
  import opened Transitions
  import opened Validation
  import opened Reconcile
  import opened Durable
  import opened Steps
  import opened Approvals
  import opened Recovery
  import opened Protocol
  import opened Effects

  // ----- Reading the invariant -----

  /** Economics, attempt numbers and passed attempts agree with the histories in every durable state. */
  lemma HistoriesAccountForEverything(stages: Stages, states: seq<PipelineState>, events: seq<Event>, i: nat, p: nat)
    requires WellCompiled(stages) && History(stages, states, events) && Inv(stages, states[0]) && i < |states| && p < |stages|
    ensures states[i].stages.Keys == IdSet(stages) && states[i].economics == TotalUsage(Ids(stages), states[i].stages)
    ensures var stage := StageAt(states[i].stages, stages, p);
            && stage.attempts == |stage.history|
            && (forall k :: 0 <= k < |stage.history| ==> stage.history[k].attempt == k + 1)
            && (stage.status.StagePassed? ==>
                 && stage.history != [] && stage.history[|stage.history| - 1].status == Passed
                 && stage.finishedAt.Some? && stage.history[|stage.history| - 1].finishedAt == stage.finishedAt)
  {
    hide Inv, Enabled, Apply;
    HistoryKeepsInv(stages, states, events, i);
    InvRecord(stages, states[i]);
    KnownStage(stages, states[i], p);
  }

  /** The running stage: no other runs, no receipt is active, and an active checkpoint lies before it. */
  ghost predicate RunsAlone(stages: Stages, s: PipelineState, p: nat) {
    && s.finalScopeReceipt.None?
    && (s.reviewCheckpoint.Some? ==> StageIndex(stages, s.reviewCheckpoint.value.qualityGate.stageId) < p)
    && forall q :: 0 <= q < |stages| && q != p ==> !StageAt(s.stages, stages, q).status.StageRunning?
  }

  lemma PositionRunsAlone(stages: Stages, s: PipelineState, p: nat)
    requires AtPosition(stages, s, p) && s.finalScopeReceipt.None?
    ensures RunsAlone(stages, s, p)
  {
    hide Prefix;
  }

  lemma InvRecord(stages: Stages, s: PipelineState)
    requires Inv(stages, s)
    ensures RecordOk(stages, s)
  {
    hide RecordOk, ApprovalOk, ArchiveOk, RunningOk, HeaderOk;
  }

  lemma InvApproval(stages: Stages, s: PipelineState)
    requires Inv(stages, s)
    ensures ApprovalOk(stages, s) && ArchiveOk(s) && HeaderOk(s) && RunningOk(stages, s.stages)
  {
    hide RecordOk, ApprovalOk, ArchiveOk, RunningOk, HeaderOk;
  }

  /** A checkpoint covers a passed stage with a complete prefix; a receipt covers every stage. */
  lemma ApprovalCoversCompleteWork(stages: Stages, states: seq<PipelineState>, events: seq<Event>, i: nat)
    requires WellCompiled(stages) && History(stages, states, events) && Inv(stages, states[0]) && i < |states|
    ensures states[i].reviewCheckpoint.Some? ==>
      var g := StageIndex(stages, states[i].reviewCheckpoint.value.qualityGate.stageId);
      && 0 <= g < |stages| && StageAt(states[i].stages, stages, g).status.StagePassed?
      && forall q :: 0 <= q < g ==> IsComplete(StageAt(states[i].stages, stages, q).status)
    ensures states[i].finalScopeReceipt.Some? || states[i].status.Done? ==>
      states[i].reviewCheckpoint.Some?
      && forall q :: 0 <= q < |stages| ==> IsComplete(StageAt(states[i].stages, stages, q).status)
    ensures forall p :: 0 <= p < |stages| && StageAt(states[i].stages, stages, p).status.StageRunning? ==> RunsAlone(stages, states[i], p)
  {
    hide Inv, Enabled, Apply, AtPosition, StageIndex;
    HistoryKeepsInv(stages, states, events, i);
    InvApproval(stages, states[i]);
    forall p | 0 <= p < |stages| && StageAt(states[i].stages, stages, p).status.StageRunning?
      ensures RunsAlone(stages, states[i], p)
    {
      RunningIsPosition(stages, states[i], p);
      PositionRunsAlone(stages, states[i], p);
    }
    if states[i].reviewCheckpoint.Some? {
      CheckpointStage(stages, states[i]);
    }
  }

  lemma CheckpointStage(stages: Stages, s: PipelineState)
    requires ApprovalOk(stages, s) && s.reviewCheckpoint.Some?
    ensures var g := StageIndex(stages, s.reviewCheckpoint.value.qualityGate.stageId);
            0 <= g && Prefix(stages, s.stages, g) && StageAt(s.stages, stages, g).status.StagePassed?
            && StageAt(s.stages, stages, g).attempts == s.reviewCheckpoint.value.qualityGate.attempt
            && FreshId(s, s.reviewCheckpoint.value.runId) && (HasReview(stages) ==> IsCodeReview(stages[g]))
  {
    hide ValidCheckpoint, HistoryMatches, IsCodeReview, HasReview, FreshId, ValidReceipt;
  }

  // ----- Terminal recovery over whole histories -----

  lemma ArchivedIdStays(a: PipelineState, b: PipelineState, k: nat)
    requires DurableGrows(a, b) && k < |Archive(a)|
    ensures k < |Archive(b)| && Archive(b)[k].expectedReceiptRunId == Archive(a)[k].expectedReceiptRunId
    ensures Archive(b)[k].receipt == Archive(a)[k].receipt && Archive(b)[k].reason == Archive(a)[k].reason
  {
    hide Grows;
  }

  /**
   The state right after a correction: the receipt is archived with the request that superseded it, the
   target and every later stage is pending, and only the target has something to answer, the reason.
   */
  lemma CorrectionArchives(stages: Stages, states: seq<PipelineState>, events: seq<Event>, i: nat, c: Correction)
    requires WellCompiled(stages) && History(stages, states, events) && Inv(stages, states[0])
    requires i < |events| && events[i] == Correct(c)
    ensures MayCorrect(stages, states[i], c) && Inv(stages, states[i + 1])
    ensures Archive(states[i + 1]) == Archive(states[i]) + [ArchiveRecord(states[i], c)]
    ensures var k := StageIndex(stages, c.resetTargetStageId);
            && 0 <= k < |stages| && ResetFrom(stages, states[i], states[i + 1], k)
            && states[i + 1].regressions == states[i].regressions && states[i + 1].economics == states[i].economics
            && SendsBackFrom(stages, states[i], states[i + 1], k, Some([c.reason]))
    ensures states[i].finalScopeReceipt.Some? && ArchiveRecord(states[i], c) == RecordOf(states[i], c)
  {
    hide Inv, WellCompiled, StateGrows, ResetFrom, MayCorrect, ApplyTerminalCorrection, ArchiveRecord, StageIndex, SendsBackFrom, RecordOf;
    RecordsAgree(states[i], c);
    CorrectionSendsBack(stages, states, events, i, c);
    HistoryKeepsInv(stages, states, events, i);
    assert Enabled(stages, states[i], events[i]);
    CorrectionInIds(stages, states[i], c);
    CorrectionKeepsInv(stages, states[i], c);
  }

  lemma CorrectionSendsBack(stages: Stages, states: seq<PipelineState>, events: seq<Event>, i: nat, c: Correction)
    requires WellCompiled(stages) && History(stages, states, events) && Inv(stages, states[0])
    requires i < |events| && events[i] == Correct(c)
    ensures states[i].finalScopeReceipt.Some?
    ensures forall k :: 0 <= k < |stages| && stages[k].id == c.resetTargetStageId ==>
      SendsBackFrom(stages, states[i], states[i + 1], k, Some([c.reason]))
  {
    hide Inv, WellCompiled, Enabled, Apply, SendsBackFrom, RecordOf;
    SavesShow(stages, states, events, i);
  }

  lemma RecordsAgree(s: PipelineState, c: Correction)
    ensures s.finalScopeReceipt.Some? ==> ArchiveRecord(s, c) == RecordOf(s, c)
  {
  }

  /** However a recovery request is repeated, a receipt run id is archived by at most one correction. */
  lemma RecoveryArchivesAtMostOnce(stages: Stages, states: seq<PipelineState>, events: seq<Event>, i: nat, j: nat, c: Correction, d: Correction)
    requires WellCompiled(stages) && History(stages, states, events) && Inv(stages, states[0])
    requires i < j < |events| && events[i] == Correct(c) && events[j] == Correct(d)
    ensures c.expectedReceiptRunId != d.expectedReceiptRunId
  {
    hide Inv, History, DurableGrows, ResetFrom, ApprovalOk, WellCompiled, StageIndex, RecordOk, ArchiveOk, RunningOk, HeaderOk, InferResetTarget,
         Prefix, HasReview, IsCodeReview;
    CorrectionArchives(stages, states, events, i, c);
    CorrectionArchives(stages, states, events, j, d);
    HistoryLength(stages, states, events);
    RecordsOnlyGrow(stages, states, events, i + 1, j);
    ArchivedIdStays(states[i + 1], states[j], |Archive(states[i])|);
    HistoryKeepsInv(stages, states, events, j);
    InvApproval(stages, states[j]);
    ReceiptHasFreshId(stages, states[j]);
  }

  lemma HistoryLength(stages: Stages, states: seq<PipelineState>, events: seq<Event>)
    requires History(stages, states, events)
    ensures |states| == |events| + 1
  {
  }

  lemma ReceiptHasFreshId(stages: Stages, s: PipelineState)
    requires ApprovalOk(stages, s) && s.finalScopeReceipt.Some?
    ensures FreshId(s, s.finalScopeReceipt.value.checkpoint.runId) && s.reviewCheckpoint == Some(s.finalScopeReceipt.value.checkpoint)
  {
    hide ValidCheckpoint, HistoryMatches, IsCodeReview, HasReview, ValidReceipt, Prefix;
  }

  /** Exactly one stage of the pipeline is a code review. */
  ghost predicate SingleReview(stages: Stages) {
    forall p, q :: 0 <= p < |stages| && 0 <= q < |stages| && IsCodeReview(stages[p]) && IsCodeReview(stages[q]) ==> p == q
  }

  /** After a correction the review is pending, and any later approval names a later attempt of it. */
  lemma CorrectionForcesALaterReview(stages: Stages, states: seq<PipelineState>, events: seq<Event>, i: nat, j: nat, c: Correction)
    requires WellCompiled(stages) && SingleReview(stages) && History(stages, states, events) && Inv(stages, states[0])
    requires i < |events| && events[i] == Correct(c) && i < j < |states|
    ensures states[i].finalScopeReceipt.Some?
    ensures var archived := states[i].finalScopeReceipt.value.checkpoint.qualityGate;
      && StageIndex(stages, archived.stageId) >= 0
      && StageAt(states[i + 1].stages, stages, StageIndex(stages, archived.stageId)).status.StagePending?
      && (states[j].reviewCheckpoint.Some? ==>
           var active := states[j].reviewCheckpoint.value.qualityGate;
           active.stageId == archived.stageId && active.attempt > archived.attempt)
  {
    hide Inv, History, DurableGrows, WellCompiled, StageIndex, RecordOk, ArchiveOk, ApprovalOk, RunningOk, HeaderOk, IsCodeReview;
    CorrectionArchives(stages, states, events, i, c);
    TargetPrecedesReview(stages, states[i].finalScopeReceipt.value);
    var g := StageIndex(stages, states[i].finalScopeReceipt.value.checkpoint.qualityGate.stageId);
    assert HasReview(stages);
    HistoryLength(stages, states, events);
    HistoryKeepsInv(stages, states, events, j);
    RecordsOnlyGrow(stages, states, events, i + 1, j);
    ArchivedIdStays(states[i + 1], states[j], |Archive(states[i])|);
    if states[j].reviewCheckpoint.Some? {
      InvApproval(stages, states[j]);
      InvRecord(stages, states[j]);
      CheckpointStage(stages, states[j]);
      LaterAttempt(stages, states[j], |Archive(states[i])|, g);
    }
  }

  lemma LaterAttempt(stages: Stages, s: PipelineState, k: nat, g: nat)
    requires RecordOk(stages, s) && ApprovalOk(stages, s) && ArchiveOk(s) && s.reviewCheckpoint.Some? && k < |Archive(s)| && g < |stages|
    requires StageIndex(stages, s.reviewCheckpoint.value.qualityGate.stageId) == g
    requires StageIndex(stages, Archive(s)[k].receipt.checkpoint.qualityGate.stageId) == g
    ensures s.reviewCheckpoint.value.qualityGate.stageId == Archive(s)[k].receipt.checkpoint.qualityGate.stageId
    ensures s.reviewCheckpoint.value.qualityGate.attempt > Archive(s)[k].receipt.checkpoint.qualityGate.attempt
  {
    CheckpointStage(stages, s);
    KnownStage(stages, s, g);
    hide RecordOk, ApprovalOk, SupersededIntegrity, StageOk;
    assert MovedOn(Archive(s)[k].receipt.checkpoint.qualityGate, s);
  }

  // ----- The idempotent retry -----

  /** A retry of an applied correction resumes instead of archiving again. */
  predicate RetryMatches(s: PipelineState, expectedReceiptRunId: string, reason: string) {
    && Archive(s) != []
    && Archive(s)[|Archive(s)| - 1].expectedReceiptRunId == expectedReceiptRunId
    && Archive(s)[|Archive(s)| - 1].reason == reason
    && (s.status.Pending? || s.status.Running? || s.status.Failed? || s.status.NeedsAttention?)
    && s.reviewCheckpoint.None? && s.finalScopeReceipt.None?
  }

  lemma OnlyCorrectionsArchive(stages: Stages, s: PipelineState, e: Event)
    requires !e.Correct?
    ensures |Archive(Apply(stages, s, e))| == |Archive(s)|
  {
  }

  lemma {:induction false} ArchiveLengthWithoutCorrection(stages: Stages, states: seq<PipelineState>, events: seq<Event>, i: nat, j: nat)
    requires History(stages, states, events) && i <= j < |states|
    requires forall k :: i <= k < j ==> !events[k].Correct?
    ensures |Archive(states[i])| == |Archive(states[j])|
    decreases j
  {
    hide Enabled, Apply;
    if i < j {
      ArchiveLengthWithoutCorrection(stages, states, events, i, j - 1);
      OnlyCorrectionsArchive(stages, states[j - 1], events[j - 1]);
    }
  }

  /** Until a new correction, exactly the same request is taken as a retry, and exactly while no new approval is active. */
  lemma RetryResumesUntilReapproved(stages: Stages, states: seq<PipelineState>, events: seq<Event>, i: nat, j: nat, c: Correction,
                                    expectedReceiptRunId: string, reason: string)
    requires WellCompiled(stages) && History(stages, states, events) && Inv(stages, states[0])
    requires i < j < |states| && events[i] == Correct(c)
    requires forall k :: i < k < j ==> !events[k].Correct?
    ensures RetryMatches(states[j], expectedReceiptRunId, reason) <==>
      expectedReceiptRunId == c.expectedReceiptRunId && reason == c.reason && states[j].reviewCheckpoint.None?
  {
    hide Inv, DurableGrows, WellCompiled, StageIndex, RecordOk, ArchiveOk, RunningOk, ResetFrom, Enabled, Apply, MayCorrect;
    CorrectionArchives(stages, states, events, i, c);
    ArchiveLengthWithoutCorrection(stages, states, events, i + 1, j);
    RecordsOnlyGrow(stages, states, events, i + 1, j);
    ArchivedIdStays(states[i + 1], states[j], |Archive(states[i])|);
    HistoryKeepsInv(stages, states, events, j);
    InvApproval(stages, states[j]);
    ReceiptNeedsCheckpoint(stages, states[j]);
  }

  lemma ReceiptNeedsCheckpoint(stages: Stages, s: PipelineState)
    requires ApprovalOk(stages, s) && HeaderOk(s)
    ensures s.finalScopeReceipt.Some? || s.status.Done? ==> s.reviewCheckpoint.Some?
    ensures !s.status.NeedsApproval? && !s.status.Paused?
  {
    hide CheckpointOk, ValidReceipt, ValidIdentity;
  }
}
