/** Superseding a receipt, adopting a definition, and repairing a loaded state keep the invariant. */
module Recovery {
  import opened Basics
  import opened RunDefs
  import opened Scopes
  import opened PipelineStates
  import opened Routing
  import opened Transitions
  import opened Validation
  import opened Reconcile
  import opened Durable
  import opened Steps
  import opened Approvals

  // ----- Terminal correction -----

  /** The reset target lies strictly before the review stage the receipt names. */
  lemma TargetPrecedesReview(stages: Stages, receipt: Receipt)
    requires WellCompiled(stages) && InferResetTarget(stages, receipt).Some?
    ensures var k := StageIndex(stages, InferResetTarget(stages, receipt).value);
            var g := StageIndex(stages, receipt.checkpoint.qualityGate.stageId);
            0 <= k < g < |stages| && IsCodeReview(stages[g])
  {
    var g := StageIndex(stages, receipt.checkpoint.qualityGate.stageId);
    var k := StageIndex(stages, stages[g].onFail.value);
    StageAtItsIndex(stages, k);
    StageAtItsIndex(stages, g);
  }

  lemma NewRecordIsValid(stages: Stages, s: PipelineState, c: Correction)
    requires RecordOk(stages, s) && ApprovalOk(stages, s) && HeaderOk(s) && MayCorrect(stages, s, c)
    requires c.resetTargetStageId in Ids(stages) && WellCompiled(stages)
    ensures ValidSuperseded(ArchiveRecord(s, c)) && SupersededMatchesState(ArchiveRecord(s, c), s)
    ensures FreshId(s, c.expectedReceiptRunId)
  {
    hide ValidReceipt, ValidCheckpoint, IsRunDef, BoundedReason, BoundedReceiptId, StageOk, HistoryMatches, TotalUsage, Prefix;
    var k := IndexOf(Ids(stages), c.resetTargetStageId);
    assert stages[k].id == c.resetTargetStageId;
    assert ValidReceipt(s.finalScopeReceipt.value);
  }

  lemma NewRecordMovedOn(stages: Stages, s: PipelineState, u: PipelineState, k: nat, gate: QualityGate)
    requires s.stages.Keys == IdSet(stages) && ResetFrom(stages, s, u, k) && GateMatchesStage(gate, s.stages)
    requires k <= StageIndex(stages, gate.stageId)
    ensures MovedOn(gate, u) && GateMatchesHistory(gate, u.stages)
  {
    var g := StageIndex(stages, gate.stageId);
    assert StageAt(u.stages, stages, g).attempts == StageAt(s.stages, stages, g).attempts;
  }

  lemma AppendKeepsArchive(u: PipelineState, t: PipelineState, record: SupersededReceipt)
    requires ArchiveOk(u) && t.stages == u.stages && Archive(t) == Archive(u) + [record]
    requires t.storyId == u.storyId && t.runDefId == u.runDefId && t.runDefDigest == u.runDefDigest && t.runDefIdentity == u.runDefIdentity
    requires ValidSuperseded(record) && SupersededMatchesState(record, u) && record.sequence == |Archive(u)| + 1
    requires MovedOn(record.receipt.checkpoint.qualityGate, u) && FreshId(u, record.expectedReceiptRunId)
    ensures ArchiveOk(t)
  {
    hide ValidSuperseded, GateMatchesHistory, EqualExceptTimeouts, IsRunDef;
    forall k | 0 <= k < |Archive(t)|
      ensures ValidSuperseded(Archive(t)[k]) && SupersededMatchesState(Archive(t)[k], t) && Archive(t)[k].sequence == k + 1
      ensures MovedOn(Archive(t)[k].receipt.checkpoint.qualityGate, t)
    {
      assert k < |Archive(u)| ==> Archive(t)[k] == Archive(u)[k];
    }
  }

  /** The correction as a reset followed by the archive append. */
  lemma CorrectionShape(stages: Stages, s: PipelineState, c: Correction, k: nat)
    requires WellCompiled(stages) && s.stages.Keys == IdSet(stages) && MayCorrect(stages, s, c)
    requires k < |stages| && stages[k].id == c.resetTargetStageId && stages[k].id in Ids(stages)
    ensures var u := ResetStageAndDownstream(s, Ids(stages), c.resetTargetStageId, Some([c.reason]));
            var t := ApplyTerminalCorrection(s, Ids(stages), c);
            && ResetFrom(stages, s, u, k) && u.economics == s.economics && u.regressions == s.regressions && SameHeader(s, u) && u.version == s.version
            && t == u.(version := RUNNER_FEATURE_VERSION, superseded := Some(Archive(s) + [ArchiveRecord(s, c)]))
  {
    hide ResetFrom, WellCompiled, IdSet;
    ResetShape(stages, s, k, Some([c.reason]));
  }

  lemma ArchivingKeepsInv(stages: Stages, u: PipelineState, t: PipelineState, record: SupersededReceipt)
    requires Inv(stages, u) && t == u.(version := RUNNER_FEATURE_VERSION, superseded := Some(Archive(u) + [record]))
    requires ArchiveOk(t) && u.reviewCheckpoint.None? && u.finalScopeReceipt.None? && u.status.Running?
    ensures Inv(stages, t) && StateGrows(u, t)
  {
    hide ArchiveOk, RunningOk, StageOk, ValidIdentity, TotalUsage, IdSet, CheckpointOk;
    assert Grows(u.stages, t.stages);
  }

  /** The receipt is archived once, the target and everything after it is pending, and the invariant stays. */
  lemma CorrectionKeepsInv(stages: Stages, s: PipelineState, c: Correction)
    requires WellCompiled(stages) && Inv(stages, s) && MayCorrect(stages, s, c) && c.resetTargetStageId in Ids(stages)
    ensures var t := ApplyTerminalCorrection(s, Ids(stages), c);
            var k := StageIndex(stages, c.resetTargetStageId);
            && Inv(stages, t) && StateGrows(s, t) && 0 <= k < |stages| && ResetFrom(stages, s, t, k)
            && Archive(t) == Archive(s) + [ArchiveRecord(s, c)] && t.regressions == s.regressions
            && t.economics == s.economics
  {
    hide RecordOk, ApprovalOk, ArchiveOk, RunningOk, HeaderOk, StateGrows, ResetFrom, WellCompiled, ArchiveRecord, StageIndex,
         ApplyTerminalCorrection, ResetStageAndDownstream, IsCodeReview, InferResetTarget;
    var receipt := s.finalScopeReceipt.value;
    TargetPrecedesReview(stages, receipt);
    var k := StageIndex(stages, c.resetTargetStageId);
    var u := ResetStageAndDownstream(s, Ids(stages), c.resetTargetStageId, Some([c.reason]));
    var t := ApplyTerminalCorrection(s, Ids(stages), c);
    ReceiptFacts(stages, s);
    CorrectionShape(stages, s, c, k);
    ResetKeepsInv(stages, s, u, k);
    NewRecordIsValid(stages, s, c);
    NewRecordMovedOn(stages, s, u, k, receipt.checkpoint.qualityGate);
    CorrectionArchive(stages, s, u, t, c);
    ResetCleared(stages, s, u, t, k);
    ArchivingKeepsInv(stages, u, t, ArchiveRecord(s, c));
    StateGrowsTransitive(s, u, t);
  }

  lemma ReceiptFacts(stages: Stages, s: PipelineState)
    requires RecordOk(stages, s) && ApprovalOk(stages, s) && s.finalScopeReceipt.Some?
    ensures s.reviewCheckpoint == Some(s.finalScopeReceipt.value.checkpoint)
    ensures GateMatchesStage(s.finalScopeReceipt.value.checkpoint.qualityGate, s.stages) && s.stages.Keys == IdSet(stages)
  {
    hide ValidReceipt, ValidCheckpoint, HistoryMatches, IsCodeReview, HasReview, FreshId, TotalUsage, IdSet, StageOk;
  }

  lemma ResetCleared(stages: Stages, s: PipelineState, u: PipelineState, t: PipelineState, k: nat)
    requires ResetFrom(stages, s, u, k) && t == u.(version := t.version, superseded := t.superseded)
    ensures u.reviewCheckpoint.None? && u.finalScopeReceipt.None? && u.status.Running? && ResetFrom(stages, s, t, k)
    ensures t.regressions == u.regressions && t.economics == u.economics
  {
  }

  lemma CorrectionArchive(stages: Stages, s: PipelineState, u: PipelineState, t: PipelineState, c: Correction)
    requires s.finalScopeReceipt.Some? && ArchiveOk(u) && SameHeader(s, u)
    requires t == u.(version := RUNNER_FEATURE_VERSION, superseded := Some(Archive(s) + [ArchiveRecord(s, c)]))
    requires ValidSuperseded(ArchiveRecord(s, c)) && SupersededMatchesState(ArchiveRecord(s, c), s)
    requires FreshId(s, c.expectedReceiptRunId)
    requires MovedOn(s.finalScopeReceipt.value.checkpoint.qualityGate, u)
    requires GateMatchesHistory(s.finalScopeReceipt.value.checkpoint.qualityGate, u.stages)
    ensures ArchiveOk(t) && Archive(u) == Archive(s)
  {
    hide ArchiveOk, ValidSuperseded, MovedOn, GateMatchesHistory, IsRunDef, EqualExceptTimeouts;
    AppendKeepsArchive(u, t, ArchiveRecord(s, c));
  }

  // ----- Adopting a definition that differs only in timeouts -----

  lemma EqualExceptTimeoutsIsTransitive(a: RunDef, b: RunDef, c: RunDef)
    requires EqualExceptTimeouts(a, b) && EqualExceptTimeouts(b, c)
    ensures EqualExceptTimeouts(a, c)
  {
  }

  /** Every archived record still matches after the adoption, with or without a backfilled identity. */
  lemma AdoptedRecordMatches(s: PipelineState, def: RunDef, record: SupersededReceipt)
    requires HeaderOk(s) && MayAdopt(s, def) && ValidSuperseded(record) && SupersededMatchesState(record, s)
    ensures var r := if s.runDefIdentity.None? then record else BackfillOne(record, s.runDefIdentity.value);
            ValidSuperseded(r) && SupersededMatchesState(r, AdoptRunDef(s, def)) && r.sequence == record.sequence
            && r.expectedReceiptRunId == record.expectedReceiptRunId && r.receipt == record.receipt
  {
    hide ValidReceipt, IsRunDef, HistoryMatches, BoundedReason, BoundedReceiptId;
    if s.runDefIdentity.Some? && record.runDefIdentity.Some? {
      if EqualExceptTimeouts(record.runDefIdentity.value, s.runDefIdentity.value) && EqualExceptTimeouts(s.runDefIdentity.value, def) {
        EqualExceptTimeoutsIsTransitive(record.runDefIdentity.value, s.runDefIdentity.value, def);
      }
    }
  }

  lemma AdoptedArchiveOk(s: PipelineState, def: RunDef)
    requires HeaderOk(s) && ArchiveOk(s) && MayAdopt(s, def)
    ensures ArchiveOk(AdoptRunDef(s, def)) && |Archive(AdoptRunDef(s, def))| == |Archive(s)|
    ensures forall k :: 0 <= k < |Archive(s)| ==>
      && Archive(AdoptRunDef(s, def))[k].receipt == Archive(s)[k].receipt
      && Archive(AdoptRunDef(s, def))[k].expectedReceiptRunId == Archive(s)[k].expectedReceiptRunId
  {
    hide ValidSuperseded, SupersededMatchesState, HeaderOk, MayAdopt, BackfillOne;
    var t := AdoptRunDef(s, def);
    forall k | 0 <= k < |Archive(s)|
      ensures ValidSuperseded(Archive(t)[k]) && SupersededMatchesState(Archive(t)[k], t)
      ensures Archive(t)[k].sequence == k + 1 && MovedOn(Archive(t)[k].receipt.checkpoint.qualityGate, t)
      ensures Archive(t)[k].expectedReceiptRunId == Archive(s)[k].expectedReceiptRunId
      ensures Archive(t)[k].receipt == Archive(s)[k].receipt
    {
      AdoptedRecordMatches(s, def, Archive(s)[k]);
    }
  }

  lemma AdoptedApprovalOk(stages: Stages, s: PipelineState, def: RunDef)
    requires ApprovalOk(stages, s) && MayAdopt(s, def)
    requires |Archive(AdoptRunDef(s, def))| == |Archive(s)|
    requires forall k :: 0 <= k < |Archive(s)| ==>
      Archive(AdoptRunDef(s, def))[k].expectedReceiptRunId == Archive(s)[k].expectedReceiptRunId
    ensures ApprovalOk(stages, AdoptRunDef(s, def))
  {
    hide ValidCheckpoint, ValidReceipt, HistoryMatches, IsCodeReview, HasReview, IsRunDef, Prefix, Backfill, EqualExceptTimeouts;
    var t := AdoptRunDef(s, def);
    if s.reviewCheckpoint.Some? {
      assert FreshId(t, s.reviewCheckpoint.value.runId);
    }
  }

  lemma AdoptKeepsInv(stages: Stages, s: PipelineState, def: RunDef)
    requires Inv(stages, s) && MayAdopt(s, def)
    ensures Inv(stages, AdoptRunDef(s, def)) && Grows(s.stages, AdoptRunDef(s, def).stages)
  {
    hide RecordOk, ApprovalOk, ArchiveOk, RunningOk, EqualExceptTimeouts, Backfill;
    AdoptedArchiveOk(s, def);
    AdoptedApprovalOk(stages, s, def);
    UnchangedRecord(stages, s, AdoptRunDef(s, def));
  }

  lemma UnchangedRecord(stages: Stages, s: PipelineState, t: PipelineState)
    requires RecordOk(stages, s) && RunningOk(stages, s.stages) && t.stages == s.stages && t.economics == s.economics
    ensures RecordOk(stages, t) && RunningOk(stages, t.stages) && Grows(s.stages, t.stages)
  {
    hide RunningOk, StageOk;
  }

  // ----- Reconciling a loaded state -----

  lemma ReconciledStage(stages: Stages, s: PipelineState, q: nat)
    requires RecordOk(stages, s) && q < |stages|
    ensures var a, b := StageAt(s.stages, stages, q), StageAt(ReconcileStages(s, Ids(stages)), stages, q);
            && b == (if a.status.StageRunning? then a.(status := StagePending, startedAt := None, finishedAt := None) else a)
            && StageOk(stages[q].id, b) && StageGrows(a, b)
  {
    KnownStage(stages, s, q);
  }

  lemma ReconciledRecord(stages: Stages, s: PipelineState, now: Time)
    requires RecordOk(stages, s)
    ensures RecordOk(stages, ReconcileState(s, Ids(stages), now)) && Grows(s.stages, ReconcileState(s, Ids(stages), now).stages)
    ensures RunningOk(stages, ReconcileStages(s, Ids(stages))) && Calm(stages, ReconcileStages(s, Ids(stages)))
  {
    var record := ReconcileStages(s, Ids(stages));
    forall id | id in record
      ensures StageOk(id, record[id]) && StageGrows(s.stages[id], record[id])
    {
      var q := PositionOf(stages, id);
      ReconciledStage(stages, s, q);
    }
    forall q | 0 <= q < |stages|
      ensures !StageAt(record, stages, q).status.StageRunning?
    {
      ReconciledStage(stages, s, q);
    }
    hide StageOk, StageGrows, TotalUsage, StageAt, ReconcileStages, Prefix;
    assert record.Keys == IdSet(stages);
  }

  lemma ReconciledApproval(stages: Stages, s: PipelineState, now: Time)
    requires RecordOk(stages, s) && ApprovalOk(stages, s)
    ensures ApprovalOk(stages, ReconcileState(s, Ids(stages), now))
  {
    hide ValidCheckpoint, ValidReceipt, HistoryMatches, IsCodeReview, HasReview, StageOk, TotalUsage, ReconcileStages, RecordOk;
    var t := ReconcileState(s, Ids(stages), now);
    forall q | 0 <= q < |stages|
      ensures IsComplete(StageAt(s.stages, stages, q).status) ==> StageAt(t.stages, stages, q) == StageAt(s.stages, stages, q)
    {
      ReconciledStage(stages, s, q);
    }
    if s.reviewCheckpoint.Some? {
      var g := StageIndex(stages, s.reviewCheckpoint.value.qualityGate.stageId);
      IdAt(stages, g);
      assert stages[g].id == s.reviewCheckpoint.value.qualityGate.stageId;
      assert s.reviewCheckpoint.value.qualityGate.stageId in t.stages;
      assert StageAt(t.stages, stages, g) == StageAt(s.stages, stages, g);
      assert GateMatchesStage(s.reviewCheckpoint.value.qualityGate, t.stages);
      assert Archive(t) == Archive(s);
      assert CheckpointOk(stages, t, s.reviewCheckpoint.value);
    }
  }

  lemma ReconcileKeepsInv(stages: Stages, s: PipelineState, now: Time)
    requires Inv(stages, s)
    ensures var t := ReconcileState(s, Ids(stages), now);
            Inv(stages, t) && StateGrows(s, t) && Calm(stages, t.stages)
  {
    hide RecordOk, ApprovalOk, ArchiveOk, RunningOk, ValidIdentity, TotalUsage, ReconcileStages, Grows, Calm;
    ReconciledRecord(stages, s, now);
    ReconciledApproval(stages, s, now);
    ArchiveSurvives(s, ReconcileState(s, Ids(stages), now));
  }

  /** A state in good order is left alone exactly when no stage runs and its header fields agree. */
  lemma ReconcileFixedPoint(stages: Stages, s: PipelineState, now: Time)
    requires Inv(stages, s) && IsTerminal(s.status) && s.currentStage.None? && s.finishedAt.Some?
    ensures ReconcileState(s, Ids(stages), now) == s <==> Calm(stages, s.stages)
  {
    hide ApprovalOk, ArchiveOk, RunningOk, HeaderOk, TotalUsage, StageOk;
    var record := ReconcileStages(s, Ids(stages));
    forall q | 0 <= q < |stages|
      ensures StageAt(record, stages, q) == StageAt(s.stages, stages, q) <==> !StageAt(s.stages, stages, q).status.StageRunning?
    {
      ReconciledStage(stages, s, q);
    }
    if Calm(stages, s.stages) {
      forall id | id in record ensures id in s.stages && record[id] == s.stages[id] {
        var q := PositionOf(stages, id);
        KnownStage(stages, s, q);
      }
      assert record == s.stages;
    }
  }
}
