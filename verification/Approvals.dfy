/** The approval events keep the invariant: attaching, invalidating, superseding, adopting, repairing. */
module Approvals {
  import opened Basics
  import opened RunDefs
  import opened Scopes
  import opened PipelineStates
  import opened Routing
  import opened Transitions
  import opened Validation
  import opened Reconcile
  import opened Durable
  import opened Steps

  // ----- Attaching -----

  /** A passed stage's gate is found in its history. */
  lemma GateOfPassedStage(s: PipelineState, id: string, gate: QualityGate)
    requires id in s.stages && StageOk(id, s.stages[id]) && IsGateOf(gate, s.stages[id])
    ensures GateMatchesStage(gate, s.stages)
  {
    var stage := s.stages[id];
    assert stage.history[|stage.history| - 1].attempt == gate.attempt;
  }

  lemma AttachedCheckpointOk(stages: Stages, s: PipelineState, p: nat, c: Checkpoint)
    requires WellCompiled(stages) && RecordOk(stages, s) && MayAttachReview(stages, s, p, c)
    ensures CheckpointOk(stages, AttachReviewCheckpoint(s, c), c)
  {
    hide ValidCheckpoint, IsCodeReview, HistoryMatches;
    KnownStage(stages, s, p);
    StageAtItsIndex(stages, p);
    GateOfPassedStage(s, stages[p].id, c.qualityGate);
    hide RecordOk, StageOk, WellCompiled;
    assert Archive(AttachReviewCheckpoint(s, c)) == Archive(s);
    assert HasReview(stages);
  }

  lemma AttachReviewKeepsInv(stages: Stages, s: PipelineState, p: nat, c: Checkpoint)
    requires WellCompiled(stages) && Inv(stages, s) && MayAttachReview(stages, s, p, c)
    ensures Inv(stages, AttachReviewCheckpoint(s, c)) && StateGrows(s, AttachReviewCheckpoint(s, c))
  {
    hide RecordOk, ArchiveOk, RunningOk, CheckpointOk, ValidIdentity, StateGrows;
    var t := AttachReviewCheckpoint(s, c);
    AttachedCheckpointOk(stages, s, p, c);
    UnchangedStages(stages, s, t);
  }

  /** Parts of the invariant that speak only of stages, archive and identity. */
  lemma UnchangedStages(stages: Stages, s: PipelineState, t: PipelineState)
    requires RecordOk(stages, s) && ArchiveOk(s) && RunningOk(stages, s.stages)
    requires t.stages == s.stages && t.economics == s.economics && SameHeader(s, t)
    ensures RecordOk(stages, t) && ArchiveOk(t) && RunningOk(stages, t.stages) && StateGrows(s, t)
  {
    hide ArchiveOk, StageOk;
    UnchangedArchive(s, t);
    hide RunningOk, StateGrows;
  }

  lemma UnchangedArchive(s: PipelineState, t: PipelineState)
    requires ArchiveOk(s) && t.stages == s.stages && SameHeader(s, t)
    ensures ArchiveOk(t) && StateGrows(s, t)
  {
    hide ArchiveOk;
    assert Grows(s.stages, t.stages);
    ArchiveSurvives(s, t);
  }

  lemma FinalCheckpointOk(stages: Stages, s: PipelineState, r: Receipt)
    requires WellCompiled(stages) && RecordOk(stages, s) && MayAttachFinal(stages, s, r) && s.reviewCheckpoint.None?
    ensures CheckpointOk(stages, AttachFinalScopeReceipt(s, r), r.checkpoint)
  {
    hide IsCodeReview, HistoryMatches, HasReview;
    var id := LastPassed(s, Ids(stages)).value;
    var p := PositionOf(stages, id);
    KnownStage(stages, s, p);
    StageAtItsIndex(stages, p);
    GateOfPassedStage(s, id, r.checkpoint.qualityGate);
    hide RecordOk, StageOk, WellCompiled, ValidCheckpoint;
    assert Archive(AttachFinalScopeReceipt(s, r)) == Archive(s);
  }

  lemma KeptCheckpointOk(stages: Stages, s: PipelineState, t: PipelineState, c: Checkpoint)
    requires CheckpointOk(stages, s, c) && t.stages == s.stages && SameHeader(s, t)
    ensures CheckpointOk(stages, t, c)
  {
    hide ValidCheckpoint, HistoryMatches, IsCodeReview, HasReview;
    assert Archive(s) == Archive(t);
  }

  lemma AttachFinalKeepsInv(stages: Stages, s: PipelineState, r: Receipt)
    requires WellCompiled(stages) && Inv(stages, s) && MayAttachFinal(stages, s, r)
    ensures Inv(stages, AttachFinalScopeReceipt(s, r)) && StateGrows(s, AttachFinalScopeReceipt(s, r))
  {
    hide RecordOk, ArchiveOk, RunningOk, CheckpointOk, ValidIdentity, StateGrows, ValidReceipt, ValidCheckpoint, HasReview;
    var t := AttachFinalScopeReceipt(s, r);
    UnchangedStages(stages, s, t);
    if s.reviewCheckpoint.None? {
      FinalCheckpointOk(stages, s, r);
    } else {
      KeptCheckpointOk(stages, s, t, r.checkpoint);
    }
  }

  lemma FinalizeKeepsInv(stages: Stages, s: PipelineState, status: PipelineStatus, at: Time)
    requires Inv(stages, s) && MayFinalize(s, status)
    ensures Inv(stages, FinalizeState(s, status, at)) && StateGrows(s, FinalizeState(s, status, at))
  {
    hide RecordOk, ArchiveOk, RunningOk, ApprovalOk, ValidIdentity, StateGrows;
    var t := FinalizeState(s, status, at);
    UnchangedStages(stages, s, t);
    UnchangedApproval(stages, s, t);
  }

  lemma UnchangedApproval(stages: Stages, s: PipelineState, t: PipelineState)
    requires ApprovalOk(stages, s) && t.stages == s.stages && SameHeader(s, t)
    requires t.reviewCheckpoint == s.reviewCheckpoint && t.finalScopeReceipt == s.finalScopeReceipt
    ensures ApprovalOk(stages, t)
  {
    hide CheckpointOk, ValidReceipt;
    if s.reviewCheckpoint.Some? {
      KeptCheckpointOk(stages, s, t, s.reviewCheckpoint.value);
    }
  }

  // ----- Resetting a stage and everything after it -----

  /** A stage returned to pending keeps its identity and its record. */
  ghost predicate PendingAgain(a: StageState, b: StageState) {
    b.status.StagePending? && b.id == a.id && b.attempts == a.attempts && b.history == a.history
  }

  /** From position `k` on every stage is pending; before it nothing changed; histories stay. */
  ghost predicate ResetFrom(stages: Stages, s: PipelineState, t: PipelineState, k: nat) {
    && t.stages.Keys == s.stages.Keys
    && (forall q :: 0 <= q < |stages| && q < k ==> StageAt(t.stages, stages, q) == StageAt(s.stages, stages, q))
    && (forall q :: k <= q < |stages| ==> PendingAgain(StageAt(s.stages, stages, q), StageAt(t.stages, stages, q)))
    && t.reviewCheckpoint.None? && t.finalScopeReceipt.None? && t.status.Running?
  }

  lemma ResetShape(stages: Stages, s: PipelineState, k: nat, findings: Option<seq<string>>)
    requires WellCompiled(stages) && s.stages.Keys == IdSet(stages) && k < |stages| && stages[k].id in Ids(stages)
    ensures ResetFrom(stages, s, ResetStageAndDownstream(s, Ids(stages), stages[k].id, findings), k)
  {
    hide WellCompiled, IndexOf, StageAt, ResetStages, ResetOne, IdSet, Ids;
    IndexAt(stages, k);
    forall q | 0 <= q < |stages| ensures ResetAt(stages, s.stages, q, k, findings) {
      ResetStageAt(stages, s.stages, q, k, findings);
    }
    var record := ResetStages(s.stages, Ids(stages), k, findings);
    forall q | 0 <= q < |stages|
      ensures q < k ==> StageAt(record, stages, q) == StageAt(s.stages, stages, q)
      ensures q >= k ==> PendingAgain(StageAt(s.stages, stages, q), StageAt(record, stages, q))
    {
      assert ResetAt(stages, s.stages, q, k, findings);
      ResetOneShape(StageAt(s.stages, stages, q), q, k, findings);
    }
  }

  ghost predicate ResetAt(stages: Stages, record: StageMap, q: nat, k: nat, findings: Option<seq<string>>)
    requires q < |stages|
  {
    StageAt(ResetStages(record, Ids(stages), k, findings), stages, q) == ResetOne(StageAt(record, stages, q), q, k, findings)
  }

  lemma ResetStageAt(stages: Stages, record: StageMap, q: nat, k: nat, findings: Option<seq<string>>)
    requires WellCompiled(stages) && record.Keys == IdSet(stages) && q < |stages|
    ensures ResetAt(stages, record, q, k, findings)
  {
    hide WellCompiled, IndexOf, ResetStages, ResetOne;
    IndexAt(stages, q);
    IdAt(stages, q);
    assert stages[q].id in record;
  }

  lemma ResetOneShape(stage: StageState, q: int, k: int, findings: Option<seq<string>>)
    ensures q < k ==> ResetOne(stage, q, k, findings) == stage
    ensures q >= k ==> PendingAgain(stage, ResetOne(stage, q, k, findings))
  {
  }

  lemma IndexAt(stages: Stages, q: nat)
    requires WellCompiled(stages) && q < |stages|
    ensures IndexOf(Ids(stages), stages[q].id) == q
  {
    IdAt(stages, q);
    var i := IndexOf(Ids(stages), stages[q].id);
    assert stages[i].id == stages[q].id;
  }

  lemma ResetKeepsRecord(stages: Stages, s: PipelineState, t: PipelineState, k: nat)
    requires RecordOk(stages, s) && ResetFrom(stages, s, t, k) && t.economics == s.economics
    ensures RecordOk(stages, t) && Grows(s.stages, t.stages)
  {
    forall id | id in s.stages
      ensures StageOk(id, t.stages[id]) && StageGrows(s.stages[id], t.stages[id])
      ensures t.stages[id].history == s.stages[id].history
    {
      var q := PositionOf(stages, id);
      if q >= k {
        assert StageAt(t.stages, stages, q).history == StageAt(s.stages, stages, q).history;
      }
    }
    SameHistoriesSameUsage(Ids(stages), s.stages, t.stages);
  }

  lemma ResetKeepsRunning(stages: Stages, s: PipelineState, t: PipelineState, k: nat)
    requires RunningOk(stages, s.stages) && ResetFrom(stages, s, t, k)
    ensures RunningOk(stages, t.stages)
  {
  }

  lemma ResetKeepsInv(stages: Stages, s: PipelineState, t: PipelineState, k: nat)
    requires Inv(stages, s) && ResetFrom(stages, s, t, k)
    requires t.economics == s.economics && SameHeader(s, t) && t.version == s.version
    ensures Inv(stages, t) && StateGrows(s, t)
  {
    ResetKeepsRecord(stages, s, t, k);
    ResetKeepsRunning(stages, s, t, k);
    ArchiveSurvives(s, t);
    hide RecordOk, RunningOk, ArchiveOk, ValidIdentity, ResetFrom, Grows, CheckpointOk;
    assert t.reviewCheckpoint.None? && t.finalScopeReceipt.None? && t.status.Running?;
  }

  /** Where the loop stands after a reset. */
  lemma ResetPosition(stages: Stages, s: PipelineState, t: PipelineState, k: nat)
    requires ResetFrom(stages, s, t, k) && k < |stages| && Prefix(stages, s.stages, k) && Calm(stages, s.stages)
    ensures AtPosition(stages, t, k) && Calm(stages, t.stages)
  {
  }

  lemma InvalidateKeepsInv(stages: Stages, s: PipelineState)
    requires WellCompiled(stages) && Inv(stages, s) && AllComplete(stages, s.stages) && s.reviewCheckpoint.Some?
    requires s.reviewCheckpoint.value.qualityGate.stageId in Ids(stages)
    ensures var t := InvalidateReviewApproval(s, Ids(stages), s.reviewCheckpoint.value.qualityGate.stageId);
            var k := StageIndex(stages, s.reviewCheckpoint.value.qualityGate.stageId);
            && Inv(stages, t) && StateGrows(s, t) && t.regressions == s.regressions + 1
            && 0 <= k < |stages| && ResetFrom(stages, s, t, k) && AtPosition(stages, t, k) && Calm(stages, t.stages)
  {
    hide StateGrows, ResetFrom, AtPosition, Calm, AllComplete, Prefix, RecordOk, ApprovalOk, InvalidateReviewApproval, WellCompiled;
    var id := s.reviewCheckpoint.value.qualityGate.stageId;
    var k := StageIndex(stages, id);
    var t := InvalidateReviewApproval(s, Ids(stages), id);
    ReviewPosition(stages, s);
    assert stages[k].id == id;
    InvalidateShape(stages, s, k);
    InvalidateFields(s, Ids(stages), id);
    AllCompleteIsCalm(stages, s.stages);
    hide Inv;
    ResetKeepsInv(stages, s, t, k);
    ResetPosition(stages, s, t, k);
  }

  lemma ReviewPosition(stages: Stages, s: PipelineState)
    requires RecordOk(stages, s) && ApprovalOk(stages, s) && s.reviewCheckpoint.Some?
    ensures var k := StageIndex(stages, s.reviewCheckpoint.value.qualityGate.stageId);
            0 <= k < |stages| && Prefix(stages, s.stages, k) && s.stages.Keys == IdSet(stages)
  {
    hide StageOk, ValidCheckpoint, GateMatchesStage, IsCodeReview, HasReview, FreshId, IdSet, TotalUsage;
  }

  lemma InvalidateFields(s: PipelineState, ids: seq<string>, id: string)
    requires id in ids
    ensures var t := InvalidateReviewApproval(s, ids, id);
            t.economics == s.economics && SameHeader(s, t) && t.version == s.version && t.regressions == s.regressions + 1
  {
  }

  lemma InvalidateShape(stages: Stages, s: PipelineState, k: nat)
    requires WellCompiled(stages) && s.stages.Keys == IdSet(stages) && k < |stages| && stages[k].id in Ids(stages)
    ensures ResetFrom(stages, s, InvalidateReviewApproval(s, Ids(stages), stages[k].id), k)
  {
    hide ResetFrom, WellCompiled, IdSet, ResetStageAndDownstream;
    var u := s.(regressions := s.regressions + 1);
    ResetShape(stages, u, k, None);
    ResetIgnoresCounter(stages, s, u, InvalidateReviewApproval(s, Ids(stages), stages[k].id), k);
  }

  lemma ResetIgnoresCounter(stages: Stages, s: PipelineState, u: PipelineState, t: PipelineState, k: nat)
    requires u.stages == s.stages && ResetFrom(stages, u, t, k)
    ensures ResetFrom(stages, s, t, k)
  {
  }

  lemma AllCompleteIsCalm(stages: Stages, record: StageMap)
    requires AllComplete(stages, record)
    ensures Calm(stages, record)
  {
  }
}
