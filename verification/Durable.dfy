/**
 The durable protocol: every state a run saves is the result of one event, and a crash is a run
 that stops between two of them.  `Inv` is the invariant all events keep.
 */
module Durable {
  import opened Basics
  import opened RunDefs
  import opened Scopes
  import opened PipelineStates
  import opened Routing
  import opened Transitions
  import opened Validation
  import opened Acceptance
  import opened Reconcile

  type Stages = seq<CompiledStage>

  // ----- The invariant -----

  type StageMap = map<string, StageState>

  function StageAt(record: StageMap, stages: Stages, q: nat): StageState
    requires q < |stages|
  {
    Lookup(record, stages[q].id)
  }

  /** Every stage before position `p` is passed or skipped. */
  ghost predicate Prefix(stages: Stages, record: StageMap, p: nat) {
    forall q :: 0 <= q < p && q < |stages| ==> IsComplete(StageAt(record, stages, q).status)
  }

  ghost predicate AllComplete(stages: Stages, record: StageMap) {
    Prefix(stages, record, |stages|)
  }

  ghost predicate HasReview(stages: Stages) {
    exists i :: 0 <= i < |stages| && IsCodeReview(stages[i])
  }

  /** Attempt numbers are 1..attempts, and a passed stage ends with the passed attempt it reports. */
  ghost predicate StageOk(id: string, stage: StageState) {
    && stage.id == id
    && stage.attempts == |stage.history|
    && (forall k :: 0 <= k < |stage.history| ==>
         stage.history[k].attempt == k + 1 && ValidAttempt(stage.history[k]))
    && (stage.status.StagePassed? ==>
         && stage.attempts > 0 && stage.finishedAt.Some? && NonBlank(stage.finishedAt.value)
         && var last := stage.history[|stage.history| - 1];
            last.status == Passed && last.finishedAt == stage.finishedAt)
  }

  ghost function IdSet(stages: Stages): set<string> {
    set id | id in Ids(stages)
  }

  ghost predicate RecordOk(stages: Stages, s: PipelineState) {
    && s.stages.Keys == IdSet(stages)
    && (forall id :: id in s.stages ==> StageOk(id, s.stages[id]))
    && s.economics == TotalUsage(Ids(stages), s.stages)
  }

  /** A run id that no archived receipt carries. */
  ghost predicate FreshId(s: PipelineState, runId: string) {
    forall k :: 0 <= k < |Archive(s)| ==> Archive(s)[k].expectedReceiptRunId != runId
  }

  ghost predicate CheckpointOk(stages: Stages, s: PipelineState, c: Checkpoint) {
    var g := StageIndex(stages, c.qualityGate.stageId);
    && ValidCheckpoint(c) && MatchesIdentity(c, s)
    && GateMatchesStage(c.qualityGate, s.stages)
    && g >= 0 && Prefix(stages, s.stages, g)
    && (HasReview(stages) ==> IsCodeReview(stages[g]))
    && FreshId(s, c.runId)
  }

  ghost predicate ApprovalOk(stages: Stages, s: PipelineState) {
    && (s.reviewCheckpoint.Some? ==> CheckpointOk(stages, s, s.reviewCheckpoint.value))
    && (s.finalScopeReceipt.Some? ==>
         var r := s.finalScopeReceipt.value;
         && ValidReceipt(r) && s.reviewCheckpoint == Some(r.checkpoint)
         && Disjoint(r.checkpoint.reviewed, r.docs)
         && AllComplete(stages, s.stages))
  }

  /** The stage an archived receipt names has moved on: if it is passed, by a later attempt. */
  ghost predicate MovedOn(gate: QualityGate, s: PipelineState) {
    && gate.stageId in s.stages
    && gate.attempt <= s.stages[gate.stageId].attempts
    && (s.stages[gate.stageId].status.StagePassed? ==> gate.attempt < s.stages[gate.stageId].attempts)
  }

  ghost predicate ArchiveOk(s: PipelineState) {
    && SupersededIntegrity(s)
    && forall k :: 0 <= k < |Archive(s)| ==> MovedOn(Archive(s)[k].receipt.checkpoint.qualityGate, s)
  }

  /** A running stage has a complete prefix; so at most one stage is running. */
  ghost predicate RunningOk(stages: Stages, record: StageMap) {
    forall q :: 0 <= q < |stages| && StageAt(record, stages, q).status.StageRunning? ==> Prefix(stages, record, q)
  }

  ghost predicate HeaderOk(s: PipelineState) {
    && (s.version == RECEIPT_INTRODUCED_FEATURE_VERSION || s.version == RUNNER_FEATURE_VERSION)
    && (s.superseded.Some? ==> s.version == RUNNER_FEATURE_VERSION)
    && !s.status.NeedsApproval? && !s.status.Paused?
    && (s.status.Done? ==> s.finalScopeReceipt.Some?)
    && (s.runDefIdentity.Some? ==> ValidIdentity(s.runDefIdentity.value, s.runDefDigest))
  }

  ghost predicate Inv(stages: Stages, s: PipelineState) {
    RecordOk(stages, s) && ApprovalOk(stages, s) && ArchiveOk(s) && RunningOk(stages, s.stages) && HeaderOk(s)
  }

  // ----- The invariant lies inside the validator's language -----

  lemma {:induction false} UsageIsValid(ids: seq<string>, stages: StageMap)
    requires forall id <- ids :: id in stages && StageOk(id, stages[id])
    ensures ValidUsage(TotalUsage(ids, stages))
    decreases |ids|
  {
    if ids != [] {
      var last := ids[|ids| - 1];
      UsageIsValid(ids[..|ids| - 1], stages);
      HistoryUsageIsValid(stages[last].history);
    }
  }

  lemma {:induction false} HistoryUsageIsValid(history: seq<Attempt>)
    requires forall k :: 0 <= k < |history| ==> ValidAttempt(history[k])
    ensures ValidUsage(HistoryUsage(history))
    decreases |history|
  {
    if history != [] {
      HistoryUsageIsValid(history[..|history| - 1]);
      assert ValidAttempt(history[|history| - 1]);
    }
  }

  lemma InvIsValid(stages: Stages, s: PipelineState)
    requires Inv(stages, s)
    ensures ValidState(s) && forall rule :: Meets(s, rule)
  {
    hide Inv, ValidState, Meets;
    InvPassesTheCheck(stages, s);
    AcceptedIffEveryRuleIsMet(s);
  }

  lemma InvPassesTheCheck(stages: Stages, s: PipelineState)
    requires Inv(stages, s)
    ensures ValidState(s)
  {
    UsageIsValid(Ids(stages), s.stages);
    assert ValidStages(s.stages);
  }

  lemma InitialInv(request: InitialRequest, stages: Stages)
    ensures Inv(stages, InitialState(request, stages))
  {
    hide RecordOk, InitialState, Ids;
    InitialRecord(request, stages);
    InitialRest(request, stages);
  }

  lemma InitialRecord(request: InitialRequest, stages: Stages)
    ensures RecordOk(stages, InitialState(request, stages))
  {
    hide Ids, PendingStages, TotalUsage;
    var s := InitialState(request, stages);
    NoHistoryNoUsage(Ids(stages), s.stages);
    assert s.stages.Keys == IdSet(stages);
  }

  lemma InitialRest(request: InitialRequest, stages: Stages)
    ensures var s := InitialState(request, stages);
            ApprovalOk(stages, s) && ArchiveOk(s) && RunningOk(stages, s.stages) && HeaderOk(s)
  {
    hide Ids, ValidSuperseded, SupersededMatchesState, MovedOn, CheckpointOk, ValidReceipt;
  }

  lemma {:induction false} NoHistoryNoUsage(ids: seq<string>, stages: StageMap)
    requires forall id <- ids :: id in stages && stages[id].history == []
    ensures TotalUsage(ids, stages) == NO_USAGE
    decreases |ids|
  {
    if ids != [] {
      NoHistoryNoUsage(ids[..|ids| - 1], stages);
    }
  }

  // ----- How one event may change the stage record -----

  /** Histories are extended only, and a stage that becomes passed does so by a new attempt. */
  ghost predicate StageGrows(a: StageState, b: StageState) {
    && a.history <= b.history
    && a.attempts <= b.attempts
    && (b.status.StagePassed? ==> (a.status.StagePassed? && a.attempts == b.attempts) || a.attempts < b.attempts)
  }

  ghost predicate Grows(a: StageMap, b: StageMap) {
    forall id :: id in a ==> id in b && StageGrows(a[id], b[id])
  }

  /** The archive is only appended to. */
  ghost predicate StateGrows(a: PipelineState, b: PipelineState) {
    Grows(a.stages, b.stages) && Archive(a) <= Archive(b)
  }

  /** Everything of a stage except what is carried for its next attempt. */
  ghost predicate SameCore(a: StageState, b: StageState) {
    a.id == b.id && a.status == b.status && a.attempts == b.attempts && a.startedAt == b.startedAt
    && a.finishedAt == b.finishedAt && a.history == b.history
  }

  /** The two records differ in the core of at most the stage at position `p`. */
  ghost predicate SameExceptAt(stages: Stages, a: StageMap, b: StageMap, p: nat) {
    forall q :: 0 <= q < |stages| && q != p ==> SameCore(StageAt(a, stages, q), StageAt(b, stages, q))
  }

  ghost predicate SameHeader(a: PipelineState, b: PipelineState) {
    && a.storyId == b.storyId && a.runDefId == b.runDefId && a.runDefDigest == b.runDefDigest
    && a.runDefIdentity == b.runDefIdentity && a.superseded == b.superseded
  }

  lemma HistoryMatchesGrows(a: seq<Attempt>, b: seq<Attempt>, gate: QualityGate)
    requires a <= b && HistoryMatches(a, gate)
    ensures HistoryMatches(b, gate)
  {
    var k :| 0 <= k < |a| && a[k].attempt == gate.attempt && a[k].status == Passed && a[k].finishedAt == Some(gate.finishedAt);
    assert b[k] == a[k];
  }

  lemma ArchiveSurvives(a: PipelineState, b: PipelineState)
    requires ArchiveOk(a) && SameHeader(a, b) && Grows(a.stages, b.stages)
    ensures ArchiveOk(b)
  {
    var records := Archive(a);
    forall k | 0 <= k < |records|
      ensures SupersededMatchesState(records[k], b) && MovedOn(records[k].receipt.checkpoint.qualityGate, b)
    {
      var gate := records[k].receipt.checkpoint.qualityGate;
      assert SupersededMatchesState(records[k], a) && MovedOn(gate, a);
      HistoryMatchesGrows(a.stages[gate.stageId].history, b.stages[gate.stageId].history, gate);
    }
  }

  lemma CheckpointSurvives(stages: Stages, a: PipelineState, b: PipelineState, p: nat)
    requires a.stages.Keys == b.stages.Keys && SameHeader(a, b)
    requires a.reviewCheckpoint.Some? && CheckpointOk(stages, a, a.reviewCheckpoint.value)
    requires b.reviewCheckpoint == a.reviewCheckpoint
    requires SameExceptAt(stages, a.stages, b.stages, p) && StageIndex(stages, a.reviewCheckpoint.value.qualityGate.stageId) < p
    ensures CheckpointOk(stages, b, b.reviewCheckpoint.value)
  {
    hide ValidCheckpoint, HistoryMatches, IsCodeReview, HasReview;
    var c := a.reviewCheckpoint.value;
    var g := StageIndex(stages, c.qualityGate.stageId);
    assert SameCore(StageAt(a.stages, stages, g), StageAt(b.stages, stages, g));
    forall q | 0 <= q < g ensures IsComplete(StageAt(b.stages, stages, q).status) {
      assert SameCore(StageAt(a.stages, stages, q), StageAt(b.stages, stages, q));
    }
    assert stages[g].id == c.qualityGate.stageId;
    assert GateMatchesStage(c.qualityGate, b.stages);
    assert Archive(a) == Archive(b);
  }
}
