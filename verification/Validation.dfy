/** The check every saved and every loaded state must pass, in the order the store applies it. */
module Validation {
  import opened Basics
  import opened Utf
  import opened Scopes
  import opened RunDefs
  import opened PipelineStates

  datatype InvalidReason =
    | InvalidVersion
    | InvalidStages
    | InvalidEconomics
    | InvalidRunDefIdentity
    | UnsupportedVersion
    | MissingFinalReceipt
    | IncompatibleReceiptVersion
    | InvalidReceiptIntegrity
    | CorrectionVersion
    | InvalidSupersededReceipts

  // ----- Field shapes -----

  predicate IsOid(s: string) {
    |s| == 40 && forall c <- s :: '0' <= c <= '9' || 'a' <= c <= 'f'
  }

  predicate IsIsoTimestamp(t: Time) {
    20 <= |t| <= 64 && t[|t| - 1] == 'Z'
  }

  /** Length of a string in UTF-8 octets. */
  function ByteLength(s: string): nat {
    if s == [] then 0 else |EncodeScalar(s[0] as int)| + ByteLength(s[1..])
  }

  predicate BoundedReceiptId(id: string) {
    NonBlank(id) && |id| <= EXPECTED_RECEIPT_RUN_ID_MAX_CHARS
  }

  predicate BoundedReason(reason: string) {
    NonBlank(reason) && ByteLength(reason) <= TERMINAL_RECOVERY_REASON_MAX_BYTES
  }

  predicate ValidUsage(u: Economics) {
    u.tokens >= 0 && u.dollars >= 0.0
  }

  predicate ValidAttempt(a: Attempt) {
    && a.attempt >= 1
    && (a.durationMs.Some? ==> a.durationMs.value >= 0.0)
    && (a.usage.Some? ==> ValidUsage(a.usage.value))
  }

  predicate ValidStages(stages: map<string, StageState>) {
    forall id :: id in stages ==> stages[id].id == id && forall a <- stages[id].history :: ValidAttempt(a)
  }

  ghost predicate ValidScope(scope: RepositoryScope) {
    CanonicalPaths(scope.paths)
  }

  predicate ValidQualityGate(gate: QualityGate) {
    NonBlank(gate.stageId) && gate.attempt >= 1 && gate.status == Passed && NonBlank(gate.finishedAt)
  }

  ghost predicate ValidCheckpoint(c: Checkpoint) {
    && c.version == FINAL_SCOPE_RECEIPT_VERSION
    && NonBlank(c.storyId) && NonBlank(c.runId) && NonBlank(c.runDefId) && NonBlank(c.branch)
    && c.runDefDigest.Sha256?
    && IsOid(c.baseOid)
    && ValidScope(c.reviewed)
    && ValidQualityGate(c.qualityGate)
  }

  ghost predicate ValidReceipt(r: Receipt) {
    ValidCheckpoint(r.checkpoint) && ValidScope(r.docs)
  }

  // ----- Quality gates against stage history -----

  ghost predicate HistoryMatches(history: seq<Attempt>, gate: QualityGate) {
    exists k :: 0 <= k < |history| && history[k].attempt == gate.attempt
      && history[k].status == Passed && history[k].finishedAt == Some(gate.finishedAt)
  }

  /** The gate names the stage's current, passed, latest attempt. */
  ghost predicate GateMatchesStage(gate: QualityGate, stages: map<string, StageState>) {
    && gate.stageId in stages
    && var stage := stages[gate.stageId];
       && stage.status.StagePassed?
       && stage.attempts == gate.attempt
       && stage.finishedAt == Some(gate.finishedAt)
       && HistoryMatches(stage.history, gate)
  }

  /** The gate names some passed attempt, current or not. */
  ghost predicate GateMatchesHistory(gate: QualityGate, stages: map<string, StageState>) {
    gate.stageId in stages && HistoryMatches(stages[gate.stageId].history, gate)
  }

  // ----- Root checks -----

  predicate MatchesIdentity(c: Checkpoint, s: PipelineState) {
    c.storyId == s.storyId && c.runDefId == s.runDefId && c.runDefDigest == s.runDefDigest
  }

  ghost predicate ValidIdentity(def: RunDef, digest: RunDefDigest) {
    IsRunDef(def) && ComputeDigest(def) == digest
  }

  ghost predicate ReceiptIntegrity(s: PipelineState) {
    && (s.reviewCheckpoint.Some? ==>
         var c := s.reviewCheckpoint.value;
         ValidCheckpoint(c) && MatchesIdentity(c, s) && GateMatchesStage(c.qualityGate, s.stages))
    && (s.finalScopeReceipt.Some? ==>
         var r := s.finalScopeReceipt.value;
         && ValidReceipt(r) && MatchesIdentity(r.checkpoint, s)
         && s.reviewCheckpoint == Some(r.checkpoint)
         && Disjoint(r.checkpoint.reviewed, r.docs))
  }

  ghost predicate ValidSuperseded(record: SupersededReceipt) {
    && record.version == 1 && record.sequence >= 1
    && IsIsoTimestamp(record.supersededAt)
    && NonBlank(record.supersededByRunId) && NonBlank(record.resetTargetStageId)
    && BoundedReceiptId(record.expectedReceiptRunId) && BoundedReason(record.reason)
    && ValidReceipt(record.receipt)
    && record.receipt.checkpoint.runId == record.expectedReceiptRunId
    && (record.runDefIdentity.Some? ==>
         ValidIdentity(record.runDefIdentity.value, record.receipt.checkpoint.runDefDigest))
  }

  ghost predicate UniqueReceiptIds(records: seq<SupersededReceipt>) {
    forall i, j :: 0 <= i < j < |records| ==> records[i].expectedReceiptRunId != records[j].expectedReceiptRunId
  }

  method HasUniqueExpectedReceiptRunIds(records: seq<SupersededReceipt>) returns (unique: bool)
    ensures unique <==> UniqueReceiptIds(records)
  {
    var seen: set<string> := {};
    for i := 0 to |records|
      invariant UniqueReceiptIds(records[..i])
      invariant forall id :: id in seen <==> exists j :: 0 <= j < i && records[j].expectedReceiptRunId == id
    {
      if records[i].expectedReceiptRunId in seen {
        return false;
      }
      seen := seen + {records[i].expectedReceiptRunId};
    }
    unique := true;
  }

  ghost predicate ArchivedRunDefMatches(record: SupersededReceipt, s: PipelineState) {
    || record.receipt.checkpoint.runDefDigest == s.runDefDigest
    || (record.runDefIdentity.Some? && s.runDefIdentity.Some?
        && IsRunDef(record.runDefIdentity.value) && IsRunDef(s.runDefIdentity.value)
        && EqualExceptTimeouts(record.runDefIdentity.value, s.runDefIdentity.value))
  }

  ghost predicate SupersededMatchesState(record: SupersededReceipt, s: PipelineState) {
    && record.receipt.checkpoint.storyId == s.storyId
    && record.receipt.checkpoint.runDefId == s.runDefId
    && ArchivedRunDefMatches(record, s)
    && GateMatchesHistory(record.receipt.checkpoint.qualityGate, s.stages)
  }

  ghost predicate SupersededIntegrity(s: PipelineState) {
    var records := Archive(s);
    && (forall k :: 0 <= k < |records| ==>
         ValidSuperseded(records[k]) && SupersededMatchesState(records[k], s) && records[k].sequence == k + 1)
    && UniqueReceiptIds(records)
  }

  /** The first failing check, or nothing for a valid state. */
  ghost function StateInvalidReason(s: PipelineState): Option<InvalidReason> {
    if s.version < 0 then Some(InvalidVersion)
    else if !ValidStages(s.stages) then Some(InvalidStages)
    else if !ValidUsage(s.economics) then Some(InvalidEconomics)
    else if s.runDefIdentity.Some? && !ValidIdentity(s.runDefIdentity.value, s.runDefDigest) then Some(InvalidRunDefIdentity)
    else if s.version > RUNNER_FEATURE_VERSION then Some(UnsupportedVersion)
    else if s.status.Done? && s.finalScopeReceipt.None? then Some(MissingFinalReceipt)
    else if (s.reviewCheckpoint.Some? || s.finalScopeReceipt.Some?)
            && s.version != RECEIPT_INTRODUCED_FEATURE_VERSION && s.version != RUNNER_FEATURE_VERSION
    then Some(IncompatibleReceiptVersion)
    else if !ReceiptIntegrity(s) then Some(InvalidReceiptIntegrity)
    else if s.superseded.Some? && s.version != RUNNER_FEATURE_VERSION then Some(CorrectionVersion)
    else if !SupersededIntegrity(s) then Some(InvalidSupersededReceipts)
    else None
  }

  /** A state the store accepts. */
  ghost predicate ValidState(s: PipelineState) {
    StateInvalidReason(s).None?
  }
}
