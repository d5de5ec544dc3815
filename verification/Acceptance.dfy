/**
 What it means that the store accepts a state, in terms of the fields themselves: the rules in the
 order they are applied, and the first broken one as the reason of a refusal.
 */
module Acceptance {
  import opened Basics
  import opened Utf
  import opened Scopes
  import opened RunDefs
  import opened PipelineStates
  import opened Validation

  // ----- Fields -----

  ghost predicate HasText(s: string) {
    exists c :: c in s && !IsSpace(c)
  }

  ghost predicate IsNotNegative(usage: Economics) {
    0 <= usage.tokens && 0.0 <= usage.dollars
  }

  /** How many characters of a string are at or above a bound. */
  ghost function Above(s: string, bound: nat): nat {
    if s == "" then 0 else (if s[0] as int >= bound then 1 else 0) + Above(s[1..], bound)
  }

  /** UTF-8 takes one octet for every character, and one more from each of these bounds on. */
  ghost function Octets(s: string): nat {
    |s| + Above(s, 0x80) + Above(s, 0x800) + Above(s, 0x1_0000)
  }

  /** Valid paths, each once, in ascending order. */
  ghost predicate PathsInOrder(scope: RepositoryScope) {
    && (forall p :: p in scope.paths ==> ValidPath(p))
    && forall i, j :: 0 <= i < j < |scope.paths| ==> Less(scope.paths[i], scope.paths[j])
  }

  ghost predicate CheckpointInOrder(c: Checkpoint) {
    && c.version == 1
    && HasText(c.storyId) && HasText(c.runId) && HasText(c.runDefId) && HasText(c.branch)
    && c.runDefDigest != LegacyUnbound
    && |c.baseOid| == 40 && (forall x :: x in c.baseOid ==> '0' <= x <= '9' || 'a' <= x <= 'f')
    && PathsInOrder(c.reviewed)
    && HasText(c.qualityGate.stageId) && c.qualityGate.attempt >= 1 && c.qualityGate.status == Passed && HasText(c.qualityGate.finishedAt)
  }

  /** The definition is one the schema and the cross-field rules accept, and the digest is its own. */
  ghost predicate IsDefinitionOf(def: RunDef, digest: RunDefDigest) {
    && digest == Sha256(def)
    && IsName(def.id) && def.stages != [] && (forall stage :: stage in def.stages ==> FieldsInOrder(stage)) && RunDefs.WellFormed(def.stages)
  }

  /** Some entry of the stage's history is the passed attempt the gate speaks of. */
  ghost predicate IsInHistory(gate: QualityGate, stages: map<string, StageState>) {
    gate.stageId in stages
    && exists a :: a in stages[gate.stageId].history
         && a.attempt == gate.attempt && a.status == Passed && a.finishedAt == Some(gate.finishedAt)
  }

  // ----- The rules -----

  /** Every stage is filed under its own id; attempts count from one and report nothing negative. */
  ghost predicate StagesInOrder(s: PipelineState) {
    forall id :: id in s.stages ==>
      && s.stages[id].id == id
      && forall a :: a in s.stages[id].history ==>
           && a.attempt >= 1
           && (a.durationMs.Some? ==> 0.0 <= a.durationMs.value)
           && (a.usage.Some? ==> IsNotNegative(a.usage.value))
  }

  /** The checkpoint is of this story and definition, and names a passed stage at its latest attempt. */
  ghost predicate CheckpointFits(s: PipelineState) {
    s.reviewCheckpoint.Some? ==>
      var c := s.reviewCheckpoint.value;
      && CheckpointInOrder(c)
      && c.storyId == s.storyId && c.runDefId == s.runDefId && c.runDefDigest == s.runDefDigest
      && IsInHistory(c.qualityGate, s.stages)
      && s.stages[c.qualityGate.stageId].status == StagePassed
      && s.stages[c.qualityGate.stageId].attempts == c.qualityGate.attempt
      && s.stages[c.qualityGate.stageId].finishedAt == Some(c.qualityGate.finishedAt)
  }

  /** The receipt extends the active checkpoint, and no document of it is a reviewed path. */
  ghost predicate ReceiptFits(s: PipelineState) {
    s.finalScopeReceipt.Some? ==>
      var r := s.finalScopeReceipt.value;
      && s.reviewCheckpoint == Some(r.checkpoint)
      && PathsInOrder(r.docs)
      && forall p :: !(p in r.docs.paths && p in r.checkpoint.reviewed.paths)
  }

  /** The fields of one archived receipt. */
  ghost predicate RecordInOrder(record: SupersededReceipt) {
    var c := record.receipt.checkpoint;
    && record.version == 1
    && 20 <= |record.supersededAt| <= 64 && record.supersededAt[|record.supersededAt| - 1] == 'Z'
    && HasText(record.supersededByRunId) && HasText(record.resetTargetStageId)
    && HasText(record.expectedReceiptRunId) && |record.expectedReceiptRunId| <= 100
    && HasText(record.reason) && Octets(record.reason) <= 2048
    && CheckpointInOrder(c) && PathsInOrder(record.receipt.docs)
    && c.runId == record.expectedReceiptRunId
    && (record.runDefIdentity.Some? ==> IsDefinitionOf(record.runDefIdentity.value, c.runDefDigest))
  }

  /**
   Its place in the state: the same story and pipeline, the active definition or one that differs from it
   in timeouts only, and a gate that is in the history.
   */
  ghost predicate RecordMatches(s: PipelineState, record: SupersededReceipt) {
    var c := record.receipt.checkpoint;
    && c.storyId == s.storyId && c.runDefId == s.runDefId
    && (c.runDefDigest == s.runDefDigest
        || (record.runDefIdentity.Some? && s.runDefIdentity.Some?
            && exists timeouts: seq<Option<nat>> ::
                 |timeouts| == |record.runDefIdentity.value.stages| && s.runDefIdentity.value == WithTimeouts(record.runDefIdentity.value, timeouts)))
    && IsInHistory(c.qualityGate, s.stages)
  }

  ghost predicate RecordFits(s: PipelineState, record: SupersededReceipt) {
    RecordInOrder(record) && RecordMatches(s, record)
  }

  /** Archived receipts are numbered from one without gaps, and no run id is archived twice. */
  ghost predicate ArchiveFits(s: PipelineState) {
    s.superseded.Some? ==>
      var records := s.superseded.value;
      && (forall k :: 0 <= k < |records| ==> records[k].sequence == k + 1 && RecordFits(s, records[k]))
      && forall i, j :: 0 <= i < j < |records| ==> records[i].expectedReceiptRunId != records[j].expectedReceiptRunId
  }

  /** What each reason of a refusal says is missing. */
  ghost predicate Meets(s: PipelineState, rule: InvalidReason) {
    match rule
    case InvalidVersion => s.version >= 0
    case InvalidStages => StagesInOrder(s)
    case InvalidEconomics => IsNotNegative(s.economics)
    case InvalidRunDefIdentity => s.runDefIdentity.Some? ==> IsDefinitionOf(s.runDefIdentity.value, s.runDefDigest)
    case UnsupportedVersion => s.version <= 3
    case MissingFinalReceipt => s.status == Done ==> s.finalScopeReceipt != None
    case IncompatibleReceiptVersion => s.reviewCheckpoint != None || s.finalScopeReceipt != None ==> s.version in {2, 3}
    case InvalidReceiptIntegrity => CheckpointFits(s) && ReceiptFits(s)
    case CorrectionVersion => s.superseded != None ==> s.version == 3
    case InvalidSupersededReceipts => ArchiveFits(s)
  }

  /** The order in which the rules are applied. */
  function Rank(rule: InvalidReason): nat {
    match rule
    case InvalidVersion => 0
    case InvalidStages => 1
    case InvalidEconomics => 2
    case InvalidRunDefIdentity => 3
    case UnsupportedVersion => 4
    case MissingFinalReceipt => 5
    case IncompatibleReceiptVersion => 6
    case InvalidReceiptIntegrity => 7
    case CorrectionVersion => 8
    case InvalidSupersededReceipts => 9
  }

  // ----- The store applies exactly these rules -----

  lemma HasTextIsNonBlank(s: string)
    ensures NonBlank(s) <==> HasText(s)
  {
    hide IsSpace;
    if c :| c in s && !IsSpace(c) {
      var i :| 0 <= i < |s| && s[i] == c;
    }
    if i :| 0 <= i < |s| && !IsSpace(s[i]) {
      assert s[i] in s;
    }
  }

  lemma {:induction false} OctetsAreBytes(s: string)
    ensures ByteLength(s) == Octets(s)
    decreases |s|
  {
    if s != "" {
      OctetsAreBytes(s[1..]);
    }
  }

  lemma CheckpointRule(c: Checkpoint)
    ensures ValidCheckpoint(c) <==> CheckpointInOrder(c)
  {
    forall s: string ensures NonBlank(s) <==> HasText(s) {
      HasTextIsNonBlank(s);
    }
    hide NonBlank, HasText, Less, ValidPath;
  }

  lemma DefinitionRule(def: RunDef, digest: RunDefDigest)
    ensures ValidIdentity(def, digest) <==> IsDefinitionOf(def, digest)
  {
    IsRunDefIff(def);
    hide IsRunDef, IsName, FieldsInOrder, RunDefs.WellFormed;
  }

  lemma HistoryRule(gate: QualityGate, stages: map<string, StageState>)
    ensures GateMatchesHistory(gate, stages) <==> IsInHistory(gate, stages)
  {
    if IsInHistory(gate, stages) {
      var history := stages[gate.stageId].history;
      var a :| a in history && a.attempt == gate.attempt && a.status == Passed && a.finishedAt == Some(gate.finishedAt);
      var k :| 0 <= k < |history| && history[k] == a;
    }
  }

  lemma StagesRule(s: PipelineState)
    ensures ValidStages(s.stages) <==> StagesInOrder(s)
  {
  }

  lemma ApprovalRule(s: PipelineState)
    ensures ReceiptIntegrity(s) <==> CheckpointFits(s) && ReceiptFits(s)
  {
    if s.reviewCheckpoint.Some? {
      CheckpointRule(s.reviewCheckpoint.value);
      HistoryRule(s.reviewCheckpoint.value.qualityGate, s.stages);
    }
    hide ValidCheckpoint, CheckpointInOrder, HistoryMatches, ValidPath, Less;
  }

  lemma RecordFieldsRule(record: SupersededReceipt)
    ensures ValidSuperseded(record) && record.sequence >= 1 <==> RecordInOrder(record) && record.sequence >= 1
  {
    CheckpointRule(record.receipt.checkpoint);
    OctetsAreBytes(record.reason);
    HasTextIsNonBlank(record.supersededByRunId);
    HasTextIsNonBlank(record.resetTargetStageId);
    HasTextIsNonBlank(record.expectedReceiptRunId);
    HasTextIsNonBlank(record.reason);
    if record.runDefIdentity.Some? {
      DefinitionRule(record.runDefIdentity.value, record.receipt.checkpoint.runDefDigest);
    }
    hide NonBlank, HasText, ValidCheckpoint, CheckpointInOrder, ByteLength, Octets, ValidIdentity, IsDefinitionOf, ValidPath, Less;
  }

  lemma RecordMatchRule(s: PipelineState, record: SupersededReceipt)
    requires s.runDefIdentity.Some? ==> ValidIdentity(s.runDefIdentity.value, s.runDefDigest)
    requires record.runDefIdentity.Some? ==> ValidIdentity(record.runDefIdentity.value, record.receipt.checkpoint.runDefDigest)
    ensures SupersededMatchesState(record, s) <==> RecordMatches(s, record)
  {
    HistoryRule(record.receipt.checkpoint.qualityGate, s.stages);
    hide GateMatchesHistory, IsInHistory, IsRunDef, EqualExceptTimeouts, WithTimeouts;
    if record.runDefIdentity.Some? && s.runDefIdentity.Some? {
      EqualExceptTimeoutsIff(record.runDefIdentity.value, s.runDefIdentity.value);
    }
  }

  lemma RecordRule(s: PipelineState, record: SupersededReceipt)
    requires s.runDefIdentity.Some? ==> ValidIdentity(s.runDefIdentity.value, s.runDefDigest)
    ensures ValidSuperseded(record) && SupersededMatchesState(record, s) && record.sequence >= 1 <==> RecordFits(s, record) && record.sequence >= 1
  {
    RecordFieldsRule(record);
    if ValidSuperseded(record) {
      RecordIdentity(record);
      RecordMatchRule(s, record);
    }
    hide ValidSuperseded, SupersededMatchesState, RecordInOrder, RecordMatches;
  }

  lemma RecordIdentity(record: SupersededReceipt)
    requires ValidSuperseded(record)
    ensures record.runDefIdentity.Some? ==> ValidIdentity(record.runDefIdentity.value, record.receipt.checkpoint.runDefDigest)
  {
    hide ValidReceipt, ValidIdentity, BoundedReason, BoundedReceiptId, NonBlank;
  }

  lemma ArchiveRule(s: PipelineState)
    requires s.runDefIdentity.Some? ==> ValidIdentity(s.runDefIdentity.value, s.runDefDigest)
    ensures SupersededIntegrity(s) <==> ArchiveFits(s)
  {
    hide ValidSuperseded, SupersededMatchesState, RecordFits, ValidIdentity;
    forall k | 0 <= k < |Archive(s)| && Archive(s)[k].sequence == k + 1
      ensures ValidSuperseded(Archive(s)[k]) && SupersededMatchesState(Archive(s)[k], s) <==> RecordFits(s, Archive(s)[k])
    {
      RecordRule(s, Archive(s)[k]);
    }
  }

  ghost predicate MeetsBefore(s: PipelineState, rule: InvalidReason) {
    forall earlier :: Rank(earlier) < Rank(rule) ==> Meets(s, earlier)
  }

  lemma EarlierAreMet(s: PipelineState, rule: InvalidReason)
    requires MeetsBefore(s, rule)
    ensures Rank(rule) > 0 ==> Meets(s, InvalidVersion)
    ensures Rank(rule) > 1 ==> Meets(s, InvalidStages)
    ensures Rank(rule) > 2 ==> Meets(s, InvalidEconomics)
    ensures Rank(rule) > 3 ==> Meets(s, InvalidRunDefIdentity)
    ensures Rank(rule) > 4 ==> Meets(s, UnsupportedVersion)
    ensures Rank(rule) > 5 ==> Meets(s, MissingFinalReceipt)
    ensures Rank(rule) > 6 ==> Meets(s, IncompatibleReceiptVersion)
    ensures Rank(rule) > 7 ==> Meets(s, InvalidReceiptIntegrity)
    ensures Rank(rule) > 8 ==> Meets(s, CorrectionVersion)
  {
    hide Meets;
  }

  lemma EarlyRuleBroken(s: PipelineState, rule: InvalidReason)
    requires MeetsBefore(s, rule) && Rank(rule) <= 4
    ensures StateInvalidReason(s) == Some(rule) <==> !Meets(s, rule)
  {
    EarlierAreMet(s, rule);
    StagesRule(s);
    if s.runDefIdentity.Some? {
      DefinitionRule(s.runDefIdentity.value, s.runDefDigest);
    }
    hide MeetsBefore, ValidStages, StagesInOrder, ReceiptIntegrity, CheckpointFits, ReceiptFits, ValidIdentity, IsDefinitionOf,
         SupersededIntegrity, ArchiveFits;
  }

  lemma LateRuleBroken(s: PipelineState, rule: InvalidReason)
    requires MeetsBefore(s, rule) && Rank(rule) > 4
    ensures StateInvalidReason(s) == Some(rule) <==> !Meets(s, rule)
    ensures rule.InvalidSupersededReceipts? && Meets(s, rule) ==> ValidState(s)
  {
    EarlierAreMet(s, rule);
    StagesRule(s);
    ApprovalRule(s);
    if s.runDefIdentity.Some? {
      DefinitionRule(s.runDefIdentity.value, s.runDefDigest);
    }
    ArchiveRule(s);
    hide MeetsBefore, ValidStages, StagesInOrder, ReceiptIntegrity, CheckpointFits, ReceiptFits, ValidIdentity, IsDefinitionOf,
         SupersededIntegrity, ArchiveFits;
  }

  lemma RuleBroken(s: PipelineState, rule: InvalidReason)
    requires MeetsBefore(s, rule)
    ensures StateInvalidReason(s) == Some(rule) <==> !Meets(s, rule)
    ensures rule.InvalidSupersededReceipts? && Meets(s, rule) ==> ValidState(s)
  {
    hide MeetsBefore, Meets, StateInvalidReason;
    if Rank(rule) <= 4 {
      EarlyRuleBroken(s, rule);
    } else {
      LateRuleBroken(s, rule);
    }
  }

  /** For every state: the reason of a refusal is the first rule it breaks, and without one it is accepted. */
  lemma RefusedByTheFirstBrokenRule(s: PipelineState, rule: InvalidReason)
    ensures StateInvalidReason(s) == Some(rule) <==> !Meets(s, rule) && MeetsBefore(s, rule)
    decreases Rank(rule)
  {
    hide Meets, StateInvalidReason;
    if MeetsBefore(s, rule) {
      RuleBroken(s, rule);
    } else {
      var broken :| Rank(broken) < Rank(rule) && !Meets(s, broken);
      var first := FirstBroken(s, broken);
      RuleBroken(s, first);
    }
  }

  lemma FirstBroken(s: PipelineState, rule: InvalidReason) returns (first: InvalidReason)
    requires !Meets(s, rule)
    ensures !Meets(s, first) && Rank(first) <= Rank(rule) && MeetsBefore(s, first)
    decreases Rank(rule)
  {
    hide Meets;
    if MeetsBefore(s, rule) {
      first := rule;
    } else {
      var earlier :| Rank(earlier) < Rank(rule) && !Meets(s, earlier);
      first := FirstBroken(s, earlier);
    }
  }

  /** A state is accepted exactly when it meets every rule; breaking any one refuses it. */
  lemma AcceptedIffEveryRuleIsMet(s: PipelineState)
    ensures ValidState(s) <==> forall rule :: Meets(s, rule)
  {
    hide Meets, StateInvalidReason;
    if !forall rule :: Meets(s, rule) {
      var rule :| !Meets(s, rule);
      var first := FirstBroken(s, rule);
      RuleBroken(s, first);
    } else {
      RuleBroken(s, InvalidSupersededReceipts);
    }
  }
}
