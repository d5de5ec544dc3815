/**
 States of versions before receipts existed.  A passed review of such a state carries no scope, so it
 is done again; and attaching a receipt to such a state is possible only while it is not terminal.
 */
module Legacy {
  import opened Basics
  import opened Scopes
  import opened RunDefs
  import opened PipelineStates
  import opened Routing
  import opened Transitions
  import opened Validation
  import opened Durable
  import opened Approvals

  /** Older than receipts, still going, and without an approval. */
  predicate IsLegacyInProgress(s: PipelineState) {
    && s.version < RECEIPT_INTRODUCED_FEATURE_VERSION && !IsTerminal(s.status)
    && s.reviewCheckpoint.None? && s.finalScopeReceipt.None?
  }

  /** The first passed code review of a recoverable legacy state; `valid` is the store's verdict on it. */
  function LegacyPassedReview(stages: Stages, s: PipelineState, valid: bool): Option<nat> {
    var passed := PassedReviews(s, stages, |stages|);
    if !valid || !IsLegacyInProgress(s) || passed == [] then None else Some(passed[0])
  }

  /** Clears approval and returns the review and everything behind it to pending. */
  function ResetReviewAndDownstream(s: PipelineState, ids: seq<string>, reviewStageId: string): PipelineState
    requires reviewStageId in ids
  {
    ResetStageAndDownstream(s, ids, reviewStageId, None)
  }

  lemma FirstPassedReview(stages: Stages, s: PipelineState, valid: bool, p: nat)
    requires LegacyPassedReview(stages, s, valid) == Some(p)
    ensures p < |stages| && IsPassedReview(s, stages, p)
    ensures forall q: nat :: q < p ==> !IsPassedReview(s, stages, q)
  {
    var passed := PassedReviews(s, stages, |stages|);
    PassedReviewsAscend(s, stages, |stages|);
    assert passed[0] in passed;
    assert forall x <- passed :: passed[0] <= x;
  }

  /** When a legacy review is reset: the first passed code review of a valid state from before receipts, still going and not approved. */
  lemma LegacyReviewIff(stages: Stages, s: PipelineState, valid: bool, p: nat)
    ensures LegacyPassedReview(stages, s, valid) == Some(p) <==>
      && valid && s.version < 2 && s.status in {Pending, Running} && s.reviewCheckpoint == None && s.finalScopeReceipt == None
      && p < |stages| && IsPassedReview(s, stages, p) && forall q: nat :: q < p ==> !IsPassedReview(s, stages, q)
  {
    var passed := PassedReviews(s, stages, |stages|);
    PassedReviewsAscend(s, stages, |stages|);
    assert forall q: nat :: q in passed <==> q < |stages| && IsPassedReview(s, stages, q);
    hide PassedReviews, IsPassedReview;
    if passed != [] {
      assert passed[0] in passed;
      forall q | q in passed ensures passed[0] <= q {
        var i :| 0 <= i < |passed| && passed[i] == q;
      }
    }
  }

  /**
   The reset of a legacy review returns it and everything behind it to pending, keeps all histories and
   everything before it, is taken at most once, and lets every later approval be attached at the
   current version.
   */
  lemma LegacyReviewIsRedone(stages: Stages, s: PipelineState, valid: bool, p: nat, again: bool)
    requires WellCompiled(stages) && s.stages.Keys == IdSet(stages) && s.version >= 0
    requires LegacyPassedReview(stages, s, valid) == Some(p)
    ensures p < |stages| && stages[p].id in Ids(stages)
    ensures var t := ResetReviewAndDownstream(s, Ids(stages), stages[p].id);
      && ResetFrom(stages, s, t, p) && t.regressions == s.regressions && t.economics == s.economics
      && LegacyPassedReview(stages, t, again).None?
      && AttachmentVersion(t) == RUNNER_FEATURE_VERSION
  {
    hide WellCompiled, IsPassedReview, IdSet, ResetStages, ResetFrom, PassedReviews;
    FirstPassedReview(stages, s, valid, p);
    assert Ids(stages)[p] == stages[p].id;
    ResetShape(stages, s, p, None);
    var t := ResetReviewAndDownstream(s, Ids(stages), stages[p].id);
    hide Ids;
    forall q: nat | q < |stages| ensures !IsPassedReview(t, stages, q) {
      NotPassedAfterReset(stages, s, t, p, q);
    }
    NoPassedReviews(stages, t);
  }

  lemma NotPassedAfterReset(stages: Stages, s: PipelineState, t: PipelineState, p: nat, q: nat)
    requires ResetFrom(stages, s, t, p) && q < |stages| && (q < p ==> !IsPassedReview(s, stages, q))
    ensures !IsPassedReview(t, stages, q)
  {
    hide IsCodeReview;
    if q >= p {
      assert PendingAgain(StageAt(s.stages, stages, q), StageAt(t.stages, stages, q));
    } else {
      assert StageAt(t.stages, stages, q) == StageAt(s.stages, stages, q);
    }
  }

  lemma NoPassedReviews(stages: Stages, s: PipelineState)
    requires forall q: nat :: q < |stages| ==> !IsPassedReview(s, stages, q)
    ensures PassedReviews(s, stages, |stages|) == []
  {
    var passed := PassedReviews(s, stages, |stages|);
    if passed != [] {
      assert passed[0] in passed && IsPassedReview(s, stages, passed[0]);
    }
  }

  /** The states of this runner are never reset this way. */
  lemma NoLegacyReview(stages: Stages, s: PipelineState, valid: bool)
    requires Inv(stages, s)
    ensures LegacyPassedReview(stages, s, valid).None?
  {
    hide RecordOk, ApprovalOk, ArchiveOk, RunningOk;
  }

  /** An approval attached to a valid state without one is accepted by its version exactly in these cases. */
  lemma AttachmentIsCompatibleIff(s: PipelineState)
    requires ValidState(s) && s.reviewCheckpoint.None? && s.finalScopeReceipt.None?
    ensures AttachmentVersion(s) == RECEIPT_INTRODUCED_FEATURE_VERSION || AttachmentVersion(s) == RUNNER_FEATURE_VERSION
            <==> s.version >= RECEIPT_INTRODUCED_FEATURE_VERSION || s.status.Pending? || s.status.Running?
  {
  }

  /** Otherwise the store refuses the state: a terminal legacy state is not raised to a version with receipts. */
  lemma TerminalLegacyAttachmentIsRefused(s: PipelineState, c: Checkpoint)
    requires ValidState(s) && s.reviewCheckpoint.None? && s.finalScopeReceipt.None?
    requires s.version < RECEIPT_INTRODUCED_FEATURE_VERSION && !s.status.Pending? && !s.status.Running?
    ensures StateInvalidReason(AttachReviewCheckpoint(s, c)) == Some(IncompatibleReceiptVersion)
  {
    hide ReceiptIntegrity, SupersededIntegrity, ValidIdentity, ValidStages, ValidUsage;
  }
}
