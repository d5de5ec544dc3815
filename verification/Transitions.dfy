/** The pure state transitions of the runner: each returns a new durable state. */
module Transitions {
  import opened Basics
  import opened RunDefs
  import opened PipelineStates
  import opened Routing

  function WithStage(s: PipelineState, stage: StageState): PipelineState {
    s.(stages := s.stages[stage.id := stage])
  }

  function WithoutApproval(s: PipelineState): PipelineState {
    s.(reviewCheckpoint := None, finalScopeReceipt := None)
  }

  /** Marks a stage and the pipeline running; carried findings and handoff stay. */
  function MarkStageRunning(s: PipelineState, id: string, at: Time): PipelineState {
    WithStage(
      s.(status := Running, currentStage := Some(id), startedAt := if s.startedAt.Some? then s.startedAt else Some(at)),
      StageOf(s, id).(id := id, status := StageRunning, startedAt := Some(at), finishedAt := None))
  }

  /** Usage is added to the aggregate only when it was reported. */
  function AccumulateEconomics(total: Economics, usage: Option<Economics>): Economics {
    if usage.None? then total else Plus(total, usage.value)
  }

  datatype Outcome = Outcome(
    stageId: string,
    attempt: nat,
    decision: Decision,
    execution: Execution,
    route: Route,
    finishedAt: Time)

  function BuildAttempt(previous: StageState, o: Outcome): Attempt {
    Attempt(o.attempt, o.decision.kind, previous.startedAt, Some(o.finishedAt), Some(o.execution.durationMs),
            o.execution.exitCode, o.execution.parseError, o.decision.findings, o.execution.usage)
  }

  function BuildFinishedStage(previous: StageState, o: Outcome): StageState {
    StageState(o.stageId, if o.decision.passed then StagePassed else StageFailed, o.attempt, previous.startedAt,
               Some(o.finishedAt), previous.history + [BuildAttempt(previous, o)], None, None)
  }

  /** Context handed to the routed successor, made from the child's output. */
  function HandoffOf(e: Execution): Option<string> {
    if e.output.None? then None else e.output.value.handoff
  }

  /** Folds a settled attempt into the state; a regression resets its target and drops approval. */
  function ApplyStageOutcome(s: PipelineState, o: Outcome): PipelineState {
    var base := WithStage(
      s.(regressions := o.route.regressions, economics := AccumulateEconomics(s.economics, o.execution.usage)),
      BuildFinishedStage(StageOf(s, o.stageId), o));
    match o.route.action
    case Regress(target) => ResetRegressionTarget(base, target, o.decision.findings, HandoffOf(o.execution))
    case Continue(next) => WithStage(base, StageOf(base, next).(upstreamHandoff := HandoffOf(o.execution)))
    case Complete => base
    case Fail(_) => base
  }

  function ResetRegressionTarget(s: PipelineState, target: string, findings: Option<seq<string>>, handoff: Option<string>): PipelineState {
    var previous := StageOf(s, target);
    WithStage(WithoutApproval(s),
              StageState(target, StagePending, previous.attempts, None, None, previous.history, findings, handoff))
  }

  /** Folds an executor failure into the state as a failed attempt without usage. */
  function ApplyExecutorError(s: PipelineState, id: string, attempt: nat, at: Time): PipelineState {
    var previous := StageOf(s, id);
    var entry := Attempt(attempt, AttemptFailed, previous.startedAt, Some(at), None, None, None, None, None);
    WithStage(s, StageState(id, StageFailed, attempt, previous.startedAt, Some(at), previous.history + [entry], None, None))
  }

  /** Older nonterminal states without approval are raised to the current version on attachment. */
  function AttachmentVersion(s: PipelineState): int {
    if (s.status.Pending? || s.status.Running?) && 0 <= s.version < RUNNER_FEATURE_VERSION
       && s.reviewCheckpoint.None? && s.finalScopeReceipt.None?
    then RUNNER_FEATURE_VERSION
    else s.version
  }

  function AttachReviewCheckpoint(s: PipelineState, checkpoint: Checkpoint): PipelineState {
    s.(finalScopeReceipt := None, version := AttachmentVersion(s), reviewCheckpoint := Some(checkpoint))
  }

  function AttachFinalScopeReceipt(s: PipelineState, receipt: Receipt): PipelineState {
    s.(version := AttachmentVersion(s),
       reviewCheckpoint := if s.reviewCheckpoint.Some? then s.reviewCheckpoint else Some(receipt.checkpoint),
       finalScopeReceipt := Some(receipt))
  }

  function FinalizeState(s: PipelineState, status: PipelineStatus, at: Time): PipelineState
    requires status.Done? ==> s.finalScopeReceipt.Some?
  {
    s.(status := status, currentStage := None, finishedAt := Some(at),
       startedAt := if s.startedAt.Some? then s.startedAt else Some(at))
  }

  /** Clears approval and returns one stage and everything after it to pending. */
  function ResetStageAndDownstream(s: PipelineState, ids: seq<string>, target: string, findings: Option<seq<string>>): PipelineState
    requires target in ids
  {
    WithoutApproval(s).(status := Running, currentStage := None, finishedAt := None,
                        stages := ResetStages(s.stages, ids, IndexOf(ids, target), findings))
  }

  function ResetStages(record: map<string, StageState>, ids: seq<string>, resetIndex: int, findings: Option<seq<string>>)
    : (r: map<string, StageState>)
    ensures r.Keys == record.Keys
    ensures forall id :: id in record ==> r[id] == ResetOne(record[id], IndexOf(ids, id), resetIndex, findings)
  {
    map id | id in record :: ResetOne(record[id], IndexOf(ids, id), resetIndex, findings)
  }

  function ResetOne(stage: StageState, index: int, resetIndex: int, findings: Option<seq<string>>): StageState {
    if index < resetIndex then stage
    else StageState(stage.id, StagePending, stage.attempts, None, None, stage.history,
                    if index == resetIndex then findings else None, None)
  }

  datatype Correction = Correction(
    kind: RecoveryKind,
    expectedReceiptRunId: string,
    reason: string,
    resetTargetStageId: string,
    supersededAt: Time,
    supersededByRunId: string)

  function ArchiveRecord(s: PipelineState, c: Correction): SupersededReceipt
    requires s.finalScopeReceipt.Some?
  {
    SupersededReceipt(1, |Archive(s)| + 1, c.kind, c.supersededAt, c.supersededByRunId, c.expectedReceiptRunId,
                      c.reason, c.resetTargetStageId, s.finalScopeReceipt.value, s.runDefIdentity)
  }

  /** Archives the active receipt and resets the recovery target, in one transition. */
  function ApplyTerminalCorrection(s: PipelineState, ids: seq<string>, c: Correction): PipelineState
    requires s.finalScopeReceipt.Some? && s.finalScopeReceipt.value.checkpoint.runId == c.expectedReceiptRunId
    requires c.resetTargetStageId in ids
  {
    ResetStageAndDownstream(s, ids, c.resetTargetStageId, Some([c.reason]))
      .(version := RUNNER_FEATURE_VERSION, superseded := Some(Archive(s) + [ArchiveRecord(s, c)]))
  }

  /** Clears stale approval, consumes one regression, and returns review and downstream to pending. */
  function InvalidateReviewApproval(s: PipelineState, ids: seq<string>, reviewStageId: string): PipelineState
    requires reviewStageId in ids
  {
    ResetStageAndDownstream(s.(regressions := s.regressions + 1), ids, reviewStageId, None)
  }

  // ----- Quality gates and the recovery target -----

  predicate IsCodeReview(stage: CompiledStage) {
    stage.AgentStage? && stage.payloadGateName.Some? && StartsWith(stage.payloadGateName.value, "code-review")
  }

  /** The last passed stage in record order; the record holds the stages in compiled order. */
  function LastPassed(s: PipelineState, ids: seq<string>): (r: Option<string>)
    ensures r.Some? ==> r.value in ids && StageOf(s, r.value).status.StagePassed?
    ensures r.None? ==> forall id <- ids :: !StageOf(s, id).status.StagePassed?
  {
    if ids == [] then None
    else if StageOf(s, ids[|ids| - 1]).status.StagePassed? then Some(ids[|ids| - 1])
    else LastPassed(s, ids[..|ids| - 1])
  }

  predicate IsPassed(s: PipelineState, id: string) {
    StageOf(s, id).status.StagePassed?
  }

  /** The result is the one passed id behind which no other id is passed, and nothing when there is none. */
  lemma {:induction false} LastPassedIsLast(s: PipelineState, ids: seq<string>, id: string)
    ensures LastPassed(s, ids) == Some(id) <==>
      exists i :: 0 <= i < |ids| && ids[i] == id && IsPassed(s, id) && forall j :: i < j < |ids| ==> !IsPassed(s, ids[j])
    ensures LastPassed(s, ids).None? <==> forall i :: 0 <= i < |ids| ==> !IsPassed(s, ids[i])
    decreases |ids|
  {
    if ids != [] {
      var n := |ids| - 1;
      if !IsPassed(s, ids[n]) {
        var front := ids[..n];
        LastPassedIsLast(s, front, id);
        assert forall i :: 0 <= i < n ==> front[i] == ids[i];
        if i :| 0 <= i < n && front[i] == id && IsPassed(s, id) && forall j :: i < j < n ==> !IsPassed(s, front[j]) {
          assert forall j :: i < j < |ids| ==> !IsPassed(s, ids[j]);
        }
        if i :| 0 <= i < |ids| && ids[i] == id && IsPassed(s, id) && forall j :: i < j < |ids| ==> !IsPassed(s, ids[j]) {
          assert i < n && forall j :: i < j < n ==> !IsPassed(s, front[j]);
        }
      }
    }
  }

  const EPOCH := "1970-01-01T00:00:00.000Z"

  function FinalQualityGate(s: PipelineState, ids: seq<string>): Option<QualityGate> {
    if s.reviewCheckpoint.Some? then Some(s.reviewCheckpoint.value.qualityGate)
    else
      match LastPassed(s, ids)
      case None => None
      case Some(id) =>
        var stage := StageOf(s, id);
        Some(QualityGate(id, if stage.attempts < 1 then 1 else stage.attempts, Passed,
                         if stage.finishedAt.Some? then stage.finishedAt.value
                         else if s.startedAt.Some? then s.startedAt.value else EPOCH))
  }

  /** The positions of review stages that are durably passed, in order. */
  function PassedReviews(s: PipelineState, stages: seq<CompiledStage>, n: nat): (r: seq<nat>)
    requires n <= |stages|
    ensures forall p: nat :: p in r <==> p < n && IsCodeReview(stages[p]) && StageOf(s, stages[p].id).status.StagePassed?
  {
    if n == 0 then []
    else
      var here := IsCodeReview(stages[n - 1]) && StageOf(s, stages[n - 1].id).status.StagePassed?;
      PassedReviews(s, stages, n - 1) + (if here then [n - 1] else [])
  }

  /** The one passed review with a complete identity; ambiguity gives nothing. */
  function PassedReviewPosition(s: PipelineState, stages: seq<CompiledStage>): (r: Option<nat>)
    ensures r.Some? ==>
      && r.value < |stages| && IsCodeReview(stages[r.value])
      && var stage := StageOf(s, stages[r.value].id);
         stage.status.StagePassed? && stage.attempts > 0 && stage.finishedAt.Some?
  {
    var passed := PassedReviews(s, stages, |stages|);
    if |passed| != 1 then None
    else
      assert passed[0] in passed;
      var stage := StageOf(s, stages[passed[0]].id);
      if stage.attempts > 0 && stage.finishedAt.Some? then Some(passed[0]) else None
  }

  /** A code review that is durably passed. */
  predicate IsPassedReview(s: PipelineState, stages: seq<CompiledStage>, p: nat)
    requires p < |stages|
  {
    IsCodeReview(stages[p]) && IsPassed(s, stages[p].id)
  }

  lemma {:induction false} PassedReviewsAscend(s: PipelineState, stages: seq<CompiledStage>, n: nat)
    requires n <= |stages|
    ensures Ascends(PassedReviews(s, stages, n))
    decreases n
  {
    if n > 0 {
      PassedReviewsAscend(s, stages, n - 1);
      var front, r := PassedReviews(s, stages, n - 1), PassedReviews(s, stages, n);
      assert r == front || r == front + [n - 1];
      assert forall p <- front :: p < n - 1;
      forall i, j | 0 <= i < j < |r| ensures r[i] < r[j] {
        assert r[i] == front[i] && front[i] in front;
        assert j < |front| ==> r[j] == front[j];
      }
    }
  }

  ghost predicate Ascends(positions: seq<nat>) {
    forall i, j :: 0 <= i < j < |positions| ==> positions[i] < positions[j]
  }

  /** A position is given exactly for the only passed code review, and only with a complete identity. */
  lemma PassedReviewIsTheOnlyOne(s: PipelineState, stages: seq<CompiledStage>, p: nat)
    ensures PassedReviewPosition(s, stages) == Some(p) <==>
      && p < |stages| && IsPassedReview(s, stages, p)
      && (forall q: nat :: q < |stages| && IsPassedReview(s, stages, q) ==> q == p)
      && StageOf(s, stages[p].id).attempts > 0 && StageOf(s, stages[p].id).finishedAt.Some?
  {
    var r := PassedReviews(s, stages, |stages|);
    PassedReviewsAscend(s, stages, |stages|);
    OnlyMember(r, p);
    assert forall q: nat :: q in r <==> q < |stages| && IsPassedReview(s, stages, q);
    hide PassedReviews, Ascends, IsPassedReview, StageOf;
  }

  lemma OnlyMember(positions: seq<nat>, p: nat)
    requires Ascends(positions)
    ensures |positions| == 1 && positions[0] == p <==> p in positions && forall q: nat :: q in positions ==> q == p
  {
    assert |positions| > 0 ==> positions[0] in positions;
    assert |positions| > 1 ==> positions[1] in positions && positions[0] < positions[1];
  }

  function InferResetTarget(stages: seq<CompiledStage>, receipt: Receipt): (r: Option<string>)
    ensures r.Some? ==> exists i :: 0 <= i < |stages| && stages[i].id == r.value
  {
    match FindStage(stages, receipt.checkpoint.qualityGate.stageId)
    case None => None
    case Some(review) =>
      if !IsCodeReview(review) || review.onFail.None? then None
      else
        match FindStage(stages, review.onFail.value)
        case None => None
        case Some(target) => if target.index < review.index then Some(target.id) else None
  }

  /** A target is inferred exactly when the named stage is a code review whose `onFail` is an earlier stage. */
  lemma TargetInferredIff(stages: seq<CompiledStage>, receipt: Receipt, id: string)
    requires WellCompiled(stages)
    ensures InferResetTarget(stages, receipt) == Some(id) <==>
      exists k, g :: 0 <= k < g < |stages| && stages[k].id == id && stages[g].id == receipt.checkpoint.qualityGate.stageId
        && IsCodeReview(stages[g]) && stages[g].onFail == Some(id)
  {
    hide IsCodeReview;
    var gate := receipt.checkpoint.qualityGate.stageId;
    if InferResetTarget(stages, receipt) == Some(id) {
      var g := StageIndex(stages, gate);
      var k := StageIndex(stages, stages[g].onFail.value);
      assert stages[k].index == k && stages[g].index == g;
    }
    if k, g :| 0 <= k < g < |stages| && stages[k].id == id && stages[g].id == gate && IsCodeReview(stages[g]) && stages[g].onFail == Some(id) {
      StageAtItsIndex(stages, k);
      StageAtItsIndex(stages, g);
    }
  }

  /** First position whose stage is neither passed nor skipped, or the number of stages. */
  function FirstIncomplete(s: PipelineState, stages: seq<CompiledStage>): (p: nat)
    ensures p <= |stages|
    ensures forall q :: 0 <= q < p ==> IsComplete(StageOf(s, stages[q].id).status)
    ensures p < |stages| ==> !IsComplete(StageOf(s, stages[p].id).status)
  {
    FirstIncompleteFrom(s, stages, 0)
  }

  /** The one position before which every stage is passed or skipped, and at which none is. */
  lemma FirstIncompleteIff(s: PipelineState, stages: seq<CompiledStage>, p: nat)
    ensures FirstIncomplete(s, stages) == p <==>
      && p <= |stages|
      && (forall q :: 0 <= q < p ==> StageOf(s, stages[q].id).status in {StagePassed, StageSkipped})
      && (p < |stages| ==> StageOf(s, stages[p].id).status !in {StagePassed, StageSkipped})
  {
    var first := FirstIncomplete(s, stages);
    hide StageOf, FirstIncomplete;
    assert p < first ==> IsComplete(StageOf(s, stages[p].id).status);
  }

  function FirstIncompleteFrom(s: PipelineState, stages: seq<CompiledStage>, i: nat): (p: nat)
    requires i <= |stages|
    ensures i <= p <= |stages|
    ensures forall q :: i <= q < p ==> IsComplete(StageOf(s, stages[q].id).status)
    ensures p < |stages| ==> !IsComplete(StageOf(s, stages[p].id).status)
    decreases |stages| - i
  {
    if i == |stages| || !IsComplete(StageOf(s, stages[i].id).status) then i
    else FirstIncompleteFrom(s, stages, i + 1)
  }
}
