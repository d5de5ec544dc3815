/**
 How each step of a run concludes, in terms of the answers of the executor, the attestor, the abort
 signal and the budget, and which answers make a run end failed or done.
 */
module Outcomes {
  import opened Basics
  import opened RunDefs
  import opened Scopes
  import opened PipelineStates
  import opened Routing
  import opened Transitions
  import opened Validation
  import opened Reconcile
  import opened Attestation
  import opened Durable
  import opened Steps
  import opened Effects
  import opened Runner

  // ----- A stage -----

  /** The attestation names this story and definition, and the run it was requested for. */
  ghost predicate IsFor(c: Checkpoint, storyId: string, runId: string, s: PipelineState) {
    c.storyId == storyId && c.runId == runId && c.runDefId == s.runDefId && c.runDefDigest == s.runDefDigest
  }

  /** What the attestor says of a passed review, when it is about this run; anything else is a refusal. */
  ghost predicate Confirms(run: RunContext, t: nat, s: PipelineState, gate: QualityGate, c: Checkpoint) {
    && run.env.attest(t, ReviewRequest(Identity(run.storyId, run.runId, s.runDefId, s.runDefDigest), gate)) == ReviewCheckpointed(c)
    && IsFor(c, run.storyId, run.runId, s)
  }

  lemma AcceptedIffConfirmed(run: RunContext, t: nat, s: PipelineState, gate: QualityGate, c: Checkpoint)
    ensures run.Accepted(t, s, gate) == Some(c) <==> Confirms(run, t, s, gate, c)
  {
  }

  /** An agent whose payload gate is one of the code-review gates. */
  ghost predicate ReviewsCode(stage: CompiledStage) {
    stage.AgentStage? && exists kind: string :: stage.payloadGateName == Some("code-review" + kind)
  }

  lemma CodeReviewIff(stage: CompiledStage)
    ensures IsCodeReview(stage) <==> ReviewsCode(stage)
  {
    if IsCodeReview(stage) {
      var name := stage.payloadGateName.value;
      assert name == "code-review" + name[|"code-review"|..];
    }
  }

  /** What a step concludes after an attempt, when the review of a passed code review stands. */
  ghost predicate ConcludesAs(run: RunContext, s: PipelineState, p: nat, e: Execution, overBudget: bool, step: Step)
    requires p < |run.stages|
  {
    if e.aborted || overBudget then step == Ended(RunNeedsAttention)
    else if Accepts(run.stages[p], e) then step == Advance(if p + 1 < |run.stages| then Some(run.stages[p + 1]) else None)
    else if Regresses(run.stages, s, p, e, run.maxRegressions) then
      step.Advance? && step.next.Some? && step.next.value in run.stages && Some(step.next.value.id) == run.stages[p].onFail
    else step == Ended(RunFailed)
  }

  /** The gate that is attested for a passed attempt. */
  ghost function GateOf(run: RunContext, s: PipelineState, p: nat, at: Time): QualityGate
    requires p < |run.stages|
  {
    QualityGate(stageId := run.stages[p].id, attempt := StageAt(s.stages, run.stages, p).attempts + 1, status := Passed, finishedAt := at)
  }

  /**
   One stage: nothing when aborted before; an executor that throws, or a passed code review the attestor
   does not confirm, needs attention; otherwise the execution, the abort flag and the budget decide.
   */
  ghost predicate StageConcludes(run: RunContext, s: PipelineState, t: nat, p: nat, script: Script<Step>)
    requires p < |run.stages|
  {
    var env := run.env;
    var marked := MarkRunning(p, env.clock(t + 1));
    if env.aborted(t + 1) then script == Script(Ended(RunNeedsAttention), [], t + 1)
    else
      match env.execute(t + 1, p)
      case Threw => script == Script(Ended(RunNeedsAttention), [marked, ExecutorError(p, env.clock(t + 2))], t + 2)
      case Executed(e) =>
        var settled := [marked, Settle(p, e, run.maxRegressions, env.clock(t + 2))];
        if Accepts(run.stages[p], e) && ReviewsCode(run.stages[p]) then
          ReviewConcludes(run, s, t + 3, p, e, GateOf(run, s, p, env.clock(t + 2)), settled, script)
        else script.saves == settled && ConcludesAs(run, s, p, e, env.overBudget(t + 4), script.result)
  }

  ghost predicate IsConfirmed(run: RunContext, t: nat, s: PipelineState, gate: QualityGate) {
    exists c :: Confirms(run, t, s, gate, c)
  }

  /** A passed code review is attested; only when it is confirmed the step goes on, with the checkpoint saved. */
  ghost predicate ReviewConcludes(run: RunContext, s: PipelineState, t: nat, p: nat, e: Execution, gate: QualityGate,
                                  settled: seq<Event>, script: Script<Step>)
    requires p < |run.stages|
  {
    if IsConfirmed(run, t, s, gate) then
      && (forall c :: Confirms(run, t, s, gate, c) ==> script.saves == settled + [AttachReview(p, c)])
      && ConcludesAs(run, s, p, e, run.env.overBudget(t + 2), script.result)
    else script.saves == settled && script.result == Ended(RunNeedsAttention)
  }

  lemma ConclusionFits(run: RunContext, s: PipelineState, marked: PipelineState, p: nat, e: Execution, at: Time, overBudget: bool)
    requires WellCompiled(run.stages) && p < |run.stages| && marked.regressions == s.regressions
    ensures ConcludesAs(run, s, p, e, overBudget, run.Conclusion(OutcomeOf(run.stages, marked, p, e, run.maxRegressions, at), overBudget))
  {
    var o := OutcomeOf(run.stages, marked, p, e, run.maxRegressions, at);
    OutcomeFits(run.stages, marked, p, e, run.maxRegressions, at);
    hide CheckStageDecision;
    KindIff(run.stages[p], e);
    hide WellCompiled, OutcomeOf, Accepts, GateRejects, NamesEarlier, ReportedFindings;
    if o.route.action.Continue? {
      StageAtItsIndex(run.stages, p + 1);
    }
  }

  /** Every step at a stage concludes as the answers say. */
  lemma StageStepConcludes(run: RunContext, s: PipelineState, t: nat, p: nat)
    requires WellCompiled(run.stages) && p < |run.stages|
    ensures StageConcludes(run, s, t, p, run.StageScript(s, t, p))
  {
    hide WellCompiled, ConcludesAs, ReviewsCode, Confirms, Accepts, OutcomeOf, ApplyStageOutcome, IsCodeReview;
    if !run.env.aborted(t + 1) && run.env.execute(t + 1, p).Executed? {
      ExecutedConcludes(run, s, t, p, run.env.execute(t + 1, p).execution);
    }
  }

  lemma MarkedAttempts(stages: Stages, s: PipelineState, p: nat, at: Time)
    requires p < |stages|
    ensures var m := MarkStageRunning(s, stages[p].id, at);
      StageAt(m.stages, stages, p).attempts == StageAt(s.stages, stages, p).attempts && m.regressions == s.regressions
      && m.runDefId == s.runDefId && m.runDefDigest == s.runDefDigest
  {
  }

  lemma SettledIdentity(s: PipelineState, o: Outcome)
    ensures ApplyStageOutcome(s, o).runDefId == s.runDefId && ApplyStageOutcome(s, o).runDefDigest == s.runDefDigest
  {
  }

  lemma ExecutedConcludes(run: RunContext, s: PipelineState, t: nat, p: nat, e: Execution)
    requires WellCompiled(run.stages) && p < |run.stages|
    requires !run.env.aborted(t + 1) && run.env.execute(t + 1, p) == Executed(e)
    ensures StageConcludes(run, s, t, p, run.StageScript(s, t, p))
  {
    hide WellCompiled, ConcludesAs, ReviewsCode, Confirms, Accepts, ApplyStageOutcome, IsCodeReview, MarkStageRunning, CheckStageDecision,
         RouteStageDecision, StageAt;
    var at := run.env.clock(t + 2);
    var marked := MarkStageRunning(s, run.stages[p].id, run.env.clock(t + 1));
    var o := OutcomeOf(run.stages, marked, p, e, run.maxRegressions, at);
    var u := ApplyStageOutcome(marked, o);
    var gate := GateOf(run, s, p, at);
    MarkedAttempts(run.stages, s, p, run.env.clock(t + 1));
    SettledIdentity(marked, o);
    KindIff(run.stages[p], e);
    CodeReviewIff(run.stages[p]);
    ConclusionFits(run, s, marked, p, e, at, run.env.overBudget(t + 4));
    ConclusionFits(run, s, marked, p, e, at, run.env.overBudget(t + 5));
    ConfirmedIsAccepted(run, t + 3, s, u, gate);
  }

  lemma ConfirmedIsAccepted(run: RunContext, t: nat, s: PipelineState, u: PipelineState, gate: QualityGate)
    requires u.runDefId == s.runDefId && u.runDefDigest == s.runDefDigest
    ensures IsConfirmed(run, t, s, gate) <==> run.Accepted(t, u, gate).Some?
    ensures forall c :: Confirms(run, t, s, gate, c) ==> run.Accepted(t, u, gate) == Some(c)
  {
    if run.Accepted(t, u, gate).Some? {
      assert Confirms(run, t, s, gate, run.Accepted(t, u, gate).value);
    }
  }

  // ----- The final scope -----

  /** The reviewed scope or the base moved on: files changed, or the base the checkpoint names was replaced by another. */
  ghost predicate ReviewIsStale(s: PipelineState, answer: ScopeResult) {
    || answer.ReviewScopeChanged?
    || (&& answer.ReviewBaseStale? && s.reviewCheckpoint.Some?
        && s.reviewCheckpoint.value.baseOid == answer.previousBaseOid && answer.currentBaseOid != answer.previousBaseOid
        && IsCommit(answer.previousBaseOid) && IsCommit(answer.currentBaseOid))
  }

  /** Forty lower-case hexadecimal digits. */
  ghost predicate IsCommit(oid: string) {
    |oid| == 40 && forall c :: c in oid ==> '0' <= c <= '9' || 'a' <= c <= 'f'
  }

  /** The request for the final receipt: the active checkpoint is extended under the run id it was made for. */
  ghost function FinalAnswer(run: RunContext, s: PipelineState, t: nat, gate: QualityGate): ScopeResult {
    var id := if s.reviewCheckpoint.Some? then s.reviewCheckpoint.value.runId else run.runId;
    run.env.attest(t, FinalRequest(Identity(run.storyId, id, s.runDefId, s.runDefDigest), s.reviewCheckpoint, gate))
  }

  ghost predicate IsReceiptFor(run: RunContext, s: PipelineState, answer: ScopeResult) {
    answer.FinalReceipted?
    && IsFor(answer.receipt.checkpoint, run.storyId, if s.reviewCheckpoint.Some? then s.reviewCheckpoint.value.runId else run.runId, s)
  }

  /**
   Past the last stage, with the review attested: done exactly with a receipt for this run, back to the
   reviewed stage when the review is stale and a regression is left, and otherwise in need of attention.
   */
  ghost predicate FinalConcludes(run: RunContext, s: PipelineState, t: nat, script: Script<Step>) {
    match FinalQualityGate(s, Ids(run.stages))
    case None => script == Script(Ended(RunNeedsAttention), [], t)
    case Some(gate) =>
      var answer := FinalAnswer(run, s, t, gate);
      && script.end == t + 1
      && if IsReceiptFor(run, s, answer) then script.result == Ended(RunDone) && script.saves == [AttachFinal(answer.receipt)]
         else if ReviewIsStale(s, answer) && s.reviewCheckpoint.Some? && s.regressions < run.maxRegressions then
           && script.saves == [InvalidateReview]
           && script.result == Advance(FindStage(run.stages, s.reviewCheckpoint.value.qualityGate.stageId))
         else script.result == Ended(RunNeedsAttention) && script.saves == []
  }

  lemma StaleIff(s: PipelineState, answer: ScopeResult)
    ensures ReviewIsStale(s, answer) <==>
      answer.ReviewScopeChanged?
      || (answer.ReviewBaseStale? && IsValidStaleBase(answer.previousBaseOid, answer.currentBaseOid, s.reviewCheckpoint))
  {
  }

  lemma FinalStepConcludes(run: RunContext, s: PipelineState, t: nat)
    requires HasReview(run.stages) ==> s.reviewCheckpoint.Some?
    ensures FinalConcludes(run, s, t, run.FinalScript(s, t))
  {
    hide FinalQualityGate, HasReview, Ids, FindStage, IsValidStaleBase, ReviewIsStale, Apply;
    assert run.BackfillScript(s, t) == Script(true, [], t);
    var scope := run.AttestScript(s, t);
    assert [] + scope.saves == scope.saves;
    assert run.ScopeScript(s, t) == scope;
    if FinalQualityGate(s, Ids(run.stages)).Some? {
      StaleIff(s, FinalAnswer(run, s, t, FinalQualityGate(s, Ids(run.stages)).value));
    }
  }

  /** The only passed code review, with its gate as it stands in the record. */
  ghost predicate AwaitsCheckpoint(run: RunContext, s: PipelineState, p: nat, gate: QualityGate) {
    && p < |run.stages| && IsPassedReview(s, run.stages, p)
    && (forall q: nat :: q < |run.stages| && IsPassedReview(s, run.stages, q) ==> q == p)
    && gate.attempt > 0 && gate.attempt == StageOf(s, run.stages[p].id).attempts
    && StageOf(s, run.stages[p].id).finishedAt == Some(gate.finishedAt)
    && gate.stageId == run.stages[p].id && gate.status == Passed
  }

  /**
   A review that has no checkpoint yet is attested first.  When the attestor confirms it and the save
   succeeds, the step goes on as from the state with the checkpoint; otherwise it needs attention and
   saves nothing.
   */
  lemma BackfillComesFirst(run: RunContext, s: PipelineState, t: nat)
    requires HasReview(run.stages) && s.reviewCheckpoint.None?
    ensures forall p, gate, c :: AwaitsCheckpoint(run, s, p, gate) && Confirms(run, t, s, gate, c) && !run.env.backfillSaveFails(t + 1) ==>
      run.FinalScript(s, t) == run.FinalScript(AttachReviewCheckpoint(s, c), t + 1).After([AttachReview(p, c)])
    ensures (!exists p, gate, c :: AwaitsCheckpoint(run, s, p, gate) && Confirms(run, t, s, gate, c)) || run.env.backfillSaveFails(t + 1) ==>
      run.FinalScript(s, t).result == Ended(RunNeedsAttention) && run.FinalScript(s, t).saves == []
  {
    hide AwaitsCheckpoint, Confirms, FinalQualityGate, HasReview, Ids, FindStage, PassedReviewPosition, AttachReviewCheckpoint;
    forall p, gate, c | AwaitsCheckpoint(run, s, p, gate) && Confirms(run, t, s, gate, c)
      ensures !run.env.backfillSaveFails(t + 1) ==>
        run.FinalScript(s, t) == run.FinalScript(AttachReviewCheckpoint(s, c), t + 1).After([AttachReview(p, c)])
    {
      AwaitedPosition(run, s, p, gate);
      AcceptedIffConfirmed(run, t, s, gate, c);
      if !run.env.backfillSaveFails(t + 1) {
        BackfillGoesOn(run, s, t, p, c);
      }
    }
    var position := PassedReviewPosition(s, run.stages);
    if position.Some? {
      var p := position.value;
      PassedReviewIsTheOnlyOne(s, run.stages, p);
      var gate := QualityGate(run.stages[p].id, StageOf(s, run.stages[p].id).attempts, Passed, StageOf(s, run.stages[p].id).finishedAt.value);
      AwaitedHere(run, s, p, gate);
      if run.Accepted(t, s, gate).Some? {
        AcceptedIffConfirmed(run, t, s, gate, run.Accepted(t, s, gate).value);
      }
    }
  }

  lemma AwaitedPosition(run: RunContext, s: PipelineState, p: nat, gate: QualityGate)
    requires AwaitsCheckpoint(run, s, p, gate)
    ensures PassedReviewPosition(s, run.stages) == Some(p)
    ensures gate == QualityGate(run.stages[p].id, StageOf(s, run.stages[p].id).attempts, Passed, StageOf(s, run.stages[p].id).finishedAt.value)
  {
    hide PassedReviewPosition, IsPassedReview;
    PassedReviewIsTheOnlyOne(s, run.stages, p);
  }

  lemma AwaitedHere(run: RunContext, s: PipelineState, p: nat, gate: QualityGate)
    requires PassedReviewPosition(s, run.stages) == Some(p)
    requires gate == QualityGate(run.stages[p].id, StageOf(s, run.stages[p].id).attempts, Passed, StageOf(s, run.stages[p].id).finishedAt.value)
    ensures AwaitsCheckpoint(run, s, p, gate)
  {
    hide PassedReviewPosition, IsPassedReview;
    PassedReviewIsTheOnlyOne(s, run.stages, p);
  }

  lemma BackfillGoesOn(run: RunContext, s: PipelineState, t: nat, p: nat, c: Checkpoint)
    requires HasReview(run.stages) && s.reviewCheckpoint.None? && !run.env.backfillSaveFails(t + 1)
    requires run.BackfillScript(s, t) == Script(true, [AttachReview(p, c)], t + 1)
    ensures run.FinalScript(s, t) == run.FinalScript(AttachReviewCheckpoint(s, c), t + 1).After([AttachReview(p, c)])
  {
    hide FinalQualityGate, HasReview, Ids, FindStage, PassedReviewPosition;
    var u := AttachReviewCheckpoint(s, c);
    assert run.BackfillScript(u, t + 1) == Script(true, [], t + 1);
    hide AttachReviewCheckpoint;
    var scope := run.AttestScript(u, t + 1);
    assert [] + scope.saves == scope.saves;
    assert run.ScopeScript(u, t + 1) == scope;
    assert run.ScopeScript(s, t) == Script(scope.result, [AttachReview(p, c)] + scope.saves, scope.end);
  }

  // ----- What ends a run -----

  /** The attempt fails for good: neither accepted nor sent back, not aborted, and within the budget. */
  ghost predicate FailsForGood(run: RunContext, s: PipelineState, t: nat, p: nat) {
    && p < |run.stages| && !run.env.aborted(t + 1) && run.env.execute(t + 1, p).Executed?
    && var e := run.env.execute(t + 1, p).execution;
       !e.aborted && !run.env.overBudget(t + 4) && !Accepts(run.stages[p], e) && !Regresses(run.stages, s, p, e, run.maxRegressions)
  }

  /** A run ends failed exactly when its last step executed a stage that failed for good; everything else that stops it needs attention. */
  lemma RunFailsIff(run: RunContext, states: seq<PipelineState>, events: seq<Event>, trace: Trace, status: RunStatus, end: nat)
    requires WellCompiled(run.stages) && run.ScriptEnds(states, events, trace, status, end)
    ensures var last := |trace.visited| - 1;
      status.RunFailed? <==> FailsForGood(run, states[trace.cuts[last]], trace.times[last], trace.visited[last])
  {
    var last := |trace.visited| - 1;
    var s, t, p := states[trace.cuts[last]], trace.times[last], trace.visited[last];
    hide WellCompiled, Accepts, Regresses, ReviewsCode, Confirms;
    if p < |run.stages| {
      ScriptOfStage(run, s, t, p);
      StageStepConcludes(run, s, t, p);
      hide *;
      LastStageFails(run, s, t, p, run.StageScript(s, t, p), status);
    }
  }

  lemma ScriptOfStage(run: RunContext, s: PipelineState, t: nat, p: nat)
    requires p < |run.stages|
    ensures run.StepScript(s, t, p) == run.StageScript(s, t, p)
  {
  }

  lemma LastStageFails(run: RunContext, s: PipelineState, t: nat, p: nat, script: Script<Step>, status: RunStatus)
    requires p < |run.stages| && StageConcludes(run, s, t, p, script) && script.result == Ended(status)
    ensures status.RunFailed? <==> FailsForGood(run, s, t, p)
  {
    hide Accepts, Regresses, ReviewsCode, Confirms, IsConfirmed;
  }

  /** A run ends done exactly when its last step asked for the final receipt and got one for this run. */
  lemma RunIsDoneIff(run: RunContext, states: seq<PipelineState>, events: seq<Event>, trace: Trace, status: RunStatus, end: nat)
    requires WellCompiled(run.stages) && run.ScriptEnds(states, events, trace, status, end)
    ensures var last := |trace.visited| - 1;
      status.RunDone? <==> trace.visited[last] >= |run.stages| && GetsReceipt(run, states[trace.cuts[last]], trace.times[last])
  {
    var last := |trace.visited| - 1;
    var s, t, p := states[trace.cuts[last]], trace.times[last], trace.visited[last];
    hide WellCompiled, Accepts, Regresses, ReviewsCode, Confirms, GetsReceipt;
    if p < |run.stages| {
      ScriptOfStage(run, s, t, p);
      StageStepConcludes(run, s, t, p);
      hide *;
      StageIsNotDone(run, s, t, p, run.StageScript(s, t, p), status);
    } else {
      assert run.StepScript(s, t, p) == run.FinalScript(s, t);
      hide *;
      FinalIsDone(run, s, t, status);
    }
  }

  lemma StageIsNotDone(run: RunContext, s: PipelineState, t: nat, p: nat, script: Script<Step>, status: RunStatus)
    requires p < |run.stages| && StageConcludes(run, s, t, p, script) && script.result == Ended(status)
    ensures !status.RunDone?
  {
    hide Accepts, Regresses, ReviewsCode, Confirms, IsConfirmed;
  }

  /** The review is attested, now or before, and the attestor answers with a receipt for this run. */
  ghost predicate GetsReceipt(run: RunContext, s: PipelineState, t: nat) {
    if HasReview(run.stages) && s.reviewCheckpoint.None? then
      !run.env.backfillSaveFails(t + 1)
      && exists p, gate, c :: AwaitsCheckpoint(run, s, p, gate) && Confirms(run, t, s, gate, c)
           && ReceiptHere(run, AttachReviewCheckpoint(s, c), t + 1)
    else ReceiptHere(run, s, t)
  }

  ghost predicate ReceiptHere(run: RunContext, s: PipelineState, t: nat) {
    var gate := FinalQualityGate(s, Ids(run.stages));
    gate.Some? && IsReceiptFor(run, s, FinalAnswer(run, s, t, gate.value))
  }

  lemma FinalIsDone(run: RunContext, s: PipelineState, t: nat, status: RunStatus)
    requires run.FinalScript(s, t).result == Ended(status)
    ensures status.RunDone? <==> GetsReceipt(run, s, t)
  {
    hide *;
    if HasReview(run.stages) && s.reviewCheckpoint.None? {
      forall p, gate, c | AwaitsCheckpoint(run, s, p, gate) && Confirms(run, t, s, gate, c) && !run.env.backfillSaveFails(t + 1)
        ensures ReceiptHere(run, AttachReviewCheckpoint(s, c), t + 1) <==> status.RunDone?
      {
        BackfilledIsDone(run, s, t, p, gate, c, status);
      }
      if (!exists p, gate, c :: AwaitsCheckpoint(run, s, p, gate) && Confirms(run, t, s, gate, c)) || run.env.backfillSaveFails(t + 1) {
        BackfillFails(run, s, t);
      }
      BackfilledReceipt(run, s, t);
    } else {
      PlainReceipt(run, s, t);
      ReceiptedIsDone(run, s, t, status);
    }
  }

  lemma BackfilledReceipt(run: RunContext, s: PipelineState, t: nat)
    requires HasReview(run.stages) && s.reviewCheckpoint.None?
    ensures GetsReceipt(run, s, t) <==>
      !run.env.backfillSaveFails(t + 1)
      && exists p, gate, c :: AwaitsCheckpoint(run, s, p, gate) && Confirms(run, t, s, gate, c)
           && ReceiptHere(run, AttachReviewCheckpoint(s, c), t + 1)
  {
    hide AwaitsCheckpoint, Confirms, HasReview, ReceiptHere, AttachReviewCheckpoint;
  }

  lemma PlainReceipt(run: RunContext, s: PipelineState, t: nat)
    requires !(HasReview(run.stages) && s.reviewCheckpoint.None?)
    ensures GetsReceipt(run, s, t) <==> ReceiptHere(run, s, t)
  {
    hide AwaitsCheckpoint, Confirms, HasReview, ReceiptHere;
  }

  lemma BackfillFails(run: RunContext, s: PipelineState, t: nat)
    requires HasReview(run.stages) && s.reviewCheckpoint.None?
    requires (!exists p, gate, c :: AwaitsCheckpoint(run, s, p, gate) && Confirms(run, t, s, gate, c)) || run.env.backfillSaveFails(t + 1)
    ensures run.FinalScript(s, t).result == Ended(RunNeedsAttention)
  {
    hide *;
    BackfillComesFirst(run, s, t);
  }

  lemma BackfilledIsDone(run: RunContext, s: PipelineState, t: nat, p: nat, gate: QualityGate, c: Checkpoint, status: RunStatus)
    requires HasReview(run.stages) && s.reviewCheckpoint.None? && run.FinalScript(s, t).result == Ended(status)
    requires AwaitsCheckpoint(run, s, p, gate) && Confirms(run, t, s, gate, c) && !run.env.backfillSaveFails(t + 1)
    ensures ReceiptHere(run, AttachReviewCheckpoint(s, c), t + 1) <==> status.RunDone?
  {
    hide AwaitsCheckpoint, Confirms, HasReview, ReceiptHere, AttachReviewCheckpoint;
    BackfillComesFirst(run, s, t);
    AttachedCheckpoint(s, c);
    ReceiptedIsDone(run, AttachReviewCheckpoint(s, c), t + 1, status);
  }

  lemma ReceiptedIsDone(run: RunContext, s: PipelineState, t: nat, status: RunStatus)
    requires (HasReview(run.stages) ==> s.reviewCheckpoint.Some?) && run.FinalScript(s, t).result == Ended(status)
    ensures ReceiptHere(run, s, t) <==> status.RunDone?
  {
    FinalStepConcludes(run, s, t);
    hide HasReview, FinalQualityGate, Ids, FindStage, IsReceiptFor, ReviewIsStale;
  }

  // ----- Terminal recovery -----

  /**
   When a receipt may be superseded, on the fields and the answers: the run is done and nothing in the
   state needs repair, the receipt is the expected one, its review names an earlier stage in `onFail`,
   the attestor reproduces the receipt for its own request, and the feature head is its base.
   */
  lemma SupersededIff(run: RunContext, s: PipelineState, t: nat, recovery: TerminalRecovery)
    requires WellCompiled(run.stages)
    ensures Eligible(run.stages, s, run.storyId, run.env, t, recovery) <==>
      && s.status == Done && NeedsNothing(s, Ids(run.stages))
      && s.reviewCheckpoint != None && s.finalScopeReceipt.Some?
      && var r := s.finalScopeReceipt.value;
         && r.checkpoint.runId == recovery.expectedReceiptRunId
         && HasTarget(run.stages, r)
         && run.env.attest(t, FinalRequest(Identity(run.storyId, r.checkpoint.runId, s.runDefId, s.runDefDigest),
                                           Some(r.checkpoint), r.checkpoint.qualityGate)) == FinalReceipted(r)
         && run.env.headOid(t) == Some(r.checkpoint.baseOid)
  {
    NeedsNothingIff(s, Ids(run.stages), run.env.clock(t));
    hide NeedsNothing, ReconcileState, WellCompiled, HasTarget, InferResetTarget, Ids;
    if s.finalScopeReceipt.Some? {
      SomeTarget(run.stages, s.finalScopeReceipt.value);
      RequestIs(s, run.storyId, s.finalScopeReceipt.value);
      hide CorrectionRequest;
    }
  }

  ghost predicate NeedsNothing(s: PipelineState, ids: seq<string>) {
    forall issue :: !Reported(s, ids, issue)
  }

  lemma NeedsNothingIff(s: PipelineState, ids: seq<string>, now: Time)
    ensures ReconcileState(s, ids, now) == s <==> NeedsNothing(s, ids)
  {
    hide Reported, ReconcileState;
    ReportsIffChanged(s, ids, now);
  }

  /** The receipt is put to the attestor under its own run id, checkpoint and gate. */
  lemma RequestIs(s: PipelineState, storyId: string, r: Receipt)
    ensures CorrectionRequest(s, storyId, r)
            == FinalRequest(Identity(storyId, r.checkpoint.runId, s.runDefId, s.runDefDigest), Some(r.checkpoint), r.checkpoint.qualityGate)
  {
  }

  /** The stage the receipt names is a code review that sends back to an earlier stage. */
  ghost predicate HasTarget(stages: Stages, r: Receipt) {
    exists k, g :: 0 <= k < g < |stages| && stages[g].id == r.checkpoint.qualityGate.stageId
      && ReviewsCode(stages[g]) && stages[g].onFail == Some(stages[k].id)
  }

  lemma SomeTarget(stages: Stages, r: Receipt)
    requires WellCompiled(stages)
    ensures InferResetTarget(stages, r).Some? <==> HasTarget(stages, r)
  {
    forall g | 0 <= g < |stages| ensures IsCodeReview(stages[g]) <==> ReviewsCode(stages[g]) {
      CodeReviewIff(stages[g]);
    }
    hide InferResetTarget, IsCodeReview, ReviewsCode, WellCompiled;
    if InferResetTarget(stages, r).Some? {
      TargetInferredIff(stages, r, InferResetTarget(stages, r).value);
    }
    if HasTarget(stages, r) {
      var k, g :|
        0 <= k < g < |stages| && stages[g].id == r.checkpoint.qualityGate.stageId
        && ReviewsCode(stages[g]) && stages[g].onFail == Some(stages[k].id);
      TargetInferredIff(stages, r, stages[k].id);
    }
  }
}
