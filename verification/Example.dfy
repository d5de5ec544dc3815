/**
 Concrete histories: a run that is done, its correction, and a retry of the correction after a crash.
 The theorems about recovery have instances, and a finished run can leave a repair behind.
 */
module Example {
  import opened Basics
  import opened RunDefs
  import opened Scopes
  import opened PipelineStates
  import opened Routing
  import opened Transitions
  import opened Validation
  import opened Reconcile
  import opened Attestation
  import opened Durable
  import opened Steps
  import opened Approvals
  import opened Recovery
  import opened Protocol
  import opened Theorems
  import opened Runner
  import opened Starting
  import opened Resumption

  const REVIEW := AgentStage("r", 1, 60, None, "w", "a", Some("code-review"), Some("b"), None, None, None, None, None, None, None)
  const PAIR := [PlainStage("b", 0, None), REVIEW]

  /** The definition the two stages are compiled from. */
  const DEF := RunDef("d", None, [
    RawCode("b", None, "b", None, None, None, None),
    RawAgent("r", None, "w", "a", Some("code-review"), Some("b"), None, None, None, None, None, None, None, None)])

  const APPROVED := Execution(Some(Output(true, None, GateVerdict(true, None))), Some(0), 0.0, None, None, None, false, false)
  const SCOPE := RepositoryScope([], [])
  const BASE := "0000000000000000000000000000000000000000"

  lemma StartsSolid(s: string)
    requires s != [] && !IsSpace(s[0])
    ensures NonBlank(s)
  {
  }

  lemma PairIsWellCompiled()
    ensures WellCompiled(PAIR) && IsCodeReview(PAIR[1]) && HasReview(PAIR)
  {
    assert !IsSpace('b') && !IsSpace('r');
    assert NonBlank("b") by { assert "b"[0] == 'b'; }
    assert NonBlank("r") by { assert "r"[0] == 'r'; }
    assert "b" != "r" by { assert "b"[0] != "r"[0]; }
    assert "code-review"[..11] == "code-review";
    assert IsCodeReview(PAIR[1]);
  }

  function CheckpointFor(s: PipelineState, attempt: nat): Checkpoint {
    Checkpoint(1, s.storyId, "x", s.runDefId, s.runDefDigest, "m", BASE, SCOPE, QualityGate("r", attempt, Passed, NOON))
  }

  /** The identity of the run can be written into a checkpoint. */
  ghost predicate Named(s: PipelineState) {
    NonBlank(s.storyId) && NonBlank(s.runDefId) && s.runDefDigest == ComputeDigest(DEF) && s.superseded.None?
  }

  lemma CheckpointIsValid(s: PipelineState, attempt: nat)
    requires NonBlank(s.storyId) && NonBlank(s.runDefId) && s.runDefDigest.Sha256? && attempt >= 1
    ensures ValidCheckpoint(CheckpointFor(s, attempt)) && ValidReceipt(ReceiptFor(s, attempt))
  {
    hide NonBlank, IsOid;
    NamesAreSolid();
  }

  lemma NamesAreSolid()
    ensures NonBlank("x") && NonBlank("m") && NonBlank("r") && NonBlank(NOON) && IsOid(BASE)
  {
    StartsSolid("x");
    StartsSolid("m");
    StartsSolid("r");
    StartsSolid(NOON);
  }

  function ReceiptFor(s: PipelineState, attempt: nat): Receipt {
    Receipt(CheckpointFor(s, attempt), SCOPE, [])
  }

  function CorrectionFor(): Correction {
    Correction(SupersedeContractInvalidCandidate, "x", "x", "b", NOON, "y")
  }

  // ----- The steps -----

  /** Where the example stands: after `p` passed stages, with nothing archived. */
  ghost predicate Stands(states: seq<PipelineState>, events: seq<Event>, p: nat) {
    && states != [] && History(PAIR, states, events) && Inv(PAIR, states[|states| - 1])
    && AtPosition(PAIR, states[|states| - 1], p) && Named(states[|states| - 1]) && states[|states| - 1].finalScopeReceipt.None?
  }

  lemma Extends(states: seq<PipelineState>, events: seq<Event>, e: Event)
    returns (states': seq<PipelineState>, events': seq<Event>)
    requires WellCompiled(PAIR) && states != [] && History(PAIR, states, events) && Inv(PAIR, states[|states| - 1])
    requires Enabled(PAIR, states[|states| - 1], e)
    ensures states' == states + [Apply(PAIR, states[|states| - 1], e)] && events' == events + [e]
    ensures History(PAIR, states', events') && Inv(PAIR, states'[|states'| - 1])
  {
    hide Enabled, Apply, Inv, WellCompiled, DurableGrows;
    HistoryExtends(PAIR, states, events, e);
    EventKeepsInv(PAIR, states[|states| - 1], e);
    states', events' := states + [Apply(PAIR, states[|states| - 1], e)], events + [e];
  }

  lemma KeptNamed(s: PipelineState, t: PipelineState)
    requires Named(s) && SameHeader(s, t)
    ensures Named(t)
  {
  }

  /** One stage is marked running and passes. */
  lemma Passes(states: seq<PipelineState>, events: seq<Event>, p: nat, execution: Execution)
    returns (states': seq<PipelineState>, events': seq<Event>, attempt: nat)
    requires WellCompiled(PAIR) && p < 2 && Stands(states, events, p)
    requires ValidExecution(execution) && CheckStageDecision(PAIR[p], execution).passed
    ensures Stands(states', events', p + 1) && |events'| == |events| + 2 && states'[0] == states[0]
    ensures attempt >= 1 && IsGateOf(QualityGate(PAIR[p].id, attempt, Passed, NOON), StageAt(states'[|states'| - 1].stages, PAIR, p))
  {
    hide Inv, WellCompiled, AtPosition, CheckStageDecision, ValidExecution, Apply, Enabled, MarkStageRunning, ApplyStageOutcome, IsGateOf, StageAt;
    var s := states[|states| - 1];
    var mark := MarkRunning(p, NOON);
    MarkedRunning(PAIR, s, p, NOON);
    EventKeepsHeader(PAIR, s, mark);
    states', events' := Extends(states, events, mark);
    var marked := Apply(PAIR, s, mark);
    KeptNamed(s, marked);
    var settle := Settle(p, execution, 9, NOON);
    SettledWell(PAIR, marked, p, execution, 9, NOON);
    EventKeepsHeader(PAIR, marked, settle);
    KeptNamed(marked, Apply(PAIR, marked, settle));
    states', events' := Extends(states', events', settle);
    attempt := OutcomeOf(PAIR, marked, p, execution, 9, NOON).attempt;
    JustPassed(PAIR, marked, Apply(PAIR, marked, settle), p, OutcomeOf(PAIR, marked, p, execution, 9, NOON));
  }

  lemma JustPassed(stages: Stages, before: PipelineState, t: PipelineState, p: nat, o: Outcome)
    requires JustSettled(stages, before, t, p, o, 9) && o.decision.passed
    ensures AtPosition(stages, t, p + 1) && t.finalScopeReceipt.None?
    ensures IsGateOf(QualityGate(o.stageId, o.attempt, Passed, o.finishedAt), StageAt(t.stages, stages, p)) && o.stageId == stages[p].id
  {
    hide AtPosition, MovedTo, IsGateOf;
  }

  /** The review is attested, the final scope too, and the run ends done. */
  lemma Approves(states: seq<PipelineState>, events: seq<Event>, attempt: nat)
    returns (states': seq<PipelineState>, events': seq<Event>)
    requires WellCompiled(PAIR) && IsCodeReview(PAIR[1]) && Stands(states, events, 2) && attempt >= 1
    requires IsGateOf(QualityGate("r", attempt, Passed, NOON), StageAt(states[|states| - 1].stages, PAIR, 1))
    ensures states' != [] && History(PAIR, states', events') && Inv(PAIR, states'[|states'| - 1])
    ensures |events'| == |events| + 3 && states'[0] == states[0]
    ensures var t := states'[|states'| - 1];
            t.status.Done? && Named(t) && t.finalScopeReceipt == Some(ReceiptFor(states[|states| - 1], attempt))
  {
    hide Inv, WellCompiled, AtPosition, Apply, Enabled, IsGateOf, StageAt, MayAttachReview, MayAttachFinal, AttachReviewCheckpoint, AttachFinalScopeReceipt,
         ValidCheckpoint, ValidReceipt, IsCodeReview, AllComplete;
    var s := states[|states| - 1];
    var c, r := CheckpointFor(s, attempt), ReceiptFor(s, attempt);
    CheckpointIsValid(s, attempt);
    ReviewMayAttach(s, attempt);
    AttachReviewIsEnabled(PAIR, s, 1, c);
    states', events' := Extends(states, events, AttachReview(1, c));
    var reviewed := AttachReviewCheckpoint(s, c);
    InvRecord(PAIR, s);
    BackfilledPosition(PAIR, s, 1, c);
    ReviewAttached(s, c);
    ReceiptMayAttach(reviewed, r);
    FinalAttached(PAIR, reviewed, r);
    states', events' := Extends(states', events', AttachFinal(r));
    var received := AttachFinalScopeReceipt(reviewed, r);
    FinalizedByEvent(PAIR, received, Done, NOON);
    ReceiptAttachedTo(reviewed, r);
    KeptNamed(s, FinalizeState(received, Done, NOON));
    states', events' := Extends(states', events', Finalize(Done, NOON));
  }

  lemma ReviewMayAttach(s: PipelineState, attempt: nat)
    requires IsCodeReview(PAIR[1]) && AtPosition(PAIR, s, 2) && Named(s) && s.finalScopeReceipt.None?
    requires ValidCheckpoint(CheckpointFor(s, attempt))
    requires IsGateOf(QualityGate("r", attempt, Passed, NOON), StageAt(s.stages, PAIR, 1))
    ensures MayAttachReview(PAIR, s, 1, CheckpointFor(s, attempt))
  {
    hide ValidCheckpoint, IsCodeReview, IsGateOf, StageAt, IsComplete;
  }

  lemma ReviewAttached(s: PipelineState, c: Checkpoint)
    ensures AttachReviewCheckpoint(s, c).reviewCheckpoint == Some(c) && SameHeader(s, AttachReviewCheckpoint(s, c))
  {
  }

  lemma ReceiptAttachedTo(s: PipelineState, r: Receipt)
    ensures AttachFinalScopeReceipt(s, r).finalScopeReceipt == Some(r) && SameHeader(s, AttachFinalScopeReceipt(s, r))
  {
  }

  lemma ReceiptMayAttach(s: PipelineState, r: Receipt)
    requires AtPosition(PAIR, s, 2) && s.reviewCheckpoint == Some(r.checkpoint) && ValidReceipt(r) && r.docs == SCOPE
    ensures MayAttachFinal(PAIR, s, r)
  {
    hide ValidReceipt, ValidCheckpoint, StageAt, IsComplete, HasReview, LastPassed;
  }

  lemma CorrectionIsWellFormed()
    ensures BoundedReceiptId("x") && BoundedReason("x") && IsIsoTimestamp(NOON) && NonBlank("y")
  {
    StartsSolid("x");
    StartsSolid("y");
    hide NonBlank;
    assert "x"[1..] == "";
  }

  lemma CorrectionIsAllowed(s: PipelineState, source: PipelineState, attempt: nat)
    requires s.status.Done? && s.finalScopeReceipt == Some(ReceiptFor(source, attempt))
    ensures Enabled(PAIR, s, Correct(CorrectionFor()))
  {
    hide BoundedReason, BoundedReceiptId, IsIsoTimestamp, NonBlank, InferResetTarget;
    CorrectionIsWellFormed();
    ReviewLeadsToBuild(source, attempt);
  }

  lemma ReviewLeadsToBuild(s: PipelineState, attempt: nat)
    ensures InferResetTarget(PAIR, ReceiptFor(s, attempt)) == Some("b")
  {
    PairIsWellCompiled();
    StageAtItsIndex(PAIR, 0);
    StageAtItsIndex(PAIR, 1);
    hide StageIndex, WellCompiled, IsCodeReview;
  }

  // ----- Done, and corrected -----

  lemma PairIsCompiled()
    ensures IsRunDef(DEF) && Compile(DEF, {"code-review"}, 60) == Ok(PAIR)
  {
    DefIsWellFormed();
    DefMatchesSchema();
    DefCompiles();
    hide Violates, MatchesSchema, WellFormed, Compile;
    NoIssueIffWellFormed(DEF);
  }

  lemma DefIsWellFormed()
    ensures WellFormed(DEF.stages)
  {
    assert DEF.stages[0].id == "b" && "b"[0] != "r"[0];
  }

  lemma DefMatchesSchema()
    ensures MatchesSchema(DEF)
  {
    StartsSolid("b");
    hide NonBlank;
    assert IsIdentifier("d") && IsIdentifier("b") && IsIdentifier("r") && IsIdentifier("w") && IsIdentifier("a");
    assert IsIdentifier("code-review");
    hide IsIdentifier;
    assert MatchesStageSchema(DEF.stages[0]) && MatchesStageSchema(DEF.stages[1]);
  }

  lemma DefCompiles()
    ensures Compile(DEF, {"code-review"}, 60) == Ok(PAIR)
  {
    assert CompileFrom(DEF.stages, 2, {"code-review"}, 60) == Ok([]);
    assert CompileStage(DEF.stages[1], 1, {"code-review"}, 60) == Ok(REVIEW);
    assert [REVIEW] + [] == [REVIEW];
    assert CompileFrom(DEF.stages, 1, {"code-review"}, 60) == Ok([REVIEW]);
    assert CompileStage(DEF.stages[0], 0, {"code-review"}, 60) == Ok(PAIR[0]);
    assert [PAIR[0]] + [REVIEW] == PAIR;
    assert CompileFrom(DEF.stages, 0, {"code-review"}, 60) == Ok(PAIR);
  }

  lemma MayAdoptHere(s: PipelineState)
    requires Named(s)
    ensures Enabled(PAIR, s, Adopt(DEF)) && Apply(PAIR, s, Adopt(DEF)) == AdoptRunDef(s, DEF)
    ensures Named(AdoptRunDef(s, DEF)) && AdoptRunDef(s, DEF).runDefIdentity == Some(DEF)
    ensures AdoptRunDef(s, DEF).status == s.status && AdoptRunDef(s, DEF).finalScopeReceipt == s.finalScopeReceipt
  {
    PairIsCompiled();
    hide IsRunDef, EqualExceptTimeouts, Compile;
  }

  /** A state in which the correction of the example is in force and its work is about to start. */
  ghost predicate Corrected(t: PipelineState) {
    && Inv(PAIR, t) && AtPosition(PAIR, t, 0) && t.status.Running? && t.reviewCheckpoint.None? && t.finalScopeReceipt.None?
    && |Archive(t)| == 1 && Archive(t)[0].expectedReceiptRunId == "x" && Archive(t)[0].reason == "x"
    && t.runDefDigest == ComputeDigest(DEF) && t.runDefIdentity == Some(DEF)
  }

  lemma CorrectionTakesEffect(s: PipelineState, source: PipelineState, attempt: nat)
    requires WellCompiled(PAIR) && Inv(PAIR, s) && Named(s) && s.status.Done? && s.runDefIdentity == Some(DEF)
    requires s.finalScopeReceipt == Some(ReceiptFor(source, attempt))
    ensures Enabled(PAIR, s, Correct(CorrectionFor())) && Corrected(Apply(PAIR, s, Correct(CorrectionFor())))
  {
    hide Inv, WellCompiled, NonBlank, MayCorrect, StateGrows, ResetFrom, StageIndex, Apply, Enabled, ReceiptFor, AtPosition;
    CorrectionIsAllowed(s, source, attempt);
    assert Ids(PAIR)[0] == "b";
    AllowedMeans(s);
    CorrectionKeepsInv(PAIR, s, CorrectionFor());
    CorrectedIsCalm(PAIR, s, CorrectionFor());
    CorrectionFields(s, source, attempt);
    CalmAtStart(ApplyTerminalCorrection(s, Ids(PAIR), CorrectionFor()));
  }

  lemma AllowedMeans(s: PipelineState)
    requires Enabled(PAIR, s, Correct(CorrectionFor()))
    ensures MayCorrect(PAIR, s, CorrectionFor())
  {
    hide MayCorrect;
  }

  lemma CorrectionFields(s: PipelineState, source: PipelineState, attempt: nat)
    requires s.finalScopeReceipt == Some(ReceiptFor(source, attempt)) && Named(s) && s.runDefIdentity == Some(DEF) && "b" in Ids(PAIR)
    ensures s.finalScopeReceipt.value.checkpoint.runId == "x"
    ensures var t := ApplyTerminalCorrection(s, Ids(PAIR), CorrectionFor());
      && t == Apply(PAIR, s, Correct(CorrectionFor()))
      && t.status.Running? && t.reviewCheckpoint.None? && t.finalScopeReceipt.None?
      && |Archive(t)| == 1 && Archive(t)[0].expectedReceiptRunId == "x" && Archive(t)[0].reason == "x"
      && t.runDefDigest == ComputeDigest(DEF) && t.runDefIdentity == Some(DEF)
  {
    hide NonBlank, ResetStages, Ids;
  }

  lemma CalmAtStart(t: PipelineState)
    requires Calm(PAIR, t.stages) && t.reviewCheckpoint.None? && t.finalScopeReceipt.None?
    ensures AtPosition(PAIR, t, 0)
  {
  }

  /** A configuration that selects the definition of the example. */
  ghost predicate Selects(config: Config) {
    config.def == DEF && NonBlank(config.storyId)
  }

  /**
   From a fresh start a done run is reachable; a recovery of it adopts the definition and supersedes
   the receipt.
   */
  lemma RecoveryIsReachable(config: Config, now: Time) returns (states: seq<PipelineState>, events: seq<Event>)
    requires Selects(config)
    ensures WellCompiled(PAIR) && SingleReview(PAIR) && History(PAIR, states, events) && |states| == |events| + 1
    ensures ResolveStartingState(None, config, None, PAIR, now) == Ok(states[0])
    ensures |events| == 9 && events[7] == Adopt(DEF) && events[8] == Correct(CorrectionFor())
    ensures states[7].status.Done? && Corrected(states[9])
  {
    hide Inv, WellCompiled, ResolveInitialState, History, Stands, Enabled, Apply, NonBlank, IsGateOf, IsCodeReview, Named, Corrected, AdoptRunDef;
    PairIsWellCompiled();
    BuildIsNoReview();
    states, events := FreshStart(config);
    var attempt: nat;
    BothPass();
    states, events, attempt := Passes(states, events, 0, CLEAN);
    states, events, attempt := Passes(states, events, 1, APPROVED);
    var s := Last(states, events, 2);
    states, events := Approves(states, events, attempt);
    HistoryLength(PAIR, states, events);
    var done := states[|states| - 1];
    MayAdoptHere(done);
    states, events := Extends(states, events, Adopt(DEF));
    CorrectionTakesEffect(AdoptRunDef(done, DEF), s, attempt);
    states, events := Extends(states, events, Correct(CorrectionFor()));
    HistoryLength(PAIR, states, events);
  }

  // ----- A retry of the correction after a crash -----

  const RECOVERY := TerminalRecovery(SupersedeContractInvalidCandidate, "x", "x")

  /** The crash left the first stage marked running. */
  ghost predicate Crashed(s: PipelineState) {
    && Inv(PAIR, s) && !Calm(PAIR, s.stages) && RetryMatches(s, "x", "x")
    && |Archive(s)| == 1 && Archive(s)[0].expectedReceiptRunId == "x"
    && s.runDefDigest == ComputeDigest(DEF) && s.runDefIdentity == Some(DEF)
  }

  lemma MarkingLeavesCrashed(t: PipelineState)
    requires WellCompiled(PAIR) && Corrected(t)
    ensures Enabled(PAIR, t, MarkRunning(0, NOON)) && Crashed(Apply(PAIR, t, MarkRunning(0, NOON)))
  {
    hide Inv, WellCompiled, AtPosition, StateGrows, DurableGrows;
    MarkedRunning(PAIR, t, 0, NOON);
    EventKeepsInv(PAIR, t, MarkRunning(0, NOON));
    MarkingKeepsRetry(t);
  }

  lemma MarkingKeepsRetry(t: PipelineState)
    requires Corrected(t)
    ensures var s := MarkStageRunning(t, "b", NOON);
      && RetryMatches(s, "x", "x") && Archive(s) == Archive(t) && s.runDefDigest == t.runDefDigest && s.runDefIdentity == t.runDefIdentity
  {
    hide Inv, AtPosition;
  }

  /** The start of a run that retries the recovery: the loaded state, its running stage included. */
  lemma RetryStarts(s: PipelineState, config: Config, now: Time)
    requires Crashed(s) && Selects(config) && s.storyId == config.storyId && s.runDefId == config.def.id
    requires s.specFile == config.specFile && s.model == config.model && s.thinking == config.thinking
    ensures var t := AdoptRunDef(s, DEF);
      && ResolveStartingState(Some(s), config, Some(RECOVERY), PAIR, now) == Ok(t)
      && Enabled(PAIR, s, Adopt(DEF)) && t == Apply(PAIR, s, Adopt(DEF))
      && Inv(PAIR, t) && !Calm(PAIR, t.stages) && RetryMatches(t, "x", "x") && Bound(t, config.storyId, "z")
  {
    PairIsCompiled();
    hide Inv, IsRunDef, Compile, EqualExceptTimeouts, NonBlank, Calm;
    AdoptKeepsInv(PAIR, s, DEF);
    assert "x"[0] != "z"[0];
    StartsSolid("d");
    assert NonBlank("d");
  }

  /**
   A recovery retry does not reconcile the loaded state first.  After a crash that left a stage running,
   a retry that is aborted before its first stage ends with that stage still marked running, and every
   later load has to repair the finished state.
   */
  lemma AbortedRetryLeavesARepair(config: Config, now: Time, at: Time)
    returns (states: seq<PipelineState>, events: seq<Event>)
    requires Selects(config)
    ensures History(PAIR, states, events) && |states| == |events| + 1
    ensures ResolveStartingState(None, config, None, PAIR, now) == Ok(states[0])
    ensures |events| == 12 && events[7..] == [Adopt(DEF), Correct(CorrectionFor()), MarkRunning(0, NOON), Adopt(DEF), Finalize(NeedsAttention, at)]
    ensures ResolveStartingState(Some(states[10]), config, Some(RECOVERY), PAIR, now) == Ok(states[11])
    ensures RetryMatches(states[11], "x", "x") && Bound(states[11], config.storyId, "z")
    ensures Inv(PAIR, states[11]) && !Calm(PAIR, states[11].stages)
    ensures states[12] == FinalizeState(states[11], NeedsAttention, at) && !NeedsNoRepair(PAIR, states[12])
  {
    hide Inv, WellCompiled, History, Enabled, Apply, Corrected, Crashed, ResolveStartingState, AdoptRunDef, Calm, RetryMatches, Bound,
         NeedsNoRepair, SameConfiguration, Selects;
    states, events := RecoveryIsReachable(config, now);
    MarkingLeavesCrashed(states[9]);
    CorrectedInv(states[9]);
    states, events := Extends(states, events, MarkRunning(0, NOON));
    HistoryLength(PAIR, states, events);
    HistoryKeepsConfiguration(PAIR, states, events, 10);
    StartedConfiguration(config, now, states[0], states[10]);
    RetryStarts(states[10], config, now);
    states, events := Extends(states, events, Adopt(DEF));
    HistoryLength(PAIR, states, events);
    FinalizedByEvent(PAIR, states[11], NeedsAttention, at);
    states, events := Extends(states, events, Finalize(NeedsAttention, at));
    HistoryLength(PAIR, states, events);
    StillRunning(states[11], at);
  }

  lemma CorrectedInv(t: PipelineState)
    requires Corrected(t)
    ensures Inv(PAIR, t)
  {
    hide Inv, AtPosition;
  }

  lemma StartedConfiguration(config: Config, now: Time, start: PipelineState, s: PipelineState)
    requires ResolveStartingState(None, config, None, PAIR, now) == Ok(start) && SameConfiguration(start, s)
    ensures s.storyId == config.storyId && s.runDefId == config.def.id
    ensures s.specFile == config.specFile && s.model == config.model && s.thinking == config.thinking
  {
  }

  lemma StillRunning(s: PipelineState, at: Time)
    requires Inv(PAIR, s) && Inv(PAIR, FinalizeState(s, NeedsAttention, at)) && !Calm(PAIR, s.stages)
    ensures !NeedsNoRepair(PAIR, FinalizeState(s, NeedsAttention, at))
  {
    hide Inv, Calm, NeedsNoRepair;
    FinishedNeedsNoRepair(PAIR, FinalizeState(s, NeedsAttention, at));
  }

  /** The runner itself, started as above and aborted at once: it saves the terminal status and nothing else. */
  method RunAbortedRetry(stages: Stages, storyId: string, runId: string, max: nat, env: Environment, start: PipelineState, recovery: TerminalRecovery)
    returns (run: RunContext, status: RunStatus)
    requires WellCompiled(stages) && Lawful(env) && NonBlank(storyId) && NonBlank(runId) && Inv(stages, start) && Bound(start, storyId, runId)
    requires ValidRecovery(recovery) && recovery.expectedReceiptRunId != runId
    requires RetryMatches(start, recovery.expectedReceiptRunId, recovery.reason)
    requires !Calm(stages, start.stages) && env.aborted(1)
    ensures run.stages == stages && status.RunNeedsAttention?
    ensures run.events == [Finalize(NeedsAttention, env.clock(1))] && run.state == FinalizeState(start, NeedsAttention, env.clock(1))
    ensures !NeedsNoRepair(stages, run.state)
  {
    hide Inv, WellCompiled, Lawful, NonBlank, Bound, Calm, RetryMatches, LoopEnded, NeedsNoRepair, ValidRecovery, History, WithinBounds;
    hide RunContext.RunIsScripted;
    run := new RunContext(stages, storyId, runId, max, env, start);
    ghost var trace;
    status, trace := run.RunPipelineStages(Some(recovery));
    OnlyTheStatus(run, start, trace, status);
  }

  /** A script whose first step is aborted saves nothing, so only the status is saved. */
  lemma OnlyTheStatus(run: RunContext, start: PipelineState, trace: Trace, status: RunStatus)
    requires run.Valid() && run.RunIsScripted(start, 0, 0, trace, status)
    requires [start] <= run.states && !Calm(run.stages, start.stages) && run.env.aborted(1)
    ensures status.RunNeedsAttention? && run.events == [Finalize(NeedsAttention, run.env.clock(1))]
    ensures run.state == FinalizeState(start, NeedsAttention, run.env.clock(1))
  {
    hide RunContext.SettleScript, RunContext.FinalScript, Inv, WellCompiled, Lawful, NonBlank, Bound, Calm, FirstIncomplete, FinalizeState;
    RunningIsAhead(run.stages, start);
    var loopStates := run.states[..|run.states| - 1];
    assert loopStates[0] == start;
    var script := run.StepScript(start, 0, trace.visited[0]);
    assert script == Script(Ended(RunNeedsAttention), [], 1);
    assert |trace.visited| > 1 ==>
      run.StepTaken(run.StepScript(loopStates[trace.cuts[0]], trace.times[0], trace.visited[0]),
                    run.events[..|run.events| - 1][trace.cuts[0]..trace.cuts[1]], trace.times[1], trace.visited[1]);
    assert run.events[..|run.events| - 1][0..] == run.events[..|run.events| - 1];
  }

  lemma Last(states: seq<PipelineState>, events: seq<Event>, p: nat) returns (s: PipelineState)
    requires Stands(states, events, p)
    ensures states != [] && s == states[|states| - 1]
  {
    s := states[|states| - 1];
  }

  lemma BothPass()
    ensures CheckStageDecision(PAIR[0], CLEAN).passed && CheckStageDecision(PAIR[1], APPROVED).passed
    ensures ValidExecution(CLEAN) && ValidExecution(APPROVED)
  {
  }

  lemma BuildIsNoReview()
    ensures !IsCodeReview(PAIR[0]) && SingleReview(PAIR)
  {
  }

  lemma FreshStart(config: Config) returns (states: seq<PipelineState>, events: seq<Event>)
    requires Selects(config)
    ensures Stands(states, events, 0) && states == [ResolveInitialState(config, PAIR)] && events == []
  {
    hide Inv, NonBlank, Calm;
    states, events := [ResolveInitialState(config, PAIR)], [];
    Starting.FreshStart(config, PAIR);
    StartsSolid("d");
    CalmAtStart(states[0]);
    hide AtPosition;
  }
}
