/**
 The state a run starts from: fresh, a repaired resume, or a recovery of a loaded state.  A loaded
 state was made under the definition its digest names.
 */
module Starting {
  import opened Basics
  import opened RunDefs
  import opened Scopes
  import opened PipelineStates
  import opened Routing
  import opened Transitions
  import opened Validation
  import opened Reconcile
  import opened Durable
  import opened Steps
  import opened Recovery
  import opened Protocol
  import opened Theorems
  import opened Runner

  /** The active run: its story, spec file, model configuration, and selected definition. */
  datatype Config = Config(storyId: string, specFile: string, model: string, thinking: string, startedAt: Time, def: RunDef)

  datatype StartError = StateIdentityMismatch | RecoveryRejected

  /** A retry of an applied correction may run under a definition that differs only in timeouts. */
  predicate IsTimeoutOnlyRecoveryRetry(loaded: PipelineState, recovery: Option<TerminalRecovery>, def: RunDef) {
    && recovery.Some? && loaded.runDefIdentity.Some?
    && RetryMatches(loaded, recovery.value.expectedReceiptRunId, recovery.value.reason)
    && EqualExceptTimeouts(loaded.runDefIdentity.value, def)
  }

  predicate ResumeIdentityOk(loaded: PipelineState, config: Config, recovery: Option<TerminalRecovery>) {
    && loaded.storyId == config.storyId && loaded.runDefId == config.def.id && loaded.specFile == config.specFile
    && loaded.model == config.model && loaded.thinking == config.thinking
    && (loaded.runDefDigest == ComputeDigest(config.def) || IsTimeoutOnlyRecoveryRetry(loaded, recovery, config.def))
  }

  function ResolveRecoveryState(loaded: Option<PipelineState>, config: Config, recovery: TerminalRecovery, stages: Stages, now: Time)
    : Result<PipelineState, StartError>
  {
    if loaded.None? then Err(RecoveryRejected)
    else if !ResumeIdentityOk(loaded.value, config, Some(recovery)) then Err(StateIdentityMismatch)
    else if loaded.value.status.Done? && ReconcileState(loaded.value, Ids(stages), now) != loaded.value then Err(RecoveryRejected)
    else Ok(AdoptRunDef(loaded.value, config.def))
  }

  function ResolveInitialState(config: Config, stages: Stages): PipelineState {
    InitialState(InitialRequest(config.storyId, config.def.id, ComputeDigest(config.def), config.specFile,
                                config.model, config.thinking, Some(config.startedAt)), stages)
  }

  function ResolveReconciledResumeState(loaded: PipelineState, config: Config, stages: Stages, now: Time): Result<PipelineState, StartError> {
    if !ResumeIdentityOk(loaded, config, None) then Err(StateIdentityMismatch)
    else
      var toReconcile := if loaded.runDefDigest != ComputeDigest(config.def) then AdoptRunDef(loaded, config.def) else loaded;
      Ok(ReconcileState(toReconcile, Ids(stages), now))
  }

  function ResolveStartingState(loaded: Option<PipelineState>, config: Config, recovery: Option<TerminalRecovery>, stages: Stages, now: Time)
    : Result<PipelineState, StartError>
  {
    if recovery.Some? then ResolveRecoveryState(loaded, config, recovery.value, stages, now)
    else if loaded.None? then Ok(ResolveInitialState(config, stages))
    else ResolveReconciledResumeState(loaded.value, config, stages, now)
  }

  // ----- Timeouts are invisible to the protocol -----

  /** Stages that differ in nothing but their timeouts. */
  ghost predicate SameButTimeouts(a: Stages, b: Stages) {
    |a| == |b| && forall i :: 0 <= i < |a| ==> a[i].(timeoutSeconds := 0) == b[i].(timeoutSeconds := 0)
  }

  lemma SameStages(a: Stages, b: Stages)
    requires SameButTimeouts(a, b)
    ensures Ids(a) == Ids(b)
    ensures forall i :: 0 <= i < |a| ==> a[i].id == b[i].id && a[i].onFail == b[i].onFail && a[i].index == b[i].index
                                         && (IsCodeReview(a[i]) <==> IsCodeReview(b[i])) && (a[i].AgentStage? <==> b[i].AgentStage?)
    ensures HasReview(a) <==> HasReview(b)
    ensures WellCompiled(a) <==> WellCompiled(b)
  {
    forall i | 0 <= i < |a|
      ensures a[i].id == b[i].id && a[i].onFail == b[i].onFail && a[i].index == b[i].index
      ensures IsCodeReview(a[i]) <==> IsCodeReview(b[i])
      ensures a[i].AgentStage? <==> b[i].AgentStage?
    {
      assert a[i].(timeoutSeconds := 0) == b[i].(timeoutSeconds := 0);
    }
    assert Ids(a) == Ids(b);
  }

  lemma {:induction false} SameIndex(a: Stages, b: Stages, id: string)
    requires |a| == |b| && forall i :: 0 <= i < |a| ==> a[i].id == b[i].id
    ensures StageIndex(a, id) == StageIndex(b, id)
  {
    var i, j := StageIndex(a, id), StageIndex(b, id);
    assert i >= 0 ==> b[i].id == id;
    assert j >= 0 ==> a[j].id == id;
  }

  lemma RecordIgnoresTimeouts(a: Stages, b: Stages, s: PipelineState)
    requires Ids(a) == Ids(b) && |a| == |b| && (forall i :: 0 <= i < |a| ==> a[i].id == b[i].id)
    requires RecordOk(a, s) && RunningOk(a, s.stages)
    ensures RecordOk(b, s) && RunningOk(b, s.stages)
  {
    hide StageOk;
    forall q | 0 <= q < |b| && StageAt(s.stages, b, q).status.StageRunning?
      ensures Prefix(b, s.stages, q)
    {
      assert StageAt(s.stages, a, q).status.StageRunning? && Prefix(a, s.stages, q);
      forall r | 0 <= r < q ensures IsComplete(StageAt(s.stages, b, r).status) {
        assert IsComplete(StageAt(s.stages, a, r).status);
      }
    }
  }

  lemma PrefixIgnoresTimeouts(a: Stages, b: Stages, record: StageMap, p: nat)
    requires |a| == |b| && forall i :: 0 <= i < |a| ==> a[i].id == b[i].id
    ensures Prefix(a, record, p) <==> Prefix(b, record, p)
  {
    assert forall q :: 0 <= q < |a| ==> StageAt(record, a, q) == StageAt(record, b, q);
  }

  lemma ApprovalIgnoresTimeouts(a: Stages, b: Stages, s: PipelineState)
    requires SameButTimeouts(a, b) && ApprovalOk(a, s)
    ensures ApprovalOk(b, s)
  {
    hide SameButTimeouts, ValidCheckpoint, ValidReceipt, GateMatchesStage, IsCodeReview, HasReview, Prefix, WellCompiled;
    SameStages(a, b);
    Lengths(a, b);
    PrefixIgnoresTimeouts(a, b, s.stages, |a|);
    if s.reviewCheckpoint.Some? {
      var id := s.reviewCheckpoint.value.qualityGate.stageId;
      SameIndex(a, b, id);
      PrefixIgnoresTimeouts(a, b, s.stages, StageIndex(a, id));
    }
  }

  lemma Lengths(a: Stages, b: Stages)
    requires SameButTimeouts(a, b)
    ensures |a| == |b|
  {
  }

  /** The invariant of a state does not depend on the timeouts of the stages. */
  lemma InvIgnoresTimeouts(a: Stages, b: Stages, s: PipelineState)
    requires SameButTimeouts(a, b) && Inv(a, s)
    ensures Inv(b, s)
  {
    hide SameButTimeouts, RecordOk, ApprovalOk, ArchiveOk, RunningOk, HeaderOk, WellCompiled;
    SameStages(a, b);
    Lengths(a, b);
    RecordIgnoresTimeouts(a, b, s);
    ApprovalIgnoresTimeouts(a, b, s);
  }

  // ----- What a start gives -----

  /** A state that a run of this pipeline may have left on disk. */
  ghost predicate Loadable(s: PipelineState, registry: set<string>, defaultTimeout: nat) {
    && s.runDefDigest.Sha256? && Compile(s.runDefDigest.preimage, registry, defaultTimeout).Ok?
    && Inv(Compile(s.runDefDigest.preimage, registry, defaultTimeout).value, s)
  }

  lemma RecordedDefinition(stages: Stages, s: PipelineState)
    requires Inv(stages, s) && s.runDefIdentity.Some?
    ensures s.runDefDigest == ComputeDigest(s.runDefIdentity.value)
  {
    hide RecordOk, ApprovalOk, ArchiveOk, RunningOk, IsRunDef;
  }

  /** The loaded state is also in order for the active stages. */
  lemma LoadedFitsActiveStages(loaded: PipelineState, config: Config, recovery: Option<TerminalRecovery>, registry: set<string>, defaultTimeout: nat)
    requires Loadable(loaded, registry, defaultTimeout) && ResumeIdentityOk(loaded, config, recovery)
    ensures Compile(config.def, registry, defaultTimeout).Ok?
    ensures Inv(Compile(config.def, registry, defaultTimeout).value, loaded)
    ensures IsRunDef(config.def) ==> MayAdopt(loaded, config.def)
  {
    hide Inv, Compile, IsRunDef, EqualExceptTimeouts;
    var recorded := loaded.runDefDigest.preimage;
    if loaded.runDefDigest != ComputeDigest(config.def) {
      RecordedDefinition(Compile(recorded, registry, defaultTimeout).value, loaded);
      TimeoutsDoNotChangeThePipeline(recorded, config.def, registry, defaultTimeout);
      InvIgnoresTimeouts(Compile(recorded, registry, defaultTimeout).value, Compile(config.def, registry, defaultTimeout).value, loaded);
    }
  }

  /**
   Whatever was loaded, a successful start gives a state in order for the active stages and bound to
   the active definition; every later archived-receipt check then runs against that definition.
   */
  lemma StartIsInOrder(loaded: Option<PipelineState>, config: Config, recovery: Option<TerminalRecovery>,
                       registry: set<string>, defaultTimeout: nat, stages: Stages, now: Time)
    requires IsRunDef(config.def) && Compile(config.def, registry, defaultTimeout) == Ok(stages)
    requires loaded.Some? ==> Loadable(loaded.value, registry, defaultTimeout)
    requires ResolveStartingState(loaded, config, recovery, stages, now).Ok?
    ensures var s := ResolveStartingState(loaded, config, recovery, stages, now).value;
      && WellCompiled(stages) && Inv(stages, s) && ValidState(s)
      && s.storyId == config.storyId && s.runDefId == config.def.id && s.runDefDigest == ComputeDigest(config.def)
      && Loadable(s, registry, defaultTimeout)
      && (recovery.None? ==> Calm(stages, s.stages))
  {
    hide Inv, IsRunDef, Compile, ValidState, MayAdopt, WellCompiled, EqualExceptTimeouts, ReconcileState, AdoptRunDef, Calm, RetryMatches;
    CompiledRunDefIsRoutable(config.def, registry, defaultTimeout);
    var s := ResolveStartingState(loaded, config, recovery, stages, now).value;
    if loaded.Some? {
      LoadedFitsActiveStages(loaded.value, config, recovery, registry, defaultTimeout);
      LoadedStart(loaded.value, config, recovery, stages, now);
    } else {
      FreshStart(config, stages);
    }
    InvIsValid(stages, s);
  }

  lemma FreshStart(config: Config, stages: Stages)
    ensures var s := ResolveInitialState(config, stages);
      && Inv(stages, s) && Calm(stages, s.stages) && s.storyId == config.storyId && s.runDefId == config.def.id
      && s.runDefDigest == ComputeDigest(config.def)
  {
    hide Inv;
    var s := ResolveInitialState(config, stages);
    InitialInv(InitialRequest(config.storyId, config.def.id, ComputeDigest(config.def), config.specFile,
                              config.model, config.thinking, Some(config.startedAt)), stages);
    forall q | 0 <= q < |stages| ensures !StageAt(s.stages, stages, q).status.StageRunning? {
      assert s.stages == PendingStages(Ids(stages));
    }
  }

  lemma LoadedStart(loaded: PipelineState, config: Config, recovery: Option<TerminalRecovery>, stages: Stages, now: Time)
    requires Inv(stages, loaded) && MayAdopt(loaded, config.def) && ResumeIdentityOk(loaded, config, recovery)
    requires ResolveStartingState(Some(loaded), config, recovery, stages, now).Ok?
    ensures var s := ResolveStartingState(Some(loaded), config, recovery, stages, now).value;
      && Inv(stages, s) && s.storyId == loaded.storyId && s.runDefId == loaded.runDefId
      && s.runDefDigest == ComputeDigest(config.def)
      && (recovery.None? ==> Calm(stages, s.stages))
  {
    hide Inv, MayAdopt, EqualExceptTimeouts, Calm, RetryMatches, Backfill;
    AdoptKeepsInv(stages, loaded, config.def);
    ReconcileKeepsInv(stages, loaded, now);
  }

  /** A start from a loaded state is one event of the protocol. */
  lemma StartIsOneEvent(loaded: PipelineState, config: Config, recovery: Option<TerminalRecovery>, stages: Stages, now: Time)
    returns (e: Event)
    requires MayAdopt(loaded, config.def) && ResolveStartingState(Some(loaded), config, recovery, stages, now).Ok?
    ensures Enabled(stages, loaded, e)
    ensures ResolveStartingState(Some(loaded), config, recovery, stages, now).value == Apply(stages, loaded, e)
  {
    hide MayAdopt, ReconcileState, AdoptRunDef, EqualExceptTimeouts, RetryMatches;
    e := if recovery.Some? then Adopt(config.def) else ReconcileLoaded(now);
  }

  /** Without a recovery request only the exact definition resumes, so a resume never adopts another one. */
  lemma PlainResumeKeepsItsDefinition(loaded: PipelineState, config: Config, stages: Stages, now: Time)
    requires ResolveReconciledResumeState(loaded, config, stages, now).Ok?
    ensures loaded.runDefDigest == ComputeDigest(config.def)
    ensures ResolveReconciledResumeState(loaded, config, stages, now) == Ok(ReconcileState(loaded, Ids(stages), now))
  {
  }

  /** A done state is recovered only under its exact definition; a retry may change timeouts and stays a retry. */
  lemma RecoveryUnderAnotherDefinition(loaded: PipelineState, config: Config, recovery: TerminalRecovery, stages: Stages, now: Time)
    requires Inv(stages, loaded) && IsRunDef(config.def) && MayAdopt(loaded, config.def)
    requires ResolveRecoveryState(Some(loaded), config, recovery, stages, now).Ok?
    ensures loaded.status.Done? ==> loaded.runDefDigest == ComputeDigest(config.def)
    ensures var s := ResolveRecoveryState(Some(loaded), config, recovery, stages, now).value;
      && (RetryMatches(s, recovery.expectedReceiptRunId, recovery.reason) <==>
           RetryMatches(loaded, recovery.expectedReceiptRunId, recovery.reason))
      && s.stages == loaded.stages && s.economics == loaded.economics && |Archive(s)| == |Archive(loaded)|
  {
    hide Inv, IsRunDef, EqualExceptTimeouts, ReconcileState, MayAdopt;
    var s := AdoptRunDef(loaded, config.def);
    assert |Archive(s)| == |Archive(loaded)|;
    assert forall k :: 0 <= k < |Archive(s)| ==>
      Archive(s)[k].expectedReceiptRunId == Archive(loaded)[k].expectedReceiptRunId && Archive(s)[k].reason == Archive(loaded)[k].reason;
  }

  // ----- When a start succeeds -----

  /** Loaded under the same story, definition id, spec file and model configuration. */
  ghost predicate SameRun(loaded: PipelineState, config: Config) {
    && loaded.storyId == config.storyId && loaded.runDefId == config.def.id && loaded.specFile == config.specFile
    && loaded.model == config.model && loaded.thinking == config.thinking
  }

  /** The last archived receipt was superseded by this very request, and the run it started has not been approved. */
  ghost predicate IsRetryOf(loaded: PipelineState, recovery: TerminalRecovery) {
    && loaded.status in {Pending, Running, Failed, NeedsAttention}
    && loaded.reviewCheckpoint == None && loaded.finalScopeReceipt == None
    && loaded.superseded.Some? && loaded.superseded.value != []
    && loaded.superseded.value[|loaded.superseded.value| - 1].expectedReceiptRunId == recovery.expectedReceiptRunId
    && loaded.superseded.value[|loaded.superseded.value| - 1].reason == recovery.reason
  }

  /** The recorded definition differs from the active one in timeouts at most. */
  ghost predicate OnlyTimeoutsDiffer(loaded: PipelineState, def: RunDef) {
    loaded.runDefIdentity.Some?
    && exists timeouts: seq<Option<nat>> ::
         |timeouts| == |loaded.runDefIdentity.value.stages| && def == WithTimeouts(loaded.runDefIdentity.value, timeouts)
  }

  lemma RetryIff(loaded: PipelineState, recovery: TerminalRecovery)
    ensures RetryMatches(loaded, recovery.expectedReceiptRunId, recovery.reason) <==> IsRetryOf(loaded, recovery)
  {
  }

  /**
   When a run may start.  Without anything loaded a recovery is refused and anything else starts fresh.
   A loaded state must be of the same run and definition; only a retry of a correction may differ in
   timeouts; and a done state is recovered only when nothing in it needs repair.
   */
  lemma StartsIff(loaded: Option<PipelineState>, config: Config, recovery: Option<TerminalRecovery>, stages: Stages, now: Time)
    ensures ResolveStartingState(loaded, config, recovery, stages, now).Ok? <==>
      if loaded.None? then recovery.None?
      else
        && SameRun(loaded.value, config)
        && (loaded.value.runDefDigest == Sha256(config.def)
            || (recovery.Some? && IsRetryOf(loaded.value, recovery.value) && OnlyTimeoutsDiffer(loaded.value, config.def)))
        && (recovery.Some? && loaded.value.status == Done ==> forall issue :: !Reported(loaded.value, Ids(stages), issue))
  {
    hide Reported, ReconcileState, RetryMatches, IsRetryOf, OnlyTimeoutsDiffer, EqualExceptTimeouts, AdoptRunDef, InitialState;
    if loaded.Some? {
      ReportsIffChanged(loaded.value, Ids(stages), now);
      IdentityIff(loaded.value, config, recovery);
      hide ResumeIdentityOk, SameRun;
      assert recovery.None? ==> ResolveStartingState(loaded, config, recovery, stages, now).Ok? == ResumeIdentityOk(loaded.value, config, recovery);
      assert recovery.Some? ==> (ResolveStartingState(loaded, config, recovery, stages, now).Ok? <==>
        ResumeIdentityOk(loaded.value, config, recovery)
        && (loaded.value.status == Done ==> ReconcileState(loaded.value, Ids(stages), now) == loaded.value));
    }
  }

  lemma IdentityIff(loaded: PipelineState, config: Config, recovery: Option<TerminalRecovery>)
    ensures ResumeIdentityOk(loaded, config, recovery) <==>
      SameRun(loaded, config)
      && (loaded.runDefDigest == Sha256(config.def)
          || (recovery.Some? && IsRetryOf(loaded, recovery.value) && OnlyTimeoutsDiffer(loaded, config.def)))
  {
    hide RetryMatches, IsRetryOf, OnlyTimeoutsDiffer, EqualExceptTimeouts;
    TimeoutsIff(loaded, config.def);
    if recovery.Some? {
      RetryIff(loaded, recovery.value);
    }
  }

  lemma TimeoutsIff(loaded: PipelineState, def: RunDef)
    ensures OnlyTimeoutsDiffer(loaded, def) <==> loaded.runDefIdentity.Some? && EqualExceptTimeouts(loaded.runDefIdentity.value, def)
  {
    hide EqualExceptTimeouts, WithTimeouts;
    if loaded.runDefIdentity.Some? {
      EqualExceptTimeoutsIff(loaded.runDefIdentity.value, def);
    }
  }

  /** A fresh start: what the run was configured with, every stage pending without a record, and nothing else. */
  lemma FreshStartShows(config: Config, stages: Stages)
    ensures var s := ResolveInitialState(config, stages);
      && s.storyId == config.storyId && s.specFile == config.specFile && s.model == config.model && s.thinking == config.thinking
      && s.runDefId == config.def.id && s.runDefDigest == Sha256(config.def) && s.runDefIdentity == None
      && s.version == 3 && s.status == Pending && s.startedAt == Some(config.startedAt)
      && s.currentStage == None && s.finishedAt == None && s.regressions == 0 && s.economics == Economics(tokens := 0, dollars := 0.0)
      && s.reviewCheckpoint == None && s.finalScopeReceipt == None && s.superseded == None
      && (forall id :: id in s.stages <==> exists q :: 0 <= q < |stages| && stages[q].id == id)
      && forall id :: id in s.stages ==>
           s.stages[id] == StageState(id := id, status := StagePending, attempts := 0, startedAt := None, finishedAt := None,
                                      history := [], findings := None, upstreamHandoff := None)
  {
    var s := ResolveInitialState(config, stages);
    forall id ensures id in s.stages <==> exists q :: 0 <= q < |stages| && stages[q].id == id {
      if id in Ids(stages) {
        var q := PositionOf(stages, id);
      }
      if q :| 0 <= q < |stages| && stages[q].id == id {
        IdAt(stages, q);
      }
    }
  }

  // ----- Whole histories across a change of timeouts -----

  lemma RouteIgnoresTimeouts(a: Stages, b: Stages, p: nat, d: Decision, r: nat, max: nat)
    requires SameButTimeouts(a, b) && p < |a|
    ensures RouteStageDecision(a, a[p], d, r, max) == RouteStageDecision(b, b[p], d, r, max)
  {
    hide SameButTimeouts, FindStage, NextStage;
    SameStage(a, b, p);
    SameFound(a, b, a[p].id);
    if a[p].onFail.Some? {
      SameFound(a, b, a[p].onFail.value);
    }
  }

  lemma SameStage(a: Stages, b: Stages, i: nat)
    requires SameButTimeouts(a, b) && i < |a|
    ensures |a| == |b| && a[i].id == b[i].id && a[i].onFail == b[i].onFail && a[i].index == b[i].index
    ensures (IsCodeReview(a[i]) <==> IsCodeReview(b[i])) && (a[i].AgentStage? <==> b[i].AgentStage?)
  {
    assert a[i].(timeoutSeconds := 0) == b[i].(timeoutSeconds := 0);
  }

  /** Found by id, and the stage after it. */
  lemma SameFound(a: Stages, b: Stages, id: string)
    requires SameButTimeouts(a, b)
    ensures StageIndex(a, id) == StageIndex(b, id)
    ensures FindStage(a, id).None? <==> FindStage(b, id).None?
    ensures FindStage(a, id).Some? ==> FindStage(a, id).value.index == FindStage(b, id).value.index
    ensures FindStage(a, id).Some? ==> FindStage(a, id).value.id == FindStage(b, id).value.id
    ensures NextStage(a, id).None? <==> NextStage(b, id).None?
    ensures NextStage(a, id).Some? ==> NextStage(a, id).value.id == NextStage(b, id).value.id
  {
    forall i | 0 <= i < |a| ensures a[i].id == b[i].id && a[i].index == b[i].index {
      SameStage(a, b, i);
    }
    hide SameButTimeouts;
    SameIndex(a, b, id);
  }

  lemma DecisionIgnoresTimeouts(a: Stages, b: Stages, p: nat, e: Execution)
    requires SameButTimeouts(a, b) && p < |a|
    ensures CheckStageDecision(a[p], e) == CheckStageDecision(b[p], e)
  {
    assert a[p].(timeoutSeconds := 0) == b[p].(timeoutSeconds := 0);
  }

  lemma PositionIgnoresTimeouts(a: Stages, b: Stages, s: PipelineState, p: nat)
    requires |a| == |b| && forall i :: 0 <= i < |a| ==> a[i].id == b[i].id
    ensures AtPosition(a, s, p) <==> AtPosition(b, s, p)
  {
    PrefixIgnoresTimeouts(a, b, s.stages, p);
    assert forall q :: 0 <= q < |a| ==> StageAt(s.stages, a, q) == StageAt(s.stages, b, q);
    if s.reviewCheckpoint.Some? {
      SameIndex(a, b, s.reviewCheckpoint.value.qualityGate.stageId);
    }
  }

  lemma TargetIgnoresTimeouts(a: Stages, b: Stages, receipt: Receipt)
    requires SameButTimeouts(a, b)
    ensures InferResetTarget(a, receipt) == InferResetTarget(b, receipt)
  {
    hide SameButTimeouts, IsCodeReview;
    var id := receipt.checkpoint.qualityGate.stageId;
    SameFound(a, b, id);
    var i := StageIndex(a, id);
    if i >= 0 {
      SameStage(a, b, i);
      if a[i].onFail.Some? {
        SameFound(a, b, a[i].onFail.value);
      }
    }
  }

  lemma EnabledIgnoresTimeouts(a: Stages, b: Stages, s: PipelineState, e: Event)
    requires SameButTimeouts(a, b) && Enabled(a, s, e)
    ensures Enabled(b, s, e)
  {
    hide SameButTimeouts, AtPosition, ValidExecution, IsIsoTimestamp, MayFinalize, MayAdopt, InferResetTarget, IsCodeReview, HasReview,
         ValidCheckpoint, ValidReceipt, FreshId, Prefix, WellCompiled, LastPassed, FinalQualityGate, BoundedReason, BoundedReceiptId, Disjoint;
    SameStages(a, b);
    Lengths(a, b);
    PrefixIgnoresTimeouts(a, b, s.stages, |a|);
    match e {
      case MarkRunning(p, _) => PositionIgnoresTimeouts(a, b, s, p);
      case AttachReview(p, c) => PrefixIgnoresTimeouts(a, b, s.stages, p);
      case Correct(c) =>
        if s.finalScopeReceipt.Some? {
          TargetIgnoresTimeouts(a, b, s.finalScopeReceipt.value);
        }
      case _ =>
    }
  }

  lemma SettleIgnoresTimeouts(a: Stages, b: Stages, s: PipelineState, p: nat, execution: Execution, max: nat, at: Time)
    requires SameButTimeouts(a, b) && p < |a| && |a| == |b|
    ensures OutcomeOf(a, s, p, execution, max, at) == OutcomeOf(b, s, p, execution, max, at)
  {
    hide SameButTimeouts, CheckStageDecision, RouteStageDecision, IsCodeReview;
    SameStage(a, b, p);
    DecisionIgnoresTimeouts(a, b, p, execution);
    RouteIgnoresTimeouts(a, b, p, CheckStageDecision(a[p], execution), s.regressions, max);
  }

  lemma ApplyIgnoresTimeouts(a: Stages, b: Stages, s: PipelineState, e: Event)
    requires SameButTimeouts(a, b)
    ensures Apply(a, s, e) == Apply(b, s, e)
  {
    hide SameButTimeouts, MayFinalize, IsCodeReview, HasReview, WellCompiled, MarkStageRunning, ApplyStageOutcome, ApplyExecutorError,
         AttachReviewCheckpoint, AttachFinalScopeReceipt, FinalizeState, ReconcileState, AdoptRunDef, InvalidateReviewApproval,
         ApplyTerminalCorrection, OutcomeOf;
    SameStages(a, b);
    Lengths(a, b);
    if e.Settle? && e.p < |a| {
      SettleIgnoresTimeouts(a, b, s, e.p, e.execution, e.maxRegressions, e.at);
    }
  }

  /** A history under one set of timeouts is a history under any other, so runs may change them. */
  lemma HistoryIgnoresTimeouts(a: Stages, b: Stages, states: seq<PipelineState>, events: seq<Event>)
    requires SameButTimeouts(a, b) && History(a, states, events)
    ensures History(b, states, events)
  {
    hide SameButTimeouts, Enabled, Apply;
    forall i | 0 <= i < |events|
      ensures Enabled(b, states[i], events[i]) && states[i + 1] == Apply(b, states[i], events[i])
    {
      EnabledIgnoresTimeouts(a, b, states[i], events[i]);
      ApplyIgnoresTimeouts(a, b, states[i], events[i]);
    }
  }
}
