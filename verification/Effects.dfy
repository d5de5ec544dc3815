/**
 What each event leaves behind, field by field: every stage and every root field of the next state, in
 terms of the last one and of what the executor, the attestor and the clock answered.
 */
module Effects {
  import opened Basics
  import opened RunDefs
  import opened Scopes
  import opened PipelineStates
  import opened Routing
  import opened Transitions
  import opened Validation
  import opened Reconcile
  import opened Durable
  import opened Steps
  import opened Approvals
  import opened Recovery
  import opened Protocol

  // ----- Stages -----

  /** The stages at all positions outside `touched` are as they were, and none was added or removed. */
  ghost predicate Untouched(stages: Stages, s: PipelineState, t: PipelineState, touched: set<nat>) {
    && t.stages.Keys == s.stages.Keys
    && forall q :: 0 <= q < |stages| && q !in touched ==> StageAt(t.stages, stages, q) == StageAt(s.stages, stages, q)
  }

  /** The settled stage: passed or failed, with the attempt at the end of its history and nothing carried on. */
  ghost predicate AttemptRecorded(stage: CompiledStage, before: StageState, after: StageState, e: Execution, at: Time) {
    && after.id == before.id && after.attempts == before.attempts + 1
    && (Accepts(stage, e) ==> after.status == StagePassed) && (!Accepts(stage, e) ==> after.status == StageFailed)
    && after.startedAt == before.startedAt && after.finishedAt == Some(at)
    && after.findings == None && after.upstreamHandoff == None
    && |after.history| == |before.history| + 1 && before.history <= after.history
    && var a := after.history[|before.history|];
       && a.attempt == before.attempts + 1 && a.startedAt == before.startedAt && a.finishedAt == Some(at)
       && (a.status == Passed <==> Accepts(stage, e)) && (a.status == GateFailed <==> GateRejects(stage, e))
       && a.durationMs == Some(e.durationMs) && a.exitCode == e.exitCode && a.parseError == e.parseError
       && a.usage == e.usage && a.findings == ReportedFindings(stage, e)
  }

  /** What the child's output gives to the stage that runs next. */
  ghost predicate HandsOn(e: Execution, handoff: Option<string>) {
    (e.output.Some? ==> handoff == e.output.value.handoff) && (e.output.None? ==> handoff == None)
  }

  /** Pending again with its record, the findings it has to answer, and a handoff. */
  ghost predicate SentBack(before: StageState, after: StageState, findings: Option<seq<string>>) {
    && after.status == StagePending && after.startedAt == None && after.finishedAt == None
    && after.id == before.id && after.attempts == before.attempts && after.history == before.history
    && after.findings == findings
  }

  // ----- Events -----

  /** An attempt that its gate rejects sends an earlier stage back, while regressions are left. */
  ghost predicate Regresses(stages: Stages, s: PipelineState, p: nat, e: Execution, max: nat)
    requires p < |stages|
  {
    GateRejects(stages[p], e) && NamesEarlier(stages, p) && s.regressions < max
  }

  /** Tokens and dollars are added up. */
  ghost predicate AddsUsage(before: Economics, usage: Option<Economics>, after: Economics) {
    if usage.Some? then after.tokens == before.tokens + usage.value.tokens && after.dollars == before.dollars + usage.value.dollars
    else after == before
  }

  ghost predicate SettleShows(stages: Stages, s: PipelineState, t: PipelineState, p: nat, e: Execution, max: nat, at: Time)
    requires p < |stages|
  {
    && AttemptRecorded(stages[p], StageAt(s.stages, stages, p), StageAt(t.stages, stages, p), e, at)
    && AddsUsage(s.economics, e.usage, t.economics)
    && if Regresses(stages, s, p, e, max) then
         && t == s.(stages := t.stages, economics := t.economics, regressions := s.regressions + 1,
                    reviewCheckpoint := None, finalScopeReceipt := None)
         && forall k :: 0 <= k < |stages| && stages[k].id == stages[p].onFail.value ==>
              && Untouched(stages, s, t, {k, p}) && k < p
              && SentBack(StageAt(s.stages, stages, k), StageAt(t.stages, stages, k), ReportedFindings(stages[p], e))
              && HandsOn(e, StageAt(t.stages, stages, k).upstreamHandoff)
       else
         && t == s.(stages := t.stages, economics := t.economics)
         && if Accepts(stages[p], e) && p + 1 < |stages| then
              && Untouched(stages, s, t, {p, p + 1})
              && HandsOn(e, StageAt(t.stages, stages, p + 1).upstreamHandoff)
              && StageAt(t.stages, stages, p + 1)
                 == StageAt(s.stages, stages, p + 1).(upstreamHandoff := StageAt(t.stages, stages, p + 1).upstreamHandoff)
            else Untouched(stages, s, t, {p})
  }

  /** From position `k` on everything is pending, only the stage at `k` with findings; approval is gone. */
  ghost predicate SendsBackFrom(stages: Stages, s: PipelineState, t: PipelineState, k: nat, findings: Option<seq<string>>) {
    && t.stages.Keys == s.stages.Keys
    && (forall q :: 0 <= q < |stages| && q < k ==> StageAt(t.stages, stages, q) == StageAt(s.stages, stages, q))
    && (forall q :: k <= q < |stages| ==>
         && SentBack(StageAt(s.stages, stages, q), StageAt(t.stages, stages, q), if q == k then findings else None)
         && StageAt(t.stages, stages, q).upstreamHandoff == None)
    && t.reviewCheckpoint == None && t.finalScopeReceipt == None
    && t.status == Running && t.currentStage == None && t.finishedAt == None
  }

  /** The record of a superseded receipt. */
  ghost function RecordOf(s: PipelineState, c: Correction): SupersededReceipt
    requires s.finalScopeReceipt.Some?
  {
    SupersededReceipt(
      version := 1, sequence := |Archive(s)| + 1, kind := c.kind,
      supersededAt := c.supersededAt, supersededByRunId := c.supersededByRunId,
      expectedReceiptRunId := c.expectedReceiptRunId, reason := c.reason, resetTargetStageId := c.resetTargetStageId,
      receipt := s.finalScopeReceipt.value, runDefIdentity := s.runDefIdentity)
  }

  ghost predicate RunsAgain(before: StageState, after: StageState) {
    if before.status == StageRunning then after == before.(status := StagePending, startedAt := None, finishedAt := None)
    else after == before
  }

  ghost predicate HasEnded(status: PipelineStatus) {
    status in {Done, Failed, NeedsApproval, Paused, NeedsAttention}
  }

  ghost predicate ReconcileShows(stages: Stages, s: PipelineState, t: PipelineState, now: Time) {
    && t == s.(stages := t.stages, status := t.status, currentStage := t.currentStage, finishedAt := t.finishedAt)
    && t.stages.Keys == s.stages.Keys
    && (forall q :: 0 <= q < |stages| ==> RunsAgain(StageAt(s.stages, stages, q), StageAt(t.stages, stages, q)))
    && t.status == (if s.status == Running then Pending else s.status)
    && (t.currentStage == s.currentStage || t.currentStage == None)
    && (t.currentStage.Some? ==> !HasEnded(t.status) && t.currentStage.value in s.stages)
    && (t.currentStage == None && s.currentStage.Some? ==> HasEnded(t.status) || s.currentStage.value !in s.stages)
    && (HasEnded(t.status) ==> t.finishedAt == if s.finishedAt.Some? then s.finishedAt else Some(now))
    && (!HasEnded(t.status) ==> t.finishedAt == None)
  }

  /** A record made under the definition the state was bound to gets it, if it has none; otherwise nothing changes. */
  ghost predicate BackfilledFrom(s: PipelineState, before: SupersededReceipt, after: SupersededReceipt) {
    if before.runDefIdentity == None && s.runDefIdentity.Some? && before.receipt.checkpoint.runDefDigest == Sha256(s.runDefIdentity.value)
    then after == before.(runDefIdentity := s.runDefIdentity)
    else after == before
  }

  ghost predicate AdoptShows(s: PipelineState, t: PipelineState, def: RunDef) {
    && t == s.(runDefDigest := Sha256(def), runDefIdentity := Some(def), superseded := t.superseded)
    && (t.superseded == None <==> s.superseded == None) && |Archive(t)| == |Archive(s)|
    && forall k :: 0 <= k < |Archive(s)| ==> BackfilledFrom(s, Archive(s)[k], Archive(t)[k])
  }

  /** An unapproved state in progress is brought to the current version when an approval is attached. */
  ghost predicate AttachedAtVersion(s: PipelineState, version: int) {
    if s.version < 3 && s.status in {Pending, Running} && s.reviewCheckpoint == None && s.finalScopeReceipt == None
    then version == 3
    else version == s.version
  }

  /** The whole next state for each event. */
  ghost predicate Shows(stages: Stages, s: PipelineState, e: Event, t: PipelineState) {
    match e
    case MarkRunning(p, at) =>
      && p < |stages| && Untouched(stages, s, t, {p})
      && StageAt(t.stages, stages, p) == StageAt(s.stages, stages, p).(status := StageRunning, startedAt := Some(at), finishedAt := None)
      && t == s.(stages := t.stages, status := Running, currentStage := Some(stages[p].id), startedAt := t.startedAt)
      && t.startedAt == (if s.startedAt.Some? then s.startedAt else Some(at))
    case Settle(p, execution, max, at) => p < |stages| && SettleShows(stages, s, t, p, execution, max, at)
    case ExecutorError(p, at) =>
      && p < |stages| && Untouched(stages, s, t, {p}) && t == s.(stages := t.stages)
      && var a, b := StageAt(s.stages, stages, p), StageAt(t.stages, stages, p);
         && b == a.(status := StageFailed, attempts := a.attempts + 1, finishedAt := Some(at), history := b.history,
                    findings := None, upstreamHandoff := None)
         && b.history == a.history + [Attempt(attempt := a.attempts + 1, status := AttemptFailed, startedAt := a.startedAt,
                                              finishedAt := Some(at), durationMs := None, exitCode := None, parseError := None,
                                              findings := None, usage := None)]
    case AttachReview(_, c) =>
      t == s.(reviewCheckpoint := Some(c), finalScopeReceipt := None, version := t.version) && AttachedAtVersion(s, t.version)
    case AttachFinal(r) =>
      t == s.(reviewCheckpoint := Some(r.checkpoint), finalScopeReceipt := Some(r), version := t.version) && AttachedAtVersion(s, t.version)
    case InvalidateReview =>
      && s.reviewCheckpoint.Some?
      && t.regressions == s.regressions + 1 && SameHeader(s, t) && t.economics == s.economics && t.version == s.version
      && t.startedAt == s.startedAt
      && forall k :: 0 <= k < |stages| && stages[k].id == s.reviewCheckpoint.value.qualityGate.stageId ==> SendsBackFrom(stages, s, t, k, None)
    case Finalize(status, at) =>
      t == s.(status := status, currentStage := None, finishedAt := Some(at), startedAt := if s.startedAt.None? then Some(at) else s.startedAt)
    case Correct(c) =>
      && s.finalScopeReceipt.Some?
      && t == s.(stages := t.stages, status := Running, currentStage := None, finishedAt := None, reviewCheckpoint := None,
                 finalScopeReceipt := None, version := 3, superseded := Some(Archive(s) + [RecordOf(s, c)]))
      && forall k :: 0 <= k < |stages| && stages[k].id == c.resetTargetStageId ==> SendsBackFrom(stages, s, t, k, Some([c.reason]))
    case ReconcileLoaded(now) => ReconcileShows(stages, s, t, now)
    case Adopt(def) => AdoptShows(s, t, def)
  }

  // ----- Proofs, event by event -----

  lemma MarkingShows(stages: Stages, s: PipelineState, p: nat, at: Time)
    requires WellCompiled(stages) && RecordOk(stages, s) && p < |stages|
    ensures Shows(stages, s, MarkRunning(p, at), Apply(stages, s, MarkRunning(p, at)))
  {
    KnownStage(stages, s, p);
    var t := Apply(stages, s, MarkRunning(p, at));
    ReplacedAt(stages, s, t, p, MarkedStage(StageAt(s.stages, stages, p), at));
    hide WellCompiled, RecordOk, StageOk;
  }

  lemma ErrorShows(stages: Stages, s: PipelineState, p: nat, at: Time)
    requires WellCompiled(stages) && RecordOk(stages, s) && p < |stages|
    ensures Shows(stages, s, ExecutorError(p, at), Apply(stages, s, ExecutorError(p, at)))
  {
    KnownStage(stages, s, p);
    var t := Apply(stages, s, ExecutorError(p, at));
    hide WellCompiled, RecordOk, StageOk;
    ReplacedAt(stages, s, t, p, ErroredStage(StageAt(s.stages, stages, p), at));
  }

  lemma BuiltAttempt(stage: CompiledStage, before: StageState, o: Outcome, e: Execution, at: Time)
    requires o.decision == CheckStageDecision(stage, e) && o.execution == e && o.finishedAt == at
    requires o.attempt == before.attempts + 1 && o.stageId == before.id
    ensures AttemptRecorded(stage, before, BuildFinishedStage(before, o), e, at)
  {
    KindIff(stage, e);
    hide CheckStageDecision, Accepts, GateRejects, ReportedFindings;
  }

  lemma HandoffIsHandedOn(e: Execution)
    ensures HandsOn(e, HandoffOf(e))
  {
  }

  lemma RecordedShows(stages: Stages, s: PipelineState, p: nat, o: Outcome)
    requires WellCompiled(stages) && RecordOk(stages, s) && p < |stages| && o.stageId == stages[p].id
    ensures var t := Recorded(stages, s, o);
      && Untouched(stages, s, t, {p}) && StageAt(t.stages, stages, p) == BuildFinishedStage(StageAt(s.stages, stages, p), o)
      && t == s.(stages := t.stages, regressions := o.route.regressions, economics := t.economics)
      && AddsUsage(s.economics, o.execution.usage, t.economics)
  {
    hide RecordOk, WellCompiled, BuildAttempt;
    ReplacedAt(stages, s, Recorded(stages, s, o), p, BuildFinishedStage(StageAt(s.stages, stages, p), o));
  }

  lemma RegressionShows(stages: Stages, base: PipelineState, k: nat, findings: Option<seq<string>>, handoff: Option<string>)
    requires WellCompiled(stages) && RecordOk(stages, base) && k < |stages|
    ensures var t := ResetRegressionTarget(base, stages[k].id, findings, handoff);
      && Untouched(stages, base, t, {k}) && t == base.(stages := t.stages, reviewCheckpoint := None, finalScopeReceipt := None)
      && SentBack(StageAt(base.stages, stages, k), StageAt(t.stages, stages, k), findings)
      && StageAt(t.stages, stages, k).upstreamHandoff == handoff
  {
    KnownStage(stages, base, k);
    hide RecordOk, WellCompiled;
    var t := ResetRegressionTarget(base, stages[k].id, findings, handoff);
    ReplacedAt(stages, base, t, k, ResetTarget(StageAt(base.stages, stages, k), findings, handoff));
  }

  lemma HandoffShows(stages: Stages, base: PipelineState, k: nat, handoff: Option<string>)
    requires WellCompiled(stages) && RecordOk(stages, base) && k < |stages|
    ensures var t := WithStage(base, StageOf(base, stages[k].id).(upstreamHandoff := handoff));
      && Untouched(stages, base, t, {k}) && t == base.(stages := t.stages)
      && StageAt(t.stages, stages, k) == StageAt(base.stages, stages, k).(upstreamHandoff := handoff)
  {
    KnownStage(stages, base, k);
    hide RecordOk, WellCompiled;
    var stage := StageAt(base.stages, stages, k).(upstreamHandoff := handoff);
    ReplacedAt(stages, base, WithStage(base, stage), k, stage);
  }

  lemma TouchedTwice(stages: Stages, s: PipelineState, base: PipelineState, t: PipelineState, p: nat, k: nat)
    requires Untouched(stages, s, base, {p}) && Untouched(stages, base, t, {k}) && p < |stages| && k < |stages| && k != p
    ensures Untouched(stages, s, t, {k, p}) && Untouched(stages, s, t, {p, k})
    ensures StageAt(t.stages, stages, p) == StageAt(base.stages, stages, p)
    ensures StageAt(base.stages, stages, k) == StageAt(s.stages, stages, k)
  {
  }

  /** Where the route of a settled attempt leads, in terms of the execution. */
  ghost predicate RouteFits(stages: Stages, s: PipelineState, p: nat, e: Execution, max: nat, route: Route)
    requires p < |stages|
  {
    match route.action
    case Regress(target) => RegressesTo(stages, p, e, s.regressions, max, target) && route.regressions == s.regressions + 1
    case Continue(next) => Accepts(stages[p], e) && !Regresses(stages, s, p, e, max) && p + 1 < |stages| && next == stages[p + 1].id && route.regressions == s.regressions
    case Complete => Accepts(stages[p], e) && !Regresses(stages, s, p, e, max) && p + 1 == |stages| && route.regressions == s.regressions
    case Fail(_) => !Accepts(stages[p], e) && !Regresses(stages, s, p, e, max) && route.regressions == s.regressions
  }

  lemma OutcomeFits(stages: Stages, s: PipelineState, p: nat, e: Execution, max: nat, at: Time)
    requires WellCompiled(stages) && p < |stages|
    ensures var o := OutcomeOf(stages, s, p, e, max, at);
      && RouteFits(stages, s, p, e, max, o.route) && (o.decision.passed <==> o.decision.kind == Passed)
      && o.decision.findings == ReportedFindings(stages[p], e) && o.execution == e && o.stageId == stages[p].id
  {
    var o := OutcomeOf(stages, s, p, e, max, at);
    hide WellCompiled, CheckStageDecision, RouteStageDecision, Accepts, GateRejects, ReportedFindings;
    KindIff(stages[p], e);
    match o.route.action {
      case Regress(target) => RouteIff(stages, p, e, s.regressions, max, target);
      case Continue(next) => RouteIff(stages, p, e, s.regressions, max, next);
      case Complete => RouteIff(stages, p, e, s.regressions, max, "");
      case Fail(_) => RouteIff(stages, p, e, s.regressions, max, if stages[p].onFail.Some? then stages[p].onFail.value else "");
        if Accepts(stages[p], e) && p + 1 < |stages| {
          RouteIff(stages, p, e, s.regressions, max, stages[p + 1].id);
        }
    }
  }

  lemma SettlingShows(stages: Stages, s: PipelineState, p: nat, e: Execution, max: nat, at: Time)
    requires WellCompiled(stages) && Inv(stages, s) && p < |stages| && StageAt(s.stages, stages, p).status.StageRunning?
    requires ValidExecution(e) && IsIsoTimestamp(at)
    ensures SettleShows(stages, s, Apply(stages, s, Settle(p, e, max, at)), p, e, max, at)
  {
    hide Inv, WellCompiled, RecordOk, CheckStageDecision, RouteStageDecision, Accepts, GateRejects, ReportedFindings, AttemptRecorded,
         ValidExecution, IsIsoTimestamp, Untouched, StageAt, Recorded, RegressesTo, Regresses, SettleShows, NamesEarlier,
         ResetRegressionTarget, WithStage;
    var o := OutcomeOf(stages, s, p, e, max, at);
    var base := Recorded(stages, s, o);
    InvStage(stages, s, p);
    OutcomeFits(stages, s, p, e, max, at);
    BuiltAttempt(stages[p], StageAt(s.stages, stages, p), o, e, at);
    RecordedKeepsInv(stages, s, p, o);
    InvStage(stages, base, p);
    RecordedShows(stages, s, p, o);
    AppliedOutcome(stages, s, o);
    var t := ApplyStageOutcome(s, o);
    match o.route.action {
      case Regress(target) => RegressionSettles(stages, s, base, t, p, o, e, max, at);
      case Continue(next) => HandoffSettles(stages, s, base, t, p, o, e, max, at);
      case Complete => EndSettles(stages, s, base, p, o, e, max, at);
      case Fail(_) => EndSettles(stages, s, base, p, o, e, max, at);
    }
  }

  /** Recording, then following the route. */
  lemma AppliedOutcome(stages: Stages, s: PipelineState, o: Outcome)
    ensures var base := Recorded(stages, s, o);
      match o.route.action
      case Regress(target) => ApplyStageOutcome(s, o) == ResetRegressionTarget(base, target, o.decision.findings, HandoffOf(o.execution))
      case Continue(next) => ApplyStageOutcome(s, o) == WithStage(base, StageOf(base, next).(upstreamHandoff := HandoffOf(o.execution)))
      case Complete => ApplyStageOutcome(s, o) == base
      case Fail(_) => ApplyStageOutcome(s, o) == base
  {
    hide ResetRegressionTarget, BuildFinishedStage;
  }

  lemma EndSettles(stages: Stages, s: PipelineState, base: PipelineState, p: nat, o: Outcome, e: Execution, max: nat, at: Time)
    requires p < |stages| && Noted(stages, s, base, p, o, e, at) && o.route.regressions == s.regressions
    requires !Regresses(stages, s, p, e, max) && (Accepts(stages[p], e) ==> p + 1 == |stages|)
    ensures SettleShows(stages, s, base, p, e, max, at)
  {
    hide RecordOk, GateRejects, Accepts, AttemptRecorded, Untouched, StageAt;
  }

  lemma InvStage(stages: Stages, s: PipelineState, p: nat)
    requires Inv(stages, s) && p < |stages|
    ensures RecordOk(stages, s) && StageAt(s.stages, stages, p).id == stages[p].id
  {
    hide ApprovalOk, ArchiveOk, RunningOk, HeaderOk, RecordOk;
    KnownStage(stages, s, p);
  }

  /** An attempt recorded, with what is known of it, before the route is followed. */
  ghost predicate Noted(stages: Stages, s: PipelineState, base: PipelineState, p: nat, o: Outcome, e: Execution, at: Time)
    requires p < |stages|
  {
    && Untouched(stages, s, base, {p}) && RecordOk(stages, base)
    && AttemptRecorded(stages[p], StageAt(s.stages, stages, p), StageAt(base.stages, stages, p), e, at)
    && base == s.(stages := base.stages, regressions := o.route.regressions, economics := base.economics)
    && AddsUsage(s.economics, e.usage, base.economics)
  }

  lemma RegressionSettles(stages: Stages, s: PipelineState, base: PipelineState, t: PipelineState, p: nat, o: Outcome, e: Execution, max: nat, at: Time)
    requires WellCompiled(stages) && p < |stages| && Noted(stages, s, base, p, o, e, at) && o.route.action.Regress? && o.execution == e
    requires RegressesTo(stages, p, e, s.regressions, max, o.route.action.target)
    requires o.route.regressions == s.regressions + 1 && o.decision.findings == ReportedFindings(stages[p], e)
    requires t == ResetRegressionTarget(base, o.route.action.target, o.decision.findings, HandoffOf(e))
    ensures SettleShows(stages, s, t, p, e, max, at)
  {
    HandoffIsHandedOn(e);
    hide RecordOk, GateRejects, ReportedFindings, AttemptRecorded, Untouched, StageAt, SentBack, ResetRegressionTarget, AddsUsage, HandsOn, HandoffOf;
    var k :| 0 <= k < p && stages[k].id == o.route.action.target;
    RegressionShows(stages, base, k, o.decision.findings, HandoffOf(e));
    TouchedTwice(stages, s, base, t, p, k);
    assert forall j :: 0 <= j < |stages| && stages[j].id == stages[k].id ==> j == k;
  }

  lemma AcceptedDoesNotRegress(stages: Stages, s: PipelineState, p: nat, e: Execution, max: nat)
    requires p < |stages| && Accepts(stages[p], e)
    ensures !Regresses(stages, s, p, e, max)
  {
  }

  lemma FieldsKept(s: PipelineState, base: PipelineState, t: PipelineState)
    requires base == s.(stages := base.stages, regressions := s.regressions, economics := base.economics) && t == base.(stages := t.stages)
    ensures t == s.(stages := t.stages, economics := t.economics) && t.economics == base.economics
  {
  }

  lemma HandoffSettles(stages: Stages, s: PipelineState, base: PipelineState, t: PipelineState, p: nat, o: Outcome, e: Execution, max: nat, at: Time)
    requires WellCompiled(stages) && p + 1 < |stages| && Noted(stages, s, base, p, o, e, at) && Accepts(stages[p], e)
    requires o.route.regressions == s.regressions
    requires t == WithStage(base, StageOf(base, stages[p + 1].id).(upstreamHandoff := HandoffOf(e)))
    ensures SettleShows(stages, s, t, p, e, max, at)
  {
    hide RecordOk, Accepts, AttemptRecorded, Untouched, StageAt, WithStage, StageOf, WellCompiled, Regresses, AddsUsage, HandsOn, HandoffOf,
         SettleShows;
    HandoffIsHandedOn(e);
    AcceptedDoesNotRegress(stages, s, p, e, max);
    HandoffShows(stages, base, p + 1, HandoffOf(e));
    TouchedTwice(stages, s, base, t, p, p + 1);
    FieldsKept(s, base, t);
    WentOn(stages, s, t, p, e, max, at);
  }

  /** The description of a pass that hands on, put together. */
  lemma WentOn(stages: Stages, s: PipelineState, t: PipelineState, p: nat, e: Execution, max: nat, at: Time)
    requires p + 1 < |stages| && Accepts(stages[p], e) && !Regresses(stages, s, p, e, max)
    requires AttemptRecorded(stages[p], StageAt(s.stages, stages, p), StageAt(t.stages, stages, p), e, at)
    requires AddsUsage(s.economics, e.usage, t.economics) && t == s.(stages := t.stages, economics := t.economics)
    requires Untouched(stages, s, t, {p, p + 1}) && HandsOn(e, StageAt(t.stages, stages, p + 1).upstreamHandoff)
    requires StageAt(t.stages, stages, p + 1)
             == StageAt(s.stages, stages, p + 1).(upstreamHandoff := StageAt(t.stages, stages, p + 1).upstreamHandoff)
    ensures SettleShows(stages, s, t, p, e, max, at)
  {
    hide Accepts, AttemptRecorded, Untouched, StageAt, Regresses, AddsUsage, HandsOn;
  }

  lemma SentBackFrom(stages: Stages, s: PipelineState, k: nat, findings: Option<seq<string>>)
    requires WellCompiled(stages) && RecordOk(stages, s) && k < |stages|
    ensures stages[k].id in Ids(stages)
    ensures var t := ResetStageAndDownstream(s, Ids(stages), stages[k].id, findings);
      && SendsBackFrom(stages, s, t, k, findings)
      && t == s.(stages := t.stages, status := Running, currentStage := None, finishedAt := None, reviewCheckpoint := None, finalScopeReceipt := None)
  {
    hide WellCompiled, IndexOf, ResetStages, StageOk, TotalUsage, IdSet, Ids, StageAt;
    IdAt(stages, k);
    IndexAt(stages, k);
    var t := ResetStageAndDownstream(s, Ids(stages), stages[k].id, findings);
    assert t.stages == ResetStages(s.stages, Ids(stages), k, findings);
    KeysAfterReset(s.stages, Ids(stages), k, findings);
    forall q | 0 <= q < |stages|
      ensures StageAt(t.stages, stages, q) == ResetOne(StageAt(s.stages, stages, q), q, k, findings)
    {
      ResetStageAt(stages, s.stages, q, k, findings);
      assert ResetAt(stages, s.stages, q, k, findings);
    }
  }

  lemma KeysAfterReset(record: StageMap, ids: seq<string>, k: nat, findings: Option<seq<string>>)
    ensures ResetStages(record, ids, k, findings).Keys == record.Keys
  {
  }

  lemma InvalidationShows(stages: Stages, s: PipelineState)
    requires WellCompiled(stages) && Inv(stages, s) && s.reviewCheckpoint.Some?
    ensures Shows(stages, s, InvalidateReview, Apply(stages, s, InvalidateReview))
  {
    hide RecordOk, ArchiveOk, RunningOk, HeaderOk, CheckpointOk, WellCompiled, SendsBackFrom, ResetStageAndDownstream;
    CheckpointInIds(stages, s);
    var id := s.reviewCheckpoint.value.qualityGate.stageId;
    var u := s.(regressions := s.regressions + 1);
    forall k | 0 <= k < |stages| && stages[k].id == id
      ensures SendsBackFrom(stages, s, InvalidateReviewApproval(s, Ids(stages), id), k, None)
    {
      CounterIsNoRecord(stages, s);
      SentBackFrom(stages, u, k, None);
      CounterIsNoReset(stages, s, InvalidateReviewApproval(s, Ids(stages), id), k);
    }
    var k := PositionOf(stages, id);
    CounterIsNoRecord(stages, s);
    SentBackFrom(stages, u, k, None);
  }

  lemma CounterIsNoRecord(stages: Stages, s: PipelineState)
    requires RecordOk(stages, s)
    ensures RecordOk(stages, s.(regressions := s.regressions + 1))
  {
    hide StageOk;
  }

  lemma CounterIsNoReset(stages: Stages, s: PipelineState, t: PipelineState, k: nat)
    requires SendsBackFrom(stages, s.(regressions := s.regressions + 1), t, k, None)
    ensures SendsBackFrom(stages, s, t, k, None)
  {
    hide SentBack;
  }

  lemma CorrectingShows(stages: Stages, s: PipelineState, c: Correction)
    requires WellCompiled(stages) && Inv(stages, s) && MayCorrect(stages, s, c)
    ensures Shows(stages, s, Correct(c), Apply(stages, s, Correct(c)))
  {
    hide RecordOk, ApprovalOk, ArchiveOk, RunningOk, HeaderOk, WellCompiled, SendsBackFrom, ResetStageAndDownstream, InferResetTarget;
    CorrectionInIds(stages, s, c);
    var k := PositionOf(stages, c.resetTargetStageId);
    SentBackFrom(stages, s, k, Some([c.reason]));
    var u := ResetStageAndDownstream(s, Ids(stages), c.resetTargetStageId, Some([c.reason]));
    ArchivingIsNoReset(stages, s, u, Apply(stages, s, Correct(c)), k, Some([c.reason]));
    assert forall j :: 0 <= j < |stages| && stages[j].id == c.resetTargetStageId ==> j == k by {
      SameId(stages, k);
    }
  }

  lemma SameId(stages: Stages, k: nat)
    requires WellCompiled(stages) && k < |stages|
    ensures forall j :: 0 <= j < |stages| && stages[j].id == stages[k].id ==> j == k
  {
  }

  lemma ArchivingIsNoReset(stages: Stages, s: PipelineState, u: PipelineState, t: PipelineState, k: nat, findings: Option<seq<string>>)
    requires SendsBackFrom(stages, s, u, k, findings) && t == u.(version := t.version, superseded := t.superseded)
    ensures SendsBackFrom(stages, s, t, k, findings)
  {
    hide SentBack;
  }

  lemma ReconcilingShows(stages: Stages, s: PipelineState, now: Time)
    requires Inv(stages, s)
    ensures Shows(stages, s, ReconcileLoaded(now), Apply(stages, s, ReconcileLoaded(now)))
  {
    hide ApprovalOk, ArchiveOk, RunningOk, HeaderOk, StageOk, ReconcileStages, TotalUsage;
    var t := ReconcileState(s, Ids(stages), now);
    forall q | 0 <= q < |stages|
      ensures RunsAgain(StageAt(s.stages, stages, q), StageAt(t.stages, stages, q))
      ensures StageAt(t.stages, stages, q).history == StageAt(s.stages, stages, q).history
    {
      ReconciledStage(stages, s, q);
    }
    ReconcilingKeepsUsage(stages, s);
    assert t.stages.Keys == s.stages.Keys;
  }

  lemma ReconcilingKeepsUsage(stages: Stages, s: PipelineState)
    requires RecordOk(stages, s)
    ensures TotalUsage(Ids(stages), ReconcileStages(s, Ids(stages))) == s.economics
    ensures ReconcileStages(s, Ids(stages)).Keys == s.stages.Keys
  {
    var record := ReconcileStages(s, Ids(stages));
    forall id | id in Ids(stages) ensures id in s.stages && record[id].history == s.stages[id].history {
      var q := PositionOf(stages, id);
      ReconciledStage(stages, s, q);
    }
    hide StageOk;
    SameHistoriesSameUsage(Ids(stages), s.stages, record);
    assert record.Keys == IdSet(stages);
  }

  lemma AdoptingShows(s: PipelineState, def: RunDef)
    ensures AdoptShows(s, AdoptRunDef(s, def), def)
  {
  }

  lemma AttachingShows(stages: Stages, s: PipelineState, e: Event)
    requires HeaderOk(s) && (e.AttachReview? || (e.AttachFinal? && MayAttachFinal(stages, s, e.receipt)))
    ensures Shows(stages, s, e, Apply(stages, s, e))
  {
    hide AllComplete, ValidReceipt, Disjoint, HasReview, FreshId, LastPassed, FinalQualityGate, ValidIdentity;
  }

  /** Every enabled event leaves exactly the state described, on every state in order. */
  lemma EventShows(stages: Stages, s: PipelineState, e: Event)
    requires WellCompiled(stages) && Inv(stages, s) && Enabled(stages, s, e)
    ensures Shows(stages, s, e, Apply(stages, s, e))
  {
    hide RecordOk, ApprovalOk, ArchiveOk, RunningOk, HeaderOk, WellCompiled, AtPosition, ValidExecution, MayAttachReview, MayAttachFinal, MayCorrect,
         MayAdopt, AllComplete, SettleShows, ReconcileShows, AdoptShows, SendsBackFrom, Untouched, StageAt;
    match e {
      case MarkRunning(p, at) => MarkingShows(stages, s, p, at);
      case Settle(p, execution, max, at) => SettlingShows(stages, s, p, execution, max, at);
      case ExecutorError(p, at) => ErrorShows(stages, s, p, at);
      case AttachReview(_, _) => AttachingShows(stages, s, e);
      case AttachFinal(_) => AttachingShows(stages, s, e);
      case InvalidateReview => InvalidationShows(stages, s);
      case Finalize(_, _) =>
      case Correct(c) => CorrectingShows(stages, s, c);
      case ReconcileLoaded(now) => ReconcilingShows(stages, s, now);
      case Adopt(def) => AdoptingShows(s, def);
    }
  }

  /** Every save of every run is what its event describes. */
  lemma SavesShow(stages: Stages, states: seq<PipelineState>, events: seq<Event>, i: nat)
    requires WellCompiled(stages) && History(stages, states, events) && Inv(stages, states[0]) && i < |events|
    ensures Shows(stages, states[i], events[i], states[i + 1])
  {
    hide Inv, Enabled, Apply, Shows;
    HistoryKeepsInv(stages, states, events, i);
    EventShows(stages, states[i], events[i]);
  }

  // ----- What a stage has to answer survives every crash -----

  /** Neither settles an attempt nor sends a stage back. */
  predicate Carries(e: Event) {
    !e.Settle? && !e.ExecutorError? && !e.InvalidateReview? && !e.Correct?
  }

  ghost predicate SameTask(a: StageState, b: StageState) {
    a.findings == b.findings && a.upstreamHandoff == b.upstreamHandoff && a.history == b.history
  }

  lemma EventCarries(stages: Stages, s: PipelineState, e: Event, q: nat)
    requires WellCompiled(stages) && Inv(stages, s) && Enabled(stages, s, e) && Carries(e) && q < |stages|
    ensures SameTask(StageAt(s.stages, stages, q), StageAt(Apply(stages, s, e).stages, stages, q))
  {
    hide Inv, WellCompiled, Enabled, Apply;
    EventShows(stages, s, e);
    if e.ReconcileLoaded? {
      assert RunsAgain(StageAt(s.stages, stages, q), StageAt(Apply(stages, s, e).stages, stages, q));
    }
  }

  /**
   Between two settled attempts, over any number of crashes, repairs and adoptions, no stage loses the
   findings it has to answer or the handoff it was given.
   */
  lemma {:induction false} TasksSurvive(stages: Stages, states: seq<PipelineState>, events: seq<Event>, i: nat, j: nat, q: nat)
    requires WellCompiled(stages) && History(stages, states, events) && Inv(stages, states[0]) && i <= j < |states| && q < |stages|
    requires forall m :: i <= m < j ==> Carries(events[m])
    ensures SameTask(StageAt(states[i].stages, stages, q), StageAt(states[j].stages, stages, q))
    decreases j
  {
    hide Inv, Enabled, Apply, StageAt, Carries;
    if i < j {
      TasksSurvive(stages, states, events, i, j - 1, q);
      HistoryKeepsInv(stages, states, events, j - 1);
      EventCarries(stages, states[j - 1], events[j - 1], q);
    }
  }

  /**
   A rejected gate reaches its target: until the next attempt is settled the stage named by `onFail`
   holds exactly the findings of the gate and the handoff of the child, and its record.
   */
  lemma RejectionReachesItsTarget(stages: Stages, states: seq<PipelineState>, events: seq<Event>, i: nat, j: nat, k: nat)
    requires WellCompiled(stages) && History(stages, states, events) && Inv(stages, states[0]) && i < j < |states|
    requires events[i].Settle? && forall m :: i < m < j ==> Carries(events[m])
    requires var p := events[i].p;
      p < |stages| && Regresses(stages, states[i], p, events[i].execution, events[i].maxRegressions)
      && k < |stages| && stages[p].onFail == Some(stages[k].id)
    ensures var e, stage := events[i].execution, StageAt(states[j].stages, stages, k);
      && stage.history == StageAt(states[i].stages, stages, k).history
      && (stages[events[i].p].CodeStage? ==> stage.findings == e.findings && e.findings.Some? && e.findings.value != [])
      && (stages[events[i].p].AgentStage? ==> e.output.Some? && stage.findings == e.output.value.verdict.findings)
      && stage.upstreamHandoff == if e.output.Some? then e.output.value.handoff else None
  {
    hide Inv, WellCompiled, Enabled, Apply, StageAt, Carries, Untouched, AttemptRecorded, NamesEarlier;
    SavesShow(stages, states, events, i);
    TasksSurvive(stages, states, events, i + 1, j, k);
  }

  /** What a passed child hands on reaches the next stage, which keeps the findings it had. */
  lemma HandoffReachesTheSuccessor(stages: Stages, states: seq<PipelineState>, events: seq<Event>, i: nat, j: nat)
    requires WellCompiled(stages) && History(stages, states, events) && Inv(stages, states[0]) && i < j < |states|
    requires events[i].Settle? && forall m :: i < m < j ==> Carries(events[m])
    requires events[i].p + 1 < |stages| && Accepts(stages[events[i].p], events[i].execution)
    ensures var e, p := events[i].execution, events[i].p;
      var stage := StageAt(states[j].stages, stages, p + 1);
      && stage.findings == StageAt(states[i].stages, stages, p + 1).findings
      && stage.upstreamHandoff == if e.output.Some? then e.output.value.handoff else None
  {
    hide Inv, WellCompiled, Enabled, Apply, StageAt, Carries, Untouched, AttemptRecorded, NamesEarlier;
    SavesShow(stages, states, events, i);
    TasksSurvive(stages, states, events, i + 1, j, events[i].p + 1);
  }

  /** The reason of a correction reaches the reset target, and no other stage has anything to answer. */
  lemma CorrectionReachesItsTarget(stages: Stages, states: seq<PipelineState>, events: seq<Event>, i: nat, j: nat, k: nat, q: nat)
    requires WellCompiled(stages) && History(stages, states, events) && Inv(stages, states[0]) && i < j < |states|
    requires events[i].Correct? && forall m :: i < m < j ==> Carries(events[m])
    requires k <= q < |stages| && stages[k].id == events[i].correction.resetTargetStageId
    ensures var stage := StageAt(states[j].stages, stages, q);
      && stage.findings == (if q == k then Some([events[i].correction.reason]) else None) && stage.upstreamHandoff == None
      && stage.history == StageAt(states[i].stages, stages, q).history
  {
    hide Inv, WellCompiled, Enabled, Apply, StageAt, Carries;
    SavesShow(stages, states, events, i);
    TasksSurvive(stages, states, events, i + 1, j, q);
  }
}
