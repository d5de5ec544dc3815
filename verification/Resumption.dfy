/** Where a later run resumes after a crash, and what that means for stages behind a regression. */
module Resumption {
  import opened Basics
  import opened RunDefs
  import opened PipelineStates
  import opened Routing
  import opened Transitions
  import opened Validation
  import opened Reconcile
  import opened Durable
  import opened Steps
  import opened Approvals
  import opened Recovery
  import opened Protocol
  import opened Theorems
  import opened Runner

  /** A crash at position `p` resumes there exactly when the stage at `p` is not complete already. */
  lemma ResumesWhereItStood(stages: Stages, s: PipelineState, p: nat, now: Time)
    requires WellCompiled(stages) && Inv(stages, s) && AtPosition(stages, s, p)
    ensures var resumed := FirstIncomplete(ReconcileState(s, Ids(stages), now), stages);
            p <= resumed && (resumed == p <==> p == |stages| || !IsComplete(StageAt(s.stages, stages, p).status))
  {
    InvRecord(stages, s);
    PositionPrefixOnly(stages, s, p);
    hide Inv, RecordOk, WellCompiled, AtPosition, StageAt, ReconcileState, Prefix, IsComplete;
    var t := ReconcileState(s, Ids(stages), now);
    forall q | 0 <= q < |stages| ensures SameCompletion(stages, s, t, q) {
      CompletionIsKept(stages, s, q, now);
    }
    FirstIncompleteAt(stages, s, t, p);
  }

  ghost predicate SameCompletion(stages: Stages, s: PipelineState, t: PipelineState, q: nat)
    requires q < |stages|
  {
    IsComplete(StageOf(t, stages[q].id).status) <==> IsComplete(StageAt(s.stages, stages, q).status)
  }

  lemma CompletionIsKept(stages: Stages, s: PipelineState, q: nat, now: Time)
    requires RecordOk(stages, s) && q < |stages|
    ensures SameCompletion(stages, s, ReconcileState(s, Ids(stages), now), q)
  {
    hide RecordOk, StageOk, StageGrows, TotalUsage;
    ReconciledStage(stages, s, q);
  }

  lemma PositionPrefixOnly(stages: Stages, s: PipelineState, p: nat)
    requires AtPosition(stages, s, p)
    ensures p <= |stages| && Prefix(stages, s.stages, p)
  {
  }

  lemma FirstIncompleteAt(stages: Stages, s: PipelineState, t: PipelineState, p: nat)
    requires p <= |stages| && Prefix(stages, s.stages, p)
    requires forall q :: 0 <= q < |stages| ==> SameCompletion(stages, s, t, q)
    ensures var resumed := FirstIncomplete(t, stages);
            p <= resumed && (resumed == p <==> p == |stages| || !IsComplete(StageAt(s.stages, stages, p).status))
  {
    hide StageOf, StageAt, IsComplete;
    var resumed := FirstIncomplete(t, stages);
    if resumed < |stages| {
      assert SameCompletion(stages, s, t, resumed);
    }
    if p < |stages| {
      assert SameCompletion(stages, s, t, p);
    }
  }

  // ----- A regression followed by a crash -----

  const CLEAN := Execution(None, Some(0), 0.0, None, None, None, false, false)
  const REFUSED := Execution(None, Some(1), 0.0, None, Some(["finding"]), None, false, false)
  const NOON := "2024-01-01T12:00:00Z"

  ghost predicate AtEnd(stages: Stages, states: seq<PipelineState>, events: seq<Event>, p: nat) {
    && states != [] && History(stages, states, events) && Inv(stages, states[|states| - 1]) && AtPosition(stages, states[|states| - 1], p)
  }

  /** Statuses and attempts agree everywhere but at `p`. */
  ghost predicate OthersKept(stages: Stages, a: StageMap, b: StageMap, p: nat) {
    forall q :: 0 <= q < |stages| && q != p ==>
      StageAt(b, stages, q).status == StageAt(a, stages, q).status && StageAt(b, stages, q).attempts == StageAt(a, stages, q).attempts
  }

  /** Running a code stage once, whatever comes of it. */
  lemma RunsOnce(stages: Stages, states: seq<PipelineState>, events: seq<Event>, p: nat, execution: Execution)
    returns (states': seq<PipelineState>, events': seq<Event>, marked: PipelineState)
    requires WellCompiled(stages) && AtEnd(stages, states, events, p) && p < |stages| && ValidExecution(execution)
    ensures states' != [] && History(stages, states', events') && Inv(stages, states'[|states'| - 1])
    ensures marked == MarkStageRunning(states[|states| - 1], stages[p].id, NOON) && states'[0] == states[0]
    ensures var o := OutcomeOf(stages, marked, p, execution, 9, NOON);
            states'[|states'| - 1] == ApplyStageOutcome(marked, o) && MovedTo(stages, marked, states'[|states'| - 1], p, o.route)
  {
    hide Inv, WellCompiled, AtPosition, MarkStageRunning, ApplyStageOutcome, MovedTo, SameCore, StateGrows, ValidExecution;
    var s := states[|states| - 1];
    MarkRunningKeepsInv(stages, s, p, NOON);
    HistoryExtends(stages, states, events, MarkRunning(p, NOON));
    marked := MarkStageRunning(s, stages[p].id, NOON);
    var mid := states + [marked];
    SettleKeepsInv(stages, marked, p, execution, 9, NOON);
    HistoryExtends(stages, mid, events + [MarkRunning(p, NOON)], Settle(p, execution, 9, NOON));
    states' := mid + [Apply(stages, marked, Settle(p, execution, 9, NOON))];
    events' := events + [MarkRunning(p, NOON)] + [Settle(p, execution, 9, NOON)];
  }

  lemma PassStage(stages: Stages, states: seq<PipelineState>, events: seq<Event>, p: nat)
    returns (states': seq<PipelineState>, events': seq<Event>)
    requires WellCompiled(stages) && AtEnd(stages, states, events, p) && p + 1 < |stages| && stages[p].CodeStage?
    ensures AtEnd(stages, states', events', p + 1) && states'[0] == states[0]
    ensures var s, t := states[|states| - 1], states'[|states'| - 1];
      && OthersKept(stages, s.stages, t.stages, p) && t.regressions == s.regressions
      && StageAt(t.stages, stages, p).status.StagePassed? && StageAt(t.stages, stages, p).attempts == StageAt(s.stages, stages, p).attempts + 1
  {
    hide Inv, AtPosition, History, ApplyStageOutcome, MarkStageRunning, StageAt, NextStage, RecordOk, WellCompiled, CheckStageDecision, MovedTo;
    var marked;
    states', events', marked := RunsOnce(stages, states, events, p, CLEAN);
    StageAtItsIndex(stages, p);
    CleanPasses(stages, p);
    CleanMovesOn(stages, marked, states'[|states'| - 1], p);
    InvRecord(stages, states[|states| - 1]);
    KnownStage(stages, states[|states| - 1], p + 1);
    PassKeepsCounter(stages, states[|states| - 1], p);
    var a, b := states[|states| - 1].stages, states'[|states'| - 1].stages;
    forall q | 0 <= q < |stages| ensures PassedAt(stages, a, b, p, q) {
      PassChangesOneStage(stages, states[|states| - 1], p, q);
    }
    assert PassedAt(stages, a, b, p, p);
    forall q | 0 <= q < |stages| && q != p
      ensures StageAt(b, stages, q).status == StageAt(a, stages, q).status && StageAt(b, stages, q).attempts == StageAt(a, stages, q).attempts
    {
      assert PassedAt(stages, a, b, p, q);
    }
  }

  lemma PassKeepsCounter(stages: Stages, s: PipelineState, p: nat)
    requires WellCompiled(stages) && p + 1 < |stages| && stages[p].CodeStage?
    ensures var marked := MarkStageRunning(s, stages[p].id, NOON);
            ApplyStageOutcome(marked, OutcomeOf(stages, marked, p, CLEAN, 9, NOON)).regressions == s.regressions
  {
    NextOfPosition(stages, p);
  }

  lemma CleanPasses(stages: Stages, p: nat)
    requires WellCompiled(stages) && p + 1 < |stages| && stages[p].CodeStage?
    ensures CheckStageDecision(stages[p], CLEAN) == Decision(Passed, true, None)
  {
  }

  lemma CleanMovesOn(stages: Stages, s: PipelineState, t: PipelineState, p: nat)
    requires WellCompiled(stages) && p + 1 < |stages| && CheckStageDecision(stages[p], CLEAN).passed
    requires MovedTo(stages, s, t, p, OutcomeOf(stages, s, p, CLEAN, 9, NOON).route)
    ensures AtPosition(stages, t, p + 1)
  {
    hide AtPosition, Calm, CheckStageDecision;
    NextOfPosition(stages, p);
  }

  lemma NextOfPosition(stages: Stages, p: nat)
    requires WellCompiled(stages) && p + 1 < |stages|
    ensures NextStage(stages, stages[p].id) == Some(stages[p + 1])
  {
    StageAtItsIndex(stages, p);
  }

  ghost predicate PassedAt(stages: Stages, a: StageMap, b: StageMap, p: nat, q: nat)
    requires q < |stages|
  {
    if q == p then StageAt(b, stages, q).status.StagePassed? && StageAt(b, stages, q).attempts == StageAt(a, stages, q).attempts + 1
    else StageAt(b, stages, q).status == StageAt(a, stages, q).status && StageAt(b, stages, q).attempts == StageAt(a, stages, q).attempts
  }

  /** The record after a clean attempt: the stage finished, its successor handed the output. */
  lemma PassRecord(stages: Stages, s: PipelineState, p: nat)
    requires WellCompiled(stages) && p + 1 < |stages| && stages[p].CodeStage?
    ensures var marked := MarkStageRunning(s, stages[p].id, NOON);
            var o := OutcomeOf(stages, marked, p, CLEAN, 9, NOON);
            var next := StageOf(s, stages[p + 1].id).(upstreamHandoff := HandoffOf(CLEAN));
            && BuildFinishedStage(StageOf(marked, stages[p].id), o).status.StagePassed?
            && BuildFinishedStage(StageOf(marked, stages[p].id), o).attempts == StageOf(s, stages[p].id).attempts + 1
            && ApplyStageOutcome(marked, o).stages
               == s.stages[stages[p].id := BuildFinishedStage(StageOf(marked, stages[p].id), o)][next.id := next]
  {
    NextOfPosition(stages, p);
    CleanPasses(stages, p);
    assert stages[p].id != stages[p + 1].id;
    hide WellCompiled, CheckStageDecision, NextStage, BuildAttempt;
    var marked := MarkStageRunning(s, stages[p].id, NOON);
    assert OutcomeOf(stages, marked, p, CLEAN, 9, NOON).route == Route(Continue(stages[p + 1].id), s.regressions);
  }

  lemma PassChangesOneStage(stages: Stages, s: PipelineState, p: nat, q: nat)
    requires WellCompiled(stages) && p + 1 < |stages| && q < |stages| && stages[p].CodeStage?
    requires StageAt(s.stages, stages, p + 1).id == stages[p + 1].id
    ensures var marked := MarkStageRunning(s, stages[p].id, NOON);
            var t := ApplyStageOutcome(marked, OutcomeOf(stages, marked, p, CLEAN, 9, NOON));
            PassedAt(stages, s.stages, t.stages, p, q)
  {
    assert q != p ==> stages[q].id != stages[p].id;
    assert q != p + 1 ==> stages[q].id != stages[p + 1].id;
    PassRecord(stages, s, p);
    hide WellCompiled, ApplyStageOutcome, MarkStageRunning, BuildFinishedStage, OutcomeOf;
  }

  lemma RefuseStage(stages: Stages, states: seq<PipelineState>, events: seq<Event>, p: nat, k: nat)
    returns (states': seq<PipelineState>, events': seq<Event>)
    requires WellCompiled(stages) && AtEnd(stages, states, events, p) && k < p < |stages| && stages[p].CodeStage?
    requires stages[p].onFail == Some(stages[k].id) && states[|states| - 1].regressions < 9
    ensures AtEnd(stages, states', events', k) && states'[0] == states[0]
    ensures var s, t := states[|states| - 1], states'[|states'| - 1];
      && (forall q :: 0 <= q < |stages| && q != p ==> StageAt(t.stages, stages, q).attempts == StageAt(s.stages, stages, q).attempts)
      && (forall q :: 0 <= q < |stages| && q != p && q != k ==> StageAt(t.stages, stages, q).status == StageAt(s.stages, stages, q).status)
      && StageAt(t.stages, stages, p).status.StageFailed?
  {
    hide Inv, AtPosition, History, ApplyStageOutcome, MarkStageRunning, RecordOk, WellCompiled, CheckStageDecision, OutcomeOf;
    var marked;
    states', events', marked := RunsOnce(stages, states, events, p, REFUSED);
    RefusalMovesBack(stages, marked, states'[|states'| - 1], p, k, states[|states| - 1]);
    RefusalRecord(stages, states[|states| - 1], p, k);
    RefusedElsewhere(stages, states[|states| - 1].stages, states'[|states'| - 1].stages, p, k);
  }

  lemma RefusedRoute(stages: Stages, marked: PipelineState, p: nat, k: nat)
    requires WellCompiled(stages) && k < p < |stages| && stages[p].CodeStage? && stages[p].onFail == Some(stages[k].id)
    requires marked.regressions < 9
    ensures OutcomeOf(stages, marked, p, REFUSED, 9, NOON).route == Route(Regress(stages[k].id), marked.regressions + 1)
    ensures !OutcomeOf(stages, marked, p, REFUSED, 9, NOON).decision.passed
  {
    StageAtItsIndex(stages, k);
    assert CheckStageDecision(stages[p], REFUSED) == Decision(GateFailed, false, REFUSED.findings);
  }

  lemma RefusalMovesBack(stages: Stages, marked: PipelineState, t: PipelineState, p: nat, k: nat, s: PipelineState)
    requires WellCompiled(stages) && k < p < |stages| && stages[p].CodeStage? && stages[p].onFail == Some(stages[k].id)
    requires marked == MarkStageRunning(s, stages[p].id, NOON) && s.regressions < 9
    requires MovedTo(stages, marked, t, p, OutcomeOf(stages, marked, p, REFUSED, 9, NOON).route)
    ensures AtPosition(stages, t, k)
  {
    hide AtPosition, Calm, OutcomeOf;
    RefusedRoute(stages, marked, p, k);
    StageAtItsIndex(stages, k);
  }

  /** The record after a refusal: the stage failed, its target pending with the attempts it had. */
  ghost predicate RefusedRecord(stages: Stages, a: StageMap, b: StageMap, p: nat, k: nat)
    requires p < |stages| && k < |stages|
  {
    exists failed: StageState, reset: StageState ::
      && b == a[stages[p].id := failed][stages[k].id := reset]
      && failed.status.StageFailed? && reset.attempts == Lookup(a, stages[k].id).attempts
  }

  lemma RefusalRecord(stages: Stages, s: PipelineState, p: nat, k: nat)
    requires WellCompiled(stages) && k < p < |stages| && stages[p].CodeStage? && stages[p].onFail == Some(stages[k].id) && s.regressions < 9
    ensures var marked := MarkStageRunning(s, stages[p].id, NOON);
            RefusedRecord(stages, s.stages, ApplyStageOutcome(marked, OutcomeOf(stages, marked, p, REFUSED, 9, NOON)).stages, p, k)
  {
    var marked := MarkStageRunning(s, stages[p].id, NOON);
    RefusedRoute(stages, marked, p, k);
    assert stages[p].id != stages[k].id;
    hide WellCompiled, CheckStageDecision, BuildAttempt, RouteStageDecision;
    var o := OutcomeOf(stages, marked, p, REFUSED, 9, NOON);
    var failed := BuildFinishedStage(StageOf(marked, stages[p].id), o);
    var reset := StageState(stages[k].id, StagePending, StageOf(s, stages[k].id).attempts, None, None,
                            StageOf(s, stages[k].id).history, o.decision.findings, HandoffOf(REFUSED));
    assert ApplyStageOutcome(marked, o).stages == s.stages[stages[p].id := failed][stages[k].id := reset];
  }

  lemma RefusedElsewhere(stages: Stages, a: StageMap, b: StageMap, p: nat, k: nat)
    requires WellCompiled(stages) && k < p < |stages| && RefusedRecord(stages, a, b, p, k)
    ensures forall q :: 0 <= q < |stages| && q != p ==> StageAt(b, stages, q).attempts == StageAt(a, stages, q).attempts
    ensures forall q :: 0 <= q < |stages| && q != p && q != k ==> StageAt(b, stages, q).status == StageAt(a, stages, q).status
    ensures StageAt(b, stages, p).status.StageFailed?
  {
    forall q | 0 <= q < |stages| && q != p
      ensures StageAt(b, stages, q).attempts == StageAt(a, stages, q).attempts
      ensures q != k ==> StageAt(b, stages, q).status == StageAt(a, stages, q).status
    {
      assert stages[q].id != stages[p].id && (q != k ==> stages[q].id != stages[k].id);
    }
    assert stages[k].id != stages[p].id;
  }

  function PlainStage(id: string, index: nat, onFail: Option<string>): CompiledStage {
    CodeStage(id, index, 60, None, id, [], onFail, None)
  }

  const THREE := [PlainStage("a", 0, None), PlainStage("b", 1, None), PlainStage("c", 2, Some("a"))]

  /**
   After a regression to `a`, a run that is not interrupted reruns `b` before `c`.  When it crashes
   once `a` has passed again, the next run goes straight to `c`: `b` keeps its earlier attempt.
   */
  lemma CrashAfterRegressionSkipsAStage(request: InitialRequest, now: Time) returns (states: seq<PipelineState>, events: seq<Event>)
    ensures WellCompiled(THREE) && History(THREE, states, events) && states[0] == InitialState(request, THREE)
    ensures var s := states[|states| - 1];
      && AtPosition(THREE, s, 1)
      && FirstIncomplete(ReconcileState(s, Ids(THREE), now), THREE) == 2
      && StageAt(s.stages, THREE, 0).attempts == 2 && StageAt(s.stages, THREE, 1).attempts == 1
  {
    hide Inv, AtPosition, History, ReconcileState, FirstIncomplete, StageAt, WellCompiled, InitialState, Ids;
    ThreeIsWellCompiled();
    states, events := FreshHistory(request);
    states, events := PassStage(THREE, states, events, 0);
    states, events := PassStage(THREE, states, events, 1);
    states, events := RefuseStage(THREE, states, events, 2, 0);
    states, events := PassStage(THREE, states, events, 0);
    var s := states[|states| - 1];
    ResumesWhereItStood(THREE, s, 1, now);
    SkipsOne(s, now);
  }

  lemma ThreeIsWellCompiled()
    ensures WellCompiled(THREE)
  {
    assert !IsSpace('a') && !IsSpace('b') && !IsSpace('c');
    assert NonBlank("a") && NonBlank("b") && NonBlank("c") by {
      assert "a"[0] == 'a' && "b"[0] == 'b' && "c"[0] == 'c';
    }
  }

  lemma FreshHistory(request: InitialRequest) returns (states: seq<PipelineState>, events: seq<Event>)
    ensures AtEnd(THREE, states, events, 0) && states == [InitialState(request, THREE)] && events == []
    ensures forall q :: 0 <= q < 3 ==> StageAt(states[0].stages, THREE, q) == InitialStage(THREE[q].id)
    ensures states[0].regressions == 0
  {
    hide Inv;
    states, events := [InitialState(request, THREE)], [];
    InitialInv(request, THREE);
  }

  lemma SkipsOne(s: PipelineState, now: Time)
    requires Inv(THREE, s) && AtPosition(THREE, s, 1)
    requires StageAt(s.stages, THREE, 1).status.StagePassed? && StageAt(s.stages, THREE, 2).status.StageFailed?
    ensures FirstIncomplete(ReconcileState(s, Ids(THREE), now), THREE) == 2
  {
    InvRecord(THREE, s);
    hide Inv, RecordOk, FirstIncomplete, StageOk, StageGrows;
    var t := ReconcileState(s, Ids(THREE), now);
    forall q | 0 <= q < 3
      ensures StageOf(t, THREE[q].id) == StageAt(t.stages, THREE, q)
      ensures StageAt(t.stages, THREE, q).status == StageAt(s.stages, THREE, q).status
              || StageAt(s.stages, THREE, q).status.StageRunning?
    {
      ReconciledStage(THREE, s, q);
    }
  }

  lemma FinalizedByEvent(stages: Stages, s: PipelineState, status: PipelineStatus, at: Time)
    requires MayFinalize(s, status)
    ensures Enabled(stages, s, Finalize(status, at)) && Apply(stages, s, Finalize(status, at)) == FinalizeState(s, status, at)
  {
  }
}
