/** Deciding one stage execution, routing the decision, and classifying the outcome of a step. */
module Routing {
  import opened Basics
  import opened RunDefs
  import opened PipelineStates

  /** What the stage's payload gate says of the payload. */
  datatype GateVerdict = GateVerdict(passed: bool, findings: Option<seq<string>>)

  /**
   Child output: whether its payload is a record, the handoff made from it, and the gate's verdict
   on it.  The gate is a pure function of the payload, so its verdict travels with the payload.
   */
  datatype Output = Output(payloadIsRecord: bool, handoff: Option<string>, verdict: GateVerdict)

  datatype Execution = Execution(
    output: Option<Output>,
    exitCode: Option<int>,
    durationMs: real,
    parseError: Option<string>,
    findings: Option<seq<string>>,
    usage: Option<Economics>,
    timedOut: bool,
    aborted: bool)

  datatype Decision = Decision(kind: AttemptStatus, passed: bool, findings: Option<seq<string>>)

  function Fails(kind: AttemptStatus): Decision {
    Decision(kind, false, None)
  }

  /** The ordered failure checks that precede the payload gate. */
  function ExecutionFailure(stage: CompiledStage, e: Execution): Option<Decision> {
    if e.aborted then Some(Fails(Aborted))
    else if e.timedOut then Some(Fails(TimedOut))
    else if e.parseError.Some? then Some(Fails(ParseError))
    else if stage.AgentStage? && !HasPayload(e) then Some(Fails(AttemptFailed))
    else if stage.CodeStage? && e.exitCode == Some(1) then
      if e.findings.None? || e.findings.value == [] then Some(Fails(AttemptFailed))
      else Some(Decision(GateFailed, false, e.findings))
    else if e.exitCode != Some(0) then Some(Fails(AttemptFailed))
    else None
  }

  predicate HasPayload(e: Execution) {
    e.output.Some? && e.output.value.payloadIsRecord
  }

  predicate HasGate(stage: CompiledStage) {
    stage.AgentStage? && stage.payloadGateName.Some?
  }

  function CheckStageDecision(stage: CompiledStage, e: Execution): Decision {
    match ExecutionFailure(stage, e)
    case Some(failure) => failure
    case None =>
      if !HasPayload(e) || !HasGate(stage) then Decision(Passed, true, None)
      else
        var verdict := e.output.value.verdict;
        Decision(if verdict.passed then Passed else GateFailed, verdict.passed, verdict.findings)
  }

  // ----- What an execution means -----

  /** The child came to its end in time and left what can be read; an agent left a payload. */
  ghost predicate RanToItsEnd(stage: CompiledStage, e: Execution) {
    !e.aborted && !e.timedOut && e.parseError.None? && (stage.AgentStage? ==> e.output.Some? && e.output.value.payloadIsRecord)
  }

  /** It exited 0, and the gate of the stage, if there is one, has no objection. */
  ghost predicate Accepts(stage: CompiledStage, e: Execution) {
    && RanToItsEnd(stage, e) && e.exitCode == Some(0)
    && (stage.AgentStage? && stage.payloadGateName.Some? ==> e.output.value.verdict.passed)
  }

  /** The gate objects: of an agent its payload gate, of a code stage exit code 1 with findings. */
  ghost predicate GateRejects(stage: CompiledStage, e: Execution) {
    && RanToItsEnd(stage, e)
    && (stage.AgentStage? ==> stage.payloadGateName.Some? && e.exitCode == Some(0) && !e.output.value.verdict.passed)
    && (stage.CodeStage? ==> e.exitCode == Some(1) && e.findings.Some? && e.findings.value != [])
  }

  /** The findings an attempt reports: those its gate gave with the verdict, or those lifted from the code stage. */
  ghost function ReportedFindings(stage: CompiledStage, e: Execution): Option<seq<string>> {
    if stage.CodeStage? then if GateRejects(stage, e) then e.findings else None
    else if stage.payloadGateName.Some? && (Accepts(stage, e) || GateRejects(stage, e)) then e.output.value.verdict.findings
    else None
  }

  /** When each kind of attempt is given, for every execution of every stage, and what it reports. */
  lemma KindIff(stage: CompiledStage, e: Execution)
    ensures var d := CheckStageDecision(stage, e);
      && (d.passed <==> Accepts(stage, e))
      && (d.kind == Passed <==> Accepts(stage, e))
      && (d.kind == GateFailed <==> GateRejects(stage, e))
      && (d.kind == Aborted <==> e.aborted)
      && (d.kind == TimedOut <==> e.timedOut && !e.aborted)
      && (d.kind == ParseError <==> e.parseError.Some? && !e.timedOut && !e.aborted)
      && (d.kind == AttemptFailed <==>
           && !e.aborted && !e.timedOut && e.parseError.None?
           && (|| (stage.AgentStage? && (e.output.None? || !e.output.value.payloadIsRecord))
               || (e.exitCode != Some(0) && !GateRejects(stage, e))))
      && d.findings == ReportedFindings(stage, e)
  {
  }

  // ----- Routing -----

  datatype RouteFailure =
    | StageFailure
    | GateFailedWithoutOnFail
    | OnFailTargetMissing
    | OnFailTargetNotEarlier
    | RegressionLimitExceeded

  datatype RouteAction =
    | Continue(next: string)
    | Regress(target: string)
    | Complete
    | Fail(code: RouteFailure)

  datatype Route = Route(action: RouteAction, regressions: nat)

  /** Position of the first stage with this id, or -1. */
  function StageIndex(stages: seq<CompiledStage>, id: string): (r: int)
    ensures -1 <= r < |stages|
    ensures r >= 0 ==> stages[r].id == id && forall i :: 0 <= i < r ==> stages[i].id != id
    ensures r < 0 ==> forall i :: 0 <= i < |stages| ==> stages[i].id != id
  {
    if stages == [] then -1
    else if stages[0].id == id then 0
    else
      var r := StageIndex(stages[1..], id);
      assert forall i :: 0 < i < |stages| ==> stages[i] == stages[1..][i - 1];
      if r < 0 then -1 else r + 1
  }

  function FindStage(stages: seq<CompiledStage>, id: string): Option<CompiledStage> {
    var i := StageIndex(stages, id);
    if i < 0 then None else Some(stages[i])
  }

  function NextStage(stages: seq<CompiledStage>, id: string): Option<CompiledStage> {
    var i := StageIndex(stages, id);
    if i < 0 || i + 1 >= |stages| then None else Some(stages[i + 1])
  }

  function RouteStageDecision(stages: seq<CompiledStage>, stage: CompiledStage, d: Decision, regressions: nat, maxRegressions: nat): Route {
    if d.passed then
      match NextStage(stages, stage.id)
      case None => Route(Complete, regressions)
      case Some(next) => Route(Continue(next.id), regressions)
    else if d.kind != GateFailed then Route(Fail(StageFailure), regressions)
    else if stage.onFail.None? then Route(Fail(GateFailedWithoutOnFail), regressions)
    else
      match FindStage(stages, stage.onFail.value)
      case None => Route(Fail(OnFailTargetMissing), regressions)
      case Some(target) =>
        if target.index >= stage.index then Route(Fail(OnFailTargetNotEarlier), regressions)
        else if regressions >= maxRegressions then Route(Fail(RegressionLimitExceeded), regressions)
        else Route(Regress(stage.onFail.value), regressions + 1)
  }

  /** Ids are unique, so a stage is found at its own position. */
  lemma StageAtItsIndex(stages: seq<CompiledStage>, i: nat)
    requires WellCompiled(stages) && i < |stages|
    ensures StageIndex(stages, stages[i].id) == i
  {
  }

  /** Where a route leads: one position on, an earlier position for one regression, or out. */
  predicate LeadsOnOrBack(stages: seq<CompiledStage>, i: nat, passed: bool, route: Route, r: nat, max: nat) {
    match route.action
    case Continue(next) => passed && route.regressions == r && StageIndex(stages, next) == i + 1
    case Complete => passed && route.regressions == r && i + 1 == |stages|
    case Regress(target) => !passed && route.regressions == r + 1 <= max && 0 <= StageIndex(stages, target) < i
    case Fail(_) => !passed && route.regressions == r
  }

  lemma RouteLeadsOnOrBack(stages: seq<CompiledStage>, i: nat, d: Decision, r: nat, max: nat)
    requires WellCompiled(stages) && i < |stages|
    ensures LeadsOnOrBack(stages, i, d.passed, RouteStageDecision(stages, stages[i], d, r, max), r, max)
  {
    StageAtItsIndex(stages, i);
    if i + 1 < |stages| {
      StageAtItsIndex(stages, i + 1);
    }
  }

  /**
   Where every execution leads, on any list of stages with their own indices.  In particular a stage
   regresses exactly when its gate rejects, it names an earlier stage, and a regression is left.
   */
  lemma RouteIff(stages: seq<CompiledStage>, i: nat, e: Execution, r: nat, max: nat, id: string)
    requires WellCompiled(stages) && i < |stages|
    ensures var stage, route := stages[i], RouteStageDecision(stages, stages[i], CheckStageDecision(stages[i], e), r, max);
      && (route.action == Continue(id) <==> Accepts(stage, e) && i + 1 < |stages| && stages[i + 1].id == id)
      && (route.action == Complete <==> Accepts(stage, e) && i + 1 == |stages|)
      && (route.action == Regress(id) <==> RegressesTo(stages, i, e, r, max, id))
      && (route.action == Fail(StageFailure) <==> !Accepts(stage, e) && !GateRejects(stage, e))
      && (route.action == Fail(GateFailedWithoutOnFail) <==> GateRejects(stage, e) && stage.onFail.None?)
      && (route.action == Fail(OnFailTargetMissing) <==>
           GateRejects(stage, e) && stage.onFail.Some? && forall j :: 0 <= j < |stages| ==> stages[j].id != stage.onFail.value)
      && (route.action == Fail(OnFailTargetNotEarlier) <==>
           GateRejects(stage, e) && stage.onFail.Some? && exists j :: i <= j < |stages| && stages[j].id == stage.onFail.value)
      && (route.action == Fail(RegressionLimitExceeded) <==>
           GateRejects(stage, e) && r >= max && NamesEarlier(stages, i))
      && route.regressions == if route.action.Regress? then r + 1 else r
  {
    KindIff(stages[i], e);
    StageAtItsIndex(stages, i);
    hide CheckStageDecision, Accepts, GateRejects, ReportedFindings;
    var d := CheckStageDecision(stages[i], e);
    if d.kind == GateFailed && stages[i].onFail.Some? {
      var j := StageIndex(stages, stages[i].onFail.value);
      if j >= 0 {
        assert stages[j].index == j && stages[j].id == stages[i].onFail.value;
      }
    }
  }

  /** The stage names an earlier one in its `onFail`. */
  ghost predicate NamesEarlier(stages: seq<CompiledStage>, i: nat)
    requires i < |stages|
  {
    stages[i].onFail.Some? && exists j :: 0 <= j < i && stages[j].id == stages[i].onFail.value
  }

  ghost predicate RegressesTo(stages: seq<CompiledStage>, i: nat, e: Execution, r: nat, max: nat, id: string)
    requires i < |stages|
  {
    GateRejects(stages[i], e) && r < max && stages[i].onFail == Some(id) && NamesEarlier(stages, i)
  }

  /** Stages compiled from a validated definition regress whenever a gate rejects, an `onFail` is there and a regression is left. */
  lemma RoutableStagesRegressIff(stages: seq<CompiledStage>, i: nat, e: Execution, r: nat, max: nat)
    requires WellCompiled(stages) && Routable(stages) && i < |stages|
    ensures RouteStageDecision(stages, stages[i], CheckStageDecision(stages[i], e), r, max).action.Regress?
            <==> GateRejects(stages[i], e) && stages[i].onFail.Some? && r < max
    ensures stages[i].AgentStage? && GateRejects(stages[i], e) && r < max ==>
      RouteStageDecision(stages, stages[i], CheckStageDecision(stages[i], e), r, max).action == Regress(stages[i].onFail.value)
  {
    var route := RouteStageDecision(stages, stages[i], CheckStageDecision(stages[i], e), r, max);
    RouteIff(stages, i, e, r, max, if stages[i].onFail.Some? then stages[i].onFail.value else "");
    if route.action.Regress? {
      RouteIff(stages, i, e, r, max, route.action.target);
    }
  }

  /**
   On stages compiled from a validated definition a failed gate never meets a missing or a
   non-earlier target, and lacks a target only on a code stage.
   */
  lemma CompiledStagesNeverMisroute(stages: seq<CompiledStage>, i: nat, e: Execution, r: nat, max: nat)
    requires WellCompiled(stages) && Routable(stages) && i < |stages|
    ensures var route := RouteStageDecision(stages, stages[i], CheckStageDecision(stages[i], e), r, max);
      && route.action != Fail(OnFailTargetMissing)
      && route.action != Fail(OnFailTargetNotEarlier)
      && (route.action == Fail(GateFailedWithoutOnFail) ==> stages[i].CodeStage? && stages[i].onFail.None?)
  {
    var d := CheckStageDecision(stages[i], e);
    KindIff(stages[i], e);
    hide CheckStageDecision, StageIndex;
    if stages[i].onFail.Some? {
      var j :| 0 <= j < i && stages[j].id == stages[i].onFail.value;
      StageAtItsIndex(stages, j);
    }
  }

  // ----- Step outcome -----

  datatype RunStatus = RunDone | RunFailed | RunNeedsAttention

  /** Abort first, then budget, then a failed route; otherwise the run proceeds. */
  function StageFailureOutcome(d: Decision, budgetExceeded: bool, route: Route): Option<RunStatus> {
    if d.kind == Aborted then Some(RunNeedsAttention)
    else if budgetExceeded then Some(RunNeedsAttention)
    else if route.action.Fail? then Some(RunFailed)
    else None
  }
}
