/** Raw pipeline definitions, their validation, their identity, and their compilation to stages. */
module RunDefs {
  import opened Basics

  datatype StageBudget = StageBudget(maxTokens: Option<nat>, maxDollars: Option<real>)

  datatype RawStage =
    | RawAgent(id: string, description: Option<string>, workflow: string, agent: string,
               gate: Option<string>, onFail: Option<string>, timeout: Option<nat>,
               thinking: Option<string>, model: Option<string>, budget: Option<StageBudget>,
               extensions: Option<seq<string>>,
               oPool: Option<string>, oName: Option<string>, oTag: Option<string>)
    | RawCode(id: string, description: Option<string>, command: string, args: Option<seq<string>>,
              timeout: Option<nat>, onFail: Option<string>, findingsFile: Option<string>)

  datatype RunDef = RunDef(id: string, description: Option<string>, stages: seq<RawStage>)

  datatype CompiledStage =
    | AgentStage(id: string, index: nat, timeoutSeconds: nat, description: Option<string>,
                 workflow: string, agent: string, payloadGateName: Option<string>, onFail: Option<string>,
                 thinking: Option<string>, model: Option<string>, budget: Option<StageBudget>,
                 extensions: Option<seq<string>>,
                 oPool: Option<string>, oName: Option<string>, oTag: Option<string>)
    | CodeStage(id: string, index: nat, timeoutSeconds: nat, description: Option<string>,
                command: string, args: seq<string>, onFail: Option<string>, findingsFile: Option<string>)

  // ----- Structural schema -----

  predicate IsIdentifier(s: string) {
    s != [] && 'a' <= s[0] <= 'z'
    && forall i :: 0 <= i < |s| ==> 'a' <= s[i] <= 'z' || '0' <= s[i] <= '9' || s[i] == '-'
  }

  predicate OptionalIdentifier(s: Option<string>) {
    s.Some? ==> IsIdentifier(s.value)
  }

  predicate OptionalNonEmpty(s: Option<string>) {
    s.Some? ==> s.value != []
  }

  predicate MatchesStageSchema(stage: RawStage) {
    && IsIdentifier(stage.id)
    && OptionalIdentifier(stage.onFail)
    && (stage.timeout.Some? ==> stage.timeout.value >= 1)
    && match stage
       case RawAgent(_, _, workflow, agent, gate, _, _, thinking, model, budget, extensions, oPool, oName, oTag) =>
         && IsIdentifier(workflow) && IsIdentifier(agent) && OptionalIdentifier(gate)
         && (thinking.Some? ==> thinking.value in ["low", "medium", "high"])
         && OptionalNonEmpty(model) && OptionalNonEmpty(oPool) && OptionalNonEmpty(oName) && OptionalNonEmpty(oTag)
         && (budget.Some? && budget.value.maxTokens.Some? ==> budget.value.maxTokens.value >= 1)
         && (budget.Some? && budget.value.maxDollars.Some? ==> budget.value.maxDollars.value >= 0.0)
         && (extensions.Some? ==>
              && (forall e <- extensions.value :: e != [])
              && forall i, j :: 0 <= i < j < |extensions.value| ==> extensions.value[i] != extensions.value[j])
       case RawCode(_, _, command, _, _, _, findingsFile) =>
         NonBlank(command) && OptionalNonEmpty(findingsFile)
  }

  predicate MatchesSchema(def: RunDef) {
    IsIdentifier(def.id) && def.stages != [] && forall stage <- def.stages :: MatchesStageSchema(stage)
  }

  // ----- Cross-field checks -----

  /** One finding; `index` is the position of the stage it is about. */
  datatype Issue =
    | DuplicateId(index: nat)
    | GateWithoutOnFail(index: nat)
    | OnFailWithoutGate(index: nat)
    | OnFailMissing(index: nat)
    | OnFailNotEarlier(index: nat)
    | EmptyBudget(index: nat)

  function RawIndex(stages: seq<RawStage>, id: string): (r: int)
    ensures -1 <= r < |stages|
    ensures r >= 0 ==> stages[r].id == id && forall i :: 0 <= i < r ==> stages[i].id != id
    ensures r < 0 ==> forall i :: 0 <= i < |stages| ==> stages[i].id != id
  {
    if stages == [] then -1
    else if stages[0].id == id then 0
    else
      var r := RawIndex(stages[1..], id);
      assert forall i :: 0 < i < |stages| ==> stages[i] == stages[1..][i - 1];
      if r < 0 then -1 else r + 1
  }

  /** What each finding says about the definition. */
  ghost predicate Violates(def: RunDef, issue: Issue) {
    var stages := def.stages;
    var i := issue.index;
    i < |stages| &&
    match issue
    case DuplicateId(_) => exists j :: 0 <= j < i && stages[j].id == stages[i].id
    case GateWithoutOnFail(_) => stages[i].RawAgent? && stages[i].gate.Some? && stages[i].onFail.None?
    case OnFailWithoutGate(_) => stages[i].RawAgent? && stages[i].gate.None? && stages[i].onFail.Some?
    case OnFailMissing(_) => stages[i].onFail.Some? && forall s <- stages :: s.id != stages[i].onFail.value
    case OnFailNotEarlier(_) =>
      stages[i].onFail.Some? && (exists s <- stages :: s.id == stages[i].onFail.value)
      && forall j :: 0 <= j < i ==> stages[j].id != stages[i].onFail.value
    case EmptyBudget(_) =>
      stages[i].RawAgent? && stages[i].budget.Some?
      && stages[i].budget.value.maxTokens.None? && stages[i].budget.value.maxDollars.None?
  }

  method CheckOnFailTarget(stage: RawStage, index: nat, stages: seq<RawStage>) returns (issues: seq<Issue>)
    requires index < |stages| && stages[index] == stage
    ensures forall def: RunDef, x :: def.stages == stages ==>
      (x in issues <==> x.index == index && (x.OnFailMissing? || x.OnFailNotEarlier?) && Violates(def, x))
  {
    if stage.onFail.None? {
      return [];
    }
    var target := RawIndex(stages, stage.onFail.value);
    if target == -1 {
      return [OnFailMissing(index)];
    }
    assert stages[target] in stages;
    if target >= index {
      return [OnFailNotEarlier(index)];
    }
    return [];
  }

  /** Reports exactly the violated cross-field rules. */
  method CheckCrossFieldInvariants(def: RunDef) returns (issues: seq<Issue>)
    ensures forall x :: x in issues <==> Violates(def, x)
  {
    issues := [];
    var seenIds: set<string> := {};
    for index := 0 to |def.stages|
      invariant forall x :: x in issues <==> x.index < index && Violates(def, x)
      invariant forall id :: id in seenIds <==> exists j :: 0 <= j < index && def.stages[j].id == id
    {
      var stage := def.stages[index];
      var found: seq<Issue> := [];
      if stage.id in seenIds {
        found := found + [DuplicateId(index)];
      }
      seenIds := seenIds + {stage.id};
      if stage.RawAgent? && stage.gate.Some? && stage.onFail.None? {
        found := found + [GateWithoutOnFail(index)];
      } else if stage.onFail.Some? && stage.RawAgent? && stage.gate.None? {
        found := found + [OnFailWithoutGate(index)];
      }
      var targets := CheckOnFailTarget(stage, index, def.stages);
      found := found + targets;
      if stage.RawAgent? && stage.budget.Some?
         && stage.budget.value.maxTokens.None? && stage.budget.value.maxDollars.None? {
        found := found + [EmptyBudget(index)];
      }
      assert forall x :: x in found <==> x.index == index && Violates(def, x);
      issues := issues + found;
    }
  }

  /** A definition that passes the schema and every cross-field rule. */
  ghost predicate IsRunDef(def: RunDef) {
    MatchesSchema(def) && forall x :: !Violates(def, x)
  }

  /** What passing the cross-field rules means for a reader. */
  ghost predicate WellFormed(stages: seq<RawStage>) {
    && (forall i, j :: 0 <= i < j < |stages| ==> stages[i].id != stages[j].id)
    && (forall i :: 0 <= i < |stages| && stages[i].onFail.Some? ==>
         exists j :: 0 <= j < i && stages[j].id == stages[i].onFail.value)
    && (forall i :: 0 <= i < |stages| && stages[i].RawAgent? ==>
         && (stages[i].gate.Some? <==> stages[i].onFail.Some?)
         && (stages[i].budget.Some? ==>
              stages[i].budget.value.maxTokens.Some? || stages[i].budget.value.maxDollars.Some?))
  }

  lemma NoIssueIffWellFormed(def: RunDef)
    ensures (forall x :: !Violates(def, x)) <==> WellFormed(def.stages)
  {
    var stages := def.stages;
    if forall x :: !Violates(def, x) {
      forall i, j | 0 <= i < j < |stages| ensures stages[i].id != stages[j].id {
        assert !Violates(def, DuplicateId(j));
      }
      forall i | 0 <= i < |stages|
        ensures stages[i].onFail.Some? ==> exists j :: 0 <= j < i && stages[j].id == stages[i].onFail.value
        ensures stages[i].RawAgent? ==> (stages[i].gate.Some? <==> stages[i].onFail.Some?)
        ensures stages[i].RawAgent? && stages[i].budget.Some? ==>
          stages[i].budget.value.maxTokens.Some? || stages[i].budget.value.maxDollars.Some?
      {
        assert !Violates(def, OnFailMissing(i)) && !Violates(def, OnFailNotEarlier(i));
        assert !Violates(def, GateWithoutOnFail(i)) && !Violates(def, OnFailWithoutGate(i));
        assert !Violates(def, EmptyBudget(i));
      }
    }
  }

  // ----- What an accepted definition is -----

  /** A lower-case letter followed by lower-case letters, digits and hyphens. */
  ghost predicate IsName(s: string) {
    && s != "" && 'a' <= s[0] <= 'z'
    && forall c :: c in s ==> 'a' <= c <= 'z' || '0' <= c <= '9' || c == '-'
  }

  /** What the schema asks of every field of a stage. */
  ghost predicate FieldsInOrder(stage: RawStage) {
    && IsName(stage.id) && (stage.onFail.Some? ==> IsName(stage.onFail.value))
    && stage.timeout != Some(0)
    && (stage.RawAgent? ==>
         && IsName(stage.workflow) && IsName(stage.agent) && (stage.gate.Some? ==> IsName(stage.gate.value))
         && stage.thinking in {None, Some("low"), Some("medium"), Some("high")}
         && stage.model != Some("") && stage.oPool != Some("") && stage.oName != Some("") && stage.oTag != Some("")
         && (stage.budget.Some? ==>
              stage.budget.value.maxTokens != Some(0)
              && (stage.budget.value.maxDollars.Some? ==> stage.budget.value.maxDollars.value >= 0.0))
         && (stage.extensions.Some? ==> "" !in stage.extensions.value && Unique(stage.extensions.value)))
    && (stage.RawCode? ==>
         (exists c :: c in stage.command && !IsSpace(c)) && stage.findingsFile != Some(""))
  }

  lemma NameIsIdentifier(s: string)
    ensures IsIdentifier(s) <==> IsName(s)
  {
    assert forall i :: 0 <= i < |s| ==> s[i] in s;
  }

  /** A definition is accepted exactly when its fields are in order and its stages fit together. */
  lemma IsRunDefIff(def: RunDef)
    ensures IsRunDef(def) <==>
      IsName(def.id) && def.stages != [] && (forall stage :: stage in def.stages ==> FieldsInOrder(stage)) && WellFormed(def.stages)
  {
    NoIssueIffWellFormed(def);
    NameIsIdentifier(def.id);
    hide Violates, WellFormed, IsName, IsIdentifier;
    forall stage | stage in def.stages ensures MatchesStageSchema(stage) <==> FieldsInOrder(stage) {
      SchemaIsFieldsInOrder(stage);
    }
  }

  lemma SchemaIsFieldsInOrder(stage: RawStage)
    ensures MatchesStageSchema(stage) <==> FieldsInOrder(stage)
  {
    hide IsSpace;
    forall s: string ensures IsIdentifier(s) <==> IsName(s) {
      NameIsIdentifier(s);
    }
    hide IsIdentifier, IsName;
    match stage {
      case RawCode(_, _, command, _, _, _, _) =>
        CommandIsNotBlank(command);
        hide NonBlank;
      case RawAgent(_, _, _, _, _, _, _, thinking, _, _, extensions, _, _, _) =>
        if thinking.Some? {
          assert thinking.value in ["low", "medium", "high"] <==> thinking.value in {"low", "medium", "high"};
        }
    }
  }

  lemma CommandIsNotBlank(command: string)
    ensures NonBlank(command) <==> exists c :: c in command && !IsSpace(c)
  {
    hide IsSpace;
    if c :| c in command && !IsSpace(c) {
      var i :| 0 <= i < |command| && command[i] == c;
    }
    if i :| 0 <= i < |command| && !IsSpace(command[i]) {
      assert command[i] in command;
    }
  }

  // ----- Identity -----

  /** The content digest, modelled by its preimage: the definition itself. */
  datatype RunDefDigest = Sha256(preimage: RunDef) | LegacyUnbound

  function ComputeDigest(def: RunDef): RunDefDigest {
    Sha256(def)
  }

  function WithoutTimeouts(stages: seq<RawStage>): (r: seq<RawStage>)
    ensures |r| == |stages| && forall i :: 0 <= i < |stages| ==> r[i] == stages[i].(timeout := None)
  {
    if stages == [] then [] else [stages[0].(timeout := None)] + WithoutTimeouts(stages[1..])
  }

  predicate EqualExceptTimeouts(left: RunDef, right: RunDef) {
    left.(stages := WithoutTimeouts(left.stages)) == right.(stages := WithoutTimeouts(right.stages))
  }

  /** The definition with other timeouts. */
  function WithTimeouts(def: RunDef, timeouts: seq<Option<nat>>): RunDef
    requires |timeouts| == |def.stages|
  {
    def.(stages := seq(|def.stages|, i requires 0 <= i < |def.stages| => def.stages[i].(timeout := timeouts[i])))
  }

  /** Two definitions are equal except for timeouts exactly when one arises from the other by setting timeouts. */
  lemma EqualExceptTimeoutsIff(left: RunDef, right: RunDef)
    ensures EqualExceptTimeouts(left, right) <==>
      exists timeouts: seq<Option<nat>> :: |timeouts| == |left.stages| && right == WithTimeouts(left, timeouts)
  {
    if EqualExceptTimeouts(left, right) {
      assert |left.stages| == |WithoutTimeouts(left.stages)| == |right.stages|;
      var timeouts := seq(|right.stages|, i requires 0 <= i < |right.stages| => right.stages[i].timeout);
      forall i | 0 <= i < |left.stages| ensures right.stages[i] == left.stages[i].(timeout := timeouts[i]) {
        assert WithoutTimeouts(left.stages)[i] == WithoutTimeouts(right.stages)[i];
      }
      assert right.stages == WithTimeouts(left, timeouts).stages;
    }
    if timeouts: seq<Option<nat>> :| |timeouts| == |left.stages| && right == WithTimeouts(left, timeouts) {
      forall i | 0 <= i < |left.stages| ensures WithoutTimeouts(left.stages)[i] == WithoutTimeouts(right.stages)[i] {
        assert right.stages[i] == left.stages[i].(timeout := timeouts[i]);
      }
      assert WithoutTimeouts(left.stages) == WithoutTimeouts(right.stages);
    }
  }

  // ----- Compilation -----

  datatype CompileError =
    | UnregisteredGate(stageId: string, gateName: string)
    | InvalidDefaultTimeout

  /** Compiles the stages from position `index` on; the first unregistered gate stops it. */
  function CompileFrom(stages: seq<RawStage>, index: nat, registry: set<string>, defaultTimeout: nat)
    : Result<seq<CompiledStage>, CompileError>
    requires index <= |stages|
    decreases |stages| - index
  {
    if index == |stages| then Ok([])
    else
      match CompileStage(stages[index], index, registry, defaultTimeout)
      case Err(e) => Err(e)
      case Ok(stage) =>
        match CompileFrom(stages, index + 1, registry, defaultTimeout)
        case Err(e) => Err(e)
        case Ok(rest) => Ok([stage] + rest)
  }

  function CompileStage(stage: RawStage, index: nat, registry: set<string>, defaultTimeout: nat)
    : Result<CompiledStage, CompileError>
  {
    var timeout := if stage.timeout.Some? then stage.timeout.value else defaultTimeout;
    match stage
    case RawAgent(id, description, workflow, agent, gate, onFail, _, thinking, model, budget, extensions, oPool, oName, oTag) =>
      if gate.Some? && gate.value !in registry then Err(UnregisteredGate(id, gate.value))
      else Ok(AgentStage(id, index, timeout, description, workflow, agent, gate, onFail, thinking, model,
                         budget, extensions, oPool, oName, oTag))
    case RawCode(id, description, command, args, _, onFail, findingsFile) =>
      Ok(CodeStage(id, index, timeout, description, command,
                   if args.Some? then args.value else [], onFail, findingsFile))
  }

  function Compile(def: RunDef, registry: set<string>, defaultTimeout: nat): Result<seq<CompiledStage>, CompileError> {
    if defaultTimeout == 0 then Err(InvalidDefaultTimeout)
    else CompileFrom(def.stages, 0, registry, defaultTimeout)
  }

  /** What the runner needs of its stages. */
  ghost predicate WellCompiled(stages: seq<CompiledStage>) {
    && stages != []
    && (forall i, j :: 0 <= i < j < |stages| ==> stages[i].id != stages[j].id)
    && forall i :: 0 <= i < |stages| ==> stages[i].index == i && NonBlank(stages[i].id)
  }

  /** `onFail` names a strictly earlier stage, and an agent has a gate exactly when it has an `onFail`. */
  ghost predicate Routable(stages: seq<CompiledStage>) {
    && (forall i :: 0 <= i < |stages| && stages[i].onFail.Some? ==>
         exists j :: 0 <= j < i && stages[j].id == stages[i].onFail.value)
    && forall i :: 0 <= i < |stages| && stages[i].AgentStage? ==>
         (stages[i].payloadGateName.Some? <==> stages[i].onFail.Some?)
  }

  lemma {:induction false} CompileFromIsPointwise(stages: seq<RawStage>, index: nat, registry: set<string>, timeout: nat)
    requires index <= |stages|
    ensures var r := CompileFrom(stages, index, registry, timeout);
            r.Ok? ==>
              && |r.value| == |stages| - index
              && forall i :: index <= i < |stages| ==>
                CompileStage(stages[i], i, registry, timeout) == Ok(r.value[i - index])
    ensures CompileFrom(stages, index, registry, timeout).Ok? <==>
      forall i :: index <= i < |stages| && stages[i].RawAgent? && stages[i].gate.Some? ==> stages[i].gate.value in registry
    decreases |stages| - index
  {
    if index < |stages| {
      CompileFromIsPointwise(stages, index + 1, registry, timeout);
    }
  }

  lemma CompiledStageFields(raw: RawStage, i: nat, registry: set<string>, timeout: nat, stage: CompiledStage)
    requires MatchesStageSchema(raw) && CompileStage(raw, i, registry, timeout) == Ok(stage)
    ensures stage.id == raw.id && stage.index == i && stage.onFail == raw.onFail && NonBlank(stage.id)
    ensures stage.AgentStage? ==> raw.RawAgent? && stage.payloadGateName == raw.gate
  {
    assert !IsSpace(stage.id[0]);
  }

  /** What the runner executes is what the definition says, field by field; only an absent timeout is filled in. */
  ghost predicate Renders(raw: RawStage, position: nat, defaultTimeout: nat, stage: CompiledStage) {
    && (raw.RawAgent? <==> stage.AgentStage?)
    && stage.id == raw.id && stage.index == position && stage.onFail == raw.onFail && stage.description == raw.description
    && (raw.timeout.Some? ==> stage.timeoutSeconds == raw.timeout.value)
    && (raw.timeout.None? ==> stage.timeoutSeconds == defaultTimeout)
    && (raw.RawAgent? ==>
         && stage.workflow == raw.workflow && stage.agent == raw.agent && stage.payloadGateName == raw.gate
         && stage.thinking == raw.thinking && stage.model == raw.model
         && stage.budget == raw.budget && stage.extensions == raw.extensions
         && stage.oPool == raw.oPool && stage.oName == raw.oName && stage.oTag == raw.oTag)
    && (raw.RawCode? ==>
         && stage.command == raw.command && stage.findingsFile == raw.findingsFile
         && (raw.args.Some? ==> stage.args == raw.args.value)
         && (raw.args.None? ==> stage.args == []))
  }

  /**
   Compilation succeeds exactly for a positive default timeout and registered gates, and the compiled
   stages are then the one list that renders the definition, stage by stage and field by field.
   */
  lemma CompiledRendersTheDefinition(def: RunDef, registry: set<string>, defaultTimeout: nat, stages: seq<CompiledStage>)
    ensures Compile(def, registry, defaultTimeout) == Ok(stages) <==>
      && defaultTimeout >= 1
      && (forall i :: 0 <= i < |def.stages| && def.stages[i].RawAgent? && def.stages[i].gate.Some? ==> def.stages[i].gate.value in registry)
      && |stages| == |def.stages|
      && forall i :: 0 <= i < |stages| ==> Renders(def.stages[i], i, defaultTimeout, stages[i])
  {
    CompileFromIsPointwise(def.stages, 0, registry, defaultTimeout);
    var r := CompileFrom(def.stages, 0, registry, defaultTimeout);
    hide CompileFrom;
    if r.Ok? {
      forall i | 0 <= i < |r.value|
        ensures Renders(def.stages[i], i, defaultTimeout, r.value[i])
        ensures forall other: CompiledStage :: Renders(def.stages[i], i, defaultTimeout, other) ==> other == r.value[i]
      {
        StageRenders(def.stages[i], i, registry, defaultTimeout, r.value[i]);
      }
      hide Renders;
      if |stages| == |r.value| && forall i :: 0 <= i < |stages| ==> Renders(def.stages[i], i, defaultTimeout, stages[i]) {
        assert stages == r.value;
      }
    }
  }

  /** A stage is rendered in one way only. */
  lemma StageRenders(raw: RawStage, i: nat, registry: set<string>, defaultTimeout: nat, stage: CompiledStage)
    requires CompileStage(raw, i, registry, defaultTimeout) == Ok(stage)
    ensures Renders(raw, i, defaultTimeout, stage)
    ensures forall other: CompiledStage :: Renders(raw, i, defaultTimeout, other) ==> other == stage
  {
  }

  /** Every validated definition whose gates are registered compiles to stages that route safely. */
  lemma CompiledRunDefIsRoutable(def: RunDef, registry: set<string>, timeout: nat)
    requires IsRunDef(def) && Compile(def, registry, timeout).Ok?
    ensures var stages := Compile(def, registry, timeout).value;
            |stages| == |def.stages| && WellCompiled(stages) && Routable(stages)
  {
    NoIssueIffWellFormed(def);
    CompileFromIsPointwise(def.stages, 0, registry, timeout);
    var stages := Compile(def, registry, timeout).value;
    hide Violates, CompileFrom;
    forall i | 0 <= i < |stages|
      ensures stages[i].id == def.stages[i].id && stages[i].index == i && stages[i].onFail == def.stages[i].onFail
      ensures NonBlank(stages[i].id)
      ensures stages[i].AgentStage? ==> def.stages[i].RawAgent? && stages[i].payloadGateName == def.stages[i].gate
    {
      assert MatchesStageSchema(def.stages[i]);
      CompiledStageFields(def.stages[i], i, registry, timeout, stages[i]);
    }
    hide CompileStage, MatchesStageSchema, NonBlank;
    forall i | 0 <= i < |stages| && stages[i].onFail.Some?
      ensures exists j :: 0 <= j < i && stages[j].id == stages[i].onFail.value
    {
      var j :| 0 <= j < i && def.stages[j].id == def.stages[i].onFail.value;
      assert stages[j].id == stages[i].onFail.value;
    }
  }

  /** Definitions equal except for timeouts compile to stages equal except for timeouts. */
  lemma TimeoutsDoNotChangeThePipeline(a: RunDef, b: RunDef, registry: set<string>, timeout: nat)
    requires EqualExceptTimeouts(a, b)
    ensures Compile(a, registry, timeout).Ok? <==> Compile(b, registry, timeout).Ok?
    ensures Compile(a, registry, timeout).Ok? ==>
      var x, y := Compile(a, registry, timeout).value, Compile(b, registry, timeout).value;
      |x| == |y| && forall i :: 0 <= i < |x| ==> x[i].(timeoutSeconds := 0) == y[i].(timeoutSeconds := 0)
  {
    CompileFromIsPointwise(a.stages, 0, registry, timeout);
    CompileFromIsPointwise(b.stages, 0, registry, timeout);
    assert |a.stages| == |WithoutTimeouts(a.stages)| == |b.stages|;
    forall i | 0 <= i < |a.stages|
      ensures a.stages[i].(timeout := None) == b.stages[i].(timeout := None)
    {
      assert WithoutTimeouts(a.stages)[i] == WithoutTimeouts(b.stages)[i];
    }
    if Compile(a, registry, timeout).Ok? {
      var x, y := Compile(a, registry, timeout).value, Compile(b, registry, timeout).value;
      forall i | 0 <= i < |x|
        ensures x[i].(timeoutSeconds := 0) == y[i].(timeoutSeconds := 0)
      {
        assert CompileStage(a.stages[i], i, registry, timeout) == Ok(x[i]);
        assert CompileStage(b.stages[i], i, registry, timeout) == Ok(y[i]);
      }
    }
  }
}
