/** Repair of a loaded state: interrupted markers, internal contradictions, and the economics. */
module Reconcile {
  import opened Basics
  import opened PipelineStates

  datatype Issue =
    | MissingStageAdded(id: string)
    | UnknownStageRemoved(id: string)
    | RunningPipelineReset
    | RunningStageReset(id: string)
    | CurrentStageRepaired
    | TerminalCurrentStageCleared
    | FinishedAtRepaired
    | StageAttemptsRepaired(id: string)
    | EconomicsRecomputed

  function ReconcileStage(stage: StageState): StageState {
    var calm := if stage.status.StageRunning? then stage.(status := StagePending, startedAt := None, finishedAt := None) else stage;
    calm.(attempts := |calm.history|)
  }

  function ReconcileStages(s: PipelineState, ids: seq<string>): (r: map<string, StageState>)
    ensures forall id :: id in r <==> id in ids
  {
    map id | id in ids :: ReconcileStage(StageOf(s, id))
  }

  function ReconcileState(s: PipelineState, ids: seq<string>, now: Time): PipelineState {
    var stages := ReconcileStages(s, ids);
    var status := if s.status.Running? then Pending else s.status;
    s.(stages := stages,
       status := status,
       currentStage := if IsTerminal(status) || (s.currentStage.Some? && s.currentStage.value !in ids) then None else s.currentStage,
       finishedAt := if !IsTerminal(status) then None else if s.finishedAt.None? then Some(now) else s.finishedAt,
       economics := TotalUsage(ids, stages))
  }

  /** When each repair is reported. */
  ghost predicate Reported(s: PipelineState, ids: seq<string>, issue: Issue) {
    match issue
    case MissingStageAdded(id) => id in ids && id !in s.stages
    case UnknownStageRemoved(id) => id in s.stages && id !in ids
    case RunningStageReset(id) => id in ids && id in s.stages && s.stages[id].status.StageRunning?
    case StageAttemptsRepaired(id) => id in ids && id in s.stages && s.stages[id].attempts != |s.stages[id].history|
    case RunningPipelineReset => s.status.Running?
    case TerminalCurrentStageCleared => IsTerminal(s.status) && s.currentStage.Some?
    case CurrentStageRepaired => !IsTerminal(s.status) && s.currentStage.Some? && s.currentStage.value !in ids
    case FinishedAtRepaired => !s.status.Running? && (IsTerminal(s.status) <==> s.finishedAt.None?)
    case EconomicsRecomputed => s.economics != TotalUsage(ids, ReconcileStages(s, ids))
  }

  /** A repair is reported exactly when the state changes. */
  lemma ReportsIffChanged(s: PipelineState, ids: seq<string>, now: Time)
    ensures (forall issue :: !Reported(s, ids, issue)) <==> ReconcileState(s, ids, now) == s
  {
    var r := ReconcileState(s, ids, now);
    if forall issue :: !Reported(s, ids, issue) {
      assert !Reported(s, ids, RunningPipelineReset) && !Reported(s, ids, FinishedAtRepaired);
      assert !Reported(s, ids, CurrentStageRepaired) && !Reported(s, ids, TerminalCurrentStageCleared);
      assert !Reported(s, ids, EconomicsRecomputed);
      forall id
        ensures id in s.stages <==> id in r.stages
        ensures id in r.stages ==> r.stages[id] == StageOf(s, id)
      {
        assert !Reported(s, ids, MissingStageAdded(id)) && !Reported(s, ids, UnknownStageRemoved(id));
        assert !Reported(s, ids, RunningStageReset(id)) && !Reported(s, ids, StageAttemptsRepaired(id));
      }
      assert r.stages == s.stages;
    } else {
      var issue :| Reported(s, ids, issue);
      if r == s {
        StageChangeShows(s, ids, issue);
      }
    }
  }

  lemma StageChangeShows(s: PipelineState, ids: seq<string>, issue: Issue)
    requires Reported(s, ids, issue)
    requires issue.MissingStageAdded? || issue.UnknownStageRemoved? || issue.RunningStageReset? || issue.StageAttemptsRepaired?
    ensures ReconcileStages(s, ids) != s.stages
  {
    var r := ReconcileStages(s, ids);
    assert issue.id in r <==> issue.id in ids;
    if issue.RunningStageReset? || issue.StageAttemptsRepaired? {
      assert r[issue.id] == ReconcileStage(s.stages[issue.id]);
    }
  }

  /** A second reconciliation finds nothing to repair, for every state and every clock. */
  lemma ReconcileIsIdempotent(s: PipelineState, ids: seq<string>, now: Time, later: Time)
    ensures var once := ReconcileState(s, ids, now);
            ReconcileState(once, ids, later) == once && forall issue :: !Reported(once, ids, issue)
  {
    var once := ReconcileState(s, ids, now);
    var again := ReconcileStages(once, ids);
    forall id | id in ids ensures again[id] == once.stages[id] {
      assert StageOf(once, id) == ReconcileStage(StageOf(s, id));
    }
    assert again == once.stages;
    ReportsIffChanged(once, ids, later);
  }

  // ----- The imperative form -----

  /** Rebuilds the stage record for exactly the compiled stages. */
  method ReconcileStageRecord(s: PipelineState, ids: seq<string>) returns (next: map<string, StageState>, issues: seq<Issue>)
    ensures next == ReconcileStages(s, ids)
    ensures forall issue :: issue in issues <==> StageIssue(issue) && Reported(s, ids, issue)
  {
    next, issues := map[], [];
    for i := 0 to |ids|
      invariant next == map id | id in ids[..i] :: ReconcileStage(StageOf(s, id))
      invariant forall issue :: issue in issues <==>
        StageIssue(issue) && !issue.UnknownStageRemoved? && issue.id in ids[..i] && Reported(s, ids, issue)
    {
      var found := ReconcileOne(s, ids, ids[i]);
      next := next[ids[i] := ReconcileStage(StageOf(s, ids[i]))];
      issues := issues + found;
      assert ids[..i + 1] == ids[..i] + [ids[i]];
    }
    assert ids[..|ids|] == ids;
    var keys := s.stages.Keys;
    ghost var before := issues;
    while keys != {}
      invariant keys <= s.stages.Keys
      invariant forall issue :: issue in issues <==>
        issue in before || (issue.UnknownStageRemoved? && issue.id !in keys && Reported(s, ids, issue))
    {
      var id :| id in keys;
      keys := keys - {id};
      if id !in ids {
        issues := issues + [UnknownStageRemoved(id)];
      }
    }
  }

  predicate StageIssue(issue: Issue) {
    issue.MissingStageAdded? || issue.UnknownStageRemoved? || issue.RunningStageReset? || issue.StageAttemptsRepaired?
  }

  method ReconcileOne(s: PipelineState, ids: seq<string>, id: string) returns (issues: seq<Issue>)
    requires id in ids
    ensures forall issue :: issue in issues <==>
      StageIssue(issue) && !issue.UnknownStageRemoved? && issue.id == id && Reported(s, ids, issue)
  {
    issues := [];
    if id !in s.stages {
      return [MissingStageAdded(id)];
    }
    var stage := s.stages[id];
    if stage.status.StageRunning? {
      issues := issues + [RunningStageReset(id)];
    }
    if stage.attempts != |stage.history| {
      issues := issues + [StageAttemptsRepaired(id)];
    }
  }

  /** Sums the usage of every attempt of every stage. */
  method RecomputeEconomics(ids: seq<string>, stages: map<string, StageState>) returns (total: Economics)
    requires forall id <- ids :: id in stages
    ensures total == TotalUsage(ids, stages)
  {
    total := NO_USAGE;
    for i := 0 to |ids|
      invariant total == TotalUsage(ids[..i], stages)
    {
      assert ids[..i + 1][..i] == ids[..i];
      total := AddHistory(total, stages[ids[i]].history);
    }
    assert ids[..|ids|] == ids;
  }

  method AddHistory(start: Economics, history: seq<Attempt>) returns (total: Economics)
    ensures total == Plus(start, HistoryUsage(history))
  {
    total := start;
    assert Plus(start, HistoryUsage(history[..0])) == start;
    hide HistoryUsage, UsageOf, Plus;
    for k := 0 to |history|
      invariant total == Plus(start, HistoryUsage(history[..k]))
    {
      HistoryUsageStep(history, k);
      PlusAssociates(start, HistoryUsage(history[..k]), UsageOf(history[k]));
      total := Plus(total, UsageOf(history[k]));
    }
    assert history[..|history|] == history;
  }

  lemma PlusAssociates(a: Economics, b: Economics, c: Economics)
    ensures Plus(Plus(a, b), c) == Plus(a, Plus(b, c))
  {
  }

  lemma HistoryUsageStep(history: seq<Attempt>, k: nat)
    requires k < |history|
    ensures HistoryUsage(history[..k + 1]) == Plus(HistoryUsage(history[..k]), UsageOf(history[k]))
  {
    assert history[..k + 1][..k] == history[..k];
  }

  predicate FieldIssue(issue: Issue) {
    issue.RunningPipelineReset? || issue.TerminalCurrentStageCleared? || issue.CurrentStageRepaired? || issue.FinishedAtRepaired?
  }

  /** The repairs of single fields, in the order they are made. */
  method RepairPipelineFields(s: PipelineState, ids: seq<string>, now: Time) returns (r: PipelineState, issues: seq<Issue>)
    ensures r == ReconcileState(s, ids, now).(stages := s.stages, economics := s.economics)
    ensures forall issue :: issue in issues <==> FieldIssue(issue) && Reported(s, ids, issue)
  {
    hide ReconcileStages, TotalUsage;
    r, issues := s, [];
    if r.status.Running? {
      issues := issues + [RunningPipelineReset];
      r := r.(status := Pending, finishedAt := None);
    }
    if IsTerminal(r.status) && r.currentStage.Some? {
      issues := issues + [TerminalCurrentStageCleared];
      r := r.(currentStage := None);
    } else if !IsTerminal(r.status) && r.currentStage.Some? && r.currentStage.value !in ids {
      issues := issues + [CurrentStageRepaired];
      r := r.(currentStage := None);
    }
    if IsTerminal(r.status) && r.finishedAt.None? {
      issues := issues + [FinishedAtRepaired];
      r := r.(finishedAt := Some(now));
    } else if !IsTerminal(r.status) && r.finishedAt.Some? {
      issues := issues + [FinishedAtRepaired];
      r := r.(finishedAt := None);
    }
  }

  method ReconcilePipelineState(s: PipelineState, ids: seq<string>, now: Time) returns (r: PipelineState, issues: seq<Issue>)
    ensures r == ReconcileState(s, ids, now)
    ensures forall issue :: issue in issues <==> Reported(s, ids, issue)
    ensures issues == [] <==> r == s
  {
    hide TotalUsage, ReconcileStages;
    var stages, stageIssues := ReconcileStageRecord(s, ids);
    var fieldIssues;
    r, fieldIssues := RepairPipelineFields(s, ids, now);
    r := r.(stages := stages);
    issues := stageIssues + fieldIssues;
    var economics := RecomputeEconomics(ids, stages);
    if r.economics != economics {
      issues := issues + [EconomicsRecomputed];
      r := r.(economics := economics);
    }
    ReportsIffChanged(s, ids, now);
    EmptyIffNothingReported(s, ids, issues);
  }

  lemma EmptyIffNothingReported(s: PipelineState, ids: seq<string>, issues: seq<Issue>)
    requires forall issue :: issue in issues <==> Reported(s, ids, issue)
    ensures issues == [] <==> forall issue :: !Reported(s, ids, issue)
  {
    if issues != [] {
      assert issues[0] in issues;
    }
  }
}
