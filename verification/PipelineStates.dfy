/** The durable pipeline state and its initial value. */
module PipelineStates {
  import opened Basics
  import opened RunDefs
  import opened Scopes

  const RUNNER_FEATURE_VERSION := 3
  const RECEIPT_INTRODUCED_FEATURE_VERSION := 2
  const FINAL_SCOPE_RECEIPT_VERSION := 1
  const EXPECTED_RECEIPT_RUN_ID_MAX_CHARS := 100
  const TERMINAL_RECOVERY_REASON_MAX_BYTES := 2 * 1024

  type Time = string

  datatype PipelineStatus = Pending | Running | Done | Failed | NeedsApproval | Paused | NeedsAttention

  datatype StageStatus = StagePending | StageRunning | StagePassed | StageFailed | StageSkipped | StageBlocked

  datatype AttemptStatus = Passed | AttemptFailed | TimedOut | Aborted | ParseError | GateFailed

  datatype Economics = Economics(tokens: int, dollars: real)

  datatype Attempt = Attempt(
    attempt: nat,
    status: AttemptStatus,
    startedAt: Option<Time>,
    finishedAt: Option<Time>,
    durationMs: Option<real>,
    exitCode: Option<int>,
    parseError: Option<string>,
    findings: Option<seq<string>>,
    usage: Option<Economics>)

  datatype StageState = StageState(
    id: string,
    status: StageStatus,
    attempts: nat,
    startedAt: Option<Time>,
    finishedAt: Option<Time>,
    history: seq<Attempt>,
    findings: Option<seq<string>>,
    upstreamHandoff: Option<string>)

  datatype QualityGate = QualityGate(stageId: string, attempt: nat, status: AttemptStatus, finishedAt: Time)

  datatype Checkpoint = Checkpoint(
    version: int,
    storyId: string,
    runId: string,
    runDefId: string,
    runDefDigest: RunDefDigest,
    branch: string,
    baseOid: string,
    reviewed: RepositoryScope,
    qualityGate: QualityGate)

  /** A receipt extends the checkpoint it was issued for. */
  datatype Receipt = Receipt(checkpoint: Checkpoint, docs: RepositoryScope, finalWorkingTreeDigest: Digest)

  datatype RecoveryKind = SupersedeContractInvalidCandidate

  datatype SupersededReceipt = SupersededReceipt(
    version: int,
    sequence: int,
    kind: RecoveryKind,
    supersededAt: Time,
    supersededByRunId: string,
    expectedReceiptRunId: string,
    reason: string,
    resetTargetStageId: string,
    receipt: Receipt,
    runDefIdentity: Option<RunDef>)

  datatype PipelineState = PipelineState(
    storyId: string,
    runDefId: string,
    runDefDigest: RunDefDigest,
    runDefIdentity: Option<RunDef>,
    specFile: string,
    version: int,
    status: PipelineStatus,
    currentStage: Option<string>,
    stages: map<string, StageState>,
    regressions: nat,
    startedAt: Option<Time>,
    finishedAt: Option<Time>,
    model: string,
    thinking: string,
    economics: Economics,
    reviewCheckpoint: Option<Checkpoint>,
    finalScopeReceipt: Option<Receipt>,
    superseded: Option<seq<SupersededReceipt>>)

  predicate IsTerminal(status: PipelineStatus) {
    status.Done? || status.Failed? || status.NeedsApproval? || status.Paused? || status.NeedsAttention?
  }

  predicate IsComplete(status: StageStatus) {
    status.StagePassed? || status.StageSkipped?
  }

  function Archive(s: PipelineState): seq<SupersededReceipt> {
    if s.superseded.Some? then s.superseded.value else []
  }

  function InitialStage(id: string): StageState {
    StageState(id, StagePending, 0, None, None, [], None, None)
  }

  /** The durable stage, or a fresh pending one when it is absent. */
  function StageOf(s: PipelineState, id: string): StageState {
    Lookup(s.stages, id)
  }

  function Lookup(record: map<string, StageState>, id: string): StageState {
    if id in record then record[id] else InitialStage(id)
  }

  // ----- Economics -----

  const NO_USAGE := Economics(0, 0.0)

  function Plus(a: Economics, b: Economics): Economics {
    Economics(a.tokens + b.tokens, a.dollars + b.dollars)
  }

  function UsageOf(a: Attempt): Economics {
    if a.usage.Some? then a.usage.value else NO_USAGE
  }

  function HistoryUsage(history: seq<Attempt>): Economics {
    if history == [] then NO_USAGE
    else Plus(HistoryUsage(history[..|history| - 1]), UsageOf(history[|history| - 1]))
  }

  /** The usage recorded in the histories of the listed stages. */
  function TotalUsage(ids: seq<string>, stages: map<string, StageState>): Economics
    requires forall id <- ids :: id in stages
  {
    if ids == [] then NO_USAGE
    else Plus(TotalUsage(ids[..|ids| - 1], stages), HistoryUsage(stages[ids[|ids| - 1]].history))
  }

  lemma {:induction false} SameHistoriesSameUsage(ids: seq<string>, a: map<string, StageState>, b: map<string, StageState>)
    requires forall id <- ids :: id in a && id in b && a[id].history == b[id].history
    ensures TotalUsage(ids, a) == TotalUsage(ids, b)
    decreases |ids|
  {
    if ids != [] {
      SameHistoriesSameUsage(ids[..|ids| - 1], a, b);
    }
  }

  /** Recording one more attempt of one stage adds exactly its usage to the total. */
  lemma {:induction false} RecordedUsageAdds(ids: seq<string>, a: map<string, StageState>, b: map<string, StageState>, id: string, entry: Attempt)
    requires Unique(ids) && id in ids
    requires forall x <- ids :: x in a && x in b && b[x].history == if x == id then a[x].history + [entry] else a[x].history
    ensures TotalUsage(ids, b) == Plus(TotalUsage(ids, a), UsageOf(entry))
    decreases |ids|
  {
    var front, last := ids[..|ids| - 1], ids[|ids| - 1];
    if last == id {
      SameHistoriesSameUsage(front, a, b);
      assert (a[id].history + [entry])[..|a[id].history|] == a[id].history;
    } else {
      assert id in front;
      RecordedUsageAdds(front, a, b, id, entry);
    }
  }

  // ----- The initial state -----

  function Ids(stages: seq<CompiledStage>): (ids: seq<string>)
    ensures |ids| == |stages| && forall i :: 0 <= i < |stages| ==> ids[i] == stages[i].id
  {
    if stages == [] then [] else [stages[0].id] + Ids(stages[1..])
  }

  datatype InitialRequest = InitialRequest(
    storyId: string, runDefId: string, runDefDigest: RunDefDigest, specFile: string,
    model: string, thinking: string, startedAt: Option<Time>)

  function PendingStages(ids: seq<string>): (record: map<string, StageState>)
    ensures forall id :: id in record <==> id in ids
    ensures forall id :: id in record ==> record[id] == InitialStage(id)
  {
    if ids == [] then map[]
    else PendingStages(ids[..|ids| - 1])[ids[|ids| - 1] := InitialStage(ids[|ids| - 1])]
  }

  function InitialState(request: InitialRequest, stages: seq<CompiledStage>): PipelineState {
    PipelineState(
      request.storyId, request.runDefId, request.runDefDigest, None, request.specFile,
      RUNNER_FEATURE_VERSION, Pending, None, PendingStages(Ids(stages)), 0,
      request.startedAt, None, request.model, request.thinking, NO_USAGE, None, None, None)
  }

  lemma PendingStep(ids: seq<string>, i: nat)
    requires i < |ids|
    ensures PendingStages(ids[..i + 1]) == PendingStages(ids[..i])[ids[i] := InitialStage(ids[i])]
  {
    assert ids[..i + 1][..i] == ids[..i];
  }

  method CreateInitialPipelineState(request: InitialRequest, stages: seq<CompiledStage>) returns (s: PipelineState)
    ensures s == InitialState(request, stages)
  {
    var record: map<string, StageState> := map[];
    var ids := Ids(stages);
    assert PendingStages(ids[..0]) == map[];
    hide PendingStages;
    for i := 0 to |stages|
      invariant record == PendingStages(ids[..i])
    {
      PendingStep(ids, i);
      record := record[stages[i].id := InitialStage(stages[i].id)];
    }
    assert ids[..|stages|] == ids;
    s := PipelineState(
      request.storyId, request.runDefId, request.runDefDigest, None, request.specFile,
      RUNNER_FEATURE_VERSION, Pending, None, record, 0,
      request.startedAt, None, request.model, request.thinking, NO_USAGE, None, None, None);
  }
}
