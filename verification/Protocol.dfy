/**
 Whole histories of the durable protocol.  A history is any sequence of enabled events, so it covers
 every number of runs, a crash after any save, and every answer of executor, attestor and clock.
 */
module Protocol {
  import opened Basics
  import opened RunDefs
  import opened PipelineStates
  import opened Routing
  import opened Transitions
  import opened Validation
  import opened Acceptance
  import opened Reconcile
  import opened Durable
  import opened Steps
  import opened Approvals
  import opened Recovery

  /** A later archive: records are kept in place, at most gaining a definition, and new ones follow. */
  ghost predicate SameRecord(a: SupersededReceipt, b: SupersededReceipt) {
    a == b || (a.runDefIdentity.None? && b == a.(runDefIdentity := b.runDefIdentity))
  }

  ghost predicate ArchiveExtends(a: seq<SupersededReceipt>, b: seq<SupersededReceipt>) {
    |a| <= |b| && forall k :: 0 <= k < |a| ==> SameRecord(a[k], b[k])
  }

  ghost predicate DurableGrows(a: PipelineState, b: PipelineState) {
    Grows(a.stages, b.stages) && ArchiveExtends(Archive(a), Archive(b))
  }

  lemma StateGrowsIsDurable(a: PipelineState, b: PipelineState)
    requires StateGrows(a, b)
    ensures DurableGrows(a, b)
  {
  }

  lemma DurableGrowsTransitive(a: PipelineState, b: PipelineState, c: PipelineState)
    requires DurableGrows(a, b) && DurableGrows(b, c)
    ensures DurableGrows(a, c)
  {
    hide StageGrows;
    forall id | id in a.stages ensures id in c.stages && StageGrows(a.stages[id], c.stages[id]) {
      StageGrowsTransitive(a.stages[id], b.stages[id], c.stages[id]);
    }
    forall k | 0 <= k < |Archive(a)| ensures SameRecord(Archive(a)[k], Archive(c)[k]) {
      assert SameRecord(Archive(a)[k], Archive(b)[k]) && SameRecord(Archive(b)[k], Archive(c)[k]);
    }
  }

  lemma StageGrowsTransitive(a: StageState, b: StageState, c: StageState)
    requires StageGrows(a, b) && StageGrows(b, c)
    ensures StageGrows(a, c)
  {
  }

  lemma AdoptGrows(s: PipelineState, def: RunDef)
    requires Grows(s.stages, AdoptRunDef(s, def).stages)
    ensures DurableGrows(s, AdoptRunDef(s, def))
  {
    hide Grows;
  }

  /** The inductive step: every enabled event keeps the invariant and only adds to the record. */
  lemma EventKeepsInv(stages: Stages, s: PipelineState, e: Event)
    requires WellCompiled(stages) && Inv(stages, s) && Enabled(stages, s, e)
    ensures Inv(stages, Apply(stages, s, e)) && DurableGrows(s, Apply(stages, s, e))
  {
    hide Inv, WellCompiled, DurableGrows, StateGrows, AtPosition, MayAttachReview, MayAttachFinal, MayCorrect, MayAdopt, Calm,
         MovedTo, ResetFrom, AllComplete, MarkStageRunning, ApplyStageOutcome, ApplyExecutorError, ReconcileState, AdoptRunDef,
         AttachReviewCheckpoint, AttachFinalScopeReceipt, FinalizeState, InvalidateReviewApproval, ApplyTerminalCorrection;
    var t := Apply(stages, s, e);
    match e {
      case MarkRunning(p, at) => MarkRunningKeepsInv(stages, s, p, at);
      case Settle(p, execution, max, at) => SettleKeepsInv(stages, s, p, execution, max, at);
      case ExecutorError(p, at) => ExecutorErrorKeepsInv(stages, s, p, at);
      case AttachReview(p, c) => AttachReviewKeepsInv(stages, s, p, c);
      case AttachFinal(r) => AttachFinalKeepsInv(stages, s, r);
      case InvalidateReview =>
        CheckpointInIds(stages, s);
        InvalidateKeepsInv(stages, s);
      case Finalize(status, at) => FinalizeKeepsInv(stages, s, status, at);
      case Correct(c) =>
        CorrectionInIds(stages, s, c);
        CorrectionKeepsInv(stages, s, c);
      case ReconcileLoaded(now) => ReconcileKeepsInv(stages, s, now);
      case Adopt(def) =>
        AdoptKeepsInv(stages, s, def);
        AdoptGrows(s, def);
        return;
    }
    StateGrowsIsDurable(s, t);
  }

  lemma CheckpointInIds(stages: Stages, s: PipelineState)
    requires Inv(stages, s) && s.reviewCheckpoint.Some?
    ensures s.reviewCheckpoint.value.qualityGate.stageId in Ids(stages)
  {
    hide RecordOk, ArchiveOk, RunningOk, HeaderOk;
    ReviewGateInIds(stages, s);
  }

  lemma CorrectionInIds(stages: Stages, s: PipelineState, c: Correction)
    requires MayCorrect(stages, s, c)
    ensures s.finalScopeReceipt.Some? && s.finalScopeReceipt.value.checkpoint.runId == c.expectedReceiptRunId
    ensures c.resetTargetStageId in Ids(stages)
  {
    hide InferResetTarget;
    InferredInIds(stages, s.finalScopeReceipt.value);
  }

  // ----- Histories -----

  /** `states` are the successive durable states, `events` what led from each to the next. */
  ghost predicate History(stages: Stages, states: seq<PipelineState>, events: seq<Event>) {
    && |states| == |events| + 1
    && forall i :: 0 <= i < |events| ==>
         Enabled(stages, states[i], events[i]) && states[i + 1] == Apply(stages, states[i], events[i])
  }

  lemma {:induction false} HistoryKeepsInv(stages: Stages, states: seq<PipelineState>, events: seq<Event>, i: nat)
    requires WellCompiled(stages) && History(stages, states, events) && Inv(stages, states[0]) && i < |states|
    ensures Inv(stages, states[i])
    decreases i
  {
    hide Inv, Enabled, Apply, DurableGrows;
    if i > 0 {
      HistoryKeepsInv(stages, states, events, i - 1);
      EventKeepsInv(stages, states[i - 1], events[i - 1]);
    }
  }

  /** What a later run compares with its own configuration before it resumes. */
  predicate SameConfiguration(a: PipelineState, b: PipelineState) {
    a.storyId == b.storyId && a.runDefId == b.runDefId && a.specFile == b.specFile && a.model == b.model && a.thinking == b.thinking
  }

  lemma EventKeepsConfiguration(stages: Stages, s: PipelineState, e: Event)
    ensures SameConfiguration(s, Apply(stages, s, e))
  {
    hide OutcomeOf, BuildFinishedStage, ResetStages, ReconcileStages, MayFinalize;
  }

  /** No save changes what a resume is checked against. */
  lemma {:induction false} HistoryKeepsConfiguration(stages: Stages, states: seq<PipelineState>, events: seq<Event>, i: nat)
    requires History(stages, states, events) && i < |states|
    ensures SameConfiguration(states[0], states[i])
    decreases i
  {
    hide Enabled, Apply;
    if i > 0 {
      HistoryKeepsConfiguration(stages, states, events, i - 1);
      EventKeepsConfiguration(stages, states[i - 1], events[i - 1]);
    }
  }

  /**
   Any number of runs is one history: a run that stops after its save number `n`, by a crash or at
   its end, is followed by a run that starts with one event from the state it left on disk.
   */
  lemma CrashAndResume(stages: Stages, states: seq<PipelineState>, events: seq<Event>, n: nat, e: Event,
                       more: seq<PipelineState>, moreEvents: seq<Event>)
    requires History(stages, states, events) && n < |states| && Enabled(stages, states[n], e)
    requires History(stages, more, moreEvents) && more[0] == Apply(stages, states[n], e)
    ensures History(stages, states[..n + 1] + more, events[..n] + [e] + moreEvents)
  {
    hide Enabled, Apply;
    var allStates, allEvents := states[..n + 1] + more, events[..n] + [e] + moreEvents;
    forall i | 0 <= i < |allEvents|
      ensures Enabled(stages, allStates[i], allEvents[i]) && allStates[i + 1] == Apply(stages, allStates[i], allEvents[i])
    {
      if i < n {
        assert allStates[i] == states[i] && allStates[i + 1] == states[i + 1] && allEvents[i] == events[i];
      } else if i == n {
        assert allStates[i] == states[n] && allStates[i + 1] == more[0] && allEvents[i] == e;
      } else {
        assert allStates[i] == more[i - n - 1] && allStates[i + 1] == more[i - n] && allEvents[i] == moreEvents[i - n - 1];
      }
    }
  }

  /** From a fresh initial state every state ever handed to the store is one the store accepts: it meets every rule. */
  lemma EverySavedStateIsValid(stages: Stages, request: InitialRequest, states: seq<PipelineState>, events: seq<Event>, i: nat)
    requires WellCompiled(stages) && History(stages, states, events) && states[0] == InitialState(request, stages) && i < |states|
    ensures Inv(stages, states[i]) && ValidState(states[i]) && forall rule :: Meets(states[i], rule)
  {
    hide Inv, Enabled, Apply, ValidState, Meets;
    InitialInv(request, stages);
    HistoryKeepsInv(stages, states, events, i);
    InvIsValid(stages, states[i]);
  }

  /** Histories, attempts and the archive only grow, across all runs. */
  lemma {:induction false} RecordsOnlyGrow(stages: Stages, states: seq<PipelineState>, events: seq<Event>, i: nat, j: nat)
    requires WellCompiled(stages) && History(stages, states, events) && Inv(stages, states[0]) && i <= j < |states|
    ensures DurableGrows(states[i], states[j])
    decreases j
  {
    hide Inv, Enabled, Apply;
    if i == j {
      GrowsReflexive(states[i]);
    } else {
      hide DurableGrows;
      RecordsOnlyGrow(stages, states, events, i, j - 1);
      HistoryKeepsInv(stages, states, events, j - 1);
      EventKeepsInv(stages, states[j - 1], events[j - 1]);
      DurableGrowsTransitive(states[i], states[j - 1], states[j]);
    }
  }

  lemma GrowsReflexive(s: PipelineState)
    ensures DurableGrows(s, s)
  {
  }
}
