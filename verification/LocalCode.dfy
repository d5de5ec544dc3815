/**
 Life of one local child process: timeout, abort, child events and the kill timer may come in any
 order.  A timer fires only while armed, and an event reaches a handler only while it is attached.
 */
module LocalCode {
  import opened Basics
  import opened RunDefs
  import opened PipelineStates
  import opened Routing

  datatype Signal = Term | Kill

  datatype CodeResult = CodeResult(exitCode: Option<int>, timedOut: bool, aborted: bool)

  datatype Settlement = Resolved(result: CodeResult) | SpawnError

  datatype ChildEvent =
    | TimeoutFires
    | AbortRaised
    | ChildError
    | ChildClosed(exitCode: Option<int>)
    | KillTimerFires

  /** The run as a value: its flags, what is armed, and what it has done so far. */
  datatype Life = Life(
    pid: Option<int>,
    aborted: bool,
    timedOut: bool,
    settled: bool,
    terminating: bool,
    exitCode: Option<int>,
    killTimer: bool,
    timeout: bool,
    abortListener: bool,
    errorHandler: bool,
    closeHandler: bool,
    signals: seq<Signal>,
    settlements: seq<Settlement>)

  function Fresh(pid: Option<int>): Life {
    Life(pid, false, false, false, false, None, false, true, true, true, true, [], [])
  }

  /**
   A spawned child with its timeout armed and its handlers attached.  A signal raised before starts
   termination at once; its listener stays attached.
   */
  function Started(pid: Option<int>, raised: bool): Life {
    if raised then Terminated(Fresh(pid).(aborted := true)) else Fresh(pid)
  }

  // ----- What the handlers mean -----

  /** A signal reaches the process group of a spawned child. */
  function Sent(pid: Option<int>, signals: seq<Signal>, signal: Signal): seq<Signal> {
    if pid.Some? && pid.value >= 1 then signals + [signal] else signals
  }

  function Resolve(r: Life): Life {
    if r.settled then r
    else r.(settled := true, timeout := false, abortListener := false, killTimer := r.killTimer && r.terminating,
            settlements := r.settlements + [Resolved(CodeResult(r.exitCode, r.timedOut, r.aborted))])
  }

  function Reject(r: Life): Life {
    if r.settled then r
    else r.(settled := true, timeout := false, abortListener := false, killTimer := false,
            settlements := r.settlements + [SpawnError])
  }

  function Terminated(r: Life): Life {
    if r.terminating || r.settled then r
    else r.(terminating := true, killTimer := true, signals := Sent(r.pid, r.signals, Term))
  }

  /** One event; an event that nothing waits for changes nothing. */
  function Step(r: Life, e: ChildEvent): Life {
    match e
    case TimeoutFires => if r.timeout then Terminated(r.(timeout := false, timedOut := true)) else r
    case AbortRaised => if r.abortListener then Terminated(r.(abortListener := false, aborted := true)) else r
    case ChildError =>
      if !r.errorHandler then r
      else if r.terminating then r.(errorHandler := false)
      else Reject(r.(errorHandler := false))
    case ChildClosed(code) => if r.closeHandler then Resolve(r.(closeHandler := false, exitCode := code)) else r
    case KillTimerFires => if r.killTimer then Resolve(r.(killTimer := false, signals := Sent(r.pid, r.signals, Kill))) else r
  }

  function Steps(r: Life, events: seq<ChildEvent>): Life {
    if events == [] then r else Step(Steps(r, events[..|events| - 1]), events[|events| - 1])
  }

  // ----- Safety under every order -----

  ghost predicate Signals(r: Life) {
    var sent := if !r.terminating then [] else if r.killTimer then [Term] else [Term, Kill];
    r.signals == if r.pid.Some? && r.pid.value >= 1 then sent else []
  }

  /**
   One settlement at most; SIGTERM first and once, SIGKILL after it and once; a run that is not
   settled has an armed timer; a settled one can neither time out nor be aborted; the flags of
   the settlement say whether the run was being terminated, and if not it carries the child's exit code.
   */
  ghost predicate InOrder(r: Life) {
    && Signals(r)
    && |r.settlements| == (if r.settled then 1 else 0)
    && (r.timedOut || r.aborted <==> r.terminating)
    && (!r.terminating ==> !r.killTimer)
    && (!r.settled && r.terminating ==> r.killTimer)
    && (!r.settled && !r.terminating ==> r.timeout)
    && (r.settled ==> !r.timeout && !r.abortListener)
    && (r.settled && r.settlements[0].Resolved? ==>
         r.settlements[0].result.timedOut == r.timedOut && r.settlements[0].result.aborted == r.aborted)
    && (r.settled && r.settlements[0].SpawnError? ==> !r.terminating)
    && (r.settled && r.settlements[0].Resolved? && !r.terminating ==>
         r.settlements[0].result.exitCode == r.exitCode && !r.closeHandler)
  }

  lemma TerminatingKeepsOrder(r: Life, byTimeout: bool)
    requires InOrder(r) && !r.settled && (byTimeout ==> r.timeout)
    ensures InOrder(Terminated(if byTimeout then r.(timeout := false, timedOut := true) else r.(abortListener := false, aborted := true)))
  {
  }

  lemma ClosingKeepsOrder(r: Life, code: Option<int>)
    requires InOrder(r) && r.closeHandler
    ensures InOrder(Resolve(r.(closeHandler := false, exitCode := code)))
  {
  }

  lemma KillingKeepsOrder(r: Life)
    requires InOrder(r) && r.killTimer
    ensures InOrder(Resolve(r.(killTimer := false, signals := Sent(r.pid, r.signals, Kill))))
  {
  }

  lemma ErrorKeepsOrder(r: Life)
    requires InOrder(r)
    ensures r.terminating ==> InOrder(r.(errorHandler := false))
    ensures !r.terminating ==> InOrder(Reject(r.(errorHandler := false)))
  {
  }

  lemma ArmedMeansUnsettled(r: Life)
    requires InOrder(r)
    ensures r.timeout || r.abortListener ==> !r.settled
  {
  }

  lemma StepKeepsOrder(r: Life, e: ChildEvent)
    requires InOrder(r)
    ensures InOrder(Step(r, e))
  {
    hide InOrder, Terminated, Resolve, Reject, Sent;
    ArmedMeansUnsettled(r);
    match e
    case TimeoutFires => if r.timeout { TerminatingKeepsOrder(r, true); }
    case AbortRaised => if r.abortListener { TerminatingKeepsOrder(r, false); }
    case ChildError => ErrorKeepsOrder(r);
    case ChildClosed(code) => if r.closeHandler { ClosingKeepsOrder(r, code); }
    case KillTimerFires => if r.killTimer { KillingKeepsOrder(r); }
  }

  lemma StepKeepsSettlement(r: Life, e: ChildEvent)
    requires r.settled
    ensures Step(r, e).settled && Step(r, e).settlements == r.settlements
  {
    hide Sent;
  }

  lemma StepKeepsPid(r: Life, e: ChildEvent)
    ensures Step(r, e).pid == r.pid
  {
    hide Sent;
  }

  lemma {:induction false} EveryOrderIsSafe(pid: Option<int>, raised: bool, events: seq<ChildEvent>)
    ensures InOrder(Steps(Started(pid, raised), events))
    decreases |events|
  {
    if events == [] {
      assert InOrder(Started(pid, raised));
    } else {
      hide Step, InOrder;
      EveryOrderIsSafe(pid, raised, events[..|events| - 1]);
      StepKeepsOrder(Steps(Started(pid, raised), events[..|events| - 1]), events[|events| - 1]);
    }
  }

  lemma StepsConcat(r: Life, first: seq<ChildEvent>, e: ChildEvent)
    ensures Steps(r, first + [e]) == Step(Steps(r, first), e)
  {
    assert (first + [e])[..|first|] == first;
  }

  /** The first settlement is final. */
  lemma {:induction false} SettlementIsFinal(pid: Option<int>, raised: bool, events: seq<ChildEvent>, n: nat)
    requires n <= |events| && Steps(Started(pid, raised), events[..n]).settled
    ensures Steps(Started(pid, raised), events).settlements == Steps(Started(pid, raised), events[..n]).settlements
    ensures Steps(Started(pid, raised), events).settled
    decreases |events|
  {
    hide Step;
    if n < |events| {
      var front := events[..|events| - 1];
      assert front[..n] == events[..n];
      SettlementIsFinal(pid, raised, front, n);
      StepKeepsSettlement(Steps(Started(pid, raised), front), events[|events| - 1]);
    } else {
      assert events[..n] == events;
    }
  }

  /** Once terminating, escalation stays armed until it fires, even when the child closes early. */
  lemma {:induction false} EscalationStaysArmed(pid: Option<int>, raised: bool, events: seq<ChildEvent>, n: nat)
    requires n <= |events| && Steps(Started(pid, raised), events[..n]).killTimer
    requires forall k :: n <= k < |events| ==> events[k] != KillTimerFires
    ensures Steps(Started(pid, raised), events).killTimer && Steps(Started(pid, raised), events).terminating
    decreases |events|
  {
    if n < |events| {
      var front := events[..|events| - 1];
      assert front[..n] == events[..n];
      EscalationStaysArmed(pid, raised, front, n);
      EveryOrderIsSafe(pid, raised, front);
    } else {
      assert events[..n] == events;
      EveryOrderIsSafe(pid, raised, events);
    }
  }

  /** When the armed kill timer fires, the run is settled and a signalled child has had both signals. */
  lemma KillTimerSettles(pid: Option<int>, raised: bool, events: seq<ChildEvent>)
    requires Steps(Started(pid, raised), events).killTimer
    ensures var r := Steps(Started(pid, raised), events + [KillTimerFires]);
            r.settled && !r.killTimer && (pid.Some? && pid.value >= 1 ==> r.signals == [Term, Kill])
  {
    EveryOrderIsSafe(pid, raised, events);
    PidIsKept(pid, raised, events);
    StepsConcat(Started(pid, raised), events, KillTimerFires);
  }

  lemma {:induction false} PidIsKept(pid: Option<int>, raised: bool, events: seq<ChildEvent>)
    ensures Steps(Started(pid, raised), events).pid == pid
    decreases |events|
  {
    hide Step;
    if events != [] {
      PidIsKept(pid, raised, events[..|events| - 1]);
      StepKeepsPid(Steps(Started(pid, raised), events[..|events| - 1]), events[|events| - 1]);
    }
  }

  /** No run hangs: the timers alone settle it, whatever happened before. */
  lemma TimersSettleEveryRun(pid: Option<int>, raised: bool, events: seq<ChildEvent>)
    ensures Steps(Started(pid, raised), events + [TimeoutFires] + [KillTimerFires]).settled
  {
    EveryOrderIsSafe(pid, raised, events);
    StepsConcat(Started(pid, raised), events, TimeoutFires);
    StepsConcat(Started(pid, raised), events + [TimeoutFires], KillTimerFires);
    EveryOrderIsSafe(pid, raised, events + [TimeoutFires]);
  }

  // ----- What settles a run, told by the order of the events -----

  /** A run that has not settled: its child has not closed, and its flags say which events came. */
  ghost predicate Waiting(r: Life, raised: bool, events: seq<ChildEvent>) {
    && (r.timedOut <==> TimeoutFires in events) && (r.timeout <==> TimeoutFires !in events) && (r.aborted <==> raised || AbortRaised in events)
    && r.exitCode == None && r.closeHandler && r.abortListener == (AbortRaised !in events)
    && (r.errorHandler <==> ChildError !in events)
    && (forall code :: ChildClosed(code) !in events)
  }

  lemma {:induction false} UnsettledIsPending(pid: Option<int>, raised: bool, events: seq<ChildEvent>)
    requires !Steps(Started(pid, raised), events).settled
    ensures Waiting(Steps(Started(pid, raised), events), raised, events)
    decreases |events|
  {
    if events != [] {
      var front, e := events[..|events| - 1], events[|events| - 1];
      assert events == front + [e];
      var r := Steps(Started(pid, raised), front);
      EveryOrderIsSafe(pid, raised, front);
      hide Steps;
      if r.settled {
        StepKeepsSettlement(r, e);
      } else {
        UnsettledIsPending(pid, raised, front);
        StillWaiting(r, raised, front, e);
      }
    }
  }

  lemma StillWaiting(r: Life, raised: bool, front: seq<ChildEvent>, e: ChildEvent)
    requires InOrder(r) && !r.settled && Waiting(r, raised, front) && !Step(r, e).settled
    ensures Waiting(Step(r, e), raised, front + [e])
  {
    hide Signals, Sent;
  }

  /** Something ended the child before it ended itself: the timeout, an abort now, or an abort before the start. */
  ghost predicate Interrupted(raised: bool, events: seq<ChildEvent>) {
    raised || TimeoutFires in events || AbortRaised in events
  }

  /**
   Which event settles a run, and with what, for every order of the events before it: the child's
   first close with its exit code, the kill timer of an interrupted run without one, or an error of a
   run that was not interrupted.  The flags tell exactly whether timeout and abort came before.
   */
  lemma WhatSettles(pid: Option<int>, raised: bool, before: seq<ChildEvent>, e: ChildEvent)
    requires !Steps(Started(pid, raised), before).settled
    ensures var r := Steps(Started(pid, raised), before + [e]);
      var flags := (code: Option<int>) => Resolved(CodeResult(code, TimeoutFires in before, raised || AbortRaised in before));
      match e
      case ChildClosed(code) => r.settled && r.settlements == [flags(code)]
      case KillTimerFires => if Interrupted(raised, before) then r.settled && r.settlements == [flags(None)] else !r.settled
      case ChildError => if Interrupted(raised, before) then !r.settled else r.settled && r.settlements == [SpawnError]
      case TimeoutFires => !r.settled
      case AbortRaised => !r.settled
  {
    EveryOrderIsSafe(pid, raised, before);
    UnsettledIsPending(pid, raised, before);
    StepsConcat(Started(pid, raised), before, e);
    var r := Steps(Started(pid, raised), before);
    hide Steps, Signals, Sent;
    if e.ChildError? && !Interrupted(raised, before) {
      NoErrorYet(pid, raised, before);
    }
  }

  /** An error before any interruption would have settled the run. */
  lemma {:induction false} NoErrorYet(pid: Option<int>, raised: bool, events: seq<ChildEvent>)
    requires !Steps(Started(pid, raised), events).settled && !Interrupted(raised, events)
    ensures ChildError !in events
    decreases |events|
  {
    if events != [] {
      var front, e := events[..|events| - 1], events[|events| - 1];
      assert events == front + [e];
      var r := Steps(Started(pid, raised), front);
      EveryOrderIsSafe(pid, raised, front);
      if r.settled {
        StepKeepsSettlement(r, e);
      } else {
        NoErrorYet(pid, raised, front);
        UnsettledIsPending(pid, raised, front);
      }
      hide Signals, Sent;
    }
  }

  /** The execution the runner sees of a settled child. */
  function ExecutionOf(result: CodeResult, durationMs: real, findings: Option<seq<string>>): Execution {
    Execution(None, result.exitCode, durationMs, None, findings, None, result.timedOut, result.aborted)
  }

  /** A child that was being terminated never passes its stage, whatever it exits with. */
  lemma TerminatedNeverPasses(pid: Option<int>, raised: bool, events: seq<ChildEvent>, stage: CompiledStage, durationMs: real, findings: Option<seq<string>>)
    ensures var r := Steps(Started(pid, raised), events);
      r.settled && r.terminating ==>
        && r.settlements != [] && r.settlements[0].Resolved?
        && CheckStageDecision(stage, ExecutionOf(r.settlements[0].result, durationMs, findings)).kind
           == if r.aborted then Aborted else TimedOut
  {
    EveryOrderIsSafe(pid, raised, events);
  }

  /** The first close of a child that was left alone decides its stage: exit code 0 passes, 1 with findings fails the gate. */
  lemma CloseDecides(pid: Option<int>, raised: bool, before: seq<ChildEvent>, code: Option<int>, stage: CompiledStage,
                     durationMs: real, findings: Option<seq<string>>)
    requires !Steps(Started(pid, raised), before).settled && !Interrupted(raised, before) && stage.CodeStage?
    ensures var r := Steps(Started(pid, raised), before + [ChildClosed(code)]);
      && |r.settlements| == 1 && r.settlements[0].Resolved?
      && var kind := CheckStageDecision(stage, ExecutionOf(r.settlements[0].result, durationMs, findings)).kind;
         && (kind == Passed <==> code == Some(0))
         && (kind == GateFailed <==> code == Some(1) && findings.Some? && findings.value != [])
         && (kind != Passed && kind != GateFailed ==> kind == AttemptFailed)
  {
    hide Steps;
    WhatSettles(pid, raised, before, ChildClosed(code));
  }

  // ----- The handlers -----

  class LocalRun {
    const pid: Option<int>
    var aborted: bool
    var timedOut: bool
    var settled: bool
    var terminating: bool
    var exitCode: Option<int>
    var killTimer: bool
    var timeout: bool
    var abortListener: bool
    var errorHandler: bool
    var closeHandler: bool
    var signals: seq<Signal>
    var settlements: seq<Settlement>

    ghost function Value(): Life
      reads this
    {
      Life(pid, aborted, timedOut, settled, terminating, exitCode, killTimer, timeout, abortListener,
           errorHandler, closeHandler, signals, settlements)
    }

    /** Spawned, with the timeout armed and the handlers attached; the signal may have been raised before. */
    constructor (pid: Option<int>, alreadyAborted: bool)
      ensures Value() == Started(pid, alreadyAborted)
    {
      this.pid := pid;
      aborted, timedOut, settled, terminating, exitCode, killTimer := false, false, false, false, None, false;
      timeout, abortListener, errorHandler, closeHandler := true, true, true, true;
      signals, settlements := [], [];
      new;
      if alreadyAborted {
        aborted := true;
        Terminate();
      }
    }

    method SignalGroup(signal: Signal)
      modifies `signals
      ensures signals == Sent(pid, old(signals), signal)
    {
      if pid.None? || pid.value < 1 {
        return;
      }
      signals := signals + [signal];
    }

    method Cleanup(preserveKillEscalation: bool)
      modifies `timeout, `killTimer, `abortListener
      ensures !timeout && !abortListener && (killTimer <==> old(killTimer) && preserveKillEscalation)
    {
      timeout := false;
      if !preserveKillEscalation {
        killTimer := false;
      }
      abortListener := false;
    }

    method ResolveOnce()
      modifies this
      ensures Value() == Resolve(old(Value()))
    {
      if settled {
        return;
      }
      settled := true;
      Cleanup(terminating);
      settlements := settlements + [Resolved(CodeResult(exitCode, timedOut, aborted))];
    }

    method RejectOnce()
      modifies this
      ensures Value() == Reject(old(Value()))
    {
      if settled {
        return;
      }
      settled := true;
      Cleanup(false);
      settlements := settlements + [SpawnError];
    }

    method Terminate()
      modifies this
      ensures Value() == Terminated(old(Value()))
    {
      if terminating || settled {
        return;
      }
      terminating := true;
      SignalGroup(Term);
      killTimer := true;
    }

    method OnTimeout()
      modifies this
      ensures Value() == Step(old(Value()), TimeoutFires)
    {
      if timeout {
        timeout := false;
        timedOut := true;
        Terminate();
      }
    }

    method OnAbort()
      modifies this
      ensures Value() == Step(old(Value()), AbortRaised)
    {
      if abortListener {
        abortListener := false;
        aborted := true;
        Terminate();
      }
    }

    method OnError()
      modifies this
      ensures Value() == Step(old(Value()), ChildError)
    {
      if errorHandler {
        errorHandler := false;
        if !terminating {
          RejectOnce();
        }
      }
    }

    method OnClose(code: Option<int>)
      modifies this
      ensures Value() == Step(old(Value()), ChildClosed(code))
    {
      if closeHandler {
        closeHandler := false;
        exitCode := code;
        ResolveOnce();
      }
    }

    method OnKillTimer()
      modifies this
      ensures Value() == Step(old(Value()), KillTimerFires)
    {
      if killTimer {
        killTimer := false;
        SignalGroup(Kill);
        ResolveOnce();
      }
    }
  }
}
