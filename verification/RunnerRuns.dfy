/** What whole runs do with the gate, the maximum, the threads, the queue and the timer: which actions
    can change them, and to what. */
module RunnerRuns {
  import opened Options
  import opened RunnerState
  import opened RunnerInvariant
  import opened RunnerSteps

  // ------------------------------------------------------------ who closes the task channel

  /** This Cancel will not close the channel. */
  predicate Gentle(pc: CancelPc) { pc != Enter(true) && pc != Flagged(true) }

  ghost predicate NobodyForces(s: State) {
    && !s.gate.closed
    && (forall k :: 0 <= k < |s.callers.cancels| ==> Gentle(s.callers.cancels[k]))
    && (forall t :: 0 <= t < |s.pool.threads| && s.pool.threads[t].Cancelling? ==> Gentle(s.pool.threads[t].pc))
  }

  lemma WorkForcesNot(s: State, t: nat, result: Option<Err>)
    requires Ok(s) && WorkerEnabled(s, t) && NobodyForces(s)
    ensures NobodyForces(WorkerStep(s, t, result))
  {}

  lemma StepForcesNot(s: State, a: Action)
    requires Ok(s) && Enabled(s, a) && NobodyForces(s) && a != Done && a != StartCancel(true)
    ensures NobodyForces(Apply(s, a))
  {
    if a.Work? {
      WorkForcesNot(s, a.thread, a.result);
    }
  }

  lemma {:induction false} StaysOpen(s: State, actions: seq<Action>)
    requires Ok(s) && Legal(s, actions) && NobodyForces(s) && Done !in actions && StartCancel(true) !in actions
    ensures NobodyForces(Exec(s, actions))
    decreases |actions|
  {
    if actions != [] {
      assert actions[0] in actions;
      StepForcesNot(s, actions[0]);
      StaysOpen(Apply(s, actions[0]), actions[1..]);
    }
  }

  /** The channel is open after every run without Done and without a forced Cancel: a fail-fast worker,
      in particular, does not close it. */
  lemma OnlyDoneAndForceClose(m: int, capacity: nat, failFast: bool, notify: bool, actions: seq<Action>)
    requires var s := Init(m, capacity, failFast, notify); Legal(s, actions)
    requires Done !in actions && StartCancel(true) !in actions
    ensures !Exec(Init(m, capacity, failFast, notify), actions).gate.closed
  {
    StaysOpen(Init(m, capacity, failFast, notify), actions);
  }

  /** A forced Cancel that has not closed the channel yet. */
  predicate WillClose(s: State, k: nat) {
    k < |s.callers.cancels| && (s.gate.closed || s.callers.cancels[k] == Enter(true) || s.callers.cancels[k] == Flagged(true))
  }

  lemma {:induction false} StaysClosing(s: State, actions: seq<Action>, k: nat)
    requires Ok(s) && Legal(s, actions) && WillClose(s, k)
    ensures WillClose(Exec(s, actions), k)
    decreases |actions|
  {
    if actions != [] {
      StaysClosing(Apply(s, actions[0]), actions[1..], k);
    }
  }

  /** And it is closed after every run in which a forced Cancel has returned, or Done was called. */
  lemma ForceCloses(s: State, actions: seq<Action>, k: nat)
    requires Ok(s) && Legal(s, actions) && k < |s.callers.cancels| && s.callers.cancels[k] == Enter(true)
    requires k < |Exec(s, actions).callers.cancels| && Exec(s, actions).callers.cancels[k].Left?
    ensures Exec(s, actions).gate.closed
  {
    StaysClosing(s, actions, k);
  }

  lemma {:induction false} DoneCloses(s: State, actions: seq<Action>)
    requires Ok(s) && Legal(s, actions) && (s.gate.closed || Done in actions)
    ensures Exec(s, actions).gate.closed
    decreases |actions|
  {
    if actions != [] {
      DoneCloses(Apply(s, actions[0]), actions[1..]);
    }
  }

  // ------------------------------------------------------------ who sets the cancel flag

  predicate FailedCall(x: Call) { x.phase.Settled? && x.result.Some? }

  ghost predicate SomeFailed(calls: seq<Call>) {
    exists c :: 0 <= c < |calls| && FailedCall(calls[c])
  }

  /** The worker has left its loop after a failed task, or is about to. */
  predicate Failing(pc: Thread) { pc.Cancelling? || pc == Exited(ByFailFast) }

  ghost predicate SomeFailing(threads: seq<Thread>) {
    exists t :: 0 <= t < |threads| && Failing(threads[t])
  }

  /** In a fail-fast runner a task has failed if and only if some worker is in Cancel or left through it; and
      without a Cancel from outside only that sets the flag. */
  ghost predicate FailureKnown(s: State) {
    && (SomeFailed(s.pool.calls) && s.cfg.failFast <==> SomeFailing(s.pool.threads))
    && (s.gate.cancel ==> SomeFailing(s.pool.threads))
    && s.callers.cancels == []
  }

  lemma StillFailing(threads: seq<Thread>, t: nat, pc: Thread)
    requires t < |threads| && (Failing(threads[t]) ==> Failing(pc))
    ensures SomeFailing(threads) || Failing(pc) <==> SomeFailing(threads[t := pc])
  {
    if u :| 0 <= u < |threads| && Failing(threads[u]) {
      assert Failing(threads[t := pc][u]);
    }
    if Failing(pc) {
      assert Failing(threads[t := pc][t]);
    }
  }

  lemma StillFailed(calls: seq<Call>, c: nat, x: Call)
    requires c < |calls| && (FailedCall(calls[c]) ==> FailedCall(x))
    ensures SomeFailed(calls) || FailedCall(x) <==> SomeFailed(calls[c := x])
  {
    if d :| 0 <= d < |calls| && FailedCall(calls[d]) {
      assert FailedCall(calls[c := x][d]);
    }
    if FailedCall(x) {
      assert FailedCall(calls[c := x][c]);
    }
  }

  lemma SettlesFailure(s: State, t: nat, result: Option<Err>)
    requires Inv(s) && Ok(s) && WorkerEnabled(s, t) && s.pool.threads[t].Busy? && FailureKnown(s)
    ensures FailureKnown(WorkerStep(s, t, result))
  {
    var c, stage := s.pool.threads[t].call, s.pool.threads[t].stage;
    var x, pc := BusyCall(s.cfg, s.words.active, t, s.pool.calls[c], stage, result),
                 BusyThread(s.cfg, s.words.active, c, s.pool.calls[c], stage);
    assert CallData(s.pool.calls[c], c);
    StillFailing(s.pool.threads, t, pc);
    StillFailed(s.pool.calls, c, x);
  }

  /** The other steps of a worker, and the receive of a Cancel, settle nothing. */
  lemma TakesKeepFailure(s: State, t: nat, result: Option<Err>)
    requires Inv(s) && Ok(s) && WorkerEnabled(s, t) && !s.pool.threads[t].Busy? && FailureKnown(s)
    ensures FailureKnown(WorkerStep(s, t, result))
  {
    var s' := WorkerStep(s, t, result);
    StillFailing(s.pool.threads, t, s'.pool.threads[t]);
    if s'.pool.calls != s.pool.calls {
      var c := s.pool.queue[0];
      StillFailed(s.pool.calls, c, s'.pool.calls[c]);
    }
  }

  lemma ProduceKeepsFailure(s: State, c: nat)
    requires Ok(s) && ProducerEnabled(s, c) && FailureKnown(s)
    ensures FailureKnown(ProducerStep(s, c))
  {
    StillFailed(s.pool.calls, c, ProducerStep(s, c).pool.calls[c]);
  }

  lemma GrowKeepsFailure(calls: seq<Call>, x: Call, threads: seq<Thread>)
    requires !FailedCall(x)
    ensures SomeFailed(calls + [x]) <==> SomeFailed(calls)
    ensures SomeFailing(threads + [Spawned]) <==> SomeFailing(threads)
  {
    if c :| 0 <= c < |calls| && FailedCall(calls[c]) {
      assert FailedCall((calls + [x])[c]);
    }
    if t :| 0 <= t < |threads| && Failing(threads[t]) {
      assert Failing((threads + [Spawned])[t]);
    }
  }

  lemma StepKeepsFailure(s: State, a: Action)
    requires Inv(s) && Ok(s) && Enabled(s, a) && FailureKnown(s) && !a.StartCancel?
    ensures FailureKnown(Apply(s, a))
  {
    match a {
      case AddTask(h) => GrowKeepsFailure(s.pool.calls, Call(s.words.taskId, h, Numbered, 0, None, 0), s.pool.threads);
      case Produce(c) => ProduceKeepsFailure(s, c);
      case Work(t, result) =>
        if s.pool.threads[t].Busy? {
          SettlesFailure(s, t, result);
        } else {
          TakesKeepFailure(s, t, result);
        }
      case ResizeOn(k) => GrowKeepsFailure(s.pool.calls, Call(0, false, Numbered, 0, None, 0), s.pool.threads);
      case Run => GrowKeepsFailure(s.pool.calls, Call(0, false, Numbered, 0, None, 0), s.pool.threads);
      case _ =>
    }
  }

  lemma {:induction false} RunKeepsFailure(s: State, actions: seq<Action>)
    requires Inv(s) && Ok(s) && Legal(s, actions) && FailureKnown(s)
    requires forall i :: 0 <= i < |actions| ==> !actions[i].StartCancel?
    ensures FailureKnown(Exec(s, actions)) && Inv(Exec(s, actions))
    decreases |actions|
  {
    if actions != [] {
      StepKeepsFailure(s, actions[0]);
      StepInv(s, actions[0]);
      RunKeepsFailure(Apply(s, actions[0]), actions[1..]);
    }
  }

  /** Nobody calls Cancel from outside: when the threads have exited, the runner has cancelled itself if and
      only if it is fail-fast and some task failed. */
  lemma CancelsItselfIff(m: int, capacity: nat, failFast: bool, notify: bool, actions: seq<Action>)
    requires Legal(Init(m, capacity, failFast, notify), actions)
    requires forall i :: 0 <= i < |actions| ==> !actions[i].StartCancel?
    requires AllExited(Exec(Init(m, capacity, failFast, notify), actions).pool.threads)
    ensures var s := Exec(Init(m, capacity, failFast, notify), actions);
      s.gate.cancel <==> failFast && exists c :: 0 <= c < |s.pool.calls| && FailedCall(s.pool.calls[c])
  {
    var s0 := Init(m, capacity, failFast, notify);
    var s := Exec(s0, actions);
    InitInv(m, capacity, failFast, notify);
    RunKeepsFailure(s0, actions);
    ConfigStays(s0, actions);
    if t :| 0 <= t < |s.pool.threads| && Failing(s.pool.threads[t]) {
      assert s.pool.threads[t].Exited?;
    }
  }

  /** And the flag is never taken back. */
  lemma {:induction false} ConfigStays(s: State, actions: seq<Action>)
    requires Ok(s) && Legal(s, actions)
    ensures Exec(s, actions).cfg == s.cfg && (s.gate.cancel ==> Exec(s, actions).gate.cancel)
    decreases |actions|
  {
    if actions != [] {
      ConfigStays(Apply(s, actions[0]), actions[1..]);
    }
  }

  /** A worker that has left, or is in its Cancel, takes no more tasks. */
  predicate Leaving(pc: Thread) { pc.Exited? || pc.Cancelling? }

  lemma {:induction false} LeavingWorkerStops(s: State, actions: seq<Action>, t: nat)
    requires Ok(s) && Legal(s, actions) && t < |s.pool.threads| && Leaving(s.pool.threads[t])
    ensures t < |Exec(s, actions).pool.threads| && Leaving(Exec(s, actions).pool.threads[t])
    decreases |actions|
  {
    if actions != [] {
      LeavingWorkerStops(Apply(s, actions[0]), actions[1..], t);
    }
  }

  // ------------------------------------------------------------ what a worker does after a task

  /** On the way the worker finds no more threads open than allowed. */
  predicate PassesCheck(s: State, actions: seq<Action>, t: nat)
    requires Ok(s) && Legal(s, actions)
    decreases |actions|
  {
    || (t < |s.pool.threads| && s.pool.threads[t].Shrinking? && s.words.open <= s.maxParallel)
    || (actions != [] && PassesCheck(Apply(s, actions[0]), actions[1..], t))
  }

  predicate Working(pc: Thread) { pc.Busy? || pc.Shrinking? }

  /** A worker waits for its next task only after that check. */
  lemma {:induction false} IdleAfterCheck(s: State, actions: seq<Action>, t: nat)
    requires Ok(s) && Legal(s, actions) && t < |s.pool.threads| && Working(s.pool.threads[t])
    ensures t < |Exec(s, actions).pool.threads|
    ensures Exec(s, actions).pool.threads[t].Idle? ==> PassesCheck(s, actions, t)
    decreases |actions|
  {
    if actions != [] {
      var s1 := Apply(s, actions[0]);
      WorkingStep(s, actions[0], t);
      if Working(s1.pool.threads[t]) {
        IdleAfterCheck(s1, actions[1..], t);
      } else if Leaving(s1.pool.threads[t]) {
        LeavingWorkerStops(s1, actions[1..], t);
      } else {
        ThreadsStay(s1, actions[1..], t);
      }
    }
  }

  lemma WorkingStep(s: State, a: Action, t: nat)
    requires Ok(s) && Enabled(s, a) && t < |s.pool.threads| && Working(s.pool.threads[t])
    ensures t < |Apply(s, a).pool.threads|
    ensures var pc := Apply(s, a).pool.threads[t];
      Working(pc) || Leaving(pc) || (pc.Idle? && s.pool.threads[t].Shrinking? && s.words.open <= s.maxParallel)
  {
    if a.Work? {
      WorkingOrDone(s, a.thread, a.result, t);
    }
  }

  lemma WorkingOrDone(s: State, u: nat, result: Option<Err>, t: nat)
    requires Ok(s) && WorkerEnabled(s, u) && t < |s.pool.threads| && Working(s.pool.threads[t])
    ensures t < |WorkerStep(s, u, result).pool.threads|
    ensures var pc := WorkerStep(s, u, result).pool.threads[t];
      Working(pc) || Leaving(pc) || (pc.Idle? && s.pool.threads[t].Shrinking? && s.words.open <= s.maxParallel)
  {}

  lemma {:induction false} ThreadsStay(s: State, actions: seq<Action>, t: nat)
    requires Ok(s) && Legal(s, actions) && t < |s.pool.threads|
    ensures t < |Exec(s, actions).pool.threads|
    decreases |actions|
  {
    if actions != [] {
      ThreadsStay(Apply(s, actions[0]), actions[1..], t);
    }
  }

  predicate HasResult(calls: seq<Call>, c: nat, result: Option<Err>) {
    c < |calls| && HasReturned(calls[c].phase) && calls[c].result == result
  }

  lemma ResultStep(s: State, a: Action, c: nat, result: Option<Err>)
    requires Ok(s) && Links(s.pool) && Enabled(s, a) && HasResult(s.pool.calls, c, result)
    ensures HasResult(Apply(s, a).pool.calls, c, result)
  {
    if a.Work? {
      ResultWork(s, a.thread, a.result, c, result);
    }
  }

  lemma ResultWork(s: State, t: nat, returned: Option<Err>, c: nat, result: Option<Err>)
    requires Ok(s) && Links(s.pool) && WorkerEnabled(s, t) && HasResult(s.pool.calls, c, result)
    ensures HasResult(WorkerStep(s, t, returned).pool.calls, c, result)
  {}

  lemma {:induction false} ResultStays(s: State, actions: seq<Action>, c: nat, result: Option<Err>)
    requires Inv(s) && Ok(s) && Legal(s, actions) && HasResult(s.pool.calls, c, result)
    ensures HasResult(Exec(s, actions).pool.calls, c, result)
    decreases |actions|
  {
    if actions != [] {
      StepInv(s, actions[0]);
      ResultStep(s, actions[0], c, result);
      ResultStays(Apply(s, actions[0]), actions[1..], c, result);
    }
  }

  /** What a task function returns is its result from then on. */
  lemma ResultIsKept(s: State, t: nat, c: nat, result: Option<Err>, actions: seq<Action>)
    requires Reachable(s) && Ok(s) && t < |s.pool.threads| && s.pool.threads[t] == Busy(c, Running)
    requires Legal(s, [Work(t, result)] + actions)
    ensures var s' := Exec(s, [Work(t, result)] + actions); c < |s'.pool.calls| && s'.pool.calls[c].result == result
  {
    ReachableInv(s);
    StepInv(s, Work(t, result));
    assert ([Work(t, result)] + actions)[1..] == actions;
    assert s.pool.calls[c].phase == Held(t, Running);
    ResultStays(Apply(s, Work(t, result)), actions, c, result);
  }

  // ------------------------------------------------------------ addTask

  /** Not past the check of addTask, or not even called yet. */
  predicate Unchecked(calls: seq<Call>, c: nat) {
    c < |calls| ==> calls[c].phase.Numbered? || calls[c].phase.Rejected?
  }

  /** After Cancel a call that was not past its check is never accepted. */
  lemma CancelledAcceptsNone(s: State, actions: seq<Action>, c: nat)
    requires Reachable(s) && Ok(s) && Legal(s, actions) && s.gate.cancel && Unchecked(s.pool.calls, c)
    ensures Unchecked(Exec(s, actions).pool.calls, c)
  {
    ReachableInv(s);
    NoneAccepted(s, actions, c);
  }

  lemma {:induction false} NoneAccepted(s: State, actions: seq<Action>, c: nat)
    requires Inv(s) && Ok(s) && Legal(s, actions) && s.gate.cancel && Unchecked(s.pool.calls, c)
    ensures Unchecked(Exec(s, actions).pool.calls, c)
    decreases |actions|
  {
    if actions != [] {
      StepInv(s, actions[0]);
      AcceptsNone(s, actions[0], c);
      NoneAccepted(Apply(s, actions[0]), actions[1..], c);
    }
  }

  lemma AcceptsNone(s: State, a: Action, c: nat)
    requires Ok(s) && Enabled(s, a) && s.gate.cancel && Links(s.pool) && Unchecked(s.pool.calls, c)
    ensures Apply(s, a).gate.cancel && Unchecked(Apply(s, a).pool.calls, c)
  {
    if a.Work? {
      WorkLeavesCall(s, a.thread, a.result, c);
    }
  }

  lemma WorkLeavesCall(s: State, t: nat, result: Option<Err>, c: nat)
    requires Ok(s) && WorkerEnabled(s, t) && s.gate.cancel && Links(s.pool) && Unchecked(s.pool.calls, c)
    ensures var s' := WorkerStep(s, t, result);
      s'.gate.cancel && |s'.pool.calls| == |s.pool.calls| && (c < |s.pool.calls| ==> s'.pool.calls[c] == s.pool.calls[c])
  {}
}
