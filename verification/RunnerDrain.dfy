/** What the body of cancelOnce achieves: it runs once, empties the channel of what was in it, and notifies. */
module RunnerDrain {
  import opened Options
  import opened RunnerState
  import opened RunnerInvariant
  import opened RunnerSteps
  import opened RunnerBell

  /** Once begun, the body is never begun again. */
  lemma {:induction false} BodyRunsOnce(s: State, actions: seq<Action>)
    requires Ok(s) && Legal(s, actions) && !s.gate.once.Unused?
    ensures !Exec(s, actions).gate.once.Unused? && (s.gate.once.Complete? ==> Exec(s, actions).gate.once.Complete?)
    decreases |actions|
  {
    if actions != [] {
      OnceStep(s, actions[0]);
      BodyRunsOnce(Apply(s, actions[0]), actions[1..]);
    }
  }

  lemma OnceStep(s: State, a: Action)
    requires Ok(s) && Enabled(s, a) && !s.gate.once.Unused?
    ensures !Apply(s, a).gate.once.Unused? && (s.gate.once.Complete? ==> Apply(s, a).gate.once.Complete?)
  {}

  // ------------------------------------------------------------ emptying the channel

  /** The body is still at its loop. */
  predicate InLoop(s: State) {
    match s.gate.once
    case Doing(Worker(t)) => t < |s.pool.threads| && s.pool.threads[t].Cancelling? && AtLoop(s.pool.threads[t].pc)
    case Doing(External(k)) => k < |s.callers.cancels| && AtLoop(s.callers.cancels[k])
    case _ => false
  }

  predicate AtLoop(pc: CancelPc) { pc.Test? || pc.Receive? }

  /** The task was sent, and if it is still in the channel the loop goes on. */
  predicate WillBeTaken(s: State, c: nat) {
    && c < |s.pool.calls| && !s.gate.once.Unused?
    && !s.pool.calls[c].phase.Numbered? && !s.pool.calls[c].phase.Passed? && !s.pool.calls[c].phase.Counted?
    && (s.pool.calls[c].phase.Queued? ==> InLoop(s))
  }

  lemma WorkTakes(s: State, t: nat, result: Option<Err>, c: nat)
    requires Links(s.pool) && Onces(s.gate.once, s.pool.threads, s.callers.cancels)
    requires Ok(s) && WorkerEnabled(s, t) && WillBeTaken(s, c)
    ensures WillBeTaken(WorkerStep(s, t, result), c)
  {
    if s.pool.threads[t].Cancelling? {
      BodyTakes(s, t, result, c);
    }
  }

  lemma BodyTakes(s: State, t: nat, result: Option<Err>, c: nat)
    requires Links(s.pool) && Onces(s.gate.once, s.pool.threads, s.callers.cancels)
    requires Ok(s) && WorkerEnabled(s, t) && s.pool.threads[t].Cancelling? && WillBeTaken(s, c)
    ensures WillBeTaken(WorkerStep(s, t, result), c)
  {}

  lemma CancelTakes(s: State, k: nat, c: nat)
    requires Inv(s) && Ok(s) && CancellerEnabled(s, k) && WillBeTaken(s, c)
    ensures WillBeTaken(CancellerStep(s, k), c)
  {}

  lemma StepTakes(s: State, a: Action, c: nat)
    requires Inv(s) && Ok(s) && Enabled(s, a) && WillBeTaken(s, c)
    ensures WillBeTaken(Apply(s, a), c)
  {
    if a.Work? {
      WorkTakes(s, a.thread, a.result, c);
    } else if a.CancelOn? {
      CancelTakes(s, a.id, c);
    }
  }

  lemma {:induction false} RunTakes(s: State, actions: seq<Action>, c: nat)
    requires Inv(s) && Ok(s) && Legal(s, actions) && WillBeTaken(s, c)
    ensures Inv(Exec(s, actions)) && WillBeTaken(Exec(s, actions), c)
    decreases |actions|
  {
    if actions != [] {
      StepTakes(s, actions[0], c);
      StepInv(s, actions[0]);
      RunTakes(Apply(s, actions[0]), actions[1..], c);
    }
  }

  /** Every task that is in the channel while the body is at its loop has left it when the body is over. */
  lemma DrainEmpties(s: State, actions: seq<Action>, c: nat)
    requires Reachable(s) && Ok(s) && Legal(s, actions) && InLoop(s) && c in s.pool.queue
    requires Exec(s, actions).gate.once.Complete?
    ensures c !in Exec(s, actions).pool.queue
  {
    ReachableInv(s);
    assert s.pool.calls[c].phase.Queued?;
    RunTakes(s, actions, c);
  }

  // ------------------------------------------------------------ notifying

  /** With notification on and no reset in the way, the notification is out when the body is over. */
  lemma {:induction false} BodyNotifies(s: State, actions: seq<Action>)
    requires Ok(s) && Legal(s, actions) && s.cfg.notify && (s.gate.once.Complete? ==> s.bell.closed)
    requires NoneReplaces(s, actions)
    ensures Exec(s, actions).gate.once.Complete? ==> Exec(s, actions).bell.closed
    decreases |actions|
  {
    if actions != [] {
      var a, s1 := actions[0], Apply(s, actions[0]);
      assert a.ResetOn? ==> !Replaces(s, actions, a.id);
      forall k: nat
        ensures !Replaces(s1, actions[1..], k)
      {
        assert !Replaces(s, actions, k);
      }
      NotifyStep(s, a);
      BodyNotifies(s1, actions[1..]);
    }
  }

  lemma NotifyStep(s: State, a: Action)
    requires Ok(s) && Enabled(s, a) && s.cfg.notify && (s.gate.once.Complete? ==> s.bell.closed)
    requires a.ResetOn? ==> !ReplacesNow(s, a, a.id)
    ensures Apply(s, a).cfg == s.cfg && (Apply(s, a).gate.once.Complete? ==> Apply(s, a).bell.closed)
  {}

  lemma CancelNotifies(m: int, capacity: nat, failFast: bool, actions: seq<Action>)
    requires var s0 := Init(m, capacity, failFast, true); Legal(s0, actions) && NoneReplaces(s0, actions)
    ensures var s := Exec(Init(m, capacity, failFast, true), actions); s.gate.once.Complete? ==> s.bell.closed
  {
    BodyNotifies(Init(m, capacity, failFast, true), actions);
  }
}
