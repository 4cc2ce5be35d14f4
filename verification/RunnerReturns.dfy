/** When Cancel returns, and what becomes of its notification. */
module RunnerReturns {
  import opened Options
  import opened Counting
  import opened RunnerState
  import opened RunnerInvariant
  import opened RunnerSteps
  import opened RunnerProgress
  import opened RunnerTheorems
  import opened RunnerCancel

  // ------------------------------------------------------------ the drain of an open channel

  /** Where the body of cancelOnce.Do is, if somebody runs it. */
  function DrainPc(s: State): CancelPc
    requires s.gate.once.Doing?
    requires match s.gate.once.who
             case Worker(t) => t < |s.pool.threads| && s.pool.threads[t].Cancelling?
             case External(k) => k < |s.callers.cancels|
  {
    match s.gate.once.who
    case Worker(t) => s.pool.threads[t].pc
    case External(k) => s.callers.cancels[k]
  }

  /** Somebody saw a task in the queue, a worker took it first, and now nothing is left to receive: no
      task is queued, no sender is past the check, and the channel is open. */
  ghost predicate Stuck(s: State) {
    && Onces(s.gate.once, s.pool.threads, s.callers.cancels)
    && s.gate.once.Doing? && DrainPc(s).Receive?
    && Ahead(s.pool) == 0 && !s.gate.closed
  }

  lemma StuckFlag(s: State)
    requires Inv(s) && Stuck(s)
    ensures s.gate.cancel && s.pool.queue == []
  {
    match s.gate.once.who {
      case Worker(t) => assert PcFlag(s.gate.cancel, s.pool.threads[t].pc);
      case External(k) => assert PcFlag(s.gate.cancel, s.callers.cancels[k]);
    }
  }

  /** The calls of Cancel that have returned. */
  predicate Returned(s: State, k: nat) { k < |s.callers.cancels| && s.callers.cancels[k].Left? }

  lemma StuckWork(s: State, t: nat, result: Option<Err>)
    requires Ok(s) && Stuck(s) && s.pool.queue == [] && WorkerEnabled(s, t)
    ensures WorkerStep(s, t, result).gate.once == s.gate.once
    ensures WorkerStep(s, t, result).callers == s.callers
    ensures s.gate.once.who.Worker? ==>
      WorkerStep(s, t, result).pool.threads[s.gate.once.who.id] == s.pool.threads[s.gate.once.who.id]
  {}

  /** Whoever drains cannot move, and everybody else in Cancel waits for cancelOnce. */
  lemma StuckOnce(s: State, a: Action)
    requires Ok(s) && Stuck(s) && s.pool.queue == [] && Enabled(s, a)
    requires Onces(Apply(s, a).gate.once, Apply(s, a).pool.threads, Apply(s, a).callers.cancels)
    ensures Apply(s, a).gate.once == s.gate.once && DrainPc(Apply(s, a)) == DrainPc(s)
    ensures forall k: nat :: Returned(Apply(s, a), k) ==> Returned(s, k)
  {
    if a.Work? {
      StuckWork(s, a.thread, a.result);
    }
  }

  /** As long as the channel stays open, the drain stays stuck, and no Cancel returns. */
  lemma StuckStep(s: State, a: Action)
    requires Inv(s) && Ok(s) && Stuck(s) && Enabled(s, a) && !Apply(s, a).gate.closed
    ensures Stuck(Apply(s, a))
    ensures forall k: nat :: Returned(Apply(s, a), k) ==> Returned(s, k)
  {
    StepInv(s, a);
    StuckFlag(s);
    ReceiveStepBound(s, a);
    StuckOnce(s, a);
  }

  lemma {:induction false} StuckFrom(s: State, actions: seq<Action>)
    requires Inv(s) && Ok(s) && Stuck(s) && Legal(s, actions) && !Exec(s, actions).gate.closed
    ensures forall k: nat :: Returned(Exec(s, actions), k) ==> Returned(s, k)
    decreases |actions|
  {
    if actions != [] {
      if Apply(s, actions[0]).gate.closed {
        StaysClosed(Apply(s, actions[0]), actions[1..]);
      }
      StuckStep(s, actions[0]);
      StepInv(s, actions[0]);
      StuckFrom(Apply(s, actions[0]), actions[1..]);
    }
  }

  lemma {:induction false} StaysClosed(s: State, actions: seq<Action>)
    requires Ok(s) && Legal(s, actions) && s.gate.closed
    ensures Exec(s, actions).gate.closed
    decreases |actions|
  {
    if actions != [] {
      StaysClosed(Apply(s, actions[0]), actions[1..]);
    }
  }

  // ------------------------------------------------------------ otherwise Cancel can return

  /** A Cancel(true) that has not closed the channel yet. */
  predicate Forced(pc: CancelPc) { (pc.Enter? || pc.Flagged?) && pc.force }

  /** Steps left for whoever drains and for the k-th Cancel. */
  function StepsLeft(s: State, k: nat): nat
    requires Onces(s.gate.once, s.pool.threads, s.callers.cancels) && k < |s.callers.cancels|
  {
    var empty := s.pool.queue == [];
    (if s.gate.once.Doing? && s.gate.once.who != External(k) then CancelRank(empty, DrainPc(s)) else 0)
    + CancelRank(empty, s.callers.cancels[k])
  }

  ghost predicate OncesOf(s: State) { Onces(s.gate.once, s.pool.threads, s.callers.cancels) }

  /** The k-th Cancel is there, will not close the channel, and is not stuck. */
  ghost predicate MayReturn(s: State, k: nat) {
    OncesOf(s) && k < |s.callers.cancels| && !Forced(s.callers.cancels[k]) && !Stuck(s)
  }

  /** Closer to its return. */
  predicate Closer(s: State, s': State, k: nat)
    requires OncesOf(s) && OncesOf(s') && k < |s.callers.cancels| && k < |s'.callers.cancels|
  {
    || Sum(SenderWeight, s'.pool.calls) < Sum(SenderWeight, s.pool.calls)
    || (Sum(SenderWeight, s'.pool.calls) == Sum(SenderWeight, s.pool.calls)
        && (|s'.pool.queue| < |s.pool.queue|
            || (|s'.pool.queue| == |s.pool.queue| && StepsLeft(s', k) < StepsLeft(s, k))))
  }

  /** A step on the way there. */
  ghost predicate Helps(s: State, k: nat, a: Action)
    requires Ok(s) && MayReturn(s, k)
  {
    && Enabled(s, a)
    && Apply(s, a).gate.closed == s.gate.closed
    && MayReturn(Apply(s, a), k) && Closer(s, Apply(s, a), k)
  }

  lemma DrainWeighs(p: Pool, pc: CancelPc)
    requires Links(p) && Shape(p)
    ensures Sum(SenderWeight, CancelPool(p, pc).calls) == Sum(SenderWeight, p.calls)
  {
    if pc.Receive? && p.queue != [] {
      SumUpdate(SenderWeight, p.calls, p.queue[0], p.calls[p.queue[0]].(phase := Drained));
    }
  }

  /** Its own step. */
  lemma OwnStepKeeps(s: State, k: nat)
    requires Ok(s) && MayReturn(s, k) && CancellerEnabled(s, k)
    ensures CancellerStep(s, k).gate.closed == s.gate.closed && MayReturn(CancellerStep(s, k), k)
  {
    OncesExternal(s.gate, s.pool.threads, s.pool.queue, s.callers.cancels, k);
  }

  lemma OwnStepCloser(s: State, k: nat)
    requires Ok(s) && OncesOf(s) && CancellerEnabled(s, k) && !s.callers.cancels[k].Left? && Links(s.pool)
    requires OncesOf(CancellerStep(s, k))
    ensures Closer(s, CancellerStep(s, k), k)
  {
    DrainWeighs(s.pool, s.callers.cancels[k]);
  }

  lemma OwnStepHelps(s: State, k: nat)
    requires Inv(s) && Ok(s) && MayReturn(s, k) && CancellerEnabled(s, k) && !s.callers.cancels[k].Left?
    ensures Helps(s, k, CancelOn(k))
  {
    OwnStepKeeps(s, k);
    OwnStepCloser(s, k);
  }

  /** The step of whoever drains: a worker, or another Cancel. */
  lemma WorkerKeeps(s: State, k: nat, t: nat)
    requires Ok(s) && MayReturn(s, k) && s.gate.once == Doing(Worker(t)) && WorkerEnabled(s, t)
    ensures WorkerStep(s, t, None).gate.closed == s.gate.closed && MayReturn(WorkerStep(s, t, None), k)
  {
    OncesWorker(s.gate, s.pool.threads, s.pool.queue, s.callers.cancels, t);
  }

  lemma WorkerCloser(s: State, k: nat, t: nat)
    requires Ok(s) && Links(s.pool) && OncesOf(s) && k < |s.callers.cancels|
    requires s.gate.once == Doing(Worker(t)) && WorkerEnabled(s, t) && OncesOf(WorkerStep(s, t, None))
    ensures Closer(s, WorkerStep(s, t, None), k)
  {
    DrainWeighs(s.pool, s.pool.threads[t].pc);
  }

  lemma OtherKeeps(s: State, k: nat, j: nat)
    requires Ok(s) && MayReturn(s, k) && s.gate.once == Doing(External(j)) && j != k && CancellerEnabled(s, j)
    ensures CancellerStep(s, j).gate.closed == s.gate.closed && MayReturn(CancellerStep(s, j), k)
  {
    OncesExternal(s.gate, s.pool.threads, s.pool.queue, s.callers.cancels, j);
  }

  lemma OtherCloser(s: State, k: nat, j: nat)
    requires Ok(s) && Links(s.pool) && OncesOf(s) && k < |s.callers.cancels|
    requires s.gate.once == Doing(External(j)) && j != k && CancellerEnabled(s, j) && OncesOf(CancellerStep(s, j))
    ensures Closer(s, CancellerStep(s, j), k)
  {
    DrainWeighs(s.pool, s.callers.cancels[j]);
  }

  lemma DrainerHelps(s: State, k: nat) returns (a: Action)
    requires Inv(s) && Ok(s) && MayReturn(s, k)
    requires s.gate.once.Doing? && s.gate.once.who != External(k) && CancelEnabled(s, DrainPc(s))
    ensures Helps(s, k, a)
  {
    match s.gate.once.who {
      case Worker(t) =>
        a := Work(t, None);
        WorkerKeeps(s, k, t);
        WorkerCloser(s, k, t);
      case External(j) =>
        a := CancelOn(j);
        OtherKeeps(s, k, j);
        OtherCloser(s, k, j);
    }
  }

  /** The drainer waits for a task, and a sender is past the check. */
  lemma SenderHelps(s: State, k: nat) returns (a: Action)
    requires Inv(s) && Ok(s) && MayReturn(s, k)
    requires s.gate.once.Doing? && !CancelEnabled(s, DrainPc(s))
    ensures Helps(s, k, a)
  {
    DrainFlag(s);
    CountZero(IsSender, s.pool.calls);
    var c :| 0 <= c < |s.pool.calls| && IsSender(s.pool.calls[c]);
    a := Produce(c);
    SenderUseful(s, c);
    SendKeeps(s, k, c);
  }

  lemma SendKeeps(s: State, k: nat, c: nat)
    requires Ok(s) && MayReturn(s, k) && ProducerEnabled(s, c) && s.gate.cancel && Ahead(s.pool) > 0
    ensures MayReturn(ProducerStep(s, c), k)
  {
    SendBound(s, c);
  }

  lemma DrainFlag(s: State)
    requires Inv(s) && s.gate.once.Doing?
    ensures s.gate.cancel && InOnce(DrainPc(s))
  {
    match s.gate.once.who {
      case Worker(t) => assert PcFlag(s.gate.cancel, s.pool.threads[t].pc);
      case External(k) => assert PcFlag(s.gate.cancel, s.callers.cancels[k]);
    }
  }

  lemma HelpfulStep(s: State, k: nat) returns (a: Action)
    requires Inv(s) && Ok(s) && MayReturn(s, k) && !s.callers.cancels[k].Left?
    ensures Helps(s, k, a)
  {
    if s.callers.cancels[k].Enter? || s.callers.cancels[k].Flagged? || !s.gate.once.Doing? {
      a := CancelOn(k);
      OwnStepHelps(s, k);
    } else if !CancelEnabled(s, DrainPc(s)) {
      a := SenderHelps(s, k);
    } else if s.gate.once.who == External(k) {
      a := CancelOn(k);
      OwnStepHelps(s, k);
    } else {
      a := DrainerHelps(s, k);
    }
  }

  lemma {:induction false} CanReturn(s: State, k: nat) returns (actions: seq<Action>)
    requires Inv(s) && Ok(s) && MayReturn(s, k)
    ensures Legal(s, actions) && Exec(s, actions).gate.closed == s.gate.closed && Returned(Exec(s, actions), k)
    decreases Sum(SenderWeight, s.pool.calls), |s.pool.queue|, StepsLeft(s, k)
  {
    if s.callers.cancels[k].Left? {
      actions := [];
    } else {
      var a := HelpfulStep(s, k);
      StepInv(s, a);
      var rest := CanReturn(Apply(s, a), k);
      Prepend(s, a, rest);
      actions := [a] + rest;
    }
  }

  /** A Cancel(false) that has not returned can still return without anybody closing the channel if and
      only if the drain is not stuck. */
  lemma CancelReturnsIff(s: State, k: nat)
    requires Reachable(s) && Ok(s) && k < |s.callers.cancels|
    requires !s.callers.cancels[k].Left? && !Forced(s.callers.cancels[k])
    ensures !Stuck(s) <==> exists actions ::
      Legal(s, actions) && Exec(s, actions).gate.closed == s.gate.closed && Returned(Exec(s, actions), k)
  {
    ReachableInv(s);
    if Stuck(s) {
      forall actions | Legal(s, actions) && Exec(s, actions).gate.closed == s.gate.closed
        ensures !Returned(Exec(s, actions), k)
      {
        StuckFrom(s, actions);
      }
    } else {
      var actions := CanReturn(s, k);
    }
  }

  // ------------------------------------------------------------ an instance

  /** A runner of one worker while its one task is sent, while it is started, and while it is cancelled. */
  function Sending(notify: bool, total: nat, phase: Phase, queue: seq<nat>): State {
    Init(1, 1, false, notify).(
      words := Words(1, 0, 0, 0, total),
      pool := Pool([Call(0, false, phase, 0, None, 0)], [], queue))
  }

  function Running(notify: bool, open: nat, thread: seq<Thread>, run: RunPc): State {
    Sending(notify, 1, Queued, [0]).(
      words := Words(1, 0, open, 0, 1),
      pool := Pool([Call(0, false, Queued, 0, None, 0)], thread, [0]),
      callers := Callers([], [], [], run, if notify then Armed else Off))
  }

  function Cancelled(notify: bool, gate: Gate, pc: CancelPc): State {
    var s := Running(notify, 1, [Idle], Waiting);
    s.(gate := gate, callers := s.callers.(cancels := [pc]))
  }

  /** Cancel has seen the task in the queue, and then the worker took it. */
  function StuckState(notify: bool): State {
    Cancelled(notify, Gate(true, Doing(External(0)), false), Receive).(
      pool := Pool([Call(0, false, Held(0, Got), 0, None, 0)], [Busy(0, Got)], []))
  }

  lemma StepTo(s: State, a: Action, s': State)
    requires Reachable(s) && Ok(s) && Enabled(s, a) && Apply(s, a) == s'
    ensures Reachable(s')
  {
    StepReachable(s, a);
  }

  lemma PassedReachable(notify: bool)
    ensures Reachable(Sending(notify, 0, Passed, []))
  {
    StartReachable(1, 1, false, notify);
    StepTo(Init(1, 1, false, notify), AddTask(false), Sending(notify, 0, Numbered, []));
    StepTo(Sending(notify, 0, Numbered, []), Produce(0), Sending(notify, 0, Passed, []));
  }

  lemma SentReachable(notify: bool)
    ensures Reachable(Sending(notify, 1, Queued, [0]))
  {
    PassedReachable(notify);
    StepTo(Sending(notify, 0, Passed, []), Produce(0), Sending(notify, 1, Counted, []));
    StepTo(Sending(notify, 1, Counted, []), Produce(0), Sending(notify, 1, Queued, [0]));
  }

  lemma SpawnedReachable(notify: bool)
    ensures Reachable(Running(notify, 0, [Spawned], Starting(1)))
  {
    SentReachable(notify);
    StepTo(Sending(notify, 1, Queued, [0]), Run, Running(notify, 0, [], Starting(0)));
    StepTo(Running(notify, 0, [], Starting(0)), Run, Running(notify, 0, [Spawned], Starting(1)));
  }

  lemma RunningReachable(notify: bool)
    ensures Reachable(Running(notify, 1, [Idle], Waiting))
  {
    SpawnedReachable(notify);
    StepTo(Running(notify, 0, [Spawned], Starting(1)), Run, Running(notify, 0, [Spawned], Waiting));
    StepTo(Running(notify, 0, [Spawned], Waiting), Work(0, None), Running(notify, 1, [Idle], Waiting));
  }

  lemma EnteredReachable(notify: bool)
    ensures Reachable(Cancelled(notify, Gate(true, Unused, false), Flagged(false)))
  {
    RunningReachable(notify);
    var open := Gate(false, Unused, false);
    StepTo(Running(notify, 1, [Idle], Waiting), StartCancel(false), Cancelled(notify, open, Enter(false)));
    StepTo(Cancelled(notify, open, Enter(false)), CancelOn(0), Cancelled(notify, open.(cancel := true), Flagged(false)));
  }

  lemma CancelledReachable(notify: bool)
    ensures Reachable(Cancelled(notify, Gate(true, Doing(External(0)), false), Test))
  {
    EnteredReachable(notify);
    var flagged, doing := Gate(true, Unused, false), Gate(true, Doing(External(0)), false);
    StepTo(Cancelled(notify, flagged, Flagged(false)), CancelOn(0), Cancelled(notify, flagged, AtOnce));
    StepTo(Cancelled(notify, flagged, AtOnce), CancelOn(0), Cancelled(notify, doing, Test));
  }

  lemma ReceivingReachable(notify: bool)
    ensures Reachable(Cancelled(notify, Gate(true, Doing(External(0)), false), Receive))
  {
    CancelledReachable(notify);
    var doing := Gate(true, Doing(External(0)), false);
    StepTo(Cancelled(notify, doing, Test), CancelOn(0), Cancelled(notify, doing, Receive));
  }

  /** The drain does get stuck. */
  lemma StuckHappens(notify: bool)
    ensures Reachable(StuckState(notify)) && Ok(StuckState(notify)) && Stuck(StuckState(notify))
  {
    ReceivingReachable(notify);
    var doing := Gate(true, Doing(External(0)), false);
    StepTo(Cancelled(notify, doing, Receive), Work(0, None), StuckState(notify));
    CountZero(IsSender, StuckState(notify).pool.calls);
  }
}
