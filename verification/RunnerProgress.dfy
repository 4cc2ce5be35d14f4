/** Winding down: once the channel is closed and no more threads are added, the workers,
    together with the Cancel and Reset calls they may wait for, can always go on until all
    threads have exited, and cannot go on for ever. */
module RunnerProgress {
  import opened Counting
  import opened Options
  import opened RunnerState
  import opened RunnerInvariant
  import opened RunnerSteps
  import opened RunnerTheorems

  /** Steps left inside Cancel, not counting the drain of the queue itself. */
  function CancelRank(empty: bool, pc: CancelPc): nat {
    match pc
    case Enter(_) => 9
    case Flagged(_) => 8
    case AtOnce => 7
    case Test => if empty then 4 else 6
    case Receive => 5
    case Notify => 3
    case Left => 0
  }

  function StageRank(stage: Stage): nat {
    match stage
    case Got => 19
    case Activated => 18
    case Running => 17
    case Returned => 16
    case Deactivated => 15
    case Decremented => 14
    case Locked => 13
    case SawNoActive => 12
    case Checked => 11
    case Handled => 10
  }

  /** Steps left for a worker before it takes the next task or exits. */
  function ThreadRank(empty: bool, pc: Thread): nat {
    match pc
    case Spawned => 2
    case Idle => 1
    case Busy(_, stage) => StageRank(stage)
    case Cancelling(pc) => CancelRank(empty, pc)
    case Shrinking => 2
    case Exited(_) => 0
  }

  function ResetRank(pc: ResetPc): nat {
    match pc
    case WaitLock => 5
    case HasLock => 4
    case SawIdle => 3
    case TestCancel => 2
    case Replace => 1
    case ResetDone => 0
  }

  function EmptyCancelRank(pc: CancelPc): nat { CancelRank(true, pc) }
  function FullCancelRank(pc: CancelPc): nat { CancelRank(false, pc) }
  function EmptyThreadRank(pc: Thread): nat { ThreadRank(true, pc) }
  function FullThreadRank(pc: Thread): nat { ThreadRank(false, pc) }

  function ThreadRanks(threads: seq<Thread>, empty: bool): nat {
    if empty then Sum(EmptyThreadRank, threads) else Sum(FullThreadRank, threads)
  }

  function CancelRanks(cancels: seq<CancelPc>, empty: bool): nat {
    if empty then Sum(EmptyCancelRank, cancels) else Sum(FullCancelRank, cancels)
  }

  /** The measure: twenty for each queued task, plus the ranks of everybody. */
  function Measure(s: State): nat {
    var empty := s.pool.queue == [];
    20 * |s.pool.queue| + ThreadRanks(s.pool.threads, empty)
    + CancelRanks(s.callers.cancels, empty) + Sum(ResetRank, s.callers.resets)
  }

  /** A step of a worker, or of a Cancel or Reset call already under way. */
  predicate Internal(a: Action) { a.Work? || a.CancelOn? || a.ResetOn? }

  lemma ThreadRanksUpdate(threads: seq<Thread>, t: nat, pc: Thread, empty: bool)
    requires t < |threads|
    ensures ThreadRanks(threads[t := pc], empty) + ThreadRank(empty, threads[t]) ==
            ThreadRanks(threads, empty) + ThreadRank(empty, pc)
  {
    SumUpdate(EmptyThreadRank, threads, t, pc);
    SumUpdate(FullThreadRank, threads, t, pc);
  }

  lemma CancelRanksUpdate(cancels: seq<CancelPc>, k: nat, pc: CancelPc, empty: bool)
    requires k < |cancels|
    ensures CancelRanks(cancels[k := pc], empty) + CancelRank(empty, cancels[k]) ==
            CancelRanks(cancels, empty) + CancelRank(empty, pc)
  {
    SumUpdate(EmptyCancelRank, cancels, k, pc);
    SumUpdate(FullCancelRank, cancels, k, pc);
  }

  /** Emptying the queue only lowers ranks. */
  lemma EmptyingLowers(threads: seq<Thread>, cancels: seq<CancelPc>, empty: bool)
    ensures ThreadRanks(threads, true) <= ThreadRanks(threads, empty)
    ensures CancelRanks(cancels, true) <= CancelRanks(cancels, empty)
  {
    SumMonotone(EmptyThreadRank, FullThreadRank, threads);
    SumMonotone(EmptyCancelRank, FullCancelRank, cancels);
  }

  /** Thread t moves to `pc`, and at most the head of the queue goes. */
  predicate ThreadMoves(s: State, s': State, t: nat, pc: Thread) {
    && t < |s.pool.threads| && s'.pool.threads == s.pool.threads[t := pc]
    && s'.callers.cancels == s.callers.cancels && s'.callers.resets == s.callers.resets
    && (s'.pool.queue == s.pool.queue || (s.pool.queue != [] && s'.pool.queue == s.pool.queue[1..]))
  }

  lemma MoveChanges(s: State, s': State, t: nat, pc: Thread)
    requires ThreadMoves(s, s', t, pc)
    ensures var now := s'.pool.queue == [];
      Measure(s') + 20 * (|s.pool.queue| - |s'.pool.queue|) + ThreadRank(now, s.pool.threads[t])
      <= Measure(s) + ThreadRank(now, pc)
  {
    var now := s'.pool.queue == [];
    EmptyingLowers(s.pool.threads, s.callers.cancels, s.pool.queue == []);
    ThreadRanksUpdate(s.pool.threads, t, pc, now);
  }

  lemma BusyLowers(s: State, t: nat, c: nat, stage: Stage, result: Option<Err>)
    requires Ok(s) && WorkerEnabled(s, t) && s.pool.threads[t] == Busy(c, stage)
    ensures Measure(BusyStep(s, t, c, stage, result)) < Measure(s)
  {
    var pc := BusyThread(s.cfg, s.words.active, c, s.pool.calls[c], stage);
    MoveChanges(s, BusyStep(s, t, c, stage, result), t, pc);
  }

  lemma WorkerCancelLowers(s: State, t: nat, result: Option<Err>)
    requires Ok(s) && WorkerEnabled(s, t) && s.pool.threads[t].Cancelling?
    ensures Measure(WorkerStep(s, t, result)) < Measure(s)
  {
    var next := CancelNext(s.gate.once, s.pool.queue, s.pool.threads[t].pc);
    MoveChanges(s, WorkerStep(s, t, result), t, if next.Left? then Exited(ByFailFast) else Cancelling(next));
  }

  lemma WorkLowers(s: State, t: nat, result: Option<Err>)
    requires Ok(s) && WorkerEnabled(s, t)
    ensures Measure(WorkerStep(s, t, result)) < Measure(s)
  {
    match s.pool.threads[t] {
      case Busy(c, stage) => BusyLowers(s, t, c, stage, result);
      case Cancelling(_) => WorkerCancelLowers(s, t, result);
      case Spawned => MoveChanges(s, WorkerStep(s, t, result), t, Idle);
      case Idle =>
        MoveChanges(s, WorkerStep(s, t, result), t, if s.pool.queue != [] then Busy(s.pool.queue[0], Got) else Exited(ByClose));
      case Shrinking =>
        MoveChanges(s, WorkerStep(s, t, result), t, if s.words.open > s.maxParallel then Exited(ByShrink) else Idle);
      case Exited(_) =>
    }
  }

  lemma CancelLowers(s: State, k: nat)
    requires Ok(s) && s.gate.closed && CancellerEnabled(s, k)
    ensures Measure(CancellerStep(s, k)) < Measure(s)
  {
    var s' := CancellerStep(s, k);
    var now := s'.pool.queue == [];
    EmptyingLowers(s.pool.threads, s.callers.cancels, s.pool.queue == []);
    CancelRanksUpdate(s.callers.cancels, k, s'.callers.cancels[k], now);
  }

  /** Every internal step of a closed runner lowers the measure and leaves it closed. */
  lemma InternalLowers(s: State, a: Action)
    requires Ok(s) && s.gate.closed && Enabled(s, a) && Internal(a)
    ensures Measure(Apply(s, a)) < Measure(s) && Apply(s, a).gate.closed
  {
    match a {
      case Work(t, result) => WorkLowers(s, t, result);
      case CancelOn(k) => CancelLowers(s, k);
      case ResetOn(k) =>
        SumUpdate(ResetRank, s.callers.resets, k, ResetNext(s.words, s.gate.cancel, s.callers.resets[k]));
    }
  }

  /** A live thread of a closed runner can step, or waits for the notifier lock or for cancelOnce,
      and then whoever holds that can step. */
  lemma SomebodyCanStep(s: State, t: nat) returns (a: Action)
    requires Inv(s) && s.gate.closed && t < |s.pool.threads| && !s.pool.threads[t].Exited?
    ensures Internal(a) && Enabled(s, a)
  {
    a := Work(t, None);
    if !WorkerEnabled(s, t) {
      match s.pool.threads[t] {
        case Busy(_, _) =>
          match s.bell.lock {
            case ByWorker(u) => a := Work(u, None);
            case ByReset(k) => a := ResetOn(k);
          }
        case Cancelling(_) =>
          match s.gate.once {
            case Doing(Worker(u)) => a := Work(u, None);
            case Doing(External(k)) => a := CancelOn(k);
          }
      }
    }
  }

  /** From a closed runner every sequence of internal steps is at most Measure(s) long, and where no
      internal step is possible any more all threads have exited. Task functions and error handlers
      return, as the model lets them. */
  lemma WindDown(s: State, actions: seq<Action>)
    requires Reachable(s) && s.gate.closed && Ok(s) && Legal(s, actions)
    requires forall i :: 0 <= i < |actions| ==> Internal(actions[i])
    ensures |actions| <= Measure(s)
    ensures (forall a :: Internal(a) ==> !Enabled(Exec(s, actions), a)) ==> AllExited(Exec(s, actions).pool.threads)
  {
    ReachableInv(s);
    WindDownFrom(s, actions);
  }

  lemma {:induction false} WindDownFrom(s: State, actions: seq<Action>)
    requires Inv(s) && s.gate.closed && Ok(s) && Legal(s, actions)
    requires forall i :: 0 <= i < |actions| ==> Internal(actions[i])
    ensures |actions| + Measure(Exec(s, actions)) <= Measure(s)
    ensures (forall a :: Internal(a) ==> !Enabled(Exec(s, actions), a)) ==> AllExited(Exec(s, actions).pool.threads)
    decreases |actions|
  {
    if actions == [] {
      if !AllExited(s.pool.threads) {
        var t :| 0 <= t < |s.pool.threads| && !s.pool.threads[t].Exited?;
        var a := SomebodyCanStep(s, t);
      }
    } else {
      InternalLowers(s, actions[0]);
      StepInv(s, actions[0]);
      assert forall i :: 0 <= i < |actions[1..]| ==> actions[1..][i] == actions[i + 1];
      WindDownFrom(Apply(s, actions[0]), actions[1..]);
    }
  }

  lemma Advance(s: State) returns (a: Action)
    requires Inv(s) && s.gate.closed && Ok(s) && !AllExited(s.pool.threads)
    ensures Internal(a) && Enabled(s, a)
    ensures Inv(Apply(s, a)) && Apply(s, a).gate.closed && Measure(Apply(s, a)) < Measure(s)
  {
    var t :| 0 <= t < |s.pool.threads| && !s.pool.threads[t].Exited?;
    a := SomebodyCanStep(s, t);
    InternalLowers(s, a);
    StepInv(s, a);
  }

  /** So a closed runner has a schedule on which all threads exit, whatever the task functions return. */
  lemma {:induction false} CanFinish(s: State) returns (actions: seq<Action>)
    requires Inv(s) && s.gate.closed && Ok(s)
    ensures Legal(s, actions) && AllExited(Exec(s, actions).pool.threads)
    ensures forall i :: 0 <= i < |actions| ==> Internal(actions[i])
    decreases Measure(s)
  {
    if AllExited(s.pool.threads) {
      actions := [];
    } else {
      var a := Advance(s);
      var rest := CanFinish(Apply(s, a));
      Prepend(s, a, rest);
      actions := [a] + rest;
    }
  }

  lemma {:induction false} RunStays(s: State, actions: seq<Action>)
    requires Ok(s) && Legal(s, actions)
    requires forall i :: 0 <= i < |actions| ==> Internal(actions[i])
    ensures Exec(s, actions).callers.run == s.callers.run && Exec(s, actions).cfg == s.cfg
    decreases |actions|
  {
    if actions != [] {
      assert Internal(actions[0]);
      assert forall i :: 0 <= i < |actions[1..]| ==> actions[1..][i] == actions[i + 1];
      RunStays(Apply(s, actions[0]), actions[1..]);
    }
  }

  lemma {:induction false} ReachableExec(s: State, actions: seq<Action>)
    requires Reachable(s) && Ok(s) && Legal(s, actions)
    ensures Reachable(Exec(s, actions))
    decreases |actions|
  {
    if actions != [] {
      StepReachable(s, actions[0]);
      ReachableExec(Apply(s, actions[0]), actions[1..]);
    }
  }

  /** After Run has started its threads and Done has closed the channel, a runner that is not cancelled,
      from outside or by its own fail-fast, ends on every schedule on which nobody is held up for ever
      with every call of addTask executed exactly once. */
  lemma DoneRunsEverything(s: State, actions: seq<Action>, c: nat)
    requires Reachable(s) && s.gate.closed && Ok(s) && Legal(s, actions) && s.callers.run.Waiting?
    requires forall i :: 0 <= i < |actions| ==> Internal(actions[i])
    requires forall a :: Internal(a) ==> !Enabled(Exec(s, actions), a)
    requires var e := Exec(s, actions);
      Small(e.pool) && !e.gate.cancel && c < |e.pool.calls| && !e.pool.calls[c].phase.Numbered?
    ensures var e := Exec(s, actions);
      AllExited(e.pool.threads) && e.pool.calls[c].phase.Settled? && e.pool.calls[c].runs == 1
  {
    WindDown(s, actions);
    RunStays(s, actions);
    ReachableExec(s, actions);
    EveryTaskRunsExactlyOnce(Exec(s, actions), c);
    TaskConservation(Exec(s, actions), c);
  }
}
