/** The conjunction of the runner's invariants holds initially and after every action. */
module RunnerSteps {
  import opened Counting
  import opened Options
  import opened RunnerState
  import opened RunnerInvariant

  // The invariant in three parts, each kept by lemmas that know no more than they need.

  /** The places, histories and errors of the calls. */
  ghost predicate CallsInv(p: Pool, errors: map<nat, Err>) {
    Links(p) && Data(p.calls) && Errors(p.calls, errors)
  }

  /** The counters, the channel, and the finish check. */
  ghost predicate CountsInv(s: State) {
    && Tallies(s.words, s.pool)
    && Closing(s.gate, s.pool, s.callers.cancels)
    && (s.cfg.notify && Small(s.pool) ==> Notices(s.pool.calls, s.callers.resets, s.bell.closed))
  }

  /** The goroutines, cancelOnce, the notifier lock and the notification channels. */
  ghost predicate ThreadsInv(s: State) {
    && Opening(s.cfg, s.maxParallel, s.pool.threads, s.callers.resizes, s.callers.run)
    && OneStays(s.pool)
    && Onces(s.gate.once, s.pool.threads, s.callers.cancels)
    && Locks(s.bell.lock, s.pool.threads, s.callers.resets)
    && Channels(s.bell)
  }

  ghost predicate Inv(s: State) {
    CallsInv(s.pool, s.errors) && CountsInv(s) && ThreadsInv(s) && |s.pool.queue| <= s.cfg.capacity
  }

  lemma InitCounts(maxParallel: int, capacity: nat, failFast: bool, notify: bool)
    ensures CountsInv(Init(maxParallel, capacity, failFast, notify))
  {}

  lemma InitThreads(maxParallel: int, capacity: nat, failFast: bool, notify: bool)
    ensures ThreadsInv(Init(maxParallel, capacity, failFast, notify))
  {}

  lemma InitInv(maxParallel: int, capacity: nat, failFast: bool, notify: bool)
    ensures Inv(Init(maxParallel, capacity, failFast, notify))
  {
    InitCounts(maxParallel, capacity, failFast, notify);
    InitThreads(maxParallel, capacity, failFast, notify);
  }

  predicate BusyAt(s: State, t: nat, c: nat, stage: Stage) {
    && t < |s.pool.threads| && s.pool.threads[t] == Busy(c, stage)
    && c < |s.pool.calls| && s.pool.calls[c].phase == Held(t, stage)
  }

  lemma BusyCalls(s: State, t: nat, c: nat, stage: Stage, result: Option<Err>)
    requires Ok(s) && BusyAt(s, t, c, stage) && CallsInv(s.pool, s.errors)
    ensures var s' := BusyStep(s, t, c, stage, result); CallsInv(s'.pool, s'.errors)
  {
    var x := s.pool.calls[c];
    LinksBusy(s.pool, t, c, BusyCall(s.cfg, s.words.active, t, x, stage, result),
              BusyThread(s.cfg, s.words.active, c, x, stage));
    BusyCallData(s.cfg, s.words.active, t, x, c, stage, result);
    ErrorsBusy(s.cfg, s.words.active, t, c, s.pool.calls, s.errors, stage, result);
  }

  lemma BusyCounts(s: State, t: nat, c: nat, stage: Stage, result: Option<Err>)
    requires Ok(s) && BusyAt(s, t, c, stage) && CountsInv(s)
    requires Locks(s.bell.lock, s.pool.threads, s.callers.resets)
    ensures CountsInv(BusyStep(s, t, c, stage, result))
  {
    var x := s.pool.calls[c];
    TalliesBusy(s.cfg, s.words, s.pool, t, c, stage, result);
    ClosingBusy(s.gate, s.pool, s.callers.cancels, c, BusyCall(s.cfg, s.words.active, t, x, stage, result),
                t, BusyThread(s.cfg, s.words.active, c, x, stage));
    if s.cfg.notify && Small(s.pool) {
      NoticesBusy(s, t, c, stage, result);
    }
  }

  lemma BusyThreads(s: State, t: nat, c: nat, stage: Stage, result: Option<Err>)
    requires Ok(s) && BusyAt(s, t, c, stage) && ThreadsInv(s) && WorkerEnabled(s, t)
    ensures ThreadsInv(BusyStep(s, t, c, stage, result))
  {
    var x := s.pool.calls[c];
    var pc := BusyThread(s.cfg, s.words.active, c, x, stage);
    OpeningThread(s.cfg, s.maxParallel, s.pool.threads, s.callers.resizes, s.callers.run, t, pc);
    OneStaysThread(s.pool, t, pc);
    OncesThread(s.gate.once, s.pool.threads, s.callers.cancels, t, pc);
    LocksBusy(s.cfg, s.words, s.bell, s.pool.threads, s.callers.resets, t, c, x, stage);
    ChannelsBusy(s.cfg, s.words, s.bell, t, stage);
  }

  lemma BusyInv(s: State, t: nat, c: nat, stage: Stage, result: Option<Err>)
    requires Inv(s) && Ok(s) && WorkerEnabled(s, t) && s.pool.threads[t] == Busy(c, stage)
    ensures Inv(BusyStep(s, t, c, stage, result))
  {
    BusyCalls(s, t, c, stage, result);
    BusyCounts(s, t, c, stage, result);
    BusyThreads(s, t, c, stage, result);
  }

  lemma TakeCalls(s: State, t: nat)
    requires Ok(s) && CallsInv(s.pool, s.errors) && t < |s.pool.threads| && s.pool.threads[t].Idle? && s.pool.queue != []
    ensures CallsInv(TakeHead(s.pool, t), s.errors)
  {
    var c := s.pool.queue[0];
    LinksTake(s.pool, t);
    ErrorsCall(s.pool.calls, s.errors, c, s.pool.calls[c].(phase := Held(t, Got)));
  }

  lemma TakeCounts(s: State, t: nat)
    requires Ok(s) && Links(s.pool) && CountsInv(s)
    requires t < |s.pool.threads| && s.pool.threads[t].Idle? && s.pool.queue != []
    ensures CountsInv(s.(pool := TakeHead(s.pool, t)))
  {
    var c := s.pool.queue[0];
    var x := s.pool.calls[c].(phase := Held(t, Got));
    TalliesTake(s.words, s.pool, t);
    ClosingBusy(s.gate, s.pool, s.callers.cancels, c, x, t, Busy(c, Got));
    if s.cfg.notify && Small(s.pool) {
      NoticesCall(s.pool.calls, s.callers.resets, s.bell.closed, c, x);
    }
  }

  /** A thread moves, neither into nor out of the sections that cancelOnce and the notifier lock guard,
      and not by the shrink exit. */
  lemma ThreadMoves(s: State, t: nat, pc: Thread)
    requires ThreadsInv(s) && t < |s.pool.threads|
    requires !s.pool.threads[t].Cancelling? && !pc.Cancelling? && pc != Exited(ByFailFast)
    requires !HoldsLock(s.pool.threads[t]) && !HoldsLock(pc)
    requires (IsOpen(s.pool.threads[t]) ==> IsOpen(pc)) && !pc.Spawned? && pc != Exited(ByShrink)
    ensures ThreadsInv(s.(pool := PutThread(s.pool, t, pc)))
  {
    OpeningThread(s.cfg, s.maxParallel, s.pool.threads, s.callers.resizes, s.callers.run, t, pc);
    OneStaysThread(s.pool, t, pc);
    OncesThread(s.gate.once, s.pool.threads, s.callers.cancels, t, pc);
    LocksThread(s.bell.lock, s.pool.threads, s.callers.resets, t, pc);
  }

  lemma TakeInv(s: State, t: nat)
    requires Inv(s) && Ok(s) && t < |s.pool.threads| && s.pool.threads[t].Idle? && s.pool.queue != []
    ensures Inv(s.(pool := TakeHead(s.pool, t)))
  {
    TakeCalls(s, t);
    TakeCounts(s, t);
    ThreadMoves(s, t, Busy(s.pool.queue[0], Got));
  }

  /** A worker that holds no call and no lock moves to `pc`, staying or becoming registered. */
  lemma MoveInv(s: State, t: nat, pc: Thread, open: nat)
    requires Inv(s) && t < |s.pool.threads| && !s.pool.threads[t].Busy? && !pc.Busy? && !pc.Spawned?
    requires pc != Exited(ByShrink) && s.pool.threads[t] != Exited(ByShrink) && !s.pool.threads[t].Cancelling?
    requires pc == Exited(ByClose) ==> s.gate.closed && s.pool.queue == []
    requires !pc.Cancelling? && pc != Exited(ByFailFast)
    requires open == if s.pool.threads[t].Spawned? then Inc(s.words.open) else s.words.open
    ensures Inv(s.(words := s.words.(open := open), pool := PutThread(s.pool, t, pc)))
  {
    LinksThread(s.pool, t, pc);
    ReOpen(s.pool.threads, t, pc);
    ClosingThread(s.gate, s.pool, s.callers.cancels, t, pc);
    ThreadMoves(s, t, pc);
  }

  /** The shrink exit: more threads are open than the maximum, which is at least one. */
  lemma ShrinkInv(s: State, t: nat)
    requires Inv(s) && t < |s.pool.threads| && s.pool.threads[t].Shrinking? && s.words.open > s.maxParallel
    ensures Inv(s.(words := s.words.(open := Dec(s.words.open)), pool := PutThread(s.pool, t, Exited(ByShrink))))
  {
    var pc := Exited(ByShrink);
    LinksThread(s.pool, t, pc);
    ReOpen(s.pool.threads, t, pc);
    ClosingThread(s.gate, s.pool, s.callers.cancels, t, pc);
    OpeningThread(s.cfg, s.maxParallel, s.pool.threads, s.callers.resizes, s.callers.run, t, pc);
    OncesThread(s.gate.once, s.pool.threads, s.callers.cancels, t, pc);
    LocksThread(s.bell.lock, s.pool.threads, s.callers.resets, t, pc);
  }

  lemma CancelCalls(s: State, pc: CancelPc)
    requires Ok(s) && CallsInv(s.pool, s.errors)
    ensures CallsInv(CancelPool(s.pool, pc), s.errors)
  {
    LinksCancel(s.pool, pc);
    if pc.Receive? && s.pool.queue != [] {
      var c := s.pool.queue[0];
      var x := s.pool.calls[c].(phase := Drained);
      assert CallData(s.pool.calls[c], c) && CallData(x, c);
      ErrorsCall(s.pool.calls, s.errors, c, x);
    }
  }

  lemma CancelNotices(s: State, pc: CancelPc)
    requires Ok(s) && Links(s.pool) && Notices(s.pool.calls, s.callers.resets, s.bell.closed)
    ensures Notices(CancelPool(s.pool, pc).calls, s.callers.resets, CancelBell(s.cfg, s.bell, pc).closed)
  {
    if pc.Receive? && s.pool.queue != [] {
      var c := s.pool.queue[0];
      NoticesCall(s.pool.calls, s.callers.resets, s.bell.closed, c, s.pool.calls[c].(phase := Drained));
    } else {
      NoticesGrow(s.pool.calls, s.callers.resets, s.bell.closed, Call(0, false, Numbered, 0, None, 0));
    }
  }

  lemma CancelCounts(s: State, who: Actor, pc: CancelPc)
    requires Ok(s) && Links(s.pool) && CountsInv(s) && CancelEnabled(s, pc) && PcFlag(s.gate.cancel, pc)
    ensures CountsInv(CancelEffect(s, who, pc))
    ensures PcFlag(CancelGate(s.gate, who, pc).cancel, CancelNext(s.gate.once, s.pool.queue, pc))
  {
    TalliesCancel(s.words, s.pool, pc);
    ClosingCancel(s.gate, s.pool, s.callers.cancels, who, pc);
    if s.cfg.notify && Small(s.pool) {
      CancelNotices(s, pc);
    }
  }

  /** Worker t after a step of its Cancel: the counters and the channel. */
  lemma WorkerCancelCounts(s: State, t: nat, to: Thread)
    requires CountsInv(s) && t < |s.pool.threads| && s.pool.threads[t].Cancelling?
    requires to.Cancelling? || to == Exited(ByFailFast)
    requires if to.Cancelling? then PcFlag(s.gate.cancel, to.pc) else s.gate.cancel
    ensures CountsInv(s.(pool := PutThread(s.pool, t, to)))
  {
    ReOpen(s.pool.threads, t, to);
    ClosingThread(s.gate, s.pool, s.callers.cancels, t, to);
  }

  lemma WorkerCancelThreads(s: State, t: nat)
    requires Ok(s) && ThreadsInv(s) && WorkerEnabled(s, t) && s.pool.threads[t].Cancelling?
    ensures ThreadsInv(WorkerStep(s, t, None))
  {
    var pc := s.pool.threads[t].pc;
    var to := AfterCancel(CancelNext(s.gate.once, s.pool.queue, pc));
    ChannelsRing(s.bell);
    OncesWorker(s.gate, s.pool.threads, s.pool.queue, s.callers.cancels, t);
    OpeningThread(s.cfg, s.maxParallel, s.pool.threads, s.callers.resizes, s.callers.run, t, to);
    OneStaysThread(s.pool, t, to);
    LocksThread(s.bell.lock, s.pool.threads, s.callers.resets, t, to);
  }

  lemma WorkerCancelInv(s: State, t: nat, result: Option<Err>)
    requires Inv(s) && Ok(s) && WorkerEnabled(s, t) && s.pool.threads[t].Cancelling?
    ensures Inv(WorkerStep(s, t, result))
  {
    var pc := s.pool.threads[t].pc;
    var s1 := CancelEffect(s, Worker(t), pc);
    var to := AfterCancel(CancelNext(s.gate.once, s.pool.queue, pc));
    CancelCalls(s, pc);
    CancelCounts(s, Worker(t), pc);
    LinksThread(s1.pool, t, to);
    WorkerCancelCounts(s1, t, to);
    WorkerCancelThreads(s, t);
  }

  /** A Cancel called from outside: the flag in its own program counter. */
  lemma CancellerCounts(s: State, k: nat, to: CancelPc)
    requires CountsInv(s) && k < |s.callers.cancels| && PcFlag(s.gate.cancel, to)
    ensures CountsInv(s.(callers := s.callers.(cancels := s.callers.cancels[k := to])))
  {}

  lemma CancellerThreads(s: State, k: nat)
    requires Ok(s) && ThreadsInv(s) && CancellerEnabled(s, k)
    ensures ThreadsInv(CancellerStep(s, k))
  {
    ChannelsRing(s.bell);
    OncesExternal(s.gate, s.pool.threads, s.pool.queue, s.callers.cancels, k);
  }

  lemma CancellerInv(s: State, k: nat)
    requires Inv(s) && Ok(s) && CancellerEnabled(s, k)
    ensures Inv(CancellerStep(s, k))
  {
    var pc := s.callers.cancels[k];
    CancelCalls(s, pc);
    CancelCounts(s, External(k), pc);
    CancellerCounts(CancelEffect(s, External(k), pc), k, CancelNext(s.gate.once, s.pool.queue, pc));
    CancellerThreads(s, k);
  }

  lemma WorkerInv(s: State, t: nat, result: Option<Err>)
    requires Inv(s) && Ok(s) && WorkerEnabled(s, t)
    ensures Inv(WorkerStep(s, t, result))
  {
    match s.pool.threads[t] {
      case Busy(c, stage) => BusyInv(s, t, c, stage, result);
      case Cancelling(_) => WorkerCancelInv(s, t, result);
      case Spawned => MoveInv(s, t, Idle, Inc(s.words.open));
      case Idle =>
        if s.pool.queue != [] {
          TakeInv(s, t);
        } else {
          MoveInv(s, t, Exited(ByClose), s.words.open);
        }
      case Shrinking =>
        if s.words.open > s.maxParallel {
          ShrinkInv(s, t);
        } else {
          MoveInv(s, t, Idle, s.words.open);
        }
      case Exited(_) =>
    }
  }

  /** What a step of addTask does to the calls and the queue. */
  lemma ProducerCalls(s: State, c: nat)
    requires Links(s.pool) && Data(s.pool.calls) && Errors(s.pool.calls, s.errors) && ProducerEnabled(s, c)
    ensures var s' := ProducerStep(s, c);
      Links(s'.pool) && Data(s'.pool.calls) && Errors(s'.pool.calls, s'.errors)
  {
    var x := s.pool.calls[c].(phase := NextPhase(s.gate.cancel, s.pool.calls[c].phase));
    LinksProduce(s.pool, c, x, s.gate.cancel);
    assert CallData(s.pool.calls[c], c) && CallData(x, c);
    ErrorsCall(s.pool.calls, s.errors, c, x);
  }

  /** And to the counters and the finish check. */
  lemma ProducerCounts(s: State, c: nat)
    requires Tallies(s.words, s.pool) && Closing(s.gate, s.pool, s.callers.cancels) && ProducerEnabled(s, c)
    requires s.cfg.notify && Small(s.pool) ==> Notices(s.pool.calls, s.callers.resets, s.bell.closed)
    ensures var s' := ProducerStep(s, c);
      && Tallies(s'.words, s'.pool) && Closing(s'.gate, s'.pool, s.callers.cancels)
      && (s.cfg.notify && Small(s'.pool) ==> Notices(s'.pool.calls, s.callers.resets, s.bell.closed))
  {
    var x := s.pool.calls[c].(phase := NextPhase(s.gate.cancel, s.pool.calls[c].phase));
    TalliesProduce(s, c);
    ClosingProduce(s.gate, s.pool, s.callers.cancels, c, x);
    if s.cfg.notify && Small(s.pool) {
      NoticesCall(s.pool.calls, s.callers.resets, s.bell.closed, c, x);
    }
  }

  lemma ProducerInv(s: State, c: nat)
    requires Inv(s) && Ok(s) && ProducerEnabled(s, c)
    ensures Inv(ProducerStep(s, c))
  {
    ProducerCalls(s, c);
    ProducerCounts(s, c);
  }

  lemma AddTaskInv(s: State, hasHandler: bool)
    requires Inv(s) && Ok(s)
    ensures Inv(Apply(s, AddTask(hasHandler)))
  {
    var x := Call(s.words.taskId, hasHandler, Numbered, 0, None, 0);
    LinksGrow(s.pool, x);
    HistoryGrow(s.pool.calls, s.errors, x);
    TalliesGrow(s.words, s.pool, x);
    ClosingGrow(s.gate, s.pool, s.callers.cancels, x);
    if s.cfg.notify && Small(s.pool) {
      NoticesGrow(s.pool.calls, s.callers.resets, s.bell.closed, x);
    }
  }

  lemma SpawnStays(p: Pool)
    requires OneStays(p)
    ensures OneStays(Spawn(p))
  {
    CountAppend(IsOpen, p.threads, Spawned);
  }

  lemma SpawnLocks(once: Once, lock: Lock, threads: seq<Thread>, cancels: seq<CancelPc>, resets: seq<ResetPc>)
    requires Onces(once, threads, cancels) && Locks(lock, threads, resets)
    ensures Onces(once, threads + [Spawned], cancels) && Locks(lock, threads + [Spawned], resets)
  {}

  lemma SpawnOpening(cfg: Config, maxParallel: int, threads: seq<Thread>, resizes: seq<ResizePc>, run: RunPc)
    requires Opening(cfg, maxParallel, threads, resizes, run)
    ensures Opening(cfg, maxParallel, threads + [Spawned], resizes, run)
  {}

  lemma SpawnThreads(s: State)
    requires ThreadsInv(s)
    ensures ThreadsInv(s.(pool := Spawn(s.pool)))
  {
    SpawnStays(s.pool);
    SpawnLocks(s.gate.once, s.bell.lock, s.pool.threads, s.callers.cancels, s.callers.resets);
    SpawnOpening(s.cfg, s.maxParallel, s.pool.threads, s.callers.resizes, s.callers.run);
  }

  /** A new goroutine. */
  lemma SpawnInv(s: State)
    requires Inv(s)
    ensures Inv(s.(pool := Spawn(s.pool)))
  {
    var x := Call(s.words.taskId, false, Numbered, 0, None, 0);
    LinksGrow(s.pool, x);
    TalliesGrow(s.words, s.pool, x);
    ClosingGrow(s.gate, s.pool, s.callers.cancels, x);
    SpawnThreads(s);
  }

  lemma ResetInv(s: State, k: nat)
    requires Inv(s) && Ok(s) && ResetEnabled(s, k)
    ensures Inv(ResetStep(s, k))
  {
    LocksReset(s.words, s.gate.cancel, s.bell, s.pool.threads, s.callers.resets, k);
    if s.cfg.notify && Small(s.pool) {
      NoticesReset(s, k);
    }
  }

  lemma ResizeInv(s: State, k: nat)
    requires Inv(s) && Ok(s) && ResizeEnabled(s, k)
    ensures Inv(ResizeStep(s, k))
  {
    SpawnInv(s);
  }

  lemma RunInv(s: State)
    requires Inv(s) && Ok(s) && RunEnabled(s)
    ensures Inv(RunStep(s))
  {
    SpawnInv(s);
  }

  lemma OtherInv(s: State, a: Action)
    requires Inv(s) && Ok(s) && Enabled(s, a)
    requires a.StartCancel? || a.StartReset? || a.StartResize? || a.Done?
    ensures Inv(Apply(s, a))
  {}

  lemma BellInv(s: State, a: Action)
    requires Inv(s) && Ok(s) && Enabled(s, a) && (a.Tick? || a.Listen?)
    ensures Inv(Apply(s, a))
  {
    ChannelsRing(s.bell);
  }

  /** Every action keeps every invariant. */
  lemma StepInv(s: State, a: Action)
    requires Inv(s) && Ok(s) && Enabled(s, a)
    ensures Inv(Apply(s, a))
  {
    match a {
      case AddTask(hasHandler) => AddTaskInv(s, hasHandler);
      case Produce(c) => ProducerInv(s, c);
      case Work(t, result) => WorkerInv(s, t, result);
      case CancelOn(k) => CancellerInv(s, k);
      case ResetOn(k) => ResetInv(s, k);
      case ResizeOn(k) => ResizeInv(s, k);
      case Run => RunInv(s);
      case StartCancel(_) => OtherInv(s, a);
      case StartReset => OtherInv(s, a);
      case StartResize(_) => OtherInv(s, a);
      case Done => OtherInv(s, a);
      case Tick => BellInv(s, a);
      case Listen(_) => BellInv(s, a);
    }
  }

  /** So every run keeps them, whatever the interleaving. */
  lemma {:induction false} ExecInv(s: State, actions: seq<Action>)
    requires Inv(s) && Ok(s) && Legal(s, actions)
    ensures Inv(Exec(s, actions))
    decreases |actions|
  {
    if actions != [] {
      StepInv(s, actions[0]);
      ExecInv(Apply(s, actions[0]), actions[1..]);
    }
  }

  /** `s` occurs in some interleaving of some runner. */
  ghost predicate Reachable(s: State) {
    exists m: int, capacity: nat, failFast: bool, notify: bool, actions: seq<Action> ::
      Legal(Init(m, capacity, failFast, notify), actions) && Exec(Init(m, capacity, failFast, notify), actions) == s
  }

  lemma ReachableInv(s: State)
    requires Reachable(s)
    ensures Inv(s) && Ok(s)
  {
    var m: int, capacity: nat, failFast: bool, notify: bool, actions: seq<Action> :|
      Legal(Init(m, capacity, failFast, notify), actions) && Exec(Init(m, capacity, failFast, notify), actions) == s;
    InitInv(m, capacity, failFast, notify);
    ExecInv(Init(m, capacity, failFast, notify), actions);
  }

  lemma StartReachable(maxParallel: int, capacity: nat, failFast: bool, notify: bool)
    ensures Reachable(Init(maxParallel, capacity, failFast, notify))
  {
    var s := Init(maxParallel, capacity, failFast, notify);
    assert Legal(s, []) && Exec(s, []) == s;
  }

  lemma {:induction false} ExecSnoc(s: State, actions: seq<Action>, a: Action)
    requires Ok(s) && Legal(s, actions) && Enabled(Exec(s, actions), a)
    ensures Legal(s, actions + [a]) && Exec(s, actions + [a]) == Apply(Exec(s, actions), a)
    decreases |actions|
  {
    if actions == [] {
      assert [a][1..] == [];
      assert Legal(Apply(s, a), []);
    } else {
      ExecSnoc(Apply(s, actions[0]), actions[1..], a);
      assert (actions + [a])[1..] == actions[1..] + [a];
    }
  }

  lemma StepReachable(s: State, a: Action)
    requires Reachable(s) && Ok(s) && Enabled(s, a)
    ensures Reachable(Apply(s, a))
  {
    var m: int, capacity: nat, failFast: bool, notify: bool, actions: seq<Action> :|
      Legal(Init(m, capacity, failFast, notify), actions) && Exec(Init(m, capacity, failFast, notify), actions) == s;
    ExecSnoc(Init(m, capacity, failFast, notify), actions, a);
  }

  /** A worker gets past the call of onError only with an error. */
  lemma HandledHasError(s: State, t: nat)
    requires Reachable(s) && Ok(s) && t < |s.pool.threads| && s.pool.threads[t].Busy?
    ensures s.pool.threads[t].stage.Handled? ==> s.pool.calls[s.pool.threads[t].call].result.Some?
  {
    ReachableInv(s);
    assert CallData(s.pool.calls[s.pool.threads[t].call], s.pool.threads[t].call);
  }

  lemma ReachableChannels(s: State)
    requires Reachable(s)
    ensures Channels(s.bell)
  {
    ReachableInv(s);
  }

  lemma Prepend(s: State, a: Action, rest: seq<Action>)
    requires Ok(s) && Enabled(s, a) && Legal(Apply(s, a), rest)
    ensures Legal(s, [a] + rest) && Exec(s, [a] + rest) == Exec(Apply(s, a), rest)
  {
    assert ([a] + rest)[1..] == rest;
  }
}
