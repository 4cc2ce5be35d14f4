/** The task runner as a transition system. One action is one atomic operation of
    one goroutine: a single atomic read-modify-write, one channel operation, or one
    lock-held section. The counters are the source's uint32 words. */
module RunnerState {
  import opened Options

  const WORD := 0x1_0000_0000

  type Err = string

  /** maxParallel and capacity are as NewRunner clamps them. `notify` is
      finishedNotificationEnabled, fixed before any task is added. */
  datatype Config = Config(capacity: nat, failFast: bool, notify: bool)

  /** Where a worker is while it holds a task. */
  datatype Stage =
    | Got          // received from the channel
    | Activated    // activeThreads incremented
    | Running      // started incremented, the task function executes
    | Returned     // the task function has returned
    | Deactivated  // activeThreads decremented
    | Decremented  // totalTasksInQueue decremented
    | Locked       // finishedNotifierLock held
    | SawNoActive  // lock held, activeThreads read as zero
    | Checked      // past the notification block
    | Handled      // onError has been called if there was one to call

  datatype CancelPc =
    | Enter(force: bool)    // before the cancel flag is stored
    | Flagged(force: bool)  // flag stored, Done still to be called if forced
    | AtOnce                // before cancelOnce.Do
    | Test                  // loop test: is the queue non-empty
    | Receive               // receive of the loop body
    | Notify                // after the loop
    | Left                  // Cancel has returned

  datatype Exit = ByClose | ByFailFast | ByShrink

  datatype Thread =
    | Spawned                         // goroutine created, not yet counted as open
    | Idle                            // at the head of the range loop
    | Busy(call: nat, stage: Stage)
    | Cancelling(pc: CancelPc)        // inside Cancel(false) after a failed task
    | Shrinking                       // before the openThreads check
    | Exited(why: Exit)

  datatype Phase =
    | Numbered   // taskId taken
    | Passed     // cancel flag read as false
    | Counted    // totalTasksInQueue incremented, the send is pending
    | Queued
    | Held(thread: nat, stage: Stage)
    | Settled    // executed, error (if any) stored
    | Drained    // thrown away by Cancel
    | Rejected   // AddTask returned "runner stopped"

  /** One call of addTask. `runs` and `handled` record how often the task function
      was started and the error handler called. */
  datatype Call = Call(num: nat, hasHandler: bool, phase: Phase, runs: nat, result: Option<Err>, handled: nat)

  datatype Actor = Worker(id: nat) | External(id: nat)
  datatype Once = Unused | Doing(who: Actor) | Complete
  datatype Lock = Free | ByWorker(id: nat) | ByReset(id: nat)

  /** A finish-notification channel of buffer size one. */
  datatype Chan = Chan(sent: nat, received: nat, closed: bool)

  datatype ResetPc = WaitLock | HasLock | SawIdle | TestCancel | Replace | ResetDone
  datatype ResizePc = Clamped(max: int) | Compare(max: int) | Grow(max: int, i: nat) | StoreMax(max: int) | ResizeDone
  datatype RunPc = NotCalled | Starting(i: nat) | Waiting | Finished
  datatype Timer = Off | Armed | Firing

  /** The uint32 words. */
  datatype Words = Words(taskId: nat, started: nat, open: nat, active: nat, total: nat)

  /** The cancel flag, cancelOnce, and whether the task channel is closed. */
  datatype Gate = Gate(cancel: bool, once: Once, closed: bool)

  /** finishedNotifierChannelClosed, every channel finishedNotifier has pointed to
      (the last one is current), and finishedNotifierLock. */
  datatype Bell = Bell(closed: bool, chans: seq<Chan>, lock: Lock)

  /** The calls of addTask so far, the goroutines, and the buffer of the task channel. */
  datatype Pool = Pool(calls: seq<Call>, threads: seq<Thread>, queue: seq<nat>)

  /** Everybody else: Cancel, ResetFinishNotificationIfActive, SetMaxParallel, Run and its timer. */
  datatype Callers = Callers(
    cancels: seq<CancelPc>, resets: seq<ResetPc>, resizes: seq<ResizePc>, run: RunPc, timer: Timer)

  datatype State = State(
    cfg: Config, words: Words, maxParallel: int, gate: Gate, bell: Bell, pool: Pool,
    errors: map<nat, Err>, callers: Callers)

  /** References between the parts stay in range. */
  predicate Shape(p: Pool) {
    && (forall t :: 0 <= t < |p.threads| && p.threads[t].Busy? ==> p.threads[t].call < |p.calls|)
    && (forall i :: 0 <= i < |p.queue| ==> p.queue[i] < |p.calls|)
  }

  predicate Ok(s: State) {
    Shape(s.pool) && s.bell.chans != []
  }

  /** NewRunner. */
  function Init(maxParallel: int, capacity: nat, failFast: bool, notify: bool): State {
    State(Config(if capacity < 1 then 1 else capacity, failFast, notify), Words(0, 0, 0, 0, 0),
          if maxParallel < 1 then 1 else maxParallel, Gate(false, Unused, false),
          Bell(false, [Chan(0, 0, false)], Free), Pool([], [], []), map[],
          Callers([], [], [], NotCalled, Off))
  }

  // ------------------------------------------------------------ small updates

  function Inc(x: nat): nat { (x + 1) % WORD }

  function Dec(x: nat): nat { (x + WORD - 1) % WORD }

  function PutCall(p: Pool, c: nat, x: Call): Pool
    requires c < |p.calls|
  {
    p.(calls := p.calls[c := x])
  }

  function PutThread(p: Pool, t: nat, pc: Thread): Pool
    requires t < |p.threads|
  {
    p.(threads := p.threads[t := pc])
  }

  function PutBoth(p: Pool, c: nat, x: Call, t: nat, pc: Thread): Pool
    requires c < |p.calls| && t < |p.threads|
  {
    p.(calls := p.calls[c := x], threads := p.threads[t := pc])
  }

  function Spawn(p: Pool): Pool {
    p.(threads := p.threads + [Spawned])
  }

  /** notifyFinished. */
  function Ring(b: Bell): (b': Bell)
    requires b.chans != []
    ensures b'.chans != []
  {
    if b.closed then b
    else
      var k := |b.chans| - 1;
      b.(chans := b.chans[k := b.chans[k].(sent := b.chans[k].sent + 1, closed := true)], closed := true)
  }

  // ------------------------------------------------------------ caller protocol

  /** No addTask is between its cancel check and its send. A Go send on a closed
      channel panics, so the channel may be closed only then. */
  predicate NoSender(calls: seq<Call>) {
    forall c :: 0 <= c < |calls| ==> !calls[c].phase.Passed? && !calls[c].phase.Counted?
  }

  predicate MayClose(s: State) {
    s.gate.closed || NoSender(s.pool.calls)
  }

  // ------------------------------------------------------------ addTask

  predicate ProducerEnabled(s: State, c: nat) {
    && c < |s.pool.calls|
    && match s.pool.calls[c].phase
       case Numbered => !s.gate.cancel ==> !s.gate.closed
       case Passed => true
       case Counted => !s.gate.closed && |s.pool.queue| < s.cfg.capacity
       case _ => false
  }

  function NextPhase(cancel: bool, phase: Phase): Phase {
    if phase.Numbered? then if cancel then Rejected else Passed
    else if phase.Passed? then Counted
    else Queued
  }

  function ProducerStep(s: State, c: nat): State
    requires ProducerEnabled(s, c)
  {
    var call := s.pool.calls[c];
    var pool := PutCall(s.pool, c, call.(phase := NextPhase(s.gate.cancel, call.phase)));
    s.(words := if call.phase.Passed? then s.words.(total := Inc(s.words.total)) else s.words,
       pool := if call.phase.Counted? then pool.(queue := pool.queue + [c]) else pool)
  }

  // ------------------------------------------------------------ Cancel

  predicate CancelEnabled(s: State, pc: CancelPc) {
    match pc
    case Enter(_) => true
    case Flagged(force) => force ==> MayClose(s)
    case AtOnce => !s.gate.once.Doing?
    case Test => true
    case Receive => s.pool.queue != [] || s.gate.closed
    case Notify => true
    case Left => false
  }

  function CancelNext(once: Once, queue: seq<nat>, pc: CancelPc): CancelPc {
    match pc
    case Enter(force) => Flagged(force)
    case Flagged(_) => AtOnce
    case AtOnce => if once.Unused? then Test else Left
    case Test => if queue != [] then Receive else Notify
    case Receive => Test
    case Notify => Left
    case Left => Left
  }

  function CancelGate(g: Gate, who: Actor, pc: CancelPc): Gate {
    match pc
    case Enter(_) => g.(cancel := true)
    case Flagged(force) => if force then g.(closed := true) else g
    case AtOnce => if g.once.Unused? then g.(once := Doing(who)) else g
    case Notify => g.(once := Complete)
    case _ => g
  }

  function CancelPool(p: Pool, pc: CancelPc): Pool
    requires Shape(p)
  {
    if pc.Receive? && p.queue != [] then
      PutCall(p.(queue := p.queue[1..]), p.queue[0], p.calls[p.queue[0]].(phase := Drained))
    else p
  }

  function CancelBell(cfg: Config, b: Bell, pc: CancelPc): Bell
    requires b.chans != []
  {
    if pc.Notify? && cfg.notify then Ring(b) else b
  }

  /** The effect of one step of Cancel on the shared state. */
  function CancelEffect(s: State, who: Actor, pc: CancelPc): State
    requires Ok(s)
  {
    s.(gate := CancelGate(s.gate, who, pc), pool := CancelPool(s.pool, pc), bell := CancelBell(s.cfg, s.bell, pc))
  }

  // ------------------------------------------------------------ worker goroutines

  predicate WorkerEnabled(s: State, t: nat) {
    && t < |s.pool.threads|
    && match s.pool.threads[t]
       case Spawned => true
       case Idle => s.pool.queue != [] || s.gate.closed
       case Busy(_, stage) => stage.Decremented? && s.cfg.notify ==> s.bell.lock.Free?
       case Cancelling(pc) => CancelEnabled(s, pc)
       case Shrinking => true
       case Exited(_) => false
  }

  /** The stage after `stage`, given what the worker reads as activeThreads. */
  function NextStage(notify: bool, active: nat, stage: Stage): Stage {
    match stage
    case Got => Activated
    case Activated => Running
    case Running => Returned
    case Returned => Deactivated
    case Deactivated => Decremented
    case Decremented => if notify then Locked else Checked
    case Locked => if active == 0 then SawNoActive else Checked
    case SawNoActive => Checked
    case Checked => Handled
    case Handled => Handled
  }

  /** The worker leaves the error handling of lines 277-291. */
  predicate Settles(call: Call, stage: Stage) {
    stage.Handled? || (stage.Checked? && call.result.None?)
  }

  function BusyThread(cfg: Config, active: nat, c: nat, call: Call, stage: Stage): Thread {
    if !Settles(call, stage) then Busy(c, NextStage(cfg.notify, active, stage))
    else if stage.Handled? && cfg.failFast then Cancelling(Enter(false))
    else Shrinking
  }

  /** `result` is what the task function returns, if this is the step where it returns. */
  function BusyCall(cfg: Config, active: nat, t: nat, call: Call, stage: Stage, result: Option<Err>): Call {
    var x := match stage
      case Activated => call.(runs := call.runs + 1)
      case Running => call.(result := result)
      case Checked => if call.result.Some? && call.hasHandler then call.(handled := call.handled + 1) else call
      case _ => call;
    x.(phase := if Settles(call, stage) then Settled else Held(t, NextStage(cfg.notify, active, stage)))
  }

  function BusyWords(w: Words, stage: Stage): Words {
    match stage
    case Got => w.(active := Inc(w.active))
    case Activated => w.(started := Inc(w.started))
    case Returned => w.(active := Dec(w.active))
    case Deactivated => w.(total := Dec(w.total))
    case _ => w
  }

  function BusyBell(cfg: Config, w: Words, b: Bell, t: nat, stage: Stage): Bell
    requires b.chans != []
  {
    match stage
    case Decremented => if cfg.notify then b.(lock := ByWorker(t)) else b
    case Locked => if w.active == 0 then b else b.(lock := Free)
    case SawNoActive => (if w.total == 0 then Ring(b) else b).(lock := Free)
    case _ => b
  }

  function BusyErrors(errors: map<nat, Err>, call: Call, stage: Stage): map<nat, Err> {
    if stage.Handled? && call.result.Some? then errors[call.num := call.result.value] else errors
  }

  function BusyStep(s: State, t: nat, c: nat, stage: Stage, result: Option<Err>): State
    requires Ok(s) && t < |s.pool.threads| && c < |s.pool.calls|
  {
    var call := s.pool.calls[c];
    s.(words := BusyWords(s.words, stage),
       bell := BusyBell(s.cfg, s.words, s.bell, t, stage),
       pool := PutBoth(s.pool, c, BusyCall(s.cfg, s.words.active, t, call, stage, result),
                       t, BusyThread(s.cfg, s.words.active, c, call, stage)),
       errors := BusyErrors(s.errors, call, stage))
  }

  /** Receive the head of the queue. */
  function TakeHead(p: Pool, t: nat): Pool
    requires Shape(p) && t < |p.threads| && p.queue != []
  {
    PutBoth(p.(queue := p.queue[1..]), p.queue[0], p.calls[p.queue[0]].(phase := Held(t, Got)),
            t, Busy(p.queue[0], Got))
  }

  function WorkerStep(s: State, t: nat, result: Option<Err>): State
    requires Ok(s) && WorkerEnabled(s, t)
  {
    match s.pool.threads[t]
    case Spawned => s.(words := s.words.(open := Inc(s.words.open)), pool := PutThread(s.pool, t, Idle))
    case Idle =>
      s.(pool := if s.pool.queue != [] then TakeHead(s.pool, t) else PutThread(s.pool, t, Exited(ByClose)))
    case Busy(c, stage) => BusyStep(s, t, c, stage, result)
    case Cancelling(pc) =>
      var next := CancelNext(s.gate.once, s.pool.queue, pc);
      var s' := CancelEffect(s, Worker(t), pc);
      s'.(pool := PutThread(s'.pool, t, if next.Left? then Exited(ByFailFast) else Cancelling(next)))
    case Shrinking =>
      if s.words.open > s.maxParallel then
        s.(words := s.words.(open := Dec(s.words.open)), pool := PutThread(s.pool, t, Exited(ByShrink)))
      else s.(pool := PutThread(s.pool, t, Idle))
    case Exited(_) => s
  }

  // ------------------------------------------------------------ other callers

  predicate CancellerEnabled(s: State, k: nat) {
    k < |s.callers.cancels| && CancelEnabled(s, s.callers.cancels[k])
  }

  function CancellerStep(s: State, k: nat): State
    requires Ok(s) && CancellerEnabled(s, k)
  {
    var pc := s.callers.cancels[k];
    var next := CancelNext(s.gate.once, s.pool.queue, pc);
    CancelEffect(s, External(k), pc).(callers := s.callers.(cancels := s.callers.cancels[k := next]))
  }

  predicate ResetEnabled(s: State, k: nat) {
    && k < |s.callers.resets|
    && !s.callers.resets[k].ResetDone?
    && (s.callers.resets[k].WaitLock? ==> s.bell.lock.Free?)
  }

  /** ResetFinishNotificationIfActive: its condition reads activeThreads, then
      totalTasksInQueue, then the cancel flag, each only when Go's operators need it. */
  function ResetNext(w: Words, cancel: bool, pc: ResetPc): ResetPc {
    match pc
    case WaitLock => HasLock
    case HasLock => if w.active == 0 then SawIdle else TestCancel
    case SawIdle => if w.total == 0 then ResetDone else TestCancel
    case TestCancel => if cancel then ResetDone else Replace
    case Replace => ResetDone
    case ResetDone => ResetDone
  }

  function ResetBell(b: Bell, k: nat, pc: ResetPc, next: ResetPc): Bell {
    var lock := if pc.WaitLock? then ByReset(k) else if next.ResetDone? then Free else b.lock;
    if pc.Replace? then Bell(false, b.chans + [Chan(0, 0, false)], lock) else b.(lock := lock)
  }

  function ResetStep(s: State, k: nat): State
    requires ResetEnabled(s, k)
  {
    var pc := s.callers.resets[k];
    var next := ResetNext(s.words, s.gate.cancel, pc);
    s.(bell := ResetBell(s.bell, k, pc, next), callers := s.callers.(resets := s.callers.resets[k := next]))
  }

  predicate ResizeEnabled(s: State, k: nat) {
    k < |s.callers.resizes| && !s.callers.resizes[k].ResizeDone?
  }

  /** SetMaxParallel reads maxParallel anew at each of its tests. */
  function ResizeNext(maxParallel: int, pc: ResizePc): ResizePc {
    match pc
    case Clamped(v) => if v == maxParallel then ResizeDone else Compare(v)
    case Compare(v) => if v > maxParallel then Grow(v, 0) else StoreMax(v)
    case Grow(v, i) => if i < v - maxParallel then Grow(v, i + 1) else StoreMax(v)
    case StoreMax(_) => ResizeDone
    case ResizeDone => ResizeDone
  }

  function ResizeStep(s: State, k: nat): State
    requires ResizeEnabled(s, k)
  {
    var pc := s.callers.resizes[k];
    var next := ResizeNext(s.maxParallel, pc);
    s.(pool := if pc.Grow? && next.Grow? then Spawn(s.pool) else s.pool,
       maxParallel := if pc.StoreMax? then pc.max else s.maxParallel,
       callers := s.callers.(resizes := s.callers.resizes[k := next]))
  }

  predicate AllExited(threads: seq<Thread>) {
    forall t :: 0 <= t < |threads| ==> threads[t].Exited?
  }

  predicate RunEnabled(s: State) {
    match s.callers.run
    case NotCalled => true
    case Starting(_) => true
    case Waiting => AllExited(s.pool.threads)
    case Finished => false
  }

  function RunStep(s: State): State
    requires RunEnabled(s)
  {
    match s.callers.run
    case NotCalled => s.(callers := s.callers.(run := Starting(0), timer := if s.cfg.notify then Armed else Off))
    case Starting(i) =>
      if i < s.maxParallel then s.(pool := Spawn(s.pool), callers := s.callers.(run := Starting(i + 1)))
      else s.(callers := s.callers.(run := Waiting))
    case Waiting => s.(callers := s.callers.(run := Finished))
    case Finished => s
  }

  /** The ten-second timer of Run, at any time after Run was called. */
  function TimerStep(s: State): State
    requires Ok(s)
  {
    match s.callers.timer
    case Armed => s.(callers := s.callers.(timer := if s.words.started > 0 then Off else Firing))
    case Firing => s.(bell := Ring(s.bell), callers := s.callers.(timer := Off))
    case Off => s
  }

  // ------------------------------------------------------------ the whole system

  datatype Action =
    | AddTask(hasHandler: bool)
    | Produce(call: nat)
    | Work(thread: nat, result: Option<Err>)
    | StartCancel(force: bool)
    | CancelOn(id: nat)
    | StartReset
    | ResetOn(id: nat)
    | StartResize(max: int)
    | ResizeOn(id: nat)
    | Done
    | Run
    | Tick
    | Listen(chan: nat)

  predicate Enabled(s: State, a: Action) {
    match a
    case AddTask(_) => true
    case Produce(c) => ProducerEnabled(s, c)
    case Work(t, _) => WorkerEnabled(s, t)
    case StartCancel(_) => true
    case CancelOn(k) => CancellerEnabled(s, k)
    case StartReset => true
    case ResetOn(k) => ResetEnabled(s, k)
    case StartResize(_) => true
    case ResizeOn(k) => ResizeEnabled(s, k)
    case Done => MayClose(s)
    case Run => RunEnabled(s)
    case Tick => !s.callers.timer.Off?
    case Listen(i) => i < |s.bell.chans| && s.bell.chans[i].received < s.bell.chans[i].sent
  }

  function Apply(s: State, a: Action): (s': State)
    requires Ok(s) && Enabled(s, a)
    ensures Ok(s')
  {
    match a
    case AddTask(hasHandler) =>
      s.(words := s.words.(taskId := Inc(s.words.taskId)),
         pool := s.pool.(calls := s.pool.calls + [Call(s.words.taskId, hasHandler, Numbered, 0, None, 0)]))
    case Produce(c) => ProducerStep(s, c)
    case Work(t, result) => WorkerStep(s, t, result)
    case StartCancel(force) => s.(callers := s.callers.(cancels := s.callers.cancels + [Enter(force)]))
    case CancelOn(k) => CancellerStep(s, k)
    case StartReset => s.(callers := s.callers.(resets := s.callers.resets + [WaitLock]))
    case ResetOn(k) => ResetStep(s, k)
    case StartResize(v) =>
      s.(callers := s.callers.(resizes := s.callers.resizes + [Clamped(if v < 1 then 1 else v)]))
    case ResizeOn(k) => ResizeStep(s, k)
    case Done => s.(gate := s.gate.(closed := true))
    case Run => RunStep(s)
    case Tick => TimerStep(s)
    case Listen(i) =>
      s.(bell := s.bell.(chans := s.bell.chans[i := s.bell.chans[i].(received := s.bell.chans[i].received + 1)]))
  }

  /** `actions` is a possible interleaving from `s`. */
  predicate Legal(s: State, actions: seq<Action>)
    requires Ok(s)
    decreases |actions|
  {
    actions == [] || (Enabled(s, actions[0]) && Legal(Apply(s, actions[0]), actions[1..]))
  }

  function Exec(s: State, actions: seq<Action>): (s': State)
    requires Ok(s) && Legal(s, actions)
    ensures Ok(s')
    decreases |actions|
  {
    if actions == [] then s else Exec(Apply(s, actions[0]), actions[1..])
  }
}
