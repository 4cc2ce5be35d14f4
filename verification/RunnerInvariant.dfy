/** The invariants of the task runner, each over the parts of the state it is about,
    and the proof that every action keeps each of them. */
module RunnerInvariant {
  import opened Counting
  import opened Options
  import opened RunnerState

  // ------------------------------------------------------------ who is where

  /** The recorded phase of every call agrees with the queue and the worker program
      counters, in both directions; no call is queued twice. */
  ghost predicate Links(p: Pool) {
    && (forall t :: 0 <= t < |p.threads| && p.threads[t].Busy? ==>
          p.threads[t].call < |p.calls| && p.calls[p.threads[t].call].phase == Held(t, p.threads[t].stage))
    && (forall c :: 0 <= c < |p.calls| && p.calls[c].phase.Held? ==>
          && p.calls[c].phase.thread < |p.threads|
          && p.threads[p.calls[c].phase.thread] == Busy(c, p.calls[c].phase.stage))
    && (forall i :: 0 <= i < |p.queue| ==> p.queue[i] < |p.calls| && p.calls[p.queue[i]].phase.Queued?)
    && (forall i, j :: 0 <= i < j < |p.queue| ==> p.queue[i] != p.queue[j])
    && (forall c :: 0 <= c < |p.calls| && p.calls[c].phase.Queued? ==> c in p.queue)
  }

  predicate InTransit(ph: Phase) { ph.Held? || ph.Queued? }

  /** A busy worker and its call change together. */
  lemma LinksBusy(p: Pool, t: nat, c: nat, x: Call, pc: Thread)
    requires Links(p) && t < |p.threads| && p.threads[t].Busy? && p.threads[t].call == c
    requires match pc case Busy(c', st) => c' == c && x.phase == Held(t, st) case _ => !InTransit(x.phase)
    ensures c < |p.calls| && Links(PutBoth(p, c, x, t, pc))
  {}

  lemma LinksThread(p: Pool, t: nat, pc: Thread)
    requires Links(p) && t < |p.threads| && !p.threads[t].Busy? && !pc.Busy?
    ensures Links(PutThread(p, t, pc))
  {}

  lemma LinksTake(p: Pool, t: nat)
    requires Links(p) && Shape(p) && t < |p.threads| && !p.threads[t].Busy? && p.queue != []
    ensures Links(TakeHead(p, t))
  {
    assert forall c :: c in p.queue && c != p.queue[0] ==> c in p.queue[1..];
  }

  lemma LinksCancel(p: Pool, pc: CancelPc)
    requires Links(p) && Shape(p)
    ensures Links(CancelPool(p, pc))
  {
    assert p.queue != [] ==> forall c :: c in p.queue && c != p.queue[0] ==> c in p.queue[1..];
  }

  lemma LinksProduce(p: Pool, c: nat, x: Call, cancel: bool)
    requires Links(p) && c < |p.calls| && !InTransit(p.calls[c].phase)
    requires x.phase == NextPhase(cancel, p.calls[c].phase)
    ensures var q := PutCall(p, c, x); Links(if x.phase.Queued? then q.(queue := q.queue + [c]) else q)
  {}

  lemma LinksGrow(p: Pool, x: Call)
    requires Links(p) && !InTransit(x.phase)
    ensures Links(p.(calls := p.calls + [x])) && Links(Spawn(p))
  {}

  // ------------------------------------------------------------ each call's own history

  predicate HasStarted(ph: Phase) {
    ph.Settled? || (ph.Held? && !ph.stage.Got? && !ph.stage.Activated?)
  }

  predicate HasReturned(ph: Phase) {
    HasStarted(ph) && (ph.Held? ==> !ph.stage.Running?)
  }

  predicate IsHandled(ph: Phase) {
    ph.Settled? || (ph.Held? && ph.stage.Handled?)
  }

  /** The task function was started once if the phase is past its start and never
      otherwise; likewise the error handler, if there is a handler and an error. */
  predicate CallData(x: Call, c: nat) {
    && x.num == c % WORD
    && x.runs == One(HasStarted(x.phase))
    && (x.result.Some? ==> HasReturned(x.phase))
    && x.handled == One(x.hasHandler && x.result.Some? && IsHandled(x.phase))
    && (x.phase.Held? && x.phase.stage.Handled? ==> x.result.Some?)
  }

  ghost predicate Data(calls: seq<Call>) {
    forall c :: 0 <= c < |calls| ==> CallData(calls[c], c)
  }

  lemma BusyCallData(cfg: Config, active: nat, t: nat, x: Call, c: nat, stage: Stage, result: Option<Err>)
    requires CallData(x, c) && x.phase == Held(t, stage)
    ensures CallData(BusyCall(cfg, active, t, x, stage, result), c)
  {}

  /** The error map holds exactly the errors of the settled calls. */
  ghost predicate Errors(calls: seq<Call>, errors: map<nat, Err>) {
    |calls| < WORD ==>
      && (forall k: nat :: k in errors <==> k < |calls| && calls[k].phase.Settled? && calls[k].result.Some?)
      && (forall k: nat :: k in errors ==> k < |calls| && calls[k].result == Some(errors[k]))
  }

  lemma ErrorsBusy(cfg: Config, active: nat, t: nat, c: nat, calls: seq<Call>, errors: map<nat, Err>, stage: Stage,
                   result: Option<Err>)
    requires Data(calls) && Errors(calls, errors) && c < |calls| && calls[c].phase == Held(t, stage)
    ensures Errors(calls[c := BusyCall(cfg, active, t, calls[c], stage, result)], BusyErrors(errors, calls[c], stage))
  {
    assert CallData(calls[c], c);
  }

  lemma ErrorsCall(calls: seq<Call>, errors: map<nat, Err>, c: nat, x: Call)
    requires Errors(calls, errors) && c < |calls| && !calls[c].phase.Settled? && !x.phase.Settled?
    ensures Errors(calls[c := x], errors)
  {}

  lemma HistoryGrow(calls: seq<Call>, errors: map<nat, Err>, x: Call)
    requires Data(calls) && Errors(calls, errors) && CallData(x, |calls|) && x.phase.Numbered?
    ensures Data(calls + [x]) && Errors(calls + [x], errors)
  {}

  // ------------------------------------------------------------ what the counters count

  /** Counted in totalTasksInQueue: send pending, queued, taken and not yet decremented, or drained. */
  predicate InTotal(x: Call) {
    match x.phase
    case Held(_, st) => st.Got? || st.Activated? || st.Running? || st.Returned? || st.Deactivated?
    case Counted => true
    case Queued => true
    case Drained => true
    case _ => false
  }

  /** Counted in activeThreads. */
  predicate IsActive(x: Call) {
    x.phase.Held? && (x.phase.stage.Activated? || x.phase.stage.Running? || x.phase.stage.Returned?)
  }

  /** Counted in started. */
  predicate WasStarted(x: Call) { HasStarted(x.phase) }

  /** Between the decrement of totalTasksInQueue and the end of the locked check. */
  predicate InWindow(x: Call) {
    x.phase.Held? && (x.phase.stage.Decremented? || x.phase.stage.Locked? || x.phase.stage.SawNoActive?)
  }

  /** Completed: past the decrement of totalTasksInQueue. */
  predicate IsPast(x: Call) {
    x.phase.Settled? || (x.phase.Held? && !InTotal(x))
  }

  /** Counted in openThreads: registered and not gone through the shrink exit. */
  predicate IsOpen(pc: Thread) {
    !pc.Spawned? && pc != Exited(ByShrink)
  }

  /** Fewer than 2^32 calls of addTask and fewer than 2^32 goroutines so far. */
  predicate Small(p: Pool) {
    |p.calls| < WORD && |p.threads| < WORD
  }

  ghost predicate Tallies(w: Words, p: Pool) {
    && w.taskId == |p.calls| % WORD
    && (Small(p) ==>
          && w.total == Count(InTotal, p.calls)
          && w.active == Count(IsActive, p.calls)
          && w.started == Count(WasStarted, p.calls)
          && w.open == Count(IsOpen, p.threads))
  }

  lemma Recount(calls: seq<Call>, c: nat, x: Call)
    requires c < |calls|
    ensures Count(InTotal, calls[c := x]) + One(InTotal(calls[c])) == Count(InTotal, calls) + One(InTotal(x))
    ensures Count(IsActive, calls[c := x]) + One(IsActive(calls[c])) == Count(IsActive, calls) + One(IsActive(x))
    ensures Count(WasStarted, calls[c := x]) + One(WasStarted(calls[c])) == Count(WasStarted, calls) + One(WasStarted(x))
    ensures Count(InTotal, calls[c := x]) <= |calls| && Count(IsActive, calls[c := x]) <= |calls|
    ensures Count(WasStarted, calls[c := x]) <= |calls|
  {
    CountUpdate(InTotal, calls, c, x);
    CountUpdate(IsActive, calls, c, x);
    CountUpdate(WasStarted, calls, c, x);
    CountBound(InTotal, calls[c := x]);
    CountBound(IsActive, calls[c := x]);
    CountBound(WasStarted, calls[c := x]);
  }

  lemma ReOpen(threads: seq<Thread>, t: nat, pc: Thread)
    requires t < |threads|
    ensures Count(IsOpen, threads[t := pc]) + One(IsOpen(threads[t])) == Count(IsOpen, threads) + One(IsOpen(pc))
    ensures Count(IsOpen, threads[t := pc]) <= |threads|
  {
    CountUpdate(IsOpen, threads, t, pc);
    CountBound(IsOpen, threads[t := pc]);
  }

  /** An active task is counted in totalTasksInQueue. */
  lemma ActiveInTotal(calls: seq<Call>)
    ensures Count(IsActive, calls) <= Count(InTotal, calls)
  {
    CountMonotone(IsActive, InTotal, calls);
  }

  /** A worker's step and one of the counts of calls, by what the step does to that counter. */
  lemma BusyTotal(cfg: Config, w: Words, calls: seq<Call>, t: nat, c: nat, stage: Stage, result: Option<Err>)
    requires c < |calls| && calls[c].phase == Held(t, stage) && |calls| < WORD && w.total == Count(InTotal, calls)
    ensures BusyWords(w, stage).total == Count(InTotal, calls[c := BusyCall(cfg, w.active, t, calls[c], stage, result)])
  {
    var x := BusyCall(cfg, w.active, t, calls[c], stage, result);
    CountUpdate(InTotal, calls, c, x);
    CountBound(InTotal, calls[c := x]);
  }

  lemma BusyActive(cfg: Config, w: Words, calls: seq<Call>, t: nat, c: nat, stage: Stage, result: Option<Err>)
    requires c < |calls| && calls[c].phase == Held(t, stage) && |calls| < WORD && w.active == Count(IsActive, calls)
    ensures BusyWords(w, stage).active == Count(IsActive, calls[c := BusyCall(cfg, w.active, t, calls[c], stage, result)])
  {
    var x := BusyCall(cfg, w.active, t, calls[c], stage, result);
    CountUpdate(IsActive, calls, c, x);
    CountBound(IsActive, calls[c := x]);
  }

  lemma BusyStarted(cfg: Config, w: Words, calls: seq<Call>, t: nat, c: nat, stage: Stage, result: Option<Err>)
    requires c < |calls| && calls[c].phase == Held(t, stage) && |calls| < WORD && w.started == Count(WasStarted, calls)
    ensures BusyWords(w, stage).started == Count(WasStarted, calls[c := BusyCall(cfg, w.active, t, calls[c], stage, result)])
  {
    var x := BusyCall(cfg, w.active, t, calls[c], stage, result);
    CountUpdate(WasStarted, calls, c, x);
    CountBound(WasStarted, calls[c := x]);
  }

  lemma TalliesBusy(cfg: Config, w: Words, p: Pool, t: nat, c: nat, stage: Stage, result: Option<Err>)
    requires Tallies(w, p) && t < |p.threads| && p.threads[t] == Busy(c, stage)
    requires c < |p.calls| && p.calls[c].phase == Held(t, stage)
    ensures Tallies(BusyWords(w, stage),
                    PutBoth(p, c, BusyCall(cfg, w.active, t, p.calls[c], stage, result),
                            t, BusyThread(cfg, w.active, c, p.calls[c], stage)))
  {
    if Small(p) {
      BusyTotal(cfg, w, p.calls, t, c, stage, result);
      BusyActive(cfg, w, p.calls, t, c, stage, result);
      BusyStarted(cfg, w, p.calls, t, c, stage, result);
      ReOpen(p.threads, t, BusyThread(cfg, w.active, c, p.calls[c], stage));
    }
  }

  lemma TalliesTake(w: Words, p: Pool, t: nat)
    requires Tallies(w, p) && Links(p) && Shape(p) && t < |p.threads| && p.threads[t].Idle? && p.queue != []
    ensures Tallies(w, TakeHead(p, t))
  {
    Recount(p.calls, p.queue[0], p.calls[p.queue[0]].(phase := Held(t, Got)));
    ReOpen(p.threads, t, Busy(p.queue[0], Got));
  }

  lemma TalliesCancel(w: Words, p: Pool, pc: CancelPc)
    requires Tallies(w, p) && Links(p) && Shape(p)
    ensures Tallies(w, CancelPool(p, pc))
  {
    if pc.Receive? && p.queue != [] {
      Recount(p.calls, p.queue[0], p.calls[p.queue[0]].(phase := Drained));
    }
  }

  lemma TalliesProduce(s: State, c: nat)
    requires Tallies(s.words, s.pool) && ProducerEnabled(s, c)
    ensures var s' := ProducerStep(s, c); Tallies(s'.words, s'.pool)
  {
    var x := s.pool.calls[c];
    Recount(s.pool.calls, c, x.(phase := NextPhase(s.gate.cancel, x.phase)));
  }

  lemma TalliesGrow(w: Words, p: Pool, x: Call)
    requires Tallies(w, p) && x.phase.Numbered?
    ensures Tallies(w.(taskId := Inc(w.taskId)), p.(calls := p.calls + [x])) && Tallies(w, Spawn(p))
  {
    CountAppend(InTotal, p.calls, x);
    CountAppend(IsActive, p.calls, x);
    CountAppend(WasStarted, p.calls, x);
    CountAppend(IsOpen, p.threads, Spawned);
  }

  // ------------------------------------------------------------ closing, cancelling, failing

  /** Inside Cancel the flag has been stored once the first line is behind. */
  predicate PcFlag(cancel: bool, pc: CancelPc) { cancel || pc.Enter? }

  /** Once the channel is closed nobody sends; a worker that left the range loop saw the
      closed channel empty; nothing is drained or rejected unless Cancel was called. */
  ghost predicate Closing(g: Gate, p: Pool, cancels: seq<CancelPc>) {
    && (g.closed ==> NoSender(p.calls))
    && (forall t :: 0 <= t < |p.threads| && p.threads[t] == Exited(ByClose) ==> g.closed && p.queue == [])
    && (!g.cancel ==> g.once.Unused?)
    && (forall t :: 0 <= t < |p.threads| && p.threads[t] == Exited(ByFailFast) ==> g.cancel)
    && (!g.cancel ==> forall c :: 0 <= c < |p.calls| ==> !p.calls[c].phase.Drained? && !p.calls[c].phase.Rejected?)
    && (forall k :: 0 <= k < |cancels| ==> PcFlag(g.cancel, cancels[k]))
    && (forall t :: 0 <= t < |p.threads| && p.threads[t].Cancelling? ==> PcFlag(g.cancel, p.threads[t].pc))
  }

  /** Only a fail-fast runner has workers in Cancel; at least one thread exists once Run
      has gone through its loop. */
  ghost predicate Opening(cfg: Config, maxParallel: int, threads: seq<Thread>, resizes: seq<ResizePc>, run: RunPc) {
    && maxParallel >= 1 && cfg.capacity >= 1
    && (forall k :: 0 <= k < |resizes| && !resizes[k].ResizeDone? ==> resizes[k].max >= 1)
    && (forall t :: 0 <= t < |threads| && (threads[t].Cancelling? || threads[t] == Exited(ByFailFast)) ==> cfg.failFast)
    && (forall t :: 0 <= t < |threads| && threads[t].Cancelling? ==> !threads[t].pc.Left?)
    && (match run
        case NotCalled => true
        case Starting(i) => i > 0 ==> threads != []
        case _ => threads != [])
  }

  /** Not every registered thread has left through the shrink exit. */
  ghost predicate OneStays(p: Pool) {
    Small(p) && Count(IsOpen, p.threads) == 0 ==> forall t :: 0 <= t < |p.threads| ==> p.threads[t].Spawned?
  }

  /** A call changes without becoming a sender, being drained or being rejected, and a thread
      changes without entering Cancel beyond its first line or leaving the range loop. */
  lemma ClosingThread(g: Gate, p: Pool, cancels: seq<CancelPc>, t: nat, pc: Thread)
    requires Closing(g, p, cancels) && t < |p.threads|
    requires pc == Exited(ByClose) ==> g.closed && p.queue == []
    requires pc == Exited(ByFailFast) ==> g.cancel
    requires pc.Cancelling? ==> PcFlag(g.cancel, pc.pc)
    ensures Closing(g, PutThread(p, t, pc), cancels)
  {}

  lemma ClosingProduce(g: Gate, p: Pool, cancels: seq<CancelPc>, c: nat, x: Call)
    requires Closing(g, p, cancels) && c < |p.calls|
    requires x.phase == NextPhase(g.cancel, p.calls[c].phase)
    requires match p.calls[c].phase
             case Numbered => !g.cancel ==> !g.closed
             case Passed => true
             case Counted => !g.closed
             case _ => false
    ensures var q := PutCall(p, c, x); Closing(g, if x.phase.Queued? then q.(queue := q.queue + [c]) else q, cancels)
  {}

  /** The gate and the pool after a step of Cancel, up to cancelOnce. */
  lemma ClosingCancel(g: Gate, p: Pool, cancels: seq<CancelPc>, who: Actor, pc: CancelPc)
    requires Closing(g, p, cancels) && Shape(p) && PcFlag(g.cancel, pc)
    requires pc == Flagged(true) ==> g.closed || NoSender(p.calls)
    ensures Closing(CancelGate(g, who, pc), CancelPool(p, pc), cancels)
    ensures PcFlag(CancelGate(g, who, pc).cancel, CancelNext(g.once, p.queue, pc))
  {}

  lemma ClosingBusy(g: Gate, p: Pool, cancels: seq<CancelPc>, c: nat, x: Call, t: nat, pc: Thread)
    requires Closing(g, p, cancels) && c < |p.calls| && t < |p.threads|
    requires InTransit(x.phase) || x.phase.Settled?
    requires !pc.Exited? && (pc.Cancelling? ==> pc.pc.Enter?)
    ensures Closing(g, PutBoth(p, c, x, t, pc), cancels)
  {}

  lemma ClosingGrow(g: Gate, p: Pool, cancels: seq<CancelPc>, x: Call)
    requires Closing(g, p, cancels) && x.phase.Numbered?
    ensures Closing(g, p.(calls := p.calls + [x]), cancels) && Closing(g, Spawn(p), cancels)
  {}

  lemma OpeningThread(cfg: Config, maxParallel: int, threads: seq<Thread>, resizes: seq<ResizePc>, run: RunPc,
                      t: nat, pc: Thread)
    requires Opening(cfg, maxParallel, threads, resizes, run) && t < |threads|
    requires pc.Cancelling? || pc == Exited(ByFailFast) ==> cfg.failFast
    requires pc.Cancelling? ==> !pc.pc.Left?
    ensures Opening(cfg, maxParallel, threads[t := pc], resizes, run)
  {}

  /** A registered thread stays registered unless it takes the shrink exit. */
  lemma OneStaysThread(p: Pool, t: nat, pc: Thread)
    requires OneStays(p) && t < |p.threads| && (IsOpen(p.threads[t]) ==> IsOpen(pc)) && !pc.Spawned?
    requires pc != Exited(ByShrink)
    ensures OneStays(PutThread(p, t, pc))
  {
    ReOpen(p.threads, t, pc);
    CountZero(IsOpen, p.threads[t := pc]);
  }

  // ------------------------------------------------------------ cancelOnce and the notifier lock

  predicate InOnce(pc: CancelPc) { pc.Test? || pc.Receive? || pc.Notify? }

  /** The body of cancelOnce.Do is run by exactly the one that cancelOnce says. */
  ghost predicate Onces(once: Once, threads: seq<Thread>, cancels: seq<CancelPc>) {
    && (match once
        case Doing(Worker(t)) => t < |threads| && threads[t].Cancelling? && InOnce(threads[t].pc)
        case Doing(External(k)) => k < |cancels| && InOnce(cancels[k])
        case _ => true)
    && (forall t :: 0 <= t < |threads| && threads[t].Cancelling? && InOnce(threads[t].pc) ==> once == Doing(Worker(t)))
    && (forall k :: 0 <= k < |cancels| && InOnce(cancels[k]) ==> once == Doing(External(k)))
  }

  /** Where a worker is after a step of its Cancel. */
  function AfterCancel(next: CancelPc): Thread {
    if next.Left? then Exited(ByFailFast) else Cancelling(next)
  }

  lemma OncesWorker(g: Gate, threads: seq<Thread>, queue: seq<nat>, cancels: seq<CancelPc>, t: nat)
    requires Onces(g.once, threads, cancels) && t < |threads| && threads[t].Cancelling?
    requires threads[t].pc.AtOnce? ==> !g.once.Doing?
    ensures Onces(CancelGate(g, Worker(t), threads[t].pc).once,
                  threads[t := AfterCancel(CancelNext(g.once, queue, threads[t].pc))], cancels)
  {}

  lemma OncesExternal(g: Gate, threads: seq<Thread>, queue: seq<nat>, cancels: seq<CancelPc>, k: nat)
    requires Onces(g.once, threads, cancels) && k < |cancels|
    requires cancels[k].AtOnce? ==> !g.once.Doing?
    ensures Onces(CancelGate(g, External(k), cancels[k]).once, threads,
                  cancels[k := CancelNext(g.once, queue, cancels[k])])
  {}

  predicate HoldsLock(pc: Thread) { pc.Busy? && (pc.stage.Locked? || pc.stage.SawNoActive?) }

  predicate ResetHolds(pc: ResetPc) { !pc.WaitLock? && !pc.ResetDone? }

  /** finishedNotifierLock is held by exactly the goroutine that is inside a section it guards. */
  ghost predicate Locks(lock: Lock, threads: seq<Thread>, resets: seq<ResetPc>) {
    && (lock.ByWorker? ==> lock.id < |threads| && HoldsLock(threads[lock.id]))
    && (lock.ByReset? ==> lock.id < |resets| && ResetHolds(resets[lock.id]))
    && (forall t :: 0 <= t < |threads| && HoldsLock(threads[t]) ==> lock == ByWorker(t))
    && (forall k :: 0 <= k < |resets| && ResetHolds(resets[k]) ==> lock == ByReset(k))
  }

  lemma OncesThread(once: Once, threads: seq<Thread>, cancels: seq<CancelPc>, t: nat, pc: Thread)
    requires Onces(once, threads, cancels) && t < |threads|
    requires !(threads[t].Cancelling? && InOnce(threads[t].pc)) && !(pc.Cancelling? && InOnce(pc.pc))
    ensures Onces(once, threads[t := pc], cancels)
  {}

  lemma LocksThread(lock: Lock, threads: seq<Thread>, resets: seq<ResetPc>, t: nat, pc: Thread)
    requires Locks(lock, threads, resets) && t < |threads| && !HoldsLock(threads[t]) && !HoldsLock(pc)
    ensures Locks(lock, threads[t := pc], resets)
  {}

  lemma LocksBusy(cfg: Config, w: Words, b: Bell, threads: seq<Thread>, resets: seq<ResetPc>, t: nat, c: nat,
                  call: Call, stage: Stage)
    requires Locks(b.lock, threads, resets) && b.chans != [] && t < |threads| && threads[t] == Busy(c, stage)
    requires stage.Decremented? && cfg.notify ==> b.lock.Free?
    ensures Locks(BusyBell(cfg, w, b, t, stage).lock, threads[t := BusyThread(cfg, w.active, c, call, stage)], resets)
  {
    assert HoldsLock(threads[t]) ==> b.lock == ByWorker(t);
  }

  lemma LocksReset(w: Words, cancel: bool, b: Bell, threads: seq<Thread>, resets: seq<ResetPc>, k: nat)
    requires Locks(b.lock, threads, resets) && k < |resets| && !resets[k].ResetDone?
    requires resets[k].WaitLock? ==> b.lock.Free?
    ensures var next := ResetNext(w, cancel, resets[k]);
            Locks(ResetBell(b, k, resets[k], next).lock, threads, resets[k := next])
  {
    assert ResetHolds(resets[k]) ==> b.lock == ByReset(k);
  }

  // ------------------------------------------------------------ the notification channel

  /** Each channel carries one value exactly when it is closed, and the flag tells whether the
      current one is. */
  ghost predicate Channels(b: Bell) {
    && b.chans != []
    && b.closed == b.chans[|b.chans| - 1].closed
    && (forall i :: 0 <= i < |b.chans| ==>
          b.chans[i].sent == One(b.chans[i].closed) && b.chans[i].received <= b.chans[i].sent)
  }

  lemma ChannelsRing(b: Bell)
    requires Channels(b)
    ensures Channels(Ring(b)) && Ring(b).closed && Ring(b).lock == b.lock
  {}

  /** When nothing is left to do, somebody still has the finish check ahead of him or the
      notification is out; and no reset is about to throw the notification away unless
      somebody has the check ahead of him. */
  ghost predicate Notices(calls: seq<Call>, resets: seq<ResetPc>, closed: bool) {
    Count(InTotal, calls) == 0 && Count(InWindow, calls) == 0 ==>
      && (Count(IsPast, calls) > 0 ==> closed)
      && (forall k :: 0 <= k < |resets| ==> !resets[k].TestCancel? && !resets[k].Replace?)
  }

  lemma Rewindow(calls: seq<Call>, c: nat, x: Call)
    requires c < |calls|
    ensures Count(InTotal, calls[c := x]) + One(InTotal(calls[c])) == Count(InTotal, calls) + One(InTotal(x))
    ensures Count(InWindow, calls[c := x]) + One(InWindow(calls[c])) == Count(InWindow, calls) + One(InWindow(x))
    ensures Count(IsPast, calls[c := x]) + One(IsPast(calls[c])) == Count(IsPast, calls) + One(IsPast(x))
  {
    CountUpdate(InTotal, calls, c, x);
    CountUpdate(InWindow, calls, c, x);
    CountUpdate(IsPast, calls, c, x);
  }

  lemma NoticesCall(calls: seq<Call>, resets: seq<ResetPc>, closed: bool, c: nat, x: Call)
    requires Notices(calls, resets, closed) && c < |calls|
    requires !InTotal(calls[c]) || InTotal(x)
    requires InWindow(calls[c]) == InWindow(x) && IsPast(calls[c]) == IsPast(x)
    ensures Notices(calls[c := x], resets, closed)
  {
    Rewindow(calls, c, x);
  }

  /** A worker's step: the last decrement opens the window, and the window is left either
      with the notification out or with something left to do. */
  lemma NoticesBusy(s: State, t: nat, c: nat, stage: Stage, result: Option<Err>)
    requires s.cfg.notify && Small(s.pool) && s.bell.chans != []
    requires t < |s.pool.threads| && s.pool.threads[t] == Busy(c, stage)
    requires c < |s.pool.calls| && s.pool.calls[c].phase == Held(t, stage)
    requires Tallies(s.words, s.pool) && Locks(s.bell.lock, s.pool.threads, s.callers.resets)
    requires Notices(s.pool.calls, s.callers.resets, s.bell.closed)
    ensures Notices(s.pool.calls[c := BusyCall(s.cfg, s.words.active, t, s.pool.calls[c], stage, result)],
                    s.callers.resets, BusyBell(s.cfg, s.words, s.bell, t, stage).closed)
  {
    Rewindow(s.pool.calls, c, BusyCall(s.cfg, s.words.active, t, s.pool.calls[c], stage, result));
    ActiveInTotal(s.pool.calls);
    assert HoldsLock(s.pool.threads[t]) ==> s.bell.lock == ByWorker(t);
  }

  lemma NoticesReset(s: State, k: nat)
    requires Small(s.pool) && ResetEnabled(s, k)
    requires Tallies(s.words, s.pool)
    requires Notices(s.pool.calls, s.callers.resets, s.bell.closed)
    ensures var s' := ResetStep(s, k); Notices(s'.pool.calls, s'.callers.resets, s'.bell.closed)
  {
    ActiveInTotal(s.pool.calls);
  }

  lemma NoticesGrow(calls: seq<Call>, resets: seq<ResetPc>, closed: bool, x: Call)
    requires Notices(calls, resets, closed) && x.phase.Numbered?
    ensures Notices(calls + [x], resets, closed) && Notices(calls, resets + [WaitLock], closed)
    ensures Notices(calls, resets, true)
  {
    CountAppend(InTotal, calls, x);
    CountAppend(InWindow, calls, x);
    CountAppend(IsPast, calls, x);
  }

  lemma ChannelsBusy(cfg: Config, w: Words, b: Bell, t: nat, stage: Stage)
    requires Channels(b)
    ensures Channels(BusyBell(cfg, w, b, t, stage))
  {
    ChannelsRing(b);
  }
}
