/** What a set cancel flag bounds: which task functions can still be started. */
module RunnerCancel {
  import opened Options
  import opened Counting
  import opened RunnerState
  import opened RunnerInvariant
  import opened RunnerSteps

  predicate IsSender(x: Call) { x.phase.Passed? || x.phase.Counted? }

  /** The worker has received a task whose function it has not started yet. */
  predicate WillStart(pc: Thread) { pc.Busy? && (pc.stage.Got? || pc.stage.Activated?) }

  /** Tasks that can still be received: those of senders past the check, and the queue. */
  function Ahead(p: Pool): nat { Count(IsSender, p.calls) + |p.queue| }

  /** Tasks whose function can still be started. */
  function ToStart(p: Pool): nat { Ahead(p) + Count(WillStart, p.threads) }

  /** The action is a worker's receive of a task. */
  predicate Receives(s: State, a: Action) {
    a.Work? && a.thread < |s.pool.threads| && s.pool.threads[a.thread].Idle? && s.pool.queue != []
  }

  /** The action starts a task function. */
  predicate StartsTask(s: State, a: Action) {
    && a.Work? && a.thread < |s.pool.threads|
    && s.pool.threads[a.thread].Busy? && s.pool.threads[a.thread].stage.Activated?
  }

  // ------------------------------------------------------------ one step

  lemma HeadBound(p: Pool, x: Call)
    requires Links(p) && p.queue != [] && !IsSender(x)
    ensures Count(IsSender, p.calls[p.queue[0] := x]) + |p.queue[1..]| + 1 == Ahead(p)
  {
    CountUpdate(IsSender, p.calls, p.queue[0], x);
  }

  lemma WorkReceives(s: State, t: nat, result: Option<Err>)
    requires Ok(s) && Links(s.pool) && WorkerEnabled(s, t)
    ensures Ahead(WorkerStep(s, t, result).pool) + One(Receives(s, Work(t, result))) <= Ahead(s.pool)
    ensures !s.pool.threads[t].Cancelling? ==>
      Ahead(WorkerStep(s, t, result).pool) + One(Receives(s, Work(t, result))) == Ahead(s.pool)
  {
    match s.pool.threads[t] {
      case Busy(c, stage) =>
        CountUpdate(IsSender, s.pool.calls, c,
                    BusyCall(s.cfg, s.words.active, t, s.pool.calls[c], stage, result));
      case Idle =>
        if s.pool.queue != [] {
          HeadBound(s.pool, s.pool.calls[s.pool.queue[0]].(phase := Held(t, Got)));
        }
      case Cancelling(pc) => DrainBound(s.pool, pc);
      case Spawned =>
      case Shrinking =>
      case Exited(_) =>
    }
  }

  lemma DrainBound(p: Pool, pc: CancelPc)
    requires Links(p) && Shape(p)
    ensures Ahead(CancelPool(p, pc)) <= Ahead(p)
  {
    if pc.Receive? && p.queue != [] {
      HeadBound(p, p.calls[p.queue[0]].(phase := Drained));
    }
  }

  lemma AddBound(s: State, hasHandler: bool)
    requires Ok(s)
    ensures Ahead(Apply(s, AddTask(hasHandler)).pool) == Ahead(s.pool)
  {
    CountAppend(IsSender, s.pool.calls, Call(s.words.taskId, hasHandler, Numbered, 0, None, 0));
  }

  lemma SendBound(s: State, c: nat)
    requires Ok(s) && s.gate.cancel && ProducerEnabled(s, c)
    ensures Ahead(ProducerStep(s, c).pool) == Ahead(s.pool)
  {
    var x := s.pool.calls[c];
    CountUpdate(IsSender, s.pool.calls, c, x.(phase := NextPhase(s.gate.cancel, x.phase)));
  }

  /** With the flag set no step raises what can be received, and a receive lowers it. */
  lemma ReceiveStepBound(s: State, a: Action)
    requires Ok(s) && Links(s.pool) && Enabled(s, a) && s.gate.cancel
    ensures Ahead(Apply(s, a).pool) + One(Receives(s, a)) <= Ahead(s.pool)
  {
    match a {
      case Produce(c) => SendBound(s, c);
      case AddTask(hasHandler) => AddBound(s, hasHandler);
      case Work(t, result) => WorkReceives(s, t, result);
      case CancelOn(k) => DrainBound(s.pool, s.callers.cancels[k]);
      case _ =>
    }
  }

  /** The threads' share: a receive adds one, a start takes one. */
  lemma WorkStarts(s: State, t: nat, result: Option<Err>)
    requires Ok(s) && WorkerEnabled(s, t)
    ensures Count(WillStart, WorkerStep(s, t, result).pool.threads) + One(StartsTask(s, Work(t, result)))
         == Count(WillStart, s.pool.threads) + One(Receives(s, Work(t, result)))
  {
    CountUpdate(WillStart, s.pool.threads, t, WorkerStep(s, t, result).pool.threads[t]);
  }

  lemma ThreadStarts(s: State, a: Action)
    requires Ok(s) && Enabled(s, a)
    ensures Count(WillStart, Apply(s, a).pool.threads) + One(StartsTask(s, a))
         == Count(WillStart, s.pool.threads) + One(Receives(s, a))
  {
    if a.Work? {
      WorkStarts(s, a.thread, a.result);
    } else {
      CountAppend(WillStart, s.pool.threads, Spawned);
    }
  }

  /** With the cancel flag set, no step raises the number of tasks that can still be started, and a start
      lowers it; the flag stays. */
  lemma StartStepBound(s: State, a: Action)
    requires Inv(s) && Ok(s) && Enabled(s, a) && s.gate.cancel
    ensures Apply(s, a).gate.cancel
    ensures ToStart(Apply(s, a).pool) + One(StartsTask(s, a)) <= ToStart(s.pool)
  {
    ReceiveStepBound(s, a);
    ThreadStarts(s, a);
  }

  // ------------------------------------------------------------ whole runs

  /** How many task functions are started along `actions`. */
  function Starts(s: State, actions: seq<Action>): nat
    requires Ok(s) && Legal(s, actions)
    decreases |actions|
  {
    if actions == [] then 0
    else One(StartsTask(s, actions[0])) + Starts(Apply(s, actions[0]), actions[1..])
  }

  lemma {:induction false} StartBoundFrom(s: State, actions: seq<Action>)
    requires Inv(s) && Ok(s) && s.gate.cancel && Legal(s, actions)
    ensures Starts(s, actions) + ToStart(Exec(s, actions).pool) <= ToStart(s.pool)
    decreases |actions|
  {
    if actions != [] {
      StartStepBound(s, actions[0]);
      StepInv(s, actions[0]);
      StartBoundFrom(Apply(s, actions[0]), actions[1..]);
    }
  }

  /** Once the cancel flag is set, the task functions started in any continuation are at most the senders
      past the check, plus the queue, plus the workers that have received a task and not started it. */
  lemma CancelBound(s: State, actions: seq<Action>)
    requires Reachable(s) && s.gate.cancel && Ok(s) && Legal(s, actions)
    ensures Starts(s, actions) + ToStart(Exec(s, actions).pool) <= ToStart(s.pool)
  {
    ReachableInv(s);
    StartBoundFrom(s, actions);
  }

  // ------------------------------------------------------------ the bound is attained

  function SenderWeight(x: Call): nat { if x.phase.Passed? then 2 else if x.phase.Counted? then 1 else 0 }

  function ThreadWeight(pc: Thread): nat {
    if !WillStart(pc) then 0 else if pc.stage.Got? then 2 else 1
  }

  /** A resize that is about to add a thread. */
  predicate AboutToGrow(maxParallel: int, pc: ResizePc) {
    match pc
    case Grow(v, i) => i < v - maxParallel
    case _ => false
  }

  /** A resize to a larger maximum, before its comparison and before its test for equality. */
  predicate AboutToCompare(maxParallel: int, pc: ResizePc) { pc.Compare? && pc.max > maxParallel }

  predicate AboutToTest(maxParallel: int, pc: ResizePc) { pc.Clamped? && pc.max > maxParallel }

  /** How far a thread is from being able to receive: one is idle; one is new; or one has yet to be
      added by SetMaxParallel. */
  ghost function Distance(s: State): nat {
    if exists t :: 0 <= t < |s.pool.threads| && s.pool.threads[t].Idle? then 0
    else if exists t :: 0 <= t < |s.pool.threads| && s.pool.threads[t].Spawned? then 1
    else if exists k :: 0 <= k < |s.callers.resizes| && AboutToGrow(s.maxParallel, s.callers.resizes[k]) then 2
    else if exists k :: 0 <= k < |s.callers.resizes| && AboutToCompare(s.maxParallel, s.callers.resizes[k]) then 3
    else if exists k :: 0 <= k < |s.callers.resizes| && AboutToTest(s.maxParallel, s.callers.resizes[k]) then 4
    else 5
  }

  /** A step that brings some thread closer to receiving, and touches no call, queue or held task. */
  ghost predicate Approaches(s: State, a: Action)
    requires Ok(s)
  {
    && Enabled(s, a)
    && var s' := Apply(s, a);
       s'.gate == s.gate && s'.pool.calls == s.pool.calls && s'.pool.queue == s.pool.queue
       && Distance(s') < Distance(s) && !StartsTask(s, a) && !Receives(s, a)
       && Sum(ThreadWeight, s'.pool.threads) == Sum(ThreadWeight, s.pool.threads)
  }

  lemma Register(s: State, t: nat)
    requires Inv(s) && Ok(s) && t < |s.pool.threads| && s.pool.threads[t].Spawned? && Distance(s) == 1
    ensures Approaches(s, Work(t, None))
  {
    var s' := Apply(s, Work(t, None));
    assert s'.pool.threads[t].Idle?;
    SumUpdate(ThreadWeight, s.pool.threads, t, Idle);
  }

  lemma GrowByOne(s: State, k: nat)
    requires Inv(s) && Ok(s) && k < |s.callers.resizes| && AboutToGrow(s.maxParallel, s.callers.resizes[k])
    requires Distance(s) == 2
    ensures Approaches(s, ResizeOn(k))
  {
    var s' := Apply(s, ResizeOn(k));
    var n := |s.pool.threads|;
    assert s'.pool.threads[n].Spawned?;
    assert s'.pool.threads[..n] == s.pool.threads;
  }

  lemma Decide(s: State, k: nat)
    requires Inv(s) && Ok(s) && k < |s.callers.resizes| && Distance(s) >= 3
    requires if Distance(s) == 3 then AboutToCompare(s.maxParallel, s.callers.resizes[k])
             else Distance(s) == 4 && AboutToTest(s.maxParallel, s.callers.resizes[k])
    ensures Approaches(s, ResizeOn(k))
  {
    var s' := Apply(s, ResizeOn(k));
    if s.callers.resizes[k].Compare? {
      assert AboutToGrow(s'.maxParallel, s'.callers.resizes[k]);
    } else {
      assert AboutToCompare(s'.maxParallel, s'.callers.resizes[k]);
    }
  }

  lemma AskForMore(s: State)
    requires Inv(s) && Ok(s) && Distance(s) == 5
    ensures Approaches(s, StartResize(s.maxParallel + 1))
  {
    var s' := Apply(s, StartResize(s.maxParallel + 1));
    var k := |s.callers.resizes|;
    assert AboutToTest(s'.maxParallel, s'.callers.resizes[k]);
  }

  lemma Approach(s: State) returns (a: Action)
    requires Inv(s) && Ok(s) && Distance(s) > 0
    ensures Approaches(s, a)
  {
    if t :| 0 <= t < |s.pool.threads| && s.pool.threads[t].Spawned? {
      a := Work(t, None);
      Register(s, t);
    } else if k :| 0 <= k < |s.callers.resizes| && AboutToGrow(s.maxParallel, s.callers.resizes[k]) {
      a := ResizeOn(k);
      GrowByOne(s, k);
    } else if k :| 0 <= k < |s.callers.resizes| && AboutToCompare(s.maxParallel, s.callers.resizes[k]) {
      a := ResizeOn(k);
      Decide(s, k);
    } else if k :| 0 <= k < |s.callers.resizes| && AboutToTest(s.maxParallel, s.callers.resizes[k]) {
      a := ResizeOn(k);
      Decide(s, k);
    } else {
      a := StartResize(s.maxParallel + 1);
      AskForMore(s);
    }
  }

  /** A step on the way to the next start: it loses no task, and gets closer. */
  ghost predicate Useful(s: State, a: Action)
    requires Ok(s)
  {
    && Enabled(s, a)
    && var s' := Apply(s, a);
       && s'.gate.cancel == s.gate.cancel
       && ToStart(s'.pool) + One(StartsTask(s, a)) == ToStart(s.pool)
       && (Sum(SenderWeight, s'.pool.calls) < Sum(SenderWeight, s.pool.calls)
           || (Sum(SenderWeight, s'.pool.calls) == Sum(SenderWeight, s.pool.calls)
               && (|s'.pool.queue| < |s.pool.queue|
                   || (|s'.pool.queue| == |s.pool.queue|
                       && (Sum(ThreadWeight, s'.pool.threads) < Sum(ThreadWeight, s.pool.threads)
                           || (Sum(ThreadWeight, s'.pool.threads) == Sum(ThreadWeight, s.pool.threads)
                               && Distance(s') < Distance(s)))))))
  }

  /** A worker that holds an unstarted task goes on. */
  lemma HolderUseful(s: State, t: nat)
    requires Inv(s) && Ok(s) && t < |s.pool.threads| && WillStart(s.pool.threads[t])
    ensures Useful(s, Work(t, None))
  {
    var c, stage := s.pool.threads[t].call, s.pool.threads[t].stage;
    var x := BusyCall(s.cfg, s.words.active, t, s.pool.calls[c], stage, None);
    var pc := BusyThread(s.cfg, s.words.active, c, s.pool.calls[c], stage);
    assert s.pool.calls[c].phase == Held(t, stage);
    SumUpdate(SenderWeight, s.pool.calls, c, x);
    SumUpdate(ThreadWeight, s.pool.threads, t, pc);
    WorkReceives(s, t, None);
    WorkStarts(s, t, None);
  }

  /** An idle worker takes the head of the queue. */
  lemma ReceiveUseful(s: State, t: nat)
    requires Inv(s) && Ok(s) && t < |s.pool.threads| && s.pool.threads[t].Idle? && s.pool.queue != []
    ensures Useful(s, Work(t, None))
  {
    var c := s.pool.queue[0];
    SumUpdate(SenderWeight, s.pool.calls, c, s.pool.calls[c].(phase := Held(t, Got)));
    WorkReceives(s, t, None);
    WorkStarts(s, t, None);
  }

  /** A sender past the check goes on, the queue being empty. */
  lemma SenderUseful(s: State, c: nat)
    requires Inv(s) && Ok(s) && s.gate.cancel && s.pool.queue == [] && c < |s.pool.calls| && IsSender(s.pool.calls[c])
    ensures Useful(s, Produce(c))
  {
    SumUpdate(SenderWeight, s.pool.calls, c,
              s.pool.calls[c].(phase := NextPhase(s.gate.cancel, s.pool.calls[c].phase)));
    SendBound(s, c);
  }

  lemma ApproachUseful(s: State, a: Action)
    requires Ok(s) && Approaches(s, a)
    ensures Useful(s, a)
  {
    ThreadStarts(s, a);
  }

  lemma NextUseful(s: State) returns (a: Action)
    requires Inv(s) && Ok(s) && s.gate.cancel && ToStart(s.pool) > 0
    ensures Useful(s, a)
  {
    CountZero(WillStart, s.pool.threads);
    CountZero(IsSender, s.pool.calls);
    if t :| 0 <= t < |s.pool.threads| && WillStart(s.pool.threads[t]) {
      a := Work(t, None);
      HolderUseful(s, t);
    } else if s.pool.queue == [] {
      var c :| 0 <= c < |s.pool.calls| && IsSender(s.pool.calls[c]);
      a := Produce(c);
      SenderUseful(s, c);
    } else if t :| 0 <= t < |s.pool.threads| && s.pool.threads[t].Idle? {
      a := Work(t, None);
      ReceiveUseful(s, t);
    } else {
      a := Approach(s);
      ApproachUseful(s, a);
    }
  }

  /** From any state with the flag set, some continuation starts exactly as many task functions as the
      bound says. */
  lemma {:induction false} BoundAttained(s: State) returns (actions: seq<Action>)
    requires Inv(s) && Ok(s) && s.gate.cancel
    ensures Legal(s, actions) && Starts(s, actions) == ToStart(s.pool)
    decreases Sum(SenderWeight, s.pool.calls), |s.pool.queue|, Sum(ThreadWeight, s.pool.threads), Distance(s)
  {
    if ToStart(s.pool) == 0 {
      actions := [];
    } else {
      var a := NextUseful(s);
      StepInv(s, a);
      var rest := BoundAttained(Apply(s, a));
      Prepend(s, a, rest);
      actions := [a] + rest;
      assert actions[0] == a && actions[1..] == rest;
    }
  }

  /** Nothing ever starts again after the cancel flag is set if and only if no sender is past the check,
      the queue is empty, and no worker holds a task that it has not started. */
  lemma NothingStartsIff(s: State)
    requires Reachable(s) && s.gate.cancel && Ok(s)
    ensures (forall actions :: Legal(s, actions) ==> Starts(s, actions) == 0) <==> ToStart(s.pool) == 0
  {
    ReachableInv(s);
    forall actions | Legal(s, actions)
      ensures Starts(s, actions) <= ToStart(s.pool)
    {
      StartBoundFrom(s, actions);
    }
    var all := BoundAttained(s);
  }
}
