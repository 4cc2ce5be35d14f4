/** The task channel as the runner uses it: first in, first out, and no call of addTask waits while there
    are no more calls under way than it has room for. */
module RunnerQueue {
  import opened Counting
  import opened Options
  import opened RunnerState
  import opened RunnerInvariant
  import opened RunnerSteps
  import opened RunnerTheorems

  // ------------------------------------------------------------ order

  /** The call whose task this action sends, if any: the last step of addTask. */
  predicate Sends(s: State, a: Action) {
    a.Produce? && a.call < |s.pool.calls| && s.pool.calls[a.call].phase.Counted?
  }

  /** The step is a receive: the head of a worker's loop, or the receive of a Cancel. */
  predicate Receives(s: State, a: Action) {
    && s.pool.queue != []
    && match a
       case Work(t, _) =>
         t < |s.pool.threads| && (s.pool.threads[t].Idle? || s.pool.threads[t] == Cancelling(CancelPc.Receive))
       case CancelOn(k) => k < |s.callers.cancels| && s.callers.cancels[k].Receive?
       case _ => false
  }

  /** The calls whose tasks were sent on the way, in order, and those whose tasks were received. */
  function Sent(s: State, actions: seq<Action>): seq<nat>
    requires Ok(s) && Legal(s, actions)
    decreases |actions|
  {
    if actions == [] then []
    else (if Sends(s, actions[0]) then [actions[0].call] else []) + Sent(Apply(s, actions[0]), actions[1..])
  }

  function Received(s: State, actions: seq<Action>): seq<nat>
    requires Ok(s) && Legal(s, actions)
    decreases |actions|
  {
    if actions == [] then []
    else (if Receives(s, actions[0]) then [s.pool.queue[0]] else []) + Received(Apply(s, actions[0]), actions[1..])
  }

  lemma StepQueue(s: State, a: Action)
    requires Ok(s) && Enabled(s, a)
    ensures s.pool.queue + (if Sends(s, a) then [a.call] else [])
         == (if Receives(s, a) then [s.pool.queue[0]] else []) + Apply(s, a).pool.queue
  {
    if Receives(s, a) {
      assert s.pool.queue == [s.pool.queue[0]] + s.pool.queue[1..];
    }
  }

  lemma Chain(q: seq<nat>, sent: seq<nat>, got: seq<nat>, q1: seq<nat>, sent1: seq<nat>, got1: seq<nat>, q2: seq<nat>)
    requires q + sent == got + q1 && q1 + sent1 == got1 + q2
    ensures q + (sent + sent1) == (got + got1) + q2
  {
    assert q + (sent + sent1) == (q + sent) + sent1;
    assert (got + q1) + sent1 == got + (q1 + sent1);
    assert got + (got1 + q2) == (got + got1) + q2;
  }

  /** What was queued before and then sent is what was received and then still queued, in the same order. */
  lemma {:induction false} FirstInFirstOut(s: State, actions: seq<Action>)
    requires Ok(s) && Legal(s, actions)
    ensures s.pool.queue + Sent(s, actions) == Received(s, actions) + Exec(s, actions).pool.queue
    decreases |actions|
  {
    if actions != [] {
      var s1 := Apply(s, actions[0]);
      StepQueue(s, actions[0]);
      FirstInFirstOut(s1, actions[1..]);
      Chain(s.pool.queue, if Sends(s, actions[0]) then [actions[0].call] else [],
            if Receives(s, actions[0]) then [s.pool.queue[0]] else [], s1.pool.queue,
            Sent(s1, actions[1..]), Received(s1, actions[1..]), Exec(s1, actions[1..]).pool.queue);
    }
  }

  /** Tasks are received in the order in which they were sent. */
  lemma TasksInOrder(m: int, capacity: nat, failFast: bool, notify: bool, actions: seq<Action>)
    requires Legal(Init(m, capacity, failFast, notify), actions)
    ensures var s0 := Init(m, capacity, failFast, notify); Received(s0, actions) <= Sent(s0, actions)
  {
    var s0 := Init(m, capacity, failFast, notify);
    FirstInFirstOut(s0, actions);
    assert [] + Sent(s0, actions) == Sent(s0, actions);
  }

  // ------------------------------------------------------------ waiting

  /** addTask has not returned, or its task is in the channel. */
  predicate UnderWay(x: Call) {
    x.phase.Numbered? || x.phase.Passed? || x.phase.Counted? || x.phase.Queued?
  }

  lemma OneMore(calls: seq<Call>, c: nat)
    requires c < |calls| && UnderWay(calls[c]) && !calls[c].phase.Queued?
    ensures Count(IsQueued, calls) < Count(UnderWay, calls)
  {
    var x := calls[c].(phase := Queued);
    CountUpdate(IsQueued, calls, c, x);
    CountUpdate(UnderWay, calls, c, x);
    CountMonotone(IsQueued, UnderWay, calls[c := x]);
  }

  /** The channel of NewRunner has room for so many tasks, and at least one, and never holds more. */
  lemma {:induction false} Capacity(m: int, capacity: nat, failFast: bool, notify: bool, actions: seq<Action>)
    requires Legal(Init(m, capacity, failFast, notify), actions)
    ensures var s := Exec(Init(m, capacity, failFast, notify), actions);
      s.cfg == Config(if capacity >= 1 then capacity else 1, failFast, notify) && |s.pool.queue| <= s.cfg.capacity
  {
    QueueFits(Init(m, capacity, failFast, notify), actions);
  }

  lemma {:induction false} QueueFits(s: State, actions: seq<Action>)
    requires Ok(s) && Legal(s, actions) && |s.pool.queue| <= s.cfg.capacity
    ensures Exec(s, actions).cfg == s.cfg && |Exec(s, actions).pool.queue| <= s.cfg.capacity
    decreases |actions|
  {
    if actions != [] {
      QueueFits(Apply(s, actions[0]), actions[1..]);
    }
  }

  /** As long as no more calls are under way, or in the channel, than it has room for, no call of addTask
      waits. */
  lemma AddTaskDoesNotWait(s: State, c: nat)
    requires Reachable(s) && !s.gate.closed && Count(UnderWay, s.pool.calls) <= s.cfg.capacity
    requires c < |s.pool.calls| && UnderWay(s.pool.calls[c]) && !s.pool.calls[c].phase.Queued?
    ensures Enabled(s, Produce(c))
  {
    ReachableInv(s);
    QueueCount(s.pool);
    OneMore(s.pool.calls, c);
  }
}
