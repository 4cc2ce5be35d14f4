/** What the task runner promises, over every interleaving of producers, workers, Cancel,
    Done, ResetFinishNotificationIfActive, SetMaxParallel, Run and its timer. */
module RunnerTheorems {
  import opened Counting
  import opened Options
  import opened RunnerState
  import opened RunnerInvariant
  import opened RunnerSteps

  // ------------------------------------------------------------ tasks are neither lost nor run twice

  /** addTask returned, or will return, the task's number. */
  predicate Accepted(x: Call) { !x.phase.Numbered? && !x.phase.Rejected? }

  /** At any time an accepted call is in exactly one place: its send is pending, it is in the
      queue (once), one worker holds it, it has been executed, or Cancel drained it. Its
      function has been started at most once, and never if it was drained. */
  lemma TaskConservation(s: State, c: nat)
    requires Reachable(s) && c < |s.pool.calls|
    ensures s.pool.calls[c].phase.Queued? <==> c in s.pool.queue
    ensures forall i, j :: 0 <= i < j < |s.pool.queue| ==> s.pool.queue[i] != s.pool.queue[j]
    ensures s.pool.calls[c].phase.Held? <==> 
      exists t: nat :: t < |s.pool.threads| && s.pool.threads[t].Busy? && s.pool.threads[t].call == c
    ensures forall t: nat, u: nat ::
      (t < u < |s.pool.threads| && s.pool.threads[t].Busy? && s.pool.threads[u].Busy?) ==>
        s.pool.threads[t].call != s.pool.threads[u].call
    ensures s.pool.calls[c].runs <= 1
    ensures s.pool.calls[c].phase.Drained? ==> s.pool.calls[c].runs == 0 && s.gate.cancel
    ensures s.pool.calls[c].phase.Settled? ==> s.pool.calls[c].runs == 1
  {
    ReachableInv(s);
    var x := s.pool.calls[c];
    assert CallData(x, c);
    if x.phase.Held? {
      assert s.pool.threads[x.phase.thread].call == c;
    }
  }

  /** Once Run has started its threads and all threads have exited, every accepted task has run exactly
      once, or was drained by Cancel without having run, or is left behind by a fail-fast runner that
      cancelled itself. Without a cancellation every call of addTask that got past its first line was
      accepted and its task ran exactly once. Threads may have been added and removed by SetMaxParallel
      at any time. */
  lemma EveryTaskRunsExactlyOnce(s: State, c: nat)
    requires Reachable(s) && Small(s.pool) && AllExited(s.pool.threads)
    requires s.callers.run.Waiting? || s.callers.run.Finished?
    requires c < |s.pool.calls| && !s.pool.calls[c].phase.Numbered?
    ensures Accepted(s.pool.calls[c]) ==>
      || (s.pool.calls[c].phase.Settled? && s.pool.calls[c].runs == 1)
      || (s.pool.calls[c].phase.Drained? && s.pool.calls[c].runs == 0 && s.gate.cancel)
      || (s.cfg.failFast && s.pool.calls[c].runs == 0 && s.gate.cancel)
    ensures !s.gate.cancel ==> Accepted(s.pool.calls[c]) && s.pool.calls[c].runs == 1
  {
    ReachableInv(s);
    assert CallData(s.pool.calls[c], c);
    // Some thread is still counted as open, so it did not leave through the shrink exit.
    CountZero(IsOpen, s.pool.threads);
    assert s.pool.threads[0].Exited?;
    var t :| 0 <= t < |s.pool.threads| && IsOpen(s.pool.threads[t]);
    match s.pool.threads[t].why {
      case ByClose => assert s.gate.closed && s.pool.queue == [];
      case ByFailFast => assert s.gate.cancel && s.cfg.failFast;
      case ByShrink =>
    }
  }

  // ------------------------------------------------------------ the counters

  predicate IsPending(x: Call) { x.phase.Counted? }
  predicate IsQueued(x: Call) { x.phase.Queued? }
  predicate IsDrained(x: Call) { x.phase.Drained? }
  predicate IsTaken(x: Call) { x.phase.Held? && InTotal(x) }

  /** The worker has taken a task and not yet decremented totalTasksInQueue. */
  predicate Carries(pc: Thread) {
    match pc
    case Busy(_, st) => st.Got? || st.Activated? || st.Running? || st.Returned? || st.Deactivated?
    case _ => false
  }

  lemma {:induction false} TotalSplits(calls: seq<Call>)
    ensures Count(InTotal, calls) ==
            Count(IsPending, calls) + Count(IsQueued, calls) + Count(IsTaken, calls) + Count(IsDrained, calls)
  {
    if calls != [] {
      TotalSplits(calls[..|calls| - 1]);
    }
  }

  lemma QueueCount(p: Pool)
    requires Links(p)
    ensures Count(IsQueued, p.calls) == |p.queue|
  {
    CountIsSize(IsQueued, p.calls);
    DistinctSize(p.queue);
    assert Positions(IsQueued, p.calls) == Elements(p.queue);
  }

  /** The calls carried by the first `n` workers. */
  ghost function TakenBy(p: Pool, n: nat): set<int> {
    set c | 0 <= c < |p.calls| && IsTaken(p.calls[c]) && p.calls[c].phase.thread < n
  }

  lemma TakenStep(p: Pool, n: nat)
    requires Links(p) && 0 < n <= |p.threads|
    ensures Carries(p.threads[n - 1]) ==>
      p.threads[n - 1].call !in TakenBy(p, n - 1) && TakenBy(p, n) == TakenBy(p, n - 1) + {p.threads[n - 1].call}
    ensures !Carries(p.threads[n - 1]) ==> TakenBy(p, n) == TakenBy(p, n - 1)
  {}

  lemma {:induction false} CarryPrefix(p: Pool, n: nat)
    requires Links(p) && n <= |p.threads|
    ensures Count(Carries, p.threads[..n]) == |TakenBy(p, n)|
  {
    if n == 0 {
      assert TakenBy(p, 0) == {};
    } else {
      CarryPrefix(p, n - 1);
      TakenStep(p, n);
      assert p.threads[..n] == p.threads[..n - 1] + [p.threads[n - 1]];
      CountAppend(Carries, p.threads[..n - 1], p.threads[n - 1]);
    }
  }

  lemma CarryCount(p: Pool)
    requires Links(p)
    ensures Count(IsTaken, p.calls) == Count(Carries, p.threads)
  {
    CountIsSize(IsTaken, p.calls);
    CarryPrefix(p, |p.threads|);
    assert p.threads[..|p.threads|] == p.threads;
    assert TakenBy(p, |p.threads|) == Positions(IsTaken, p.calls);
  }

  /** totalTasksInQueue is pending sends, plus queued, plus taken and not yet decremented, plus
      drained; activeThreads is never more; and neither word is decremented at zero. */
  lemma CounterLaw(s: State)
    requires Reachable(s) && Small(s.pool)
    ensures s.words.total ==
      Count(IsPending, s.pool.calls) + |s.pool.queue| + Count(Carries, s.pool.threads) + Count(IsDrained, s.pool.calls)
    ensures s.words.active <= s.words.total < WORD
    ensures forall t: nat :: t < |s.pool.threads| && s.pool.threads[t].Busy? ==>
      && (s.pool.threads[t].stage.Returned? ==> s.words.active > 0)
      && (s.pool.threads[t].stage.Deactivated? ==> s.words.total > 0)
  {
    ReachableInv(s);
    TotalSplits(s.pool.calls);
    QueueCount(s.pool);
    CarryCount(s.pool);
    ActiveInTotal(s.pool.calls);
    CountBound(InTotal, s.pool.calls);
    CountZero(IsActive, s.pool.calls);
    CountZero(InTotal, s.pool.calls);
  }

  /** openThreads is the number of registered threads that have not left through the shrink exit,
      so those that left through the closed channel or by fail-fast stay counted; the shrink exit
      never takes the last counted thread. */
  lemma OpenThreadsLaw(s: State)
    requires Reachable(s) && Small(s.pool)
    ensures s.words.open == Count(IsOpen, s.pool.threads)
    ensures s.words.open == 0 <==> forall t :: 0 <= t < |s.pool.threads| ==> s.pool.threads[t].Spawned?
  {
    ReachableInv(s);
    CountZero(IsOpen, s.pool.threads);
  }

  predicate HasRun(x: Call) { x.runs == 1 }

  /** `started` counts the tasks whose function has been started, so IsStarted() is true exactly
      when there is one. */
  lemma StartedLaw(s: State)
    requires Reachable(s) && Small(s.pool)
    ensures s.words.started == Count(HasRun, s.pool.calls)
    ensures s.words.started > 0 <==> exists c :: 0 <= c < |s.pool.calls| && HasRun(s.pool.calls[c])
  {
    ReachableInv(s);
    assert forall c :: 0 <= c < |s.pool.calls| ==> CallData(s.pool.calls[c], c);
    CountMonotone(WasStarted, HasRun, s.pool.calls);
    CountMonotone(HasRun, WasStarted, s.pool.calls);
    CountZero(HasRun, s.pool.calls);
  }

  // ------------------------------------------------------------ the finish notification

  predicate Checks(pc: Thread) {
    pc.Busy? && (pc.stage.Decremented? || pc.stage.Locked? || pc.stage.SawNoActive?)
  }

  /** A task is completed once its worker has decremented totalTasksInQueue. */
  ghost predicate SomeCompleted(calls: seq<Call>) {
    exists c :: 0 <= c < |calls| && IsPast(calls[c])
  }

  /** When some task is completed and totalTasksInQueue is zero, the current channel already carries
      the notification, or a worker is between its decrement and the end of its locked check.
      This holds across replacements of the channel. */
  lemma NoLostNotification(s: State)
    requires Reachable(s) && Small(s.pool) && s.cfg.notify
    requires SomeCompleted(s.pool.calls) && s.words.total == 0
    ensures
      || (s.bell.closed && s.bell.chans[|s.bell.chans| - 1].closed && s.bell.chans[|s.bell.chans| - 1].sent == 1)
      || exists t: nat :: t < |s.pool.threads| && Checks(s.pool.threads[t])
  {
    if s.bell.closed {
      ChannelDiscipline(s);
    } else {
      ReachableInv(s);
      CountZero(IsPast, s.pool.calls);
      WindowHasWorker(s.pool);
    }
  }

  lemma WindowHasWorker(p: Pool)
    requires Links(p) && Count(InWindow, p.calls) > 0
    ensures exists t: nat :: t < |p.threads| && Checks(p.threads[t])
  {
    CountZero(InWindow, p.calls);
    var c :| 0 <= c < |p.calls| && InWindow(p.calls[c]);
    assert Checks(p.threads[p.calls[c].phase.thread]);
  }

  /** Every call that has been counted is a task whose function was started once and has returned;
      nothing is pending, queued, running or drained. */
  ghost predicate AllReturned(calls: seq<Call>) {
    forall c :: 0 <= c < |calls| ==>
      || calls[c].phase.Numbered? || calls[c].phase.Passed? || calls[c].phase.Rejected?
      || (IsPast(calls[c]) && calls[c].runs == 1)
  }

  lemma AllReturnedIff(s: State)
    requires Reachable(s) && Small(s.pool)
    ensures AllReturned(s.pool.calls) <==> s.words.total == 0
  {
    ReachableInv(s);
    CountZero(InTotal, s.pool.calls);
    assert forall c :: 0 <= c < |s.pool.calls| ==> CallData(s.pool.calls[c], c);
  }

  /** The timer of Run looks only at `started`, and only once: when it then notifies, this is sound if and
      only if totalTasksInQueue is zero by then. */
  lemma TimerSoundIff(s: State)
    requires Reachable(s) && Small(s.pool) && Ok(s) && s.callers.timer.Firing?
    ensures Apply(s, Tick).bell.closed
    ensures AllReturned(s.pool.calls) <==> s.words.total == 0
  {
    AllReturnedIff(s);
  }

  /** When a worker notifies, all that has been counted has run and returned. */
  lemma NotificationSound(s: State, t: nat, result: Option<Err>)
    requires Reachable(s) && Small(s.pool)
    requires WorkerEnabled(s, t) && s.pool.threads[t].Busy? && s.pool.threads[t].stage.SawNoActive?
    requires s.words.total == 0
    ensures WorkerStep(s, t, result).bell.closed && AllReturned(s.pool.calls)
  {
    AllReturnedIff(s);
  }

  /** Every channel carries at most one value, is closed exactly when it carries it, and while the
      flag says open the current channel is empty and open: a send never blocks nor panics. */
  lemma ChannelDiscipline(s: State)
    requires Reachable(s)
    ensures forall i :: 0 <= i < |s.bell.chans| ==>
      s.bell.chans[i].sent <= 1 && (s.bell.chans[i].sent == 1 <==> s.bell.chans[i].closed)
    ensures var current := s.bell.chans[|s.bell.chans| - 1];
      s.bell.closed == current.closed && (!s.bell.closed ==> current.sent - current.received == 0)
  {
    ReachableInv(s);
  }

  // ------------------------------------------------------------ Errors()

  /** A call that no worker holds any more, or not yet: it has run if and only if it is settled. */
  predicate AtRest(x: Call, c: nat) {
    && x.num == c % WORD
    && x.runs == One(x.phase.Settled?)
    && (x.result.Some? ==> x.phase.Settled?)
    && x.handled == if x.hasHandler && x.runs == 1 && x.result.Some? then 1 else 0
  }

  lemma ComesToRest(s: State, c: nat)
    requires Inv(s) && AllExited(s.pool.threads) && c < |s.pool.calls|
    ensures AtRest(s.pool.calls[c], c)
  {
    assert CallData(s.pool.calls[c], c);
    assert !s.pool.calls[c].phase.Held?;
  }

  lemma ErrorsAtRest(calls: seq<Call>, errors: map<nat, Err>)
    requires Errors(calls, errors) && |calls| < WORD
    requires forall c :: 0 <= c < |calls| ==> AtRest(calls[c], c)
    ensures forall k: nat :: k in errors <==> k < |calls| && calls[k].runs == 1 && calls[k].result.Some?
    ensures forall k: nat :: k in errors ==> calls[k].num == k && calls[k].result == Some(errors[k])
  {}

  /** When all threads have exited, Errors() maps exactly the numbers of the executed tasks that
      returned an error to that error, and each error handler supplied was called exactly once
      for its own task's error. Rejected calls have used up numbers as well. */
  lemma ErrorsExact(s: State)
    requires Reachable(s) && Small(s.pool) && AllExited(s.pool.threads)
    ensures forall k: nat :: k in s.errors <==>
      k < |s.pool.calls| && s.pool.calls[k].runs == 1 && s.pool.calls[k].result.Some?
    ensures forall k: nat :: k in s.errors ==>
      s.pool.calls[k].num == k && s.pool.calls[k].result == Some(s.errors[k])
    ensures forall c :: 0 <= c < |s.pool.calls| ==>
      s.pool.calls[c].handled ==
        if s.pool.calls[c].hasHandler && s.pool.calls[c].runs == 1 && s.pool.calls[c].result.Some? then 1 else 0
  {
    ReachableInv(s);
    forall c | 0 <= c < |s.pool.calls|
      ensures AtRest(s.pool.calls[c], c)
    {
      ComesToRest(s, c);
    }
    ErrorsAtRest(s.pool.calls, s.errors);
  }
}
