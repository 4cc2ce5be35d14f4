/** What the steps of the workers and of Cancel mean for the counters, the queue and the errors, in
    reachable states. */
module RunnerEffects {
  import opened Options
  import opened Counting
  import opened RunnerState
  import opened RunnerInvariant
  import opened RunnerSteps
  import opened RunnerTheorems

  /** The head of the queue was never run, and is in the queue once. */
  lemma HeadIsFresh(s: State)
    requires Reachable(s) && s.pool.queue != []
    ensures s.pool.queue[0] !in s.pool.queue[1..]
    ensures s.pool.queue[0] < |s.pool.calls| && s.pool.calls[s.pool.queue[0]].runs == 0
  {
    ReachableInv(s);
    var c := s.pool.queue[0];
    assert CallData(s.pool.calls[c], c);
  }

  /** The words of a worker's step do not wrap around in a small runner. */
  lemma BusyCounters(s: State, t: nat, c: nat, stage: Stage, result: Option<Err>)
    requires Reachable(s) && Ok(s) && WorkerEnabled(s, t) && s.pool.threads[t] == Busy(c, stage)
    ensures Small(s.pool) ==>
      var w := BusyStep(s, t, c, stage, result).words;
      && w.active == s.words.active + (if stage.Got? then 1 else if stage.Returned? then -1 else 0)
      && w.started == s.words.started + (if stage.Activated? then 1 else 0)
      && w.total == s.words.total - (if stage.Deactivated? then 1 else 0)
      && w.active <= w.total
  {
    ReachableInv(s);
    if Small(s.pool) {
      CountersMove(s, t, c, stage, result);
    }
  }

  lemma CountersMove(s: State, t: nat, c: nat, stage: Stage, result: Option<Err>)
    requires Ok(s) && Tallies(s.words, s.pool) && Small(s.pool) && BusyAt(s, t, c, stage)
    ensures var w := BusyStep(s, t, c, stage, result).words;
      && w.active == s.words.active + (if stage.Got? then 1 else if stage.Returned? then -1 else 0)
      && w.started == s.words.started + (if stage.Activated? then 1 else 0)
      && w.total == s.words.total - (if stage.Deactivated? then 1 else 0)
      && w.active <= w.total
  {
    var calls := s.pool.calls;
    var x := BusyCall(s.cfg, s.words.active, t, calls[c], stage, result);
    BusyTotal(s.cfg, s.words, calls, t, c, stage, result);
    BusyActive(s.cfg, s.words, calls, t, c, stage, result);
    BusyStarted(s.cfg, s.words, calls, t, c, stage, result);
    Recount(calls, c, x);
    ActiveInTotal(calls[c := x]);
  }

  /** totalTasksInQueue goes up without wrapping around. */
  lemma CountsProduced(s: State, c: nat)
    requires Reachable(s) && Ok(s) && ProducerEnabled(s, c)
    ensures s.pool.calls[c].phase.Passed? && Small(s.pool) ==> ProducerStep(s, c).words.total == s.words.total + 1
  {
    ReachableInv(s);
    if s.pool.calls[c].phase.Passed? && Small(s.pool) {
      PassedCounts(s.words, s.pool, c);
    }
  }

  lemma PassedCounts(w: Words, p: Pool, c: nat)
    requires Tallies(w, p) && Small(p) && c < |p.calls| && p.calls[c].phase.Passed?
    ensures Inc(w.total) == w.total + 1
  {
    var x := p.calls[c].(phase := Counted);
    CountUpdate(InTotal, p.calls, c, x);
    CountBound(InTotal, p.calls[c := x]);
  }

  /** A task function is started once, and what it returns is kept. */
  lemma BusyHistory(s: State, t: nat, c: nat, stage: Stage, result: Option<Err>)
    requires Reachable(s) && Ok(s) && WorkerEnabled(s, t) && s.pool.threads[t] == Busy(c, stage)
    ensures var x := BusyStep(s, t, c, stage, result).pool.calls[c];
      && x.runs == (if stage.Got? then 0 else 1)
      && (stage.Running? ==> x.result == result)
      && (x.phase.Settled? ==> x.handled == if x.hasHandler && x.result.Some? then 1 else 0)
  {
    ReachableInv(s);
    assert CallData(s.pool.calls[c], c);
  }

  /** Only one holds the notifier lock. */
  lemma LockIsExclusive(s: State, t: nat)
    requires Reachable(s) && s.bell.lock == ByWorker(t)
    ensures forall u :: 0 <= u < |s.pool.threads| && u != t ==> !HoldsLock(s.pool.threads[u])
  {
    ReachableInv(s);
  }

  /** A worker that is past its task is still counted as open, and at least one thread is allowed. */
  lemma OpenAfterTask(s: State, t: nat)
    requires Reachable(s) && t < |s.pool.threads| && s.pool.threads[t].Shrinking?
    ensures s.maxParallel >= 1 && (Small(s.pool) ==> 1 <= s.words.open < WORD)
  {
    ReachableInv(s);
    if Small(s.pool) {
      OpenThreadsLaw(s);
      CountBound(IsOpen, s.pool.threads);
    }
  }

  /** With totalTasksInQueue at zero no thread is active. */
  lemma IdleWhenDone(s: State)
    requires Reachable(s) && s.words.total == 0
    ensures Small(s.pool) ==> s.words.active == 0
  {
    if Small(s.pool) {
      CounterLaw(s);
    }
  }
}
