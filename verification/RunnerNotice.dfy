/** What becomes of the notification that Cancel sends. */
module RunnerNotice {
  import opened Options
  import opened Counting
  import opened RunnerState
  import opened RunnerInvariant
  import opened RunnerSteps
  import opened RunnerTheorems

  /** A reset is past its cancel test and about to replace the channel. */
  predicate Replacing(s: State) {
    exists k :: 0 <= k < |s.callers.resets| && s.callers.resets[k].Replace?
  }

  /** Cancelled, notified, and no reset about to throw the notification away: this stays. */
  lemma NoticeStays(s: State, a: Action)
    requires Ok(s) && Enabled(s, a) && s.gate.cancel && s.bell.closed && !Replacing(s)
    ensures var s' := Apply(s, a); s'.gate.cancel && s'.bell.closed && !Replacing(s')
  {
    if a.ResetOn? {
      var next := ResetNext(s.words, s.gate.cancel, s.callers.resets[a.id]);
      assert !s.callers.resets[a.id].Replace? && !next.Replace?;
    } else if a.Work? {
      WorkKeepsNotice(s, a.thread, a.result);
    }
  }

  lemma WorkKeepsNotice(s: State, t: nat, result: Option<Err>)
    requires Ok(s) && WorkerEnabled(s, t) && s.gate.cancel && s.bell.closed
    ensures var s' := WorkerStep(s, t, result); s'.gate.cancel && s'.bell.closed && s'.callers == s.callers
  {}

  lemma {:induction false} NoticeStaysFrom(s: State, actions: seq<Action>)
    requires Ok(s) && Legal(s, actions) && s.gate.cancel && s.bell.closed && !Replacing(s)
    ensures Exec(s, actions).bell.closed
    decreases |actions|
  {
    if actions != [] {
      NoticeStays(s, actions[0]);
      NoticeStaysFrom(Apply(s, actions[0]), actions[1..]);
    }
  }

  /** Whatever happens from here, the notification is out. */
  ghost predicate OutForEver(s: State)
    requires Ok(s)
  {
    forall actions :: Legal(s, actions) ==> Exec(s, actions).bell.closed
  }

  lemma OneRunDecides(s: State, actions: seq<Action>)
    requires Ok(s) && Legal(s, actions) && !Exec(s, actions).bell.closed
    ensures !OutForEver(s)
  {}

  lemma OneStep(s: State, a: Action)
    requires Ok(s) && Enabled(s, a)
    ensures Legal(s, [a]) && Exec(s, [a]) == Apply(s, a)
  {
    assert [a][1..] == [];
  }

  /** Once the runner is cancelled and the notification is out, it stays out for ever if and only if no
      reset has already passed its cancel test. */
  lemma NoticeSurvivesIff(s: State)
    requires Ok(s) && s.gate.cancel && s.bell.closed
    ensures OutForEver(s) <==> !Replacing(s)
  {
    if Replacing(s) {
      var k :| 0 <= k < |s.callers.resets| && s.callers.resets[k].Replace?;
      OneStep(s, ResetOn(k));
      OneRunDecides(s, [ResetOn(k)]);
    } else {
      forall actions | Legal(s, actions)
        ensures Exec(s, actions).bell.closed
      {
        NoticeStaysFrom(s, actions);
      }
    }
  }

  /** Notification is on and the body of cancelOnce is over, but the current channel is open again, something
      was drained, and the timer of Run is past. */
  ghost predicate Lost(s: State) {
    && s.cfg.notify && s.gate.once.Complete? && !s.bell.closed && s.callers.timer.Off? && !s.callers.run.NotCalled?
    && exists c :: 0 <= c < |s.pool.calls| && s.pool.calls[c].phase.Drained?
  }

  /** A drained task keeps totalTasksInQueue above zero, so no worker ever notifies. */
  lemma DrainedCounts(s: State)
    requires Inv(s) && Small(s.pool) && exists c :: 0 <= c < |s.pool.calls| && s.pool.calls[c].phase.Drained?
    ensures s.words.total > 0
  {
    CountZero(InTotal, s.pool.calls);
    var c :| 0 <= c < |s.pool.calls| && s.pool.calls[c].phase.Drained?;
    assert InTotal(s.pool.calls[c]);
  }

  /** A drained task stays drained. */
  lemma DrainedStays(s: State, a: Action, c: nat)
    requires Inv(s) && Ok(s) && Enabled(s, a) && c < |s.pool.calls| && s.pool.calls[c].phase.Drained?
    ensures c < |Apply(s, a).pool.calls| && Apply(s, a).pool.calls[c].phase.Drained?
    ensures Small(Apply(s, a).pool) ==> Small(s.pool)
  {
    if a.Work? && s.pool.threads[a.thread].Busy? {
      assert s.pool.calls[s.pool.threads[a.thread].call].phase.Held?;
    }
  }

  lemma LostBell(s: State, a: Action)
    requires Inv(s) && Ok(s) && Enabled(s, a) && Lost(s) && Small(s.pool)
    ensures var s' := Apply(s, a);
      s'.cfg.notify && s'.gate.once.Complete? && !s'.bell.closed && s'.callers.timer.Off? && !s'.callers.run.NotCalled?
  {
    DrainedCounts(s);
  }

  lemma {:induction false} LostFrom(s: State, actions: seq<Action>)
    requires Inv(s) && Ok(s) && Legal(s, actions) && Lost(s) && Small(Exec(s, actions).pool)
    ensures !Exec(s, actions).bell.closed
    decreases |actions|
  {
    if actions != [] {
      var c :| 0 <= c < |s.pool.calls| && s.pool.calls[c].phase.Drained?;
      DrainedStays(s, actions[0], c);
      SmallBefore(Apply(s, actions[0]), actions[1..]);
      LostBell(s, actions[0]);
      StepInv(s, actions[0]);
      LostFrom(Apply(s, actions[0]), actions[1..]);
    }
  }

  lemma {:induction false} SmallBefore(s: State, actions: seq<Action>)
    requires Ok(s) && Legal(s, actions) && Small(Exec(s, actions).pool)
    ensures Small(s.pool)
    decreases |actions|
  {
    if actions != [] {
      SmallBefore(Apply(s, actions[0]), actions[1..]);
      PoolGrows(s, actions[0]);
    }
  }

  lemma PoolGrows(s: State, a: Action)
    requires Ok(s) && Enabled(s, a)
    ensures |s.pool.calls| <= |Apply(s, a).pool.calls| && |s.pool.threads| <= |Apply(s, a).pool.threads|
  {}

  /** And once Cancel's notification has been thrown away, in a runner that stays small nobody ever sends
      another. */
  lemma LostForGood(s: State, actions: seq<Action>)
    requires Reachable(s) && Ok(s) && Legal(s, actions) && Lost(s) && Small(Exec(s, actions).pool)
    ensures !Exec(s, actions).bell.closed
  {
    ReachableInv(s);
    LostFrom(s, actions);
  }
}
