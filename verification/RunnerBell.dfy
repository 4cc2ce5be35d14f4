/** Who sends and who withdraws finish notifications, over whole runs. */
module RunnerBell {
  import opened Options
  import opened Counting
  import opened RunnerState
  import opened RunnerInvariant
  import opened RunnerSteps
  import opened RunnerTheorems
  import opened RunnerNotice

  // ------------------------------------------------------------ ResetFinishNotificationIfActive

  /** This step of reset `k` replaces the channel. */
  predicate ReplacesNow(s: State, a: Action, k: nat) {
    a == ResetOn(k) && k < |s.callers.resets| && s.callers.resets[k].Replace?
  }

  predicate Replaces(s: State, actions: seq<Action>, k: nat)
    requires Ok(s) && Legal(s, actions)
    decreases |actions|
  {
    actions != [] && (ReplacesNow(s, actions[0], k) || Replaces(Apply(s, actions[0]), actions[1..], k))
  }

  /** All the while something is counted in totalTasksInQueue and the runner is not cancelled. */
  predicate BusyThroughout(s: State, actions: seq<Action>)
    requires Ok(s) && Legal(s, actions)
    decreases |actions|
  {
    s.words.total != 0 && !s.gate.cancel && (actions == [] || BusyThroughout(Apply(s, actions[0]), actions[1..]))
  }

  /** All the while no thread is active and nothing is counted, or the runner is cancelled. */
  predicate IdleThroughout(s: State, actions: seq<Action>)
    requires Ok(s) && Legal(s, actions)
    decreases |actions|
  {
    && ((s.words.active == 0 && s.words.total == 0) || s.gate.cancel)
    && (actions == [] || IdleThroughout(Apply(s, actions[0]), actions[1..]))
  }

  /** A reset that returns while there is work has replaced the channel, be any thread active or not. */
  lemma {:induction false} ResetReplaces(s: State, actions: seq<Action>, k: nat)
    requires Ok(s) && Legal(s, actions) && BusyThroughout(s, actions)
    requires k < |s.callers.resets| && !s.callers.resets[k].ResetDone?
    ensures k < |Exec(s, actions).callers.resets|
    ensures Exec(s, actions).callers.resets[k].ResetDone? ==> Replaces(s, actions, k)
    decreases |actions|
  {
    if actions != [] {
      if !ReplacesNow(s, actions[0], k) {
        ResetReplaces(Apply(s, actions[0]), actions[1..], k);
      } else {
        ResetsStay(s, actions, k);
      }
    }
  }

  lemma {:induction false} ResetsStay(s: State, actions: seq<Action>, k: nat)
    requires Ok(s) && Legal(s, actions) && k < |s.callers.resets|
    ensures k < |Exec(s, actions).callers.resets|
    decreases |actions|
  {
    if actions != [] {
      ResetsStay(Apply(s, actions[0]), actions[1..], k);
    }
  }

  predicate WillKeep(s: State, k: nat) {
    k < |s.callers.resets| && !s.callers.resets[k].Replace? && (s.callers.resets[k].TestCancel? ==> s.gate.cancel)
  }

  /** And one that runs while there is none has not. */
  lemma {:induction false} ResetKeeps(s: State, actions: seq<Action>, k: nat)
    requires Ok(s) && Legal(s, actions) && IdleThroughout(s, actions) && WillKeep(s, k)
    ensures !Replaces(s, actions, k)
    decreases |actions|
  {
    if actions != [] {
      ResetKeeps(Apply(s, actions[0]), actions[1..], k);
    }
  }

  // ------------------------------------------------------------ the channels

  ghost predicate NoneReplaces(s: State, actions: seq<Action>)
    requires Ok(s) && Legal(s, actions)
  {
    forall k: nat :: !Replaces(s, actions, k)
  }

  /** Only a reset withdraws a notification, and makes channels. */
  lemma {:induction false} OnlyResetReopens(s: State, actions: seq<Action>)
    requires Ok(s) && Legal(s, actions) && NoneReplaces(s, actions)
    ensures |Exec(s, actions).bell.chans| == |s.bell.chans| && (s.bell.closed ==> Exec(s, actions).bell.closed)
    decreases |actions|
  {
    if actions != [] {
      var a, s1 := actions[0], Apply(s, actions[0]);
      assert a.ResetOn? ==> !Replaces(s, actions, a.id);
      forall k: nat
        ensures !Replaces(s1, actions[1..], k)
      {
        assert !Replaces(s, actions, k);
      }
      OneStepReopens(s, a);
      OnlyResetReopens(s1, actions[1..]);
    }
  }

  lemma OneStepReopens(s: State, a: Action)
    requires Ok(s) && Enabled(s, a) && (a.ResetOn? ==> !ReplacesNow(s, a, a.id))
    ensures |Apply(s, a).bell.chans| == |s.bell.chans| && (s.bell.closed ==> Apply(s, a).bell.closed)
  {}

  /** With notification off nothing is ever sent. */
  ghost predicate Silent(s: State) {
    && !s.cfg.notify && !s.bell.closed && s.callers.timer.Off?
    && (forall i :: 0 <= i < |s.bell.chans| ==> s.bell.chans[i] == Chan(0, 0, false))
    && (forall t :: 0 <= t < |s.pool.threads| && s.pool.threads[t].Busy? ==>
          !s.pool.threads[t].stage.Locked? && !s.pool.threads[t].stage.SawNoActive?)
  }

  lemma WorkSilent(s: State, t: nat, result: Option<Err>)
    requires Ok(s) && WorkerEnabled(s, t) && Silent(s)
    ensures Silent(WorkerStep(s, t, result))
  {}

  lemma {:induction false} StaysSilent(s: State, actions: seq<Action>)
    requires Ok(s) && Legal(s, actions) && Silent(s)
    ensures Silent(Exec(s, actions))
    decreases |actions|
  {
    if actions != [] {
      if actions[0].Work? {
        WorkSilent(s, actions[0].thread, actions[0].result);
      }
      StaysSilent(Apply(s, actions[0]), actions[1..]);
    }
  }

  lemma NotificationIsOptional(m: int, capacity: nat, failFast: bool, actions: seq<Action>)
    requires Legal(Init(m, capacity, failFast, false), actions)
    ensures var s := Exec(Init(m, capacity, failFast, false), actions);
      !s.bell.closed && forall i :: 0 <= i < |s.bell.chans| ==> s.bell.chans[i] == Chan(0, 0, false)
  {
    StaysSilent(Init(m, capacity, failFast, false), actions);
  }

  // ------------------------------------------------------------ the timer

  ghost predicate SomeStarted(calls: seq<Call>) {
    exists c :: 0 <= c < |calls| && HasRun(calls[c])
  }

  lemma StaysStarted(s: State, a: Action)
    requires Inv(s) && Ok(s) && Enabled(s, a) && SomeStarted(s.pool.calls)
    ensures SomeStarted(Apply(s, a).pool.calls)
  {
    var c :| 0 <= c < |s.pool.calls| && HasRun(s.pool.calls[c]);
    StaysRun(s, a, c);
  }

  lemma StaysRun(s: State, a: Action, c: nat)
    requires Inv(s) && Ok(s) && Enabled(s, a) && c < |s.pool.calls| && HasRun(s.pool.calls[c])
    ensures c < |Apply(s, a).pool.calls| && HasRun(Apply(s, a).pool.calls[c])
  {
    assert CallData(s.pool.calls[c], c);
  }

  /** When the timer looks it goes on to notify if and only if no task has been started. */
  lemma TimerLooks(s: State)
    requires Reachable(s) && Ok(s) && Small(s.pool) && s.callers.timer.Armed?
    ensures Apply(s, Tick).callers.timer == if SomeStarted(s.pool.calls) then Off else Firing
  {
    StartedLaw(s);
  }

  /** Once a task has been started, a timer that was not about to notify never does. */
  lemma {:induction false} TimerStaysQuiet(s: State, actions: seq<Action>)
    requires Reachable(s) && Ok(s) && Legal(s, actions) && Small(Exec(s, actions).pool)
    requires SomeStarted(s.pool.calls) && !s.callers.timer.Firing?
    ensures !Exec(s, actions).callers.timer.Firing?
    decreases |actions|
  {
    if actions != [] {
      SmallBefore(s, actions);
      QuietStep(s, actions[0]);
      StepReachable(s, actions[0]);
      TimerStaysQuiet(Apply(s, actions[0]), actions[1..]);
    }
  }

  lemma QuietStep(s: State, a: Action)
    requires Reachable(s) && Ok(s) && Small(s.pool) && Enabled(s, a)
    requires SomeStarted(s.pool.calls) && !s.callers.timer.Firing?
    ensures SomeStarted(Apply(s, a).pool.calls) && !Apply(s, a).callers.timer.Firing?
  {
    ReachableInv(s);
    StartedLaw(s);
    StaysStarted(s, a);
  }
}
