/** Runs in which a finish notification goes wrong: the one of Cancel is thrown away, the one of the timer comes
    too early. */
module RunnerLost {
  import opened Options
  import opened RunnerState
  import opened RunnerInvariant
  import opened RunnerSteps
  import opened Returns = RunnerReturns
  import opened RunnerTheorems
  import opened RunnerNotice

  /** One worker, one task in the buffer, and Run is waiting. */
  function Scene(words: Words, calls: seq<Call>, thread: Thread, queue: seq<nat>, timer: Timer): State {
    Init(1, 1, false, true).(
      words := words, pool := Pool(calls, [thread], queue), callers := Callers([], [], [], Waiting, timer))
  }

  function First(stage: Stage, runs: nat): Call {
    Call(0, false, Held(0, stage), runs, None, 0)
  }

  function Second(phase: Phase): Call {
    Call(1, false, phase, 0, None, 0)
  }

  /** The first task runs, and the timer has seen that. */
  function Busied(ids: nat, total: nat, more: seq<Call>, queue: seq<nat>): State {
    Scene(Words(ids, 1, 1, 1, total), [First(Running, 1)] + more, Busy(0, Running), queue, Off)
  }

  /** The second task is sent, and then a reset and a Cancel are under way. */
  function Resetting(gate: Gate, lock: Lock, reset: ResetPc, cancels: seq<CancelPc>): State {
    var s := Busied(2, 2, [Second(Queued)], [1]);
    s.(gate := gate, bell := s.bell.(lock := lock), callers := s.callers.(resets := [reset], cancels := cancels))
  }

  function Draining(bell: Bell, once: Once, reset: ResetPc, pc: CancelPc): State {
    var s := Busied(2, 2, [Second(Drained)], []);
    s.(gate := Gate(true, once, false), bell := bell, callers := s.callers.(resets := [reset], cancels := [pc]))
  }

  const Quiet := Gate(false, Unused, false)
  const Me := Doing(External(0))

  lemma TakenReachable()
    ensures Reachable(Scene(Words(1, 0, 1, 0, 1), [First(Got, 0)], Busy(0, Got), [], Armed))
  {
    RunningReachable(true);
    StepTo(Returns.Running(true, 1, [Idle], Waiting), Work(0, None),
           Scene(Words(1, 0, 1, 0, 1), [First(Got, 0)], Busy(0, Got), [], Armed));
  }

  lemma StartedReachable()
    ensures Reachable(Scene(Words(1, 1, 1, 1, 1), [First(Running, 1)], Busy(0, Running), [], Armed))
  {
    TakenReachable();
    var taken := Scene(Words(1, 0, 1, 0, 1), [First(Got, 0)], Busy(0, Got), [], Armed);
    var active := Scene(Words(1, 0, 1, 1, 1), [First(Activated, 0)], Busy(0, Activated), [], Armed);
    StepTo(taken, Work(0, None), active);
    StepTo(active, Work(0, None), Scene(Words(1, 1, 1, 1, 1), [First(Running, 1)], Busy(0, Running), [], Armed));
  }

  lemma SecondReachable()
    ensures Reachable(Busied(2, 1, [Second(Numbered)], []))
  {
    StartedReachable();
    StepTo(Scene(Words(1, 1, 1, 1, 1), [First(Running, 1)], Busy(0, Running), [], Armed), Tick, Busied(1, 1, [], []));
    StepTo(Busied(1, 1, [], []), AddTask(false), Busied(2, 1, [Second(Numbered)], []));
  }

  lemma CountedReachable()
    ensures Reachable(Busied(2, 2, [Second(Counted)], []))
  {
    SecondReachable();
    StepTo(Busied(2, 1, [Second(Numbered)], []), Produce(1), Busied(2, 1, [Second(Passed)], []));
    StepTo(Busied(2, 1, [Second(Passed)], []), Produce(1), Busied(2, 2, [Second(Counted)], []));
  }

  lemma QueuedReachable()
    ensures Reachable(Resetting(Quiet, Free, WaitLock, []))
  {
    CountedReachable();
    StepTo(Busied(2, 2, [Second(Counted)], []), Produce(1), Busied(2, 2, [Second(Queued)], [1]));
    StepTo(Busied(2, 2, [Second(Queued)], [1]), StartReset, Resetting(Quiet, Free, WaitLock, []));
  }

  lemma ResettingReachable()
    ensures Reachable(Resetting(Quiet, ByReset(0), HasLock, []))
  {
    QueuedReachable();
    StepTo(Resetting(Quiet, Free, WaitLock, []), ResetOn(0), Resetting(Quiet, ByReset(0), HasLock, []));
  }

  lemma ReplacingReachable()
    ensures Reachable(Resetting(Quiet, ByReset(0), Replace, []))
  {
    ResettingReachable();
    StepTo(Resetting(Quiet, ByReset(0), HasLock, []), ResetOn(0), Resetting(Quiet, ByReset(0), TestCancel, []));
    StepTo(Resetting(Quiet, ByReset(0), TestCancel, []), ResetOn(0), Resetting(Quiet, ByReset(0), Replace, []));
  }

  lemma FlaggedReachable()
    ensures Reachable(Resetting(Gate(true, Unused, false), ByReset(0), Replace, [Flagged(false)]))
  {
    ReplacingReachable();
    StepTo(Resetting(Quiet, ByReset(0), Replace, []), StartCancel(false), Resetting(Quiet, ByReset(0), Replace, [Enter(false)]));
    StepTo(Resetting(Quiet, ByReset(0), Replace, [Enter(false)]), CancelOn(0),
           Resetting(Gate(true, Unused, false), ByReset(0), Replace, [Flagged(false)]));
  }

  lemma TestingReachable()
    ensures Reachable(Resetting(Gate(true, Me, false), ByReset(0), Replace, [Test]))
  {
    FlaggedReachable();
    var flagged := Gate(true, Unused, false);
    StepTo(Resetting(flagged, ByReset(0), Replace, [Flagged(false)]), CancelOn(0), Resetting(flagged, ByReset(0), Replace, [AtOnce]));
    StepTo(Resetting(flagged, ByReset(0), Replace, [AtOnce]), CancelOn(0), Resetting(Gate(true, Me, false), ByReset(0), Replace, [Test]));
  }

  lemma DrainedReachable()
    ensures Reachable(Draining(Bell(false, [Chan(0, 0, false)], ByReset(0)), Me, Replace, Test))
  {
    TestingReachable();
    var doing := Gate(true, Me, false);
    StepTo(Resetting(doing, ByReset(0), Replace, [Test]), CancelOn(0), Resetting(doing, ByReset(0), Replace, [Receive]));
    StepTo(Resetting(doing, ByReset(0), Replace, [Receive]), CancelOn(0),
           Draining(Bell(false, [Chan(0, 0, false)], ByReset(0)), Me, Replace, Test));
  }

  /** Cancel has notified and returned, and the reset is about to replace the channel. */
  const Threatened := Draining(Bell(true, [Chan(1, 0, true)], ByReset(0)), Complete, Replace, Left)

  /** It has done so. */
  const Silenced := Draining(Bell(false, [Chan(1, 0, true), Chan(0, 0, false)], Free), Complete, ResetDone, Left)

  lemma ThreatenedReachable()
    ensures Reachable(Threatened)
  {
    DrainedReachable();
    var bell := Bell(false, [Chan(0, 0, false)], ByReset(0));
    StepTo(Draining(bell, Me, Replace, Test), CancelOn(0), Draining(bell, Me, Replace, Notify));
    StepTo(Draining(bell, Me, Replace, Notify), CancelOn(0), Threatened);
  }

  /** The exception of NoticeSurvivesIff comes up: Cancel has sent its notification and a reset is past its cancel
      test. Its next step throws the notification away for good. */
  lemma NoticeLost()
    ensures Reachable(Threatened) && Ok(Threatened)
    ensures Threatened.cfg.notify && Threatened.gate.cancel && Threatened.bell.closed && Replacing(Threatened)
    ensures Enabled(Threatened, ResetOn(0)) && Apply(Threatened, ResetOn(0)) == Silenced
    ensures Reachable(Silenced) && Lost(Silenced)
  {
    ThreatenedReachable();
    assert Threatened.callers.resets[0].Replace?;
    StepTo(Threatened, ResetOn(0), Silenced);
    assert Silenced.pool.calls[1].phase.Drained?;
  }

  // ------------------------------------------------------------ too early

  lemma LookedReachable()
    ensures Reachable(Scene(Words(1, 0, 1, 0, 1), [First(Got, 0)], Busy(0, Got), [], Firing))
  {
    TakenReachable();
    StepTo(Scene(Words(1, 0, 1, 0, 1), [First(Got, 0)], Busy(0, Got), [], Armed), Tick,
           Scene(Words(1, 0, 1, 0, 1), [First(Got, 0)], Busy(0, Got), [], Firing));
  }

  /** The timer has looked before the first task was started, and is about to notify while it runs. */
  const Hasty := Scene(Words(1, 1, 1, 1, 1), [First(Running, 1)], Busy(0, Running), [], Firing)

  lemma HastyReachable()
    ensures Reachable(Hasty)
  {
    LookedReachable();
    var looked := Scene(Words(1, 0, 1, 0, 1), [First(Got, 0)], Busy(0, Got), [], Firing);
    var active := Scene(Words(1, 0, 1, 1, 1), [First(Activated, 0)], Busy(0, Activated), [], Firing);
    StepTo(looked, Work(0, None), active);
    StepTo(active, Work(0, None), Hasty);
  }

  /** Its notification is unsound. */
  lemma TimerTooEarly()
    ensures Reachable(Hasty) && Ok(Hasty) && Hasty.callers.timer.Firing? && Apply(Hasty, Tick).bell.closed
    ensures Hasty.pool.threads[0] == Busy(0, Running) && !AllReturned(Hasty.pool.calls)
  {
    HastyReachable();
    assert !IsPast(Hasty.pool.calls[0]);
  }
}
