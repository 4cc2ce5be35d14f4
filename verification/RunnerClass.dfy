/** The task runner as the source keeps it: one object whose fields its goroutines update in place.
    Each method is one atomic step of one goroutine; it is called when that goroutine can take the
    step, and does to the fields what the transition system does to the state. So Valid() is kept,
    and what is proved about reachable states holds of the object. */
module RunnerClass {
  import opened Options
  import opened RunnerEffects
  import opened RunnerState
  import opened RunnerInvariant
  import opened RunnerSteps
  import opened RunnerTheorems

  class Runner {
    var tasks: seq<nat>  // buffer of the task channel, as indexes into calls
    const capacity: nat
    var tasksClosed: bool
    var taskId: nat
    var cancel: bool
    var cancelOnce: Once
    var maxParallel: int
    const failFast: bool
    var started: nat
    var openThreads: nat
    var activeThreads: nat
    var totalTasksInQueue: nat
    var finishedNotifier: seq<Chan>  // every channel so far, the current one last
    var finishedNotifierChannelClosed: bool
    var finishedNotifierLock: Lock
    const finishedNotificationEnabled: bool
    var errors: map<nat, Err>
    // The goroutines and the calls of addTask so far.
    var calls: seq<Call>
    var threads: seq<Thread>
    var callers: Callers

    ghost function View(): State
      reads this
    {
      State(Config(capacity, failFast, finishedNotificationEnabled),
            Words(taskId, started, openThreads, activeThreads, totalTasksInQueue), maxParallel,
            Gate(cancel, cancelOnce, tasksClosed),
            Bell(finishedNotifierChannelClosed, finishedNotifier, finishedNotifierLock),
            Pool(calls, threads, tasks), errors, callers)
    }

    ghost predicate Valid()
      reads this
    {
      Ok(View()) && Reachable(View())
    }

    /** NewRunner, with SetFinishedNotification called at once. */
    constructor (maxParallel: int, capacity: nat, failFast: bool, notify: bool)
      ensures Valid() && View() == Init(maxParallel, capacity, failFast, notify)
      ensures this.maxParallel == (if maxParallel >= 1 then maxParallel else 1) && this.failFast == failFast
      ensures this.capacity == (if capacity >= 1 then capacity else 1) && finishedNotificationEnabled == notify
    {
      var consumers := maxParallel;
      if consumers < 1 {
        consumers := 1;
      }
      this.maxParallel := consumers;
      this.capacity := if capacity < 1 then 1 else capacity;
      this.failFast := failFast;
      finishedNotificationEnabled := notify;
      taskId, started, openThreads, activeThreads, totalTasksInQueue := 0, 0, 0, 0, 0;
      cancel, cancelOnce, tasks, tasksClosed := false, Unused, [], false;
      finishedNotifier, finishedNotifierChannelClosed, finishedNotifierLock := [Chan(0, 0, false)], false, Free;
      errors := map[];
      calls, threads, callers := [], [], Callers([], [], [], NotCalled, Off);
      new;
      StartReachable(maxParallel, capacity, failFast, notify);
    }

    // ---------------------------------------------------------- addTask and Done

    method AddTask(hasHandler: bool) returns (c: nat)
      requires Valid()
      modifies this
      ensures Valid() && View() == Apply(old(View()), Action.AddTask(hasHandler))
      ensures c == |old(calls)| && calls[c].phase.Numbered? && calls[c].num == old(taskId)
    {
      ghost var after := Apply(View(), Action.AddTask(hasHandler));
      StepReachable(View(), Action.AddTask(hasHandler));
      c := |calls|;
      calls := calls + [Call(taskId, hasHandler, Numbered, 0, None, 0)];
      taskId := Inc(taskId);
      assert View() == after;
    }

    /** The three steps of addTask after it has taken its number. */
    method Produce(c: nat)
      requires Valid() && ProducerEnabled(View(), c)
      modifies this
      ensures Valid() && View() == Apply(old(View()), Action.Produce(c))
      ensures old(calls[c].phase).Numbered? ==> (calls[c].phase.Rejected? <==> cancel) && (calls[c].phase.Passed? <==> !cancel)
      ensures old(calls[c].phase).Passed? ==>
        calls[c].phase.Counted? && (Small(View().pool) ==> totalTasksInQueue == old(totalTasksInQueue) + 1)
      ensures old(calls[c].phase).Counted? ==>
        calls[c].phase.Queued? && tasks == old(tasks) + [c] && |tasks| <= capacity && !tasksClosed
    {
      ghost var after := Apply(View(), Action.Produce(c));
      StepReachable(View(), Action.Produce(c));
      CountsProduced(View(), c);
      match calls[c].phase {
        case Numbered =>
          calls := calls[c := calls[c].(phase := if cancel then Rejected else Passed)];
        case Passed =>
          totalTasksInQueue := Inc(totalTasksInQueue);
          calls := calls[c := calls[c].(phase := Counted)];
        case Counted =>
          tasks := tasks + [c];
          calls := calls[c := calls[c].(phase := Queued)];
      }
      assert View() == after;
    }

    method Done()
      requires Valid() && MayClose(View())
      modifies this
      ensures Valid() && View() == Apply(old(View()), Action.Done)
    {
      ghost var after := Apply(View(), Action.Done);
      StepReachable(View(), Action.Done);
      tasksClosed := true;
      assert View() == after;
    }

    // ---------------------------------------------------------- the finish notification

    /** The send never blocks and never meets a closed channel. */
    method NotifyFinished()
      requires Ok(View()) && Channels(View().bell)
      modifies this`finishedNotifier, this`finishedNotifierChannelClosed
      ensures View() == old(View()).(bell := Ring(old(View().bell)))
      ensures finishedNotifierChannelClosed && finishedNotifier[|finishedNotifier| - 1].closed
    {
      if !finishedNotifierChannelClosed {
        var k := |finishedNotifier| - 1;
        var current := finishedNotifier[k];
        assert current.sent - current.received < 1 && !current.closed;
        finishedNotifier := finishedNotifier[k := Chan(current.sent + 1, current.received, true)];
        finishedNotifierChannelClosed := true;
      }
    }

    /** A receive from the i-th notification channel. */
    method Listen(i: nat)
      requires Valid() && Enabled(View(), Action.Listen(i))
      modifies this
      ensures Valid() && View() == Apply(old(View()), Action.Listen(i))
    {
      ghost var after := Apply(View(), Action.Listen(i));
      StepReachable(View(), Action.Listen(i));
      finishedNotifier := finishedNotifier[i := finishedNotifier[i].(received := finishedNotifier[i].received + 1)];
      assert View() == after;
    }

    method ResetFinishNotificationIfActive()
      requires Valid()
      modifies this
      ensures Valid() && View() == Apply(old(View()), StartReset)
    {
      ghost var after := Apply(View(), StartReset);
      StepReachable(View(), StartReset);
      callers := callers.(resets := callers.resets + [WaitLock]);
      assert View() == after;
    }

    /** A new channel, empty and open, and the lock released. */
    method ReplaceNotifier(k: nat)
      requires Ok(View()) && ResetEnabled(View(), k) && callers.resets[k].Replace?
      modifies this`finishedNotifier, this`finishedNotifierChannelClosed, this`finishedNotifierLock, this`callers
      ensures View() == ResetStep(old(View()), k)
      ensures !finishedNotifierChannelClosed && finishedNotifier == old(finishedNotifier) + [Chan(0, 0, false)]
      ensures finishedNotifierLock.Free?
    {
      finishedNotifier := finishedNotifier + [Chan(0, 0, false)];
      finishedNotifierChannelClosed := false;
      finishedNotifierLock := Free;
      callers := callers.(resets := callers.resets[k := ResetDone]);
    }

    /** The lock, and the three reads. */
    method TestReset(k: nat)
      requires Ok(View()) && ResetEnabled(View(), k) && !callers.resets[k].Replace?
      modifies this`finishedNotifierLock, this`callers
      ensures View() == ResetStep(old(View()), k)
      ensures old(callers).resets[k].SawIdle? ==> (callers.resets[k].ResetDone? <==> totalTasksInQueue == 0)
      ensures old(callers).resets[k].TestCancel? ==> (callers.resets[k].Replace? <==> !cancel)
      ensures callers.resets[k].SawIdle? ==> activeThreads == 0
      ensures callers.resets[k].Replace? ==> old(callers).resets[k].TestCancel?
    {
      var pc := callers.resets[k];
      var next := ResetDone;
      if pc.WaitLock? {
        next := HasLock;
      } else if pc.HasLock? && activeThreads == 0 {
        next := SawIdle;
      } else if pc.HasLock? || (pc.SawIdle? && totalTasksInQueue != 0) {
        next := TestCancel;
      } else if pc.TestCancel? && !cancel {
        next := Replace;
      }
      if pc.WaitLock? {
        finishedNotifierLock := ByReset(k);
      } else if next.ResetDone? {
        finishedNotifierLock := Free;
      }
      callers := callers.(resets := callers.resets[k := next]);
    }

    method Reset(k: nat)
      requires Valid() && ResetEnabled(View(), k)
      modifies this
      ensures Valid() && View() == Apply(old(View()), ResetOn(k))
    {
      StepReachable(View(), ResetOn(k));
      if callers.resets[k].Replace? {
        ReplaceNotifier(k);
      } else {
        TestReset(k);
      }
    }

    // ---------------------------------------------------------- Cancel

    /** The next step of a Cancel at `pc`, by whoever called it. Its body runs only for the first caller; it
        takes tasks off the front, none of which was ever run, and goes on to the notification only
        with the queue seen empty. */
    method CancelStep(who: Actor, pc: CancelPc) returns (next: CancelPc)
      requires Valid() && CancelEnabled(View(), pc)
      modifies this
      ensures View() == CancelEffect(old(View()), who, pc)
      ensures next == CancelNext(old(cancelOnce), old(tasks), pc)
      ensures pc.Enter? || old(cancel) ==> cancel
      ensures pc == Flagged(true) ==> tasksClosed
      ensures pc.AtOnce? ==> (next.Test? <==> old(cancelOnce).Unused?) && (next.Test? ==> cancelOnce == Doing(who))
      ensures next.Notify? ==> tasks == []
      ensures tasks != old(tasks) ==>
        && old(tasks) != [] && tasks == old(tasks)[1..] && old(tasks)[0] !in tasks
        && calls[old(tasks)[0]].phase.Drained? && calls[old(tasks)[0]].runs == 0
      ensures pc.Notify? ==> next.Left? && cancelOnce.Complete?
      ensures pc.Notify? && finishedNotificationEnabled ==> finishedNotifierChannelClosed
    {
      match pc {
        case Enter(force) =>
          cancel := true;
          next := Flagged(force);
        case Flagged(force) =>
          if force {
            tasksClosed := true;
          }
          next := AtOnce;
        case AtOnce =>
          if cancelOnce.Unused? {
            cancelOnce := Doing(who);
            next := Test;
          } else {
            next := Left;
          }
        case Test => next := if |tasks| > 0 then Receive else Notify;
        case Receive =>
          if tasks != [] {
            DrainOne();
          }
          next := Test;
        case Notify =>
          if finishedNotificationEnabled {
            ReachableChannels(View());
            NotifyFinished();
          }
          cancelOnce := Complete;
          next := Left;
      }
    }

    /** A receive of Cancel: the task is thrown away. */
    method DrainOne()
      requires Valid() && tasks != []
      modifies this`tasks, this`calls
      ensures View() == old(View()).(pool := CancelPool(old(View().pool), Receive))
      ensures tasks == old(tasks)[1..] && old(tasks)[0] !in tasks
      ensures calls[old(tasks)[0]].phase.Drained? && calls[old(tasks)[0]].runs == 0
    {
      HeadIsFresh(View());
      calls := calls[tasks[0] := calls[tasks[0]].(phase := Drained)];
      tasks := tasks[1..];
    }

    method Cancel(force: bool)
      requires Valid()
      modifies this
      ensures Valid() && View() == Apply(old(View()), StartCancel(force))
    {
      ghost var after := Apply(View(), StartCancel(force));
      StepReachable(View(), StartCancel(force));
      callers := callers.(cancels := callers.cancels + [Enter(force)]);
      assert View() == after;
    }

    method Canceller(k: nat)
      requires Valid() && CancellerEnabled(View(), k)
      modifies this
      ensures Valid() && View() == Apply(old(View()), CancelOn(k))
    {
      ghost var after := Apply(View(), CancelOn(k));
      StepReachable(View(), CancelOn(k));
      var next := CancelStep(External(k), callers.cancels[k]);
      callers := callers.(cancels := callers.cancels[k := next]);
      assert View() == after;
    }

    // ---------------------------------------------------------- the goroutine of addThread

    /** The head of the range loop: the oldest task, which was never run, or the end of the closed and
        empty channel. */
    method TakeTask(t: nat)
      requires Valid() && WorkerEnabled(View(), t) && threads[t].Idle?
      modifies this`tasks, this`calls, this`threads
      ensures View() == WorkerStep(old(View()), t, None)
      ensures old(tasks) != [] ==>
        && tasks == old(tasks)[1..] && old(tasks)[0] !in tasks
        && threads[t] == Busy(old(tasks)[0], Got) && calls[old(tasks)[0]].runs == 0
      ensures old(tasks) == [] ==> tasksClosed && tasks == [] && threads[t] == Exited(ByClose)
    {
      if tasks != [] {
        HeadIsFresh(View());
      }
      if tasks != [] {
        var c := tasks[0];
        tasks := tasks[1..];
        calls := calls[c := calls[c].(phase := Held(t, Got))];
        threads := threads[t := Busy(c, Got)];
      } else {
        threads := threads[t := Exited(ByClose)];
      }
    }

    /** The check under openThreadsLock, lines 293 to 300. In a small runner the count goes down by one or
        stays, at least as many threads as allowed stay counted, and never none. */
    method LeaveIfTooMany(t: nat)
      requires Valid() && WorkerEnabled(View(), t) && threads[t].Shrinking?
      modifies this`openThreads, this`threads
      ensures View() == WorkerStep(old(View()), t, None)
      ensures threads[t].Exited? <==> old(openThreads) > maxParallel
      ensures Small(View().pool) ==>
        && openThreads == old(openThreads) - (if threads[t].Exited? then 1 else 0)
        && openThreads >= 1 && (threads[t].Exited? ==> openThreads >= maxParallel)
    {
      OpenAfterTask(View(), t);
      if openThreads > maxParallel {
        openThreads := Dec(openThreads);
        threads := threads[t := Exited(ByShrink)];
      } else {
        threads := threads[t := Idle];
      }
    }

    /** Up to the task function, lines 260 to 263. In a small runner neither word wraps around, and a task
        that is being run is counted in totalTasksInQueue; the function is started once. */
    method StartTask(t: nat, c: nat, stage: Stage)
      requires Valid() && WorkerEnabled(View(), t) && threads[t] == Busy(c, stage)
      requires stage.Got? || stage.Activated?
      modifies this`activeThreads, this`started, this`calls, this`threads
      ensures View() == BusyStep(old(View()), t, c, stage, None)
      ensures Small(View().pool) ==> activeThreads <= totalTasksInQueue
      ensures Small(View().pool) && stage.Got? ==> activeThreads == old(activeThreads) + 1
      ensures Small(View().pool) && stage.Activated? ==> started == old(started) + 1
      ensures calls[c].runs == if stage.Got? then 0 else 1
    {
      ghost var after := BusyStep(View(), t, c, stage, None);
      BusyHistory(View(), t, c, stage, None);
      BusyCounters(View(), t, c, stage, None);
      if stage.Got? {
        activeThreads := Inc(activeThreads);
        calls := calls[c := calls[c].(phase := Held(t, Activated))];
        threads := threads[t := Busy(c, Activated)];
      } else {
        started := Inc(started);
        calls := calls[c := calls[c].(runs := calls[c].runs + 1, phase := Held(t, Running))];
        threads := threads[t := Busy(c, Running)];
      }
      assert View() == after;
    }

    /** From the return of the task function on, lines 263 to 267. In a small runner neither word is
        decremented at zero. */
    method FinishTask(t: nat, c: nat, stage: Stage, result: Option<Err>)
      requires Valid() && WorkerEnabled(View(), t) && threads[t] == Busy(c, stage)
      requires stage.Running? || stage.Returned? || stage.Deactivated?
      modifies this`activeThreads, this`totalTasksInQueue, this`calls, this`threads
      ensures View() == BusyStep(old(View()), t, c, stage, result)
      ensures Small(View().pool) && stage.Returned? ==> activeThreads == old(activeThreads) - 1
      ensures Small(View().pool) && stage.Deactivated? ==> totalTasksInQueue == old(totalTasksInQueue) - 1
      ensures calls[c].runs == 1 && (stage.Running? ==> calls[c].result == result)
    {
      ghost var after := BusyStep(View(), t, c, stage, result);
      BusyHistory(View(), t, c, stage, result);
      BusyCounters(View(), t, c, stage, result);
      var call := calls[c];
      var next := Returned;
      if stage.Running? {
        call := call.(result := result);
      } else if stage.Returned? {
        activeThreads := Dec(activeThreads);
        next := Deactivated;
      } else {
        totalTasksInQueue := Dec(totalTasksInQueue);
        next := Decremented;
      }
      calls := calls[c := call.(phase := Held(t, next))];
      threads := threads[t := Busy(c, next)];
      assert View() == after;
    }

    /** Up to the lock of the notification block, lines 268 and 269: with notification on the worker is then
        the only one that holds it. */
    method LockNotifier(t: nat, c: nat)
      requires Valid() && WorkerEnabled(View(), t) && threads[t] == Busy(c, Decremented)
      modifies this`finishedNotifierLock, this`calls, this`threads
      ensures Valid() && View() == BusyStep(old(View()), t, c, Decremented, None)
      ensures finishedNotificationEnabled ==>
        && finishedNotifierLock == ByWorker(t) && threads[t] == Busy(c, Locked)
        && forall u :: 0 <= u < |threads| && u != t ==> !HoldsLock(threads[u])
      ensures !finishedNotificationEnabled ==>
        finishedNotifierLock == old(finishedNotifierLock) && threads[t] == Busy(c, Checked)
    {
      ghost var after := Apply(View(), Action.Work(t, None));
      StepReachable(View(), Action.Work(t, None));
      var next := Checked;
      if finishedNotificationEnabled {
        finishedNotifierLock := ByWorker(t);
        next := Locked;
      }
      calls := calls[c := calls[c].(phase := Held(t, next))];
      threads := threads[t := Busy(c, next)];
      assert View() == after;
      if finishedNotificationEnabled {
        LockIsExclusive(View(), t);
      }
    }

    /** With the lock held, the first half of line 271: the check goes on only when no thread is active, and
        otherwise the lock is released. */
    method CheckActive(t: nat, c: nat)
      requires Valid() && WorkerEnabled(View(), t) && threads[t] == Busy(c, Locked)
      modifies this`finishedNotifierLock, this`calls, this`threads
      ensures View() == BusyStep(old(View()), t, c, Locked, None)
      ensures activeThreads == 0 ==> threads[t] == Busy(c, SawNoActive) && finishedNotifierLock == old(finishedNotifierLock)
      ensures activeThreads != 0 ==> threads[t] == Busy(c, Checked) && finishedNotifierLock.Free?
    {
      var next := SawNoActive;
      if activeThreads != 0 {
        finishedNotifierLock := Free;
        next := Checked;
      }
      calls := calls[c := calls[c].(phase := Held(t, next))];
      threads := threads[t := Busy(c, next)];
    }

    /** The second half, and lines 272 to 274: the notification goes out exactly when totalTasksInQueue is
        zero, and then, in a small runner, no thread is active; the lock is released. */
    method CheckTotal(t: nat, c: nat)
      requires Valid() && WorkerEnabled(View(), t) && threads[t] == Busy(c, SawNoActive)
      modifies this`finishedNotifier, this`finishedNotifierChannelClosed, this`finishedNotifierLock,
               this`calls, this`threads
      ensures View() == BusyStep(old(View()), t, c, SawNoActive, None)
      ensures finishedNotifierLock.Free? && threads[t] == Busy(c, Checked)
      ensures finishedNotifierChannelClosed <==> old(finishedNotifierChannelClosed) || totalTasksInQueue == 0
      ensures totalTasksInQueue == 0 && Small(View().pool) ==> activeThreads == 0
    {
      ghost var after := BusyStep(View(), t, c, SawNoActive, None);
      if totalTasksInQueue == 0 {
        ReachableChannels(View());
        IdleWhenDone(View());
        NotifyFinished();
      }
      finishedNotifierLock := Free;
      calls := calls[c := calls[c].(phase := Held(t, Checked))];
      threads := threads[t := Busy(c, Checked)];
      assert View() == after;
    }

    /** The error block, lines 277 to 291: a settled task was run once, its error is stored under its number
        and was handled once if it has a handler; only a failed task makes a fail-fast worker cancel. */
    method SettleTask(t: nat, c: nat, stage: Stage, result: Option<Err>)
      requires Valid() && WorkerEnabled(View(), t) && threads[t] == Busy(c, stage)
      requires stage.Checked? || (stage.Handled? && calls[c].result.Some?)
      modifies this`errors, this`calls, this`threads
      ensures View() == BusyStep(old(View()), t, c, stage, result)
      ensures calls[c].phase.Settled? ==>
        && calls[c].runs == 1
        && calls[c].handled == (if calls[c].hasHandler && calls[c].result.Some? then 1 else 0)
        && errors == (if calls[c].result.Some? then old(errors)[calls[c].num := calls[c].result.value] else old(errors))
      ensures threads[t] == if calls[c].phase.Held? then Busy(c, Handled)
                            else if failFast && stage.Handled? then Cancelling(Enter(false))
                            else Shrinking
    {
      BusyHistory(View(), t, c, stage, result);
      var call := calls[c];
      if stage.Checked? && call.result.Some? {
        if call.hasHandler {
          call := call.(handled := call.handled + 1);
        }
        calls := calls[c := call.(phase := Held(t, Handled))];
        threads := threads[t := Busy(c, Handled)];
      } else {
        if stage.Handled? {
          errors := errors[call.num := call.result.value];
        }
        calls := calls[c := call.(phase := Settled)];
        threads := threads[t := if stage.Handled? && failFast then Cancelling(Enter(false)) else Shrinking];
      }
    }

    /** One step of worker t with task c. */
    method AttendTask(t: nat, c: nat, stage: Stage, result: Option<Err>)
      requires Valid() && WorkerEnabled(View(), t) && threads[t] == Busy(c, stage)
      modifies this
      ensures View() == BusyStep(old(View()), t, c, stage, result)
    {
      match stage {
        case Got => StartTask(t, c, stage);
        case Activated => StartTask(t, c, stage);
        case Decremented => LockNotifier(t, c);
        case Locked => CheckActive(t, c);
        case SawNoActive => CheckTotal(t, c);
        case Checked => SettleTask(t, c, stage, result);
        case Handled =>
          HandledHasError(View(), t);
          SettleTask(t, c, stage, result);
        case _ => FinishTask(t, c, stage, result);
      }
    }

    /** One step of worker t; `result` is what its task function returns, if it returns now. */
    method Work(t: nat, result: Option<Err>)
      requires Valid() && WorkerEnabled(View(), t)
      modifies this
      ensures Valid() && View() == Apply(old(View()), Action.Work(t, result))
      ensures old(threads)[t].Spawned? ==> threads[t].Idle? && openThreads == Inc(old(openThreads))
      ensures old(threads)[t].Cancelling? ==> threads[t].Cancelling? || threads[t] == Exited(ByFailFast)
    {
      ghost var after := Apply(View(), Action.Work(t, result));
      StepReachable(View(), Action.Work(t, result));
      match threads[t] {
        case Spawned =>
          openThreads := Inc(openThreads);
          threads := threads[t := Idle];
        case Idle =>
          TakeTask(t);
        case Busy(c, stage) =>
          AttendTask(t, c, stage, result);
        case Cancelling(pc) =>
          var next := CancelStep(Worker(t), pc);
          threads := threads[t := if next.Left? then Exited(ByFailFast) else Cancelling(next)];
        case Shrinking => LeaveIfTooMany(t);
      }
      assert View() == after;
    }

    // ---------------------------------------------------------- Run and SetMaxParallel

    method AddThread()
      modifies this`threads
      ensures View() == old(View()).(pool := Spawn(old(View().pool)))
    {
      threads := threads + [Spawned];
    }

    /** One turn of the loop of Run, or its end. */
    method StartThread(i: nat)
      requires Ok(View()) && callers.run == Starting(i)
      modifies this`threads, this`callers
      ensures View() == RunStep(old(View()))
      ensures |threads| == |old(threads)| + if i < maxParallel then 1 else 0
    {
      if i < maxParallel {
        AddThread();
        callers := callers.(run := Starting(i + 1));
      } else {
        callers := callers.(run := Waiting);
      }
    }

    method Run()
      requires Valid() && RunEnabled(View())
      modifies this
      ensures Valid() && View() == Apply(old(View()), Action.Run)
      ensures old(callers).run.NotCalled? ==> callers.timer == if finishedNotificationEnabled then Armed else Off
      ensures callers.run.Finished? ==> AllExited(threads)
    {
      StepReachable(View(), Action.Run);
      match callers.run {
        case NotCalled =>
          callers := callers.(run := Starting(0), timer := if finishedNotificationEnabled then Armed else Off);
        case Starting(i) => StartThread(i);
        case Waiting => callers := callers.(run := Finished);
      }
    }

    /** The timer of Run has gone off, or notifies. */
    method Tick()
      requires Valid() && !callers.timer.Off?
      modifies this
      ensures Valid() && View() == Apply(old(View()), Action.Tick)
      ensures Small(View().pool) && old(callers).timer.Armed? ==>
        callers.timer == if exists c :: 0 <= c < |calls| && HasRun(calls[c]) then Off else Firing
      ensures old(callers).timer.Firing? ==> finishedNotifierChannelClosed && callers.timer.Off?
    {
      ghost var after := Apply(View(), Action.Tick);
      StepReachable(View(), Action.Tick);
      if callers.timer.Armed? {
        callers := callers.(timer := if IsStarted() then Off else Firing);
      } else {
        ReachableChannels(View());
        NotifyFinished();
        callers := callers.(timer := Off);
      }
      assert View() == after;
    }

    method SetMaxParallel(newVal: int)
      requires Valid()
      modifies this
      ensures Valid() && View() == Apply(old(View()), StartResize(newVal))
    {
      ghost var after := Apply(View(), StartResize(newVal));
      StepReachable(View(), StartResize(newVal));
      callers := callers.(resizes := callers.resizes + [Clamped(if newVal < 1 then 1 else newVal)]);
      assert View() == after;
    }

    /** One turn of the loop of SetMaxParallel, or its end. */
    method GrowThread(k: nat, newVal: int, i: nat)
      requires Ok(View()) && k < |callers.resizes| && callers.resizes[k] == Grow(newVal, i)
      modifies this`threads, this`callers
      ensures View() == ResizeStep(old(View()), k)
      ensures |threads| == |old(threads)| + if i < newVal - maxParallel then 1 else 0
    {
      var next := StoreMax(newVal);
      if i < newVal - maxParallel {
        AddThread();
        next := Grow(newVal, i + 1);
      }
      callers := callers.(resizes := callers.resizes[k := next]);
    }

    /** The tests before the loop, and the store after it. */
    method TestResize(k: nat)
      requires Ok(View()) && ResizeEnabled(View(), k) && !callers.resizes[k].Grow?
      modifies this`maxParallel, this`callers
      ensures View() == ResizeStep(old(View()), k)
      ensures maxParallel == match old(callers).resizes[k] case StoreMax(newVal) => newVal case _ => old(maxParallel)
      ensures callers.resizes[k].ResizeDone? ==> maxParallel == old(callers).resizes[k].max
      ensures callers.resizes[k].Grow? ==> callers.resizes[k].max > maxParallel
      ensures old(callers).resizes[k].Clamped? ==>
        (callers.resizes[k].ResizeDone? <==> old(callers).resizes[k].max == maxParallel)
    {
      var next := ResizeDone;
      match callers.resizes[k] {
        case Clamped(newVal) => next := if newVal == maxParallel then ResizeDone else Compare(newVal);
        case Compare(newVal) => next := if newVal > maxParallel then Grow(newVal, 0) else StoreMax(newVal);
        case StoreMax(newVal) => maxParallel := newVal;
      }
      callers := callers.(resizes := callers.resizes[k := next]);
    }

    method Resize(k: nat)
      requires Valid() && ResizeEnabled(View(), k)
      modifies this
      ensures Valid() && View() == Apply(old(View()), ResizeOn(k))
      ensures maxParallel == match old(callers).resizes[k] case StoreMax(newVal) => newVal case _ => old(maxParallel)
      ensures callers.resizes[k].ResizeDone? ==> maxParallel == old(callers).resizes[k].max
    {
      StepReachable(View(), ResizeOn(k));
      var pc := callers.resizes[k];
      if pc.Grow? {
        GrowThread(k, pc.max, pc.i);
      } else {
        TestResize(k);
      }
    }

    // ---------------------------------------------------------- queries

    function IsStarted(): (r: bool)
      requires Valid()
      reads this
      ensures Small(View().pool) ==> (r <==> exists c :: 0 <= c < |calls| && HasRun(calls[c]))
    {
      assert Small(View().pool) ==> (started > 0 <==> exists c :: 0 <= c < |calls| && HasRun(calls[c])) by {
        if Small(View().pool) {
          StartedLaw(View());
        }
      }
      started > 0
    }

    /** Errors(), once the threads have exited. */
    function Errors(): (r: map<nat, Err>)
      requires Valid() && Small(View().pool) && AllExited(threads)
      reads this
      ensures forall k: nat :: k in r <==> k < |calls| && calls[k].runs == 1 && calls[k].result.Some?
      ensures forall k: nat :: k in r ==> calls[k].result == Some(r[k])
    {
      ErrorsExact(View());
      errors
    }

    /** GetFinishedNotification: the channel is closed and carries its value exactly when the flag says so. */
    function GetFinishedNotification(): (r: Chan)
      requires Valid()
      reads this
      ensures r.closed == finishedNotifierChannelClosed && (r.closed <==> r.sent == 1) && r.sent <= 1
    {
      ChannelDiscipline(View());
      finishedNotifier[|finishedNotifier| - 1]
    }

    function ActiveThreads(): (r: nat)
      requires Valid() && Small(View().pool)
      reads this
      ensures r <= totalTasksInQueue < WORD
    {
      CounterLaw(View());
      activeThreads
    }

    function OpenThreads(): (r: nat)
      requires Valid() && Small(View().pool)
      reads this
      ensures r == 0 <==> forall t :: 0 <= t < |threads| ==> threads[t].Spawned?
    {
      OpenThreadsLaw(View());
      openThreads
    }
  }
}
