# Verification of gofrog's core algorithms

This project models five parts of the repository in Dafny and proves what they promise:

- **The parallel task runner** (`parallel/runner.go`) as a transition system over every interleaving of
  producers, worker goroutines, `Cancel`, `Done`, `ResetFinishNotificationIfActive`, `SetMaxParallel`,
  `Run` and its timer. Each atomic operation, channel operation and lock-held section is one step; the
  reads of `activeThreads` and `totalTasksInQueue` are separate steps; the counters are 32-bit words that
  wrap around. `RunnerState` defines the steps, `RunnerInvariant` and `RunnerSteps` the invariant,
  `RunnerTheorems`, `RunnerProgress`, `RunnerCancel`, `RunnerReturns`, `RunnerNotice`, `RunnerLost`,
  `RunnerRuns`, `RunnerSizes`, `RunnerQueue`, `RunnerBell` and `RunnerDrain` the results, and `RunnerClass` is the runner as an object whose methods update the source's fields, each proved to be one
  step of the transition system and, with `RunnerEffects`, to do what the step is for.
- **The LRU cache** (`lru/lru_base.go`): `LruCache` is the map into a doubly linked list of heap nodes,
  refined to the recency list of `LruSpec`; `LruHistory`, `LruOrder` and `LruRetention` prove properties of
  whole histories of operations, among them which keys are kept, and that a smaller cache is always included in a
  larger one. The object records its
  history, so that they hold of it.
- **The fan-out `ReadAll`** (`fanout/readall_reader.go`) as a transition system of a copier, synchronous
  pipes, consumers and the collecting loop, over every chunking and schedule.
- **The symlink-following walk** (`io/fileutils.go`, `Walk` and `walk`) over a static, finite file system
  of real directories and links, as a function with its termination measure (`WalkSpec`) and as a method
  that updates the visited set (`WalkerClass`). The visited set is keyed by the text of a resolved path, which
  is absolute or relative to the working directory. `WalkProofs`, `WalkLinks`, `WalkKnot`, `WalkPlain`,
  `WalkAnswers`, `WalkSkips` and `WalkFilepath` hold the results, the last against a definition of the standard library's `filepath.Walk`.
- **Version comparison** (`version/version.go`) and **wildcard translation** (`stringutils/wildcards.go`).

A term used throughout: a runner is *small* while there have been fewer than 2^32 calls of `addTask` and
fewer than 2^32 goroutines; beyond that the source's 32-bit words wrap around and the counters lose their
meaning. The rows below say where a runner has to be small. Reachable states are those of any run,
with any parameters, from `NewRunner`.

The calling protocol of the runner is assumed: nobody is between `addTask`'s cancel check and its send
when the channel is closed, because a Go send on a closed channel panics. `Run` is called at most once, and
`finishedNotificationEnabled` is set before the first task.

Where the code and its own comments disagree, the model follows the code:

- The comment on the field `errors` says it is keyed by thread id (`parallel/runner.go:75`). The code keys
  it by task number, as the comment on `Errors` says.
- The comment on `Cancel` says that no new tasks will be executed (`parallel/runner.go:175`). Tasks that a worker has
  taken, and those of senders past the check, can still be started; `BoundAttained` says how many, and
  `NothingStartsIff` when none is. It also says that on a cancelled runner `Cancel` will do nothing
  (`parallel/runner.go:176`). But a second `Cancel(true)` closes the task channel, and any second `Cancel` waits
  until the first has drained the queue, or if that one is stuck until somebody closes the channel (`StuckFrom`).
- The comment on `OpenThreads` calls it the number of open threads (`parallel/runner.go:200`). It still counts the
  threads that left through the closed channel or by fail-fast, and does not yet count those that have not run
  (`OpenThreadsLaw`).
- `Run` says that the runner will finish if no task was executed for some time (`parallel/runner.go:141`). The timer
  looks once and notifies later, so it can notify while tasks run: `TimerSoundIff` and `TimerTooEarly`.
- The comments on `Compare` promise an order (`version/version.go:24-26`). Tokens without suffix that are
  different texts with the same number, as "1" and "01", or two numbers beyond a 64-bit int, are each
  reported below the other, so Compare is not antisymmetric; `AntisymmetricUnlessTwins` gives the exact condition.
  It is not transitive either: "1.5" is below "01.3", that is below "1.4", and "1.5" is above "1.4".
  `TransitiveIff` gives the exact condition for that.
- `IsDirExists` and `GetFileInfo` take a flag named `followSymlink` and act on its opposite
  (`io/fileutils.go:253-273`), so `walk` follows the path it is at even when it was asked not to walk into
  links; and `Walk` resolves its root in either case. The comment on `Walk` promises `filepath.Walk` apart from
  the links (`io/fileutils.go:179-180`). Without following links that fails in three ways: a link below the root
  that cannot be resolved, such as a link to itself, makes the walk return an error instead of reporting the
  link; a root that is itself a link is replaced by its target; and a directory that cannot be listed is reported
  twice, first without and then with the error. `SameAsFilepathIff` gives the exact condition for a walkFn that
  never objects. For one that asks to skip, "the same" is only true if each walk is asked in its own terms: Walk
  knows this library's `ErrSkipDir` and takes the standard library's `SkipDir` and `SkipAll` for errors
  (`SameAsFilepath`, `ForeignSentinel`).
- The same comment says that the real paths already visited are saved. What is saved are texts: from a relative
  root one link can have several, so it can be entered more than once. `AlwaysOnceIffAbsolute` gives the exact
  condition.
- A comment says that parentheses are left alone for the placeholders (`stringutils/wildcards.go:30`), and so
  are backslashes. `MeaningKeptIff` says which patterns with backslashes keep their meaning.

Nothing was executed; the statements below are about the model.

## Model

| member | source | states |
|---|---|---|
| RunnerTheorems.TaskConservation | parallel/runner.go:124-134 | In every reachable state a call's recorded place is right: it is queued if and only if it is in the channel buffer, once; it is held if and only if a worker has it, and no two workers have the same one; a drained call was never run and Cancel was called; no function is started twice |
| RunnerTheorems.EveryTaskRunsExactlyOnce | parallel/runner.go:248-303 | In a small runner, once Run has started its threads and all threads have exited, however SetMaxParallel grew and shrank them meanwhile, every accepted task has run exactly once, or was drained by Cancel, or was left behind by a fail-fast runner that cancelled itself; without a cancellation every call past its first line was accepted and ran exactly once |
| RunnerTheorems.CounterLaw | parallel/runner.go:260-267 | In a small runner totalTasksInQueue is pending sends + queued + taken and not yet decremented + drained; activeThreads never exceeds it; neither word is ever decremented at zero |
| RunnerTheorems.OpenThreadsLaw | parallel/runner.go:293-300 | In a small runner openThreads counts the registered threads that did not take the shrink exit, including those that left through the closed channel or by fail-fast, and is zero only while no thread has registered, so the shrink exit never takes the last one |
| RunnerTheorems.StartedLaw | parallel/runner.go:170-172 | In a small runner started is the number of tasks whose function has been started, so IsStarted is true exactly when there is one |
| RunnerTheorems.NoLostNotification | parallel/runner.go:264-275 | In a small runner with notification on, when some task is completed and totalTasksInQueue is zero, the current channel is closed and has been sent its value, or some worker is between its decrement and the end of its locked check; also across replacements of the channel |
| RunnerTheorems.NotificationSound | parallel/runner.go:269-274 | When a worker of a small runner notifies, every call ever counted is a task that was started once, has returned and was decremented: nothing is pending, queued, running or drained |
| RunnerTheorems.TimerSoundIff | parallel/runner.go:142-147 | When the timer of a small runner is about to notify, every call ever counted is a task that was started once, has returned and was decremented if and only if totalTasksInQueue is zero |
| RunnerLost.TimerTooEarly | parallel/runner.go:142-147 | A reachable state in which the timer, having looked before the first start, notifies while the first task runs |
| RunnerTheorems.ChannelDiscipline | parallel/runner.go:305-311 | Every notification channel carries at most one value and is closed exactly when it carries it; the closed flag agrees with the current channel, and while it says open the buffer is empty, so no send blocks or panics |
| RunnerTheorems.ErrorsExact | parallel/runner.go:277-285 | When all threads of a small runner have exited, the keys of Errors are exactly the numbers of the executed tasks that returned an error, each with that task's error, and each supplied handler was called exactly once for its failed task and never otherwise |
| RunnerCancel.StartStepBound | parallel/runner.go:178-188 | With the cancel flag set, no step raises the number of task functions that can still be started (senders past the check + queue + workers that have received a task and not started it), and the start of one lowers it; the flag stays |
| RunnerCancel.CancelBound | parallel/runner.go:178-188 | Along every run after the cancel flag is set, the task functions started are at most that number |
| RunnerCancel.BoundAttained | parallel/runner.go:178-188 | The bound is exact: some continuation starts that many task functions |
| RunnerCancel.NothingStartsIff | parallel/runner.go:174-188 | With the cancel flag set no task function is ever started again if and only if no sender is past the check, the queue is empty, and no worker holds a task it has not started |
| RunnerReturns.CancelReturnsIff | parallel/runner.go:184-192 | A Cancel(false) that has not returned can still return without anybody closing the channel, if and only if it is not the case that the drain waits for a task while nothing is queued, no sender is past the check and the channel is open |
| RunnerReturns.StuckFrom | parallel/runner.go:186-188 | In that case no Cancel returns as long as the channel is open, whatever else happens |
| RunnerReturns.StuckHappens | parallel/runner.go:186-188 | That case is reachable: a worker takes the last task between the test of the length and the receive |
| RunnerNotice.NoticeSurvivesIff | parallel/runner.go:189-191 | Once the runner is cancelled and the notification is out, it stays out for ever if and only if no ResetFinishNotificationIfActive has already passed its cancel test |
| RunnerNotice.LostForGood | parallel/runner.go:218-229 | If notification is on, the body of cancelOnce is over, something was drained, the timer is past and such a reset has thrown the notification away, then in a small runner nobody ever notifies again |
| RunnerLost.NoticeLost | parallel/runner.go:218-229 | Both states are reachable: one in which Cancel has notified and returned while a reset is past its cancel test, and the one after that reset's next step, in which the notification is lost for good |
| RunnerRuns.OnlyDoneAndForceClose | parallel/runner.go:157-161 | After every run without Done and without a Cancel(true) the task channel is open; a fail-fast worker does not close it |
| RunnerRuns.ForceCloses | parallel/runner.go:181-183 | After every run in which a Cancel(true) has returned it is closed |
| RunnerRuns.DoneCloses | parallel/runner.go:157-161 | After every run with a Done in it, too |
| RunnerRuns.CancelsItselfIff | parallel/runner.go:277-291 | If nobody calls Cancel from outside and all threads have exited, the runner is cancelled if and only if it is fail-fast and some task returned an error |
| RunnerRuns.LeavingWorkerStops | parallel/runner.go:287-291 | A worker that has left its loop, or is in Cancel after a failed task, never takes a task again |
| RunnerRuns.IdleAfterCheck | parallel/runner.go:293-300 | A worker with a task waits for its next one only after it has found no more threads open than the maximum |
| RunnerRuns.ResultIsKept | parallel/runner.go:263-263 | What a task function returns is its task's result from then on, along every run |
| RunnerRuns.CancelledAcceptsNone | parallel/runner.go:128-130 | After the cancel flag is set, a call of addTask that was not past its check is never accepted |
| RunnerSizes.ThreadsOfRun | parallel/runner.go:150-154 | Without SetMaxParallel the maximum is that of NewRunner, at least one; when Run waits or has returned exactly so many threads were started; and when it has returned they have all exited |
| RunnerSizes.SetMaxParallelSets | parallel/runner.go:231-246 | After Run's loop, whatever else goes on, a SetMaxParallel that overlaps with no other leaves the new value, at least one, as the maximum, and has started exactly the missing threads |
| RunnerSizes.MaximumIsRequested | parallel/runner.go:231-246 | With any number of overlapping calls of SetMaxParallel the maximum is always one that was asked for |
| RunnerQueue.FirstInFirstOut | parallel/runner.go:132-132 | Along every run the tasks queued at first and then sent are, in this order, those received and then those still queued |
| RunnerQueue.TasksInOrder | parallel/runner.go:258-258 | Workers and Cancel receive the tasks in the order in which they were sent |
| RunnerQueue.Capacity | parallel/runner.go:85-102 | The channel has the capacity asked for, at least one, and never holds more; fail-fast and notification stay as set |
| RunnerQueue.AddTaskDoesNotWait | parallel/runner.go:77-78 | As long as no more calls of addTask are under way or have their tasks in the open channel than its capacity, none of them waits |
| RunnerBell.ResetReplaces | parallel/runner.go:218-229 | A ResetFinishNotificationIfActive that returns while all the time something is counted in totalTasksInQueue and the runner is not cancelled has replaced the channel, also if no thread is active |
| RunnerBell.ResetKeeps | parallel/runner.go:218-225 | One that runs while all the time nothing is active or counted, or the runner is cancelled, does not |
| RunnerBell.OnlyResetReopens | parallel/runner.go:227-228 | Along every run in which no reset replaces the channel a notification stays out and no channel is made |
| RunnerBell.NotificationIsOptional | parallel/runner.go:209-211 | With notification off nothing is ever sent or closed |
| RunnerBell.TimerLooks | parallel/runner.go:142-147 | When the timer of a small runner looks, it goes on to notify if and only if no task has been started |
| RunnerBell.TimerStaysQuiet | parallel/runner.go:142-147 | Once a task has been started in a small runner, a timer that was not about to notify never does |
| RunnerDrain.BodyRunsOnce | parallel/runner.go:184-184 | Along every run, once the body of cancelOnce has begun it is never begun again, and once over it stays over |
| RunnerDrain.DrainEmpties | parallel/runner.go:185-188 | Every task that is in the channel while Cancel is at its loop has left the channel when the body of cancelOnce is over |
| RunnerDrain.CancelNotifies | parallel/runner.go:189-191 | With notification on, and along every run in which no reset replaces the channel, the notification is out when the body of cancelOnce is over |
| RunnerSteps.StepInv | parallel/runner.go:124-311 | Every step of every goroutine keeps the conjunction of the runner's invariants: places of calls, histories, error map, counters, closing, cancelOnce, the notifier lock, the channels and the finish check |
| RunnerSteps.ExecInv | parallel/runner.go:124-311 | The same over every finite interleaving |
| RunnerProgress.InternalLowers | parallel/runner.go:258-301 | Once the channel is closed, every step of a worker or of a Cancel or Reset call under way lowers the measure over queue length and program counters |
| RunnerProgress.SomebodyCanStep | parallel/runner.go:258-301 | In a closed runner a live thread can step, or waits for the notifier lock or for cancelOnce, and then its holder can step; fail-fast workers inside Cancel included |
| RunnerProgress.WindDown | parallel/runner.go:157-161 | From a closed runner every sequence of such steps is bounded by the measure, and where none is possible any more all threads have exited |
| RunnerProgress.CanFinish | parallel/runner.go:157-161 | A closed runner has a schedule on which all threads exit |
| RunnerProgress.DoneRunsEverything | parallel/runner.go:139-161 | In a small runner, after Run has started its threads and Done has closed the channel, a runner that is not cancelled, from outside or by fail-fast, ends on every schedule on which nobody is held up for ever with all threads exited and every call of addTask that is past its first line executed exactly once |
| RunnerClass.Runner.constructor | parallel/runner.go:85-102 | The object starts in the initial state; a maxParallel and a capacity of at least one are kept, others become one |
| RunnerClass.Runner.AddTask | parallel/runner.go:124-126 | A new call takes the next number; the object does one step of the transition system and stays reachable |
| RunnerClass.Runner.Produce | parallel/runner.go:128-133 | Each later step of addTask: the call is rejected if and only if the runner is cancelled; then totalTasksInQueue goes up by one in a small runner; then the task is the last in the open channel, within its capacity |
| RunnerClass.Runner.Done | parallel/runner.go:157-161 | Done closes the task channel, as one step |
| RunnerClass.Runner.NotifyFinished | parallel/runner.go:305-311 | Afterwards the current notification channel is closed; the value is sent only if it was open, and then there is room for it |
| RunnerClass.Runner.Reset | parallel/runner.go:218-229 | Each step of ResetFinishNotificationIfActive, with its reads in the source's short-circuit order, is the step of the transition system, on a reachable object |
| RunnerClass.Runner.TestReset | parallel/runner.go:223-225 | With no thread active the reset gives up if and only if totalTasksInQueue is zero; after that it goes on if and only if the runner is not cancelled |
| RunnerClass.Runner.ReplaceNotifier | parallel/runner.go:227-228 | The new channel is empty and open, the old ones are untouched, and the lock is released |
| RunnerClass.Runner.CancelStep | parallel/runner.go:178-193 | A step of Cancel, whoever called it: the flag is set after the first; a forced one closes the channel; only the first caller enters the body; at most the oldest task goes, and it was never run; the notification is reached only with the queue seen empty, and then the channel is closed if notification is on |
| RunnerClass.Runner.DrainOne | parallel/runner.go:186-188 | The oldest task leaves the queue, where it was once, and was never run |
| RunnerClass.Runner.Canceller | parallel/runner.go:178-193 | A Cancel called from outside advances by one step |
| RunnerClass.Runner.TakeTask | parallel/runner.go:258-258 | The worker gets the oldest task, which was never run and is in the queue no more; or, with nothing queued, the channel is closed and the worker exits |
| RunnerClass.Runner.StartTask | parallel/runner.go:260-263 | In a small runner activeThreads and started go up by one without wrapping around, activeThreads stays at most totalTasksInQueue, and the task function has then been started exactly once |
| RunnerClass.Runner.FinishTask | parallel/runner.go:263-267 | What the function returned is kept, and in a small runner activeThreads and totalTasksInQueue go down by one, never below zero |
| RunnerEffects.BusyCounters | parallel/runner.go:260-267 | In a small runner every step of a worker that holds a task moves the three words by exactly one or not at all, and leaves activeThreads at most totalTasksInQueue |
| RunnerClass.Runner.LockNotifier | parallel/runner.go:268-269 | With notification on the worker then holds the notifier lock and no other worker does; without it, the lock is not touched |
| RunnerClass.Runner.CheckActive | parallel/runner.go:271-271 | The check goes on only if no thread is active; otherwise the lock is released |
| RunnerClass.Runner.CheckTotal | parallel/runner.go:271-274 | The notification is out afterwards if and only if it was before or totalTasksInQueue is zero, and then, in a small runner, no thread is active; the lock is released |
| RunnerClass.Runner.SettleTask | parallel/runner.go:277-291 | A settled task was run once; its error, if any, is in the map under its number, nothing else in the map changed, and its handler was called once if it has one; the worker goes into Cancel(false) if and only if the runner is fail-fast and the task failed, and otherwise on to the thread check |
| RunnerClass.Runner.LeaveIfTooMany | parallel/runner.go:293-300 | The worker exits if and only if more threads are open than maxParallel; in a small runner openThreads goes down by one for it, to at least maxParallel, and is never zero |
| RunnerClass.Runner.Work | parallel/runner.go:251-302 | Each step of a worker goroutine is the step of the transition system, and the object stays reachable; a new thread registers, and one that is in Cancel leaves after it |
| RunnerClass.Runner.Run | parallel/runner.go:139-154 | Each step of Run: it arms the timer if and only if notification is on, starts maxParallel threads one by one and returns only when all threads have exited |
| RunnerClass.Runner.Tick | parallel/runner.go:142-147 | In a small runner the timer goes on if and only if no task had been started when it looked; in a second step it then notifies, and the channel is closed |
| RunnerClass.Runner.SetMaxParallel | parallel/runner.go:231-234 | A resize begins with the new value raised to at least one |
| RunnerClass.Runner.Resize | parallel/runner.go:235-246 | Each step of SetMaxParallel: it reads maxParallel anew at each test and adds its threads before it stores the new value; only the store changes maxParallel, and when it is done maxParallel is the new value |
| RunnerClass.Runner.IsStarted | parallel/runner.go:170-172 | In a small runner it is true exactly when some task's function has been started |
| RunnerClass.Runner.Errors | parallel/runner.go:196-198 | In a small runner with all threads exited, exactly the executed tasks that returned an error, with that error |
| RunnerClass.Runner.GetFinishedNotification | parallel/runner.go:165-167 | The current channel is closed exactly when the flag says so and exactly when it has been sent its one value |
| RunnerClass.Runner.ActiveThreads | parallel/runner.go:205-207 | In a small runner at most totalTasksInQueue, which has not wrapped around |
| RunnerClass.Runner.OpenThreads | parallel/runner.go:201-203 | In a small runner zero exactly while no thread has registered |
| LruCache.CacheBase.constructor | lru/lru_base.go:30-32 | A new cache represents the empty recency list |
| LruCache.CacheBase.Add | lru/lru_base.go:34-52 | Adding does the recency-list step: an overwritten key comes to the front with the new value and time and reports nothing; a new key is pushed; with a Size that is not negative the added entry is in the cache afterwards, and the last entry leaves and is reported if and only if the key is new and the cache held Size entries |
| LruCache.CacheBase.Get | lru/lru_base.go:54-72 | A miss changes nothing; an expired entry leaves and is reported; a present key whose last Add is no older than the expiry is a hit, comes to the front and stays; and every hit returns the value last written under the key in the object's history, no older than the expiry |
| LruCache.CacheBase.UpdateElement | lru/lru_base.go:75-82 | The value of a present key is replaced in place; order and insert times stay, and no key appears |
| LruCache.CacheBase.Remove | lru/lru_base.go:84-88 | A present key leaves and is reported, an absent one changes nothing; afterwards the key is absent and every other key has its entry as before |
| LruCache.CacheBase.RemoveOldest | lru/lru_base.go:90-95 | The last entry, if any, leaves and is reported, and all others stay |
| LruCache.CacheBase.RemoveElement | lru/lru_base.go:97-106 | The element leaves list and map, every other entry stays in order, and OnEvicted is called once with its key and value |
| LruCache.CacheBase.Len | lru/lru_base.go:109-111 | The length of the recency list, at most a positive Size; with a callback, all keys newly inserted in the object's history are counted in it or in the calls of OnEvicted |
| LruCache.Recorded | lru/lru_base.go:34-125 | Each operation keeps: the list is what the history of calls leaves, and the calls of OnEvicted are, in some order, the departures of that history |
| LruCache.CacheBase.Clear | lru/lru_base.go:114-125 | Map and list end up empty; for every order in which the map may be visited the calls of OnEvicted are one per entry in that order |
| LruCache.ClearReportsAll | lru/lru_base.go:114-125 | Whatever the visiting order, Clear's reports are a permutation of the list's entries |
| LruSpec.StepFits | lru/lru_base.go:34-125 | Every operation keeps: no key twice, and length at most a positive Size |
| LruSpec.RunFits | lru/lru_base.go:34-125 | The same after every history |
| LruHistory.StepIncluded | lru/lru_base.go:34-125 | One operation on two caches of Size n and m, 1 <= n <= m or m unlimited: if the smaller list is a subsequence of the larger and at most m - n behind, it stays so, and a hit in the smaller is the same hit in the larger |
| LruHistory.Inclusion | lru/lru_base.go:34-125 | After every history the smaller cache's recency list is a subsequence of the larger's, with equal values and insert times, and a hit in the smaller cache is a hit with the same value in the larger, with expiry, updates, removals and clears |
| LruOrder.RecencyOrder | lru/lru_base.go:40-52 | After every history the list is in the order of last use (last Add or hitting Get), most recent first |
| LruOrder.VictimIsLeastRecentlyUsed | lru/lru_base.go:90-95 | The entry taken by capacity eviction or RemoveOldest has the oldest last use of all entries present |
| LruOrder.EntriesUpToDate | lru/lru_base.go:39-46 | Every entry holds the value last written under its key, by Add or UpdateElement, and the time of its last Add |
| LruOrder.HitIsFresh | lru/lru_base.go:54-72 | A hit returns the value last written, and with expiry on it is within the expiry of the last Add |
| LruOrder.StepAccounts | lru/lru_base.go:39-52 | One operation: keys before plus the key newly inserted are the keys after plus the keys that left; an overwriting Add reports nothing |
| LruOrder.EvictionAccounting | lru/lru_base.go:97-106 | Over every history the keys newly inserted are, with multiplicity, the keys reported plus the keys present; so insertions = OnEvicted calls + Len |
| LruOrder.DepartureValue | lru/lru_base.go:97-106 | Every departure reports the value last written under its key |
| LruRetention.AddKeeps | lru/lru_base.go:46-51 | With a Size that is not negative: an Add leaves its entry in the list, all others as before, and only if the key is new and the list has Size entries the last one leaves |
| LruRetention.NegativeKeepsNone | lru/lru_base.go:49-51 | With a negative Size the added entry leaves at once |
| LruRetention.AddThenGet | lru/lru_base.go:34-72 | A Get after an Add hits with the added value unless the Size is negative or the expiry has passed, and then it misses |
| LruRetention.GetTakes | lru/lru_base.go:54-72 | For every key: a Get hits if and only if the entry is there and has not expired; only an expired entry leaves, and everything else stays as it was |
| LruRetention.RemoveTakes | lru/lru_base.go:84-88 | For every key: the removed one is gone and reported, the others stay |
| LruRetention.RemoveOldestTakes | lru/lru_base.go:90-95 | For every key: the last one is gone and reported, the others stay |
| LruRetention.UpdateWrites | lru/lru_base.go:75-82 | For every key: the value under the updated one is new if it is there, all else is as before |
| LruRetention.QuotientTruncates | lru/lru_base.go:58-58 | The expiry in milliseconds is the quotient cut off toward zero, for negative durations as well |
| LruRetention.HitIff | lru/lru_base.go:54-72 | After every history a Get hits if and only if the key is present and, with expiry on, its last Add is no older than the expiry |
| LruRetention.KeptIff | lru/lru_base.go:34-82 | After every history of Add, Get and UpdateElement without expiry a key is in the cache if and only if it was used and fewer than Size other keys were used since; without a Size, if it was used |
| FanoutProofs.PrefixSafety | fanout/readall_reader.go:92-97 | At every step what a consumer has received is a prefix of the source, and a later consumer's bytes are a prefix of an earlier one's |
| FanoutProofs.NilErrorMeansAllDelivered | fanout/readall_reader.go:112-127 | If ReadAll returns a nil error, every consumer was delivered the whole source and results[i] is the value consumer i returned |
| FanoutProofs.ErrorExactly | fanout/readall_reader.go:112-127 | ReadAll returns an error if and only if the copy failed or some consumer returned an error, and it is one of those |
| FanoutProofs.ReportNeverBlocks | fanout/readall_reader.go:76-87 | A consumer about to send finds room in both channels, and ReadAll has not closed them |
| FanoutProofs.StepInv | fanout/readall_reader.go:71-104 | Every step keeps the data, message and collection invariants, among them one message per consumer that has reported |
| FanoutProofs.NoDeadlock | fanout/readall_reader.go:71-104 | Until ReadAll answers some step is possible: one of the system's own, or a computing consumer may return; also when consumers stop early |
| FanoutRuns.FailsIff | fanout/readall_reader.go:71-127 | ReadAll fails if and only if on the way the source broke, a consumer had closed the pipe that was to be written to, or a consumer reported an error; and then with the error reported last, if any was reported |
| FanoutRuns.EofMeansAll | fanout/readall_reader.go:106-110 | A consumer that reads the end of its pipe, while nothing has gone wrong, has received the whole source |
| FanoutProgress.StepLowers | fanout/readall_reader.go:71-104 | Every step that is not a read without data lowers the measure over source, pipes and consumers |
| FanoutProgress.RunsAreBounded | fanout/readall_reader.go:71-104 | Every run of ReadAll has at most \|source\| * (2n + 3) + 6n + 5 steps plus two for each read that brings nothing |
| ReadAllReaderClass.ReadAllReader.GetAllReadersResult | fanout/readall_reader.go:112-127 | Every consumer sends one message, before the loop or while it waits; whenever they arrive and whichever channel the select takes from, all are received and the answer is the last error sent, else the copier's, else every value at its consumer's index |
| ReadAllReaderClass.ReadAllReader.Select | fanout/readall_reader.go:116-121 | The select waits for a message and takes the oldest of a channel that has one; nothing is lost or reordered within a channel |
| WalkSpec.WalkAt | io/fileutils.go:112-177 | walk terminates on every finite static file system, links in cycles included, from absolute and relative roots, by the measure (unvisited texts of links, height of the real directory); it never unmarks a link and only adds calls of walkFn |
| WalkSpec.ChildMeasure | io/fileutils.go:145-167 | A child that is walked is a directory link marked just now or a strictly lower real directory |
| WalkProofs.EachPlaceEnteredOnce | io/fileutils.go:121-127 | Walking into links, no two calls of walkFn enter a directory through a link with the same resolved text, whatever walkFn answers |
| WalkLinks.SteadyEntersOnce | io/fileutils.go:179-188 | If the root is absolute, or no link is absolute or climbs above the directory the root is relative to, each directory link is entered at most once, by its real location |
| WalkLinks.AlwaysOnceIffAbsolute | io/fileutils.go:179-188 | Each directory link is entered at most once in all trees, with all walk functions, if and only if the root is absolute |
| WalkLinks.LoopedEnteredTwice | io/fileutils.go:193-200 | From a relative root in any directory, an absolute link back to the directory is entered twice |
| WalkLinks.EntriesAreBounded | io/fileutils.go:193-200 | From a root relative to a directory at depth d a link is entered at most d + 2 times; from an absolute one at most once |
| WalkKnot.EntriesBoundAttained | io/fileutils.go:193-200 | The bound is attained: in every directory at depth d an absolute link back to it, next to relative ones that climb to each depth and come back, is entered d + 2 times |
| WalkProofs.WalkCoversReachable | io/fileutils.go:145-175 | If walkFn never objects, Walk into links returns nil and calls walkFn for every entry of every directory, under every text of its path, that is reachable from the root through real children and directory links of directories that can be listed; an entry that leads to a directory is entered without an error |
| WalkPlain.PlainWalkLists | io/fileutils.go:141-175 | Not walking into links, and with a walkFn that never objects, Walk calls walkFn in listing order, and no call twice; it returns nil if and only if no link below is broken, and then the calls are exactly one for each entry of the real tree that can be got to and one more, with the error, for each directory that cannot be listed |
| WalkAnswers.ObjectionEndsWalk | io/fileutils.go:128-171 | For every walkFn, following links or not: an answer that is neither nil nor ErrSkipDir, the standard library's sentinels included, is the answer to the last call, and Walk returns it |
| WalkAnswers.ErrorsAreAnswers | io/fileutils.go:117-171 | Walk returns such an error only as the answer to its last call, or, when not walking into links, for a path that cannot be resolved |
| WalkSkips.SkippedIsLeftOut | io/fileutils.go:128-171 | For every walkFn, following links or not, where no directory lists a name twice: after ErrSkipDir for a directory nothing below it is called for, and after ErrSkipDir for a file nothing more in its directory |
| WalkSkips.OpenedIsListed | io/fileutils.go:136-175 | For every walkFn, following links or not: unless Walk ends in an error, every directory called for without an error and answered with nil had each of its names called for in turn, but for links already entered, as far as a file answered with ErrSkipDir; or, if it cannot be listed, the error was reported |
| WalkSkips.SkipReturnedIff | io/fileutils.go:128-188 | Walk returns ErrSkipDir if and only if its last call was answered so and was for a root that is a file, for an error at the root, or for a file in the root directory |
| WalkFilepath.SameAsFilepath | io/fileutils.go:179-188 | For any walkFn, each walk being asked to skip in its own library's terms: if the root is not a link and below it no link is broken and every directory can be listed, Walk without following makes the calls of filepath.Walk and returns the same, but for a request to skip that gets as far as the root |
| WalkFilepath.SameAsFilepathIff | io/fileutils.go:179-188 | With a walkFn that never objects, the calls with their file infos and errors and the result are those of filepath.Walk if and only if the root is not itself a link, no link below it is broken, and every directory there can be listed |
| WalkFilepath.SamePathsIff | io/fileutils.go:179-188 | The paths and the result alone are those of filepath.Walk if and only if below the directory the walk starts in no link is broken and every directory can be listed, and a root that is a link does not lead to a directory with entries |
| WalkFilepath.SelfLink | io/fileutils.go:113-121 | A directory with a link to itself: Walk fails, filepath.Walk does not |
| WalkFilepath.RootLink | io/fileutils.go:182-182 | A root that is a link to a directory with a file: Walk reports the file, filepath.Walk does not |
| WalkFilepath.UnreadableDirectory | io/fileutils.go:128-143 | A directory that cannot be listed: Walk calls walkFn twice for it, filepath.Walk once |
| WalkFilepath.ForeignSentinel | io/fileutils.go:128-134 | A walkFn that answers with the standard library's SkipDir stops Walk with that error, and filepath.Walk returns nil |
| WalkerClass.Walker.WalkPath | io/fileutils.go:112-142 | The imperative walk, with its visited set updated in place, returns what WalkAt says and makes the same calls of walkFn |
| WalkerClass.Walker.WalkEntries | io/fileutils.go:145-176 | The loop over the names does what WalkNames says |
| WalkerClass.Walker.WalkRoot | io/fileutils.go:181-188 | Walk from an empty visited set |
| VersionSpec.ZeroIffSamePadded | version/version.go:37-60 | Two versions other than "development" compare equal if and only if their trimmed tokens padded with "0" are the same |
| VersionSpec.TokenOrder | version/version.go:68-91 | compareTokens decides the order by number, then no suffix before suffix, then text; except for different suffixless tokens with the same number, where it says below both ways |
| VersionText.SuffixesByText | version/version.go:84-91 | Different tokens with the same number and with suffixes: the one that is a proper prefix of the other, or has the smaller character where they first differ, is below |
| VersionText.NumberIs | version/version.go:93-107 | The number of a token is the value of the digits in front, zero without digits, the largest int beyond it; a suffix is what follows them |
| VersionText.NumeralsByLength | version/version.go:80-83 | Numerals without leading zeros within an int: the shorter is below, and of the same length the one with the smaller digit where they first differ |
| VersionText.HugeNumeralsClash | version/version.go:73-76 | Different numerals beyond an int are each below the other |
| VersionText.OneMoreToken | version/version.go:45-57 | A version with one more token compares to it as that token, trimmed, to "0" |
| VersionText.TrailingTokens | version/version.go:45-66 | A trailing ".0" changes nothing, and a trailing ".1" makes a version larger; so the longer one is at least the shorter, and not the other way around |
| VersionSpec.AntisymmetricUnlessTwins | version/version.go:27-61 | Compare(a, b) = -Compare(b, a) if and only if the first tokens that differ are not two suffixless tokens with the same number |
| VersionSpec.LeadingZeroTwins | version/version.go:84-85 | "1" and "01" are each below the other |
| VersionSpec.DevelopmentOnTop | version/version.go:31-34 | "development" is strictly above every other version, is at least every other, and no other is at least it |
| VersionSpec.Transitive | version/version.go:27-61 | Compare is transitive, and strictly so, if one of the two pairs is not twins |
| VersionSpec.TransitiveIff | version/version.go:27-61 | Of three versions in order, pair by pair, the first is above the last if and only if both pairs are twins at the same position, the outer two have the same token there, and what follows in the first is above what follows in the last; and with a strict premise the strict conclusion fails if and only if that rest is not below |
| VersionSpec.TransitivityFails | version/version.go:84-85 | "1.5" is below "01.3", that is below "1.4", and "1.5" is above "1.4" |
| VersionSpec.RegularTotalPreorder | version/version.go:27-66 | On versions whose trimmed tokens are non-empty and, if all digits, without leading zeros and within an int, Compare is an antisymmetric total preorder with results -1, 0, 1, and AtLeast is total and transitive |
| VersionSpec.SplitJoins | version/version.go:37-38 | Splitting gives dot-free tokens that join to the text |
| VersionSpec.JoinSplits | version/version.go:37-38 | Every list of dot-free tokens is the split of its join |
| VersionSpec.TrimCuts | version/version.go:48-52 | Trimming cuts white space off both ends and leaves none there |
| VersionClass.SplitNumberAndSuffix | version/version.go:93-107 | A token that starts with a digit is its longest run of leading digits followed by the suffix; any other token is "0" and itself |
| VersionClass.CompareTokensImpl | version/version.go:68-91 | The branches compute the comparison of tokens |
| VersionClass.Version.Compare | version/version.go:27-61 | The loop over token indexes computes the comparison of versions |
| VersionClass.Version.AtLeast | version/version.go:64-66 | True if and only if the argument does not compare above this version |
| WildcardSpec.SequentialIsSimultaneous | stringutils/wildcards.go:29-36 | On every pattern the sequential replacements equal one simultaneous substitution of each character |
| WildcardSpec.TranslationText | stringutils/wildcards.go:19-27 | The emitted text is that substitution between anchors, with a wildcard after a final slash or backslash |
| WildcardSpec.TranslationParses | stringutils/wildcards.go:19-27 | For patterns without `( ) { } ?` and the bar in which every backslash is followed by a closing bracket, those without backslashes among them, the text parses to literals and newline-free stars between anchors, one for each character |
| WildcardSpec.PiecesMatchGlob | stringutils/wildcards.go:15-15 | Those pieces match the rest of a string if and only if the wildcard pattern means it |
| WildcardSpec.MatchIsGlob | stringutils/wildcards.go:9-16 | For such patterns MatchWildcardPattern reports no error and matches exactly the strings the pattern means: a star is any newline-free run, a final slash implies one |
| WildcardSpec.GlobStar | stringutils/wildcards.go:21-22 | The meaning of a star in closed form: some newline-free prefix is skipped |
| WildcardBackslash.MeaningKeptIff | stringutils/wildcards.go:29-36 | For every pattern without `( ) { } ?` and the bar whose translation is in the part of the syntax modelled, MatchWildcardPattern matches exactly the strings the pattern means if and only if every backslash is followed by a closing bracket |
| WildcardBackslash.BackslashChangesMeaning | stringutils/wildcards.go:29-36 | An instance: the pattern of a backslash and a star matches the empty string and not a backslash |
| Wildcards.EscapeSpecialCharsImpl | stringutils/wildcards.go:29-36 | The loop puts a backslash in front of every special character and changes nothing else |
| Wildcards.WildcardPatternToRegExpImpl | stringutils/wildcards.go:19-27 | The steps give the translation, which for the patterns that keep their meaning parses to the pattern's pieces between anchors |

## Left out

- RunnerClass.Runner.NotifyFinished: is one atomic step, although `Cancel` and the timer call it without the lock; two such calls interleaved inside it are not modelled.
- RunnerTheorems.EveryTaskRunsExactlyOnce: assumes that task functions and error handlers return; one that panics ends the program.
- RunnerTheorems.CounterLaw: is stated for small runners; beyond 2^32 calls the words wrap around.
- RunnerProgress.WindDown: needs the channel to be closed; workers of a runner that is never told Done wait for more tasks.
- RunnerReturns.CancelReturnsIff: is about Cancel(false); Cancel(true) closes the channel itself, once the calling protocol lets it.
- WildcardBackslash.MeaningKeptIff: covers literals, escaped punctuation, dots, anchors, stars and pluses; groups, alternation, repetition counts, character classes (a backslash before an opening bracket) and letter escapes (a backslash before a letter or digit) are not modelled, nor invalid UTF-8.
- LruRetention.KeptIff: is about histories without removals, expiry and a negative Size; for these the lemmas beside it say for each operation which keys stay.
- RunnerSizes.SetMaxParallelSets: is about calls that do not overlap; for overlapping ones `MaximumIsRequested` says less.
- FanoutProofs.NoDeadlock: a consumer that reads for ever with an empty buffer, or after the end of file, is not stopped; `FanoutProgress.RunsAreBounded` counts such reads.
- Thread identifiers passed to task functions, `GetVersion`, and the bounded constructor and exported wrappers of the runner: they would only add easy members.
- That the number of threads reaches a new maximum: the source adds threads before it stores the value and counts threads that have left, so it does not promise it.
- The clock is an argument of the cache operations, and the runner's timer may fire at any time.
- `lru/lru.go` is a mutex around each operation; operations are atomic in the model, and `OnEvicted` does not call back into the cache.
- The `close` calls and goroutine bodies of `ReadAll` are steps of the transition system; only its collecting loop is also an object with mutable fields.
- Channels, `sync.Once`, `sync.WaitGroup`, `io.Pipe`, `io.Copy`, `filepath.EvalSymlinks`, `os.Stat` and `regexp` are modelled by their documented behaviour.
- The file system is static and root paths are clean; links are given by the real location they resolve to and by how the text gets there, and directory entries by the order in which they are read. A relative link with more ".." than there are directories above it, and the limit on the number of links in one path, are not modelled. Of permissions only the one to list a directory is. `walkFn` is a function of all its calls so far.
- Version strings are sequences of code points; 64-bit ints.
- `fanout/reader.go`, the rest of `io/`, `crypto/`, `unarchive/`, `http/`, `log/`, `datastructures/` and `safeconvert/` are not part of this model: library wrappers, operating-system plumbing or one-branch facts.
