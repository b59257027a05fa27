# Proofs about hku_utils

This project models the stateful components of the C++ library hku_utils in Dafny and proves
what they keep over whole runs: the timer manager, the resource pools for threads and for
coroutines, the two LRU caches, and beside them base64, MD5, the snowflake id generator, the
parts of a TimeDelta and the schema upgrade driver. `dafny verify dfyconfig.toml` checks it.

## How the model is built

- Each component that changes state is a class whose methods follow the source method by
  method. Where several threads or coroutines use the object, a second module gives a
  transition system (`State`, `Step`, `Enabled`, `Apply`) with one step for each section that
  runs under the lock, or for what a coroutine does between two suspensions; the timer
  detector's test of the stop flag, which it makes without the lock, is a step of its own. The
  methods are proved to make exactly these steps, and the theorems about runs are about every
  interleaving.
- Loops that compute a value (base64, MD5, the timer's next instant) are methods proved equal
  to a recursive function; the theorems are about that function.
- Clock readings, the success of a resource's constructor, the success of a push into a
  lock-free queue, the order of an unordered container and the choice among equal entries of a
  priority queue are inputs of the steps. Nothing is assumed about them unless a theorem says so.
- Fields named `history` and `world` are records the model keeps: which runs were submitted,
  which handles are alive, which resources have been deleted.
- Instants are microseconds; a day is 86 400 000 000 of them; midnights are its multiples.

| file | source |
|---|---|
| TimerSchedule, TimerSystem, TimerManager, TimerSpacing, TimerRemoval, TimerProgress, TimerDates, TimerExamples | `hikyuu/utilities/TimerManager.h` |
| Resources | what both kinds of pools share |
| PoolSystem, PoolEffects, ResourcePool | `hikyuu/utilities/ResourcePool.h` (both classes; `versioned` tells which) |
| AsioPoolSystem, AsioEffects, AsioWakeups, AsioRoom, ResourceAsioPool | `hikyuu/utilities/ResourceAsioPool.h` (both classes) |
| RecencyList, Lru11Cache, Lru11Recency, LruCache | `hikyuu/utilities/LRUCache11.h`, `hikyuu/utilities/LruCache.h` |
| Base64, Base64Values | `hikyuu/utilities/base64.cpp` |
| Md5Block, Md5Padding, Md5, Md5Answers | `hikyuu/utilities/md5.cpp` |
| Snowflake | `hikyuu/utilities/snowflake.h` |
| TimeDelta | `hikyuu/utilities/datetime/TimeDelta.cpp` |
| DBUpgrade | `hikyuu/utilities/db_connect/DBUpgrade.cpp` |

## Where the code does less than its documentation says

The model follows the code. For each of these there is an input or a run on which the
documented behaviour fails, and the exact condition under which it holds.

- The daily window of a timer may be left: rounding a first run up to the grid can pass
  `end_time`, and a later run can fall before the window when the clock has moved past
  midnight (`FirstRunMayLeaveWindow`, `LaterRunMayLeaveWindow`; `FirstRunInsideWindowIff`,
  `NextPointInWindowIff`, and over runs `WindowsAreKeptIff`).
- `addFuncAtTimeEveryDay` checks its date range and then registers a timer without one
  (`EveryDayRunsOutsideRange`). A run lies in the range exactly when its day does, which is
  today or tomorrow for a first run and tomorrow for a later one (`FirstRunInRangeIff`,
  `NextRunInRangeIff`, `RestartInRangeIff`); the timer stays until its user removes it
  (`EveryDayTimerStays`).
- A stopped manager may still submit one run (`StoppedManagerMayRun`), exactly the one
  iteration that its detector was let into before the stop (`StoppedManagerSubmitsNothing`).
- A removed timer may run once more (`RemovedTimerMayRun`). It does so exactly when the
  detector pops its entry, which is still queued, before a stop clears the queue, and never
  twice (`RemovedTimerRunsOnceMoreIff`, `AtMostOneRunAfterRemoval`).
- A restart gives a daily timer a second run on the day of an earlier one (`RestartMayRepeatDay`)
  exactly when it happens on that day and not after the timer's time of day
  (`RestartRepeatsDayInRunIff`).
- `incVersion` leaves idle resources of the old version, exactly when it is called while
  resources are idle (`VersionsStayCurrentIff`), and `ResourceVersionPool` hands such a resource
  out exactly when it is at the front of the idle queue (`IncVersionMayGrantStale`,
  `GrantIsStaleIff`).
- A thread may sleep on beside room for a new resource. There are three ways to get there: a
  returned resource is deleted, the idle resource it was woken for is gone when it looks, or
  the maximum is raised (`DeletionMayStrandWaiter`, `FlushMayStrandWaiter`,
  `LargerMaximumMayStrandWaiter`), and no others (`NobodyIsStrandedIff`).
- The coroutine pools register a closer only when a resource is created, so the destructor
  leaves reused handles pointing to the dead pool (`DestroyMayMissHandle`,
  `DestroyMissesReusedHandlesIff`).
- "A woken waiter surely gets a resource" is false: another `get` may come first
  (`WokenWaiterMayFindNothing`). `WokenWaitersAreServedIff` names the steps that take a
  resource from a woken waiter, for both coroutine pools.
- A wakeup can be spent on a waiter that has just expired (`ExpiredWaiterSwallowsWakeup`); no
  other step leaves an idle resource unnoticed beside a waiter (`NoWakeupIsLostIff`).
- `_batch_update_dirty_nodes` moves one key, the dirty one nearest the tail, not all that were
  read; a key that was read can be evicted (`PromotionMovesOneEntry`, `SurvivesInsertIff`,
  `ReadKeyMayBeEvicted`).
- A waiter of a coroutine pool may stay in the queue beside room for a new resource
  (`WaiterMayStayBesideRoom`); the steps that lead there are named in
  `NobodyWaitsBesideRoomIff`.
- `lru11::Cache` evicts when it reaches `maxSize + elasticity`, not when it passes it
  (`EvictsAtLimit`, `InsertEvictsIff`); `EvictsAsDocumentedIff` says for which sizes that makes
  a difference.
- The loop of `base64_encode` does not end for inputs of 2^32 bytes and more (`LoopEndsIff`).
- `md5` keeps 48 bits of the bit length where RFC 1321 keeps 64 (`PaddingFollowsRfcIff`).
- An upgrade that is cut short after a script, before the version is recorded, is out of step
  with its log (`InterruptedCallIsConsistentIff`), and the next call executes all scripts since
  the recorded version again, the creation script included (`CutCallRunsScriptsAgain`).
- A failing query for the version is swallowed, and the module is created once more
  (`FailedQueryIsHarmlessIff`).

## Model

| member | source | states |
|---|---|---|
| TimerSystem.QueueAndTableAgree | hikyuu/utilities/TimerManager.h:66-172 | in every state of every run of add, remove, detect, stop and start steps, the queue has at most one entry per id and only ids of the table, and while running exactly one entry for each timer |
| TimerSystem.DetectorFindsItsTimer | hikyuu/utilities/TimerManager.h:346-365 | the popped id is always in the table and the sentinel instant is never queued, so neither early exit of the detector is ever taken |
| TimerSystem.FiringIsEarliestAndDue | hikyuu/utilities/TimerManager.h:346-368 | in any run a step submits exactly the timer of an entry that no other precedes, only when it is due at the step's first clock reading, and nothing otherwise |
| TimerSystem.CountsAgree | hikyuu/utilities/TimerManager.h:323-377 | over any run with restarts: submissions plus remaining repeats are the repeats asked for while a finite timer is in the table and not removed, never more submissions than asked, an infinite counter never moves, at most one submission after removal |
| TimerSystem.AtMostOneRunAfterRemoval | hikyuu/utilities/TimerManager.h:323-329 | from the step that removes a timer on, however the run continues, it is submitted at most once more |
| TimerSystem.DroppedIff | hikyuu/utilities/TimerManager.h:370-405 | the detector erases a timer if and only if it pops that timer's entry as due and the timer was removed, is finite and makes its last run, or would next run past its end date |
| TimerSystem.RunsAreOrdered | hikyuu/utilities/TimerManager.h:359-408 | when no detector step's second reading is before its first, within one running period the runs of a timer are strictly ordered and its queued run comes after all of them |
| TimerSystem.RunsAreSpaced | hikyuu/utilities/TimerManager.h:379-399 | between two starts the due instants of one timer strictly increase, by at least a duration when it is neither daily nor windowed, and two submissions of a daily timer are on different calendar days |
| TimerSpacing.ConsecutiveRunsAreSpaced | hikyuu/utilities/TimerManager.h:379-399 | of two consecutive submissions of one timer between two starts, the later is due exactly a duration after the earlier was due, or at the reading at which the earlier was made if that is later; past the window's end on that day it is due at the start of the next day's window, and a daily timer at its time on the day after |
| TimerSpacing.NextPointIsSuccessor | hikyuu/utilities/TimerManager.h:379-399 | the next instant that the detector queues is just that one |
| TimerProgress.DailyTimersKeepTheirTime | hikyuu/utilities/TimerManager.h:395-399 | in every run, restarts and any clock included, every queued and every past run of a daily timer is at its time of day |
| TimerProgress.WindowsAreKeptIff | hikyuu/utilities/TimerManager.h:380-393 | in every run: all queued and past runs of timers with a window have been inside the window of some day if and only if no step so far rounded a first run past the window's end or met the clock before the window of a later day than planned |
| TimerProgress.NextPointInWindowIff | hikyuu/utilities/TimerManager.h:380-393 | the next run is inside the window of some day if and only if the clock or the planned instant has reached today's window |
| TimerProgress.RestartRepeatsDayInRunIff | hikyuu/utilities/TimerManager.h:101-114 | in any run, a restart queues a daily timer for the calendar day of a submission it has already made if and only if it happens on that day and not after the timer's time of day |
| TimerProgress.StoppedManagerSubmitsNothing | hikyuu/utilities/TimerManager.h:153-165 | from any state of a stopped manager until the next start nothing is submitted, except at most one run by an iteration of the detector that had tested the flag before the stop |
| TimerExamples.StoppedManagerMayRun | hikyuu/utilities/TimerManager.h:337-368 | a run of four steps in which such an iteration submits a timer added after the stop |
| TimerExamples.RestartMayRepeatDay | hikyuu/utilities/TimerManager.h:101-114 | a run with a stop and a start in which a daily timer is submitted twice on one day |
| TimerExamples.LaterRunMayLeaveWindow | hikyuu/utilities/TimerManager.h:380-393 | a run in which a timer with a window from 9:00 to 17:00 is queued for 3:00 |
| TimerRemoval.RemovedTimerRunsOnceMoreIff | hikyuu/utilities/TimerManager.h:323-377 | for a timer removed while queued: at any later state its submissions have grown by one if and only if its entry was popped when due before a stop or start cleared the queue; until then the entry stays as it is, afterwards the timer is out of the queue for ever |
| TimerRemoval.RemovedUnqueuedTimerNeverRuns | hikyuu/utilities/TimerManager.h:323-329 | a timer removed while it is not queued, in a stopped manager, is never submitted again |
| TimerExamples.RemovedTimerMayRun | hikyuu/utilities/TimerManager.h:323-329 | a run in which a timer is removed before it is due and then submitted |
| TimerSystem.NewIdUnique | hikyuu/utilities/TimerManager.h:413-435 | the first free id after the current one, in wraparound order, is determined |
| TimerSystem.FreeIdExists | hikyuu/utilities/TimerManager.h:413-435 | a table with fewer than INT_MAX timers leaves an id in 0..INT_MAX free |
| TimerManagement.TimerManager.GetNewTimerId | hikyuu/utilities/TimerManager.h:413-435 | the wraparound search ends and returns the first unused id after the current one, or -1 exactly when the table is full |
| TimerManagement.TimerManager.AddTimer | hikyuu/utilities/TimerManager.h:466-536 | a new timer enters table and queue at its first instant under an unused id; it fails, changing nothing, exactly when the plan has expired or the table is full |
| TimerManagement.TimerManager.Poll | hikyuu/utilities/TimerManager.h:338 | the loop goes on exactly while the stop flag is clear, and nothing else is touched |
| TimerManagement.TimerManager.DetectOnce | hikyuu/utilities/TimerManager.h:337-410 | once let in by the test of the stop flag, the body of the loop makes the detect step and submits at most one run |
| TimerManagement.TimerManager.RemoveTimer | hikyuu/utilities/TimerManager.h:323-329 | removal only clears the repeat count |
| TimerManagement.TimerManager.Start | hikyuu/utilities/TimerManager.h:66-150 | the loop over the table rebuilds the queue with one entry for every timer that is still valid and drops exactly the others |
| TimerManagement.TimerManager.Stop | hikyuu/utilities/TimerManager.h:153-161 | stopping empties the queue and keeps the table |
| TimerManagement.AddFuncRequest | hikyuu/utilities/TimerManager.h:205-222 | the request passes if and only if the dates are there and in order, the times are in order within a day, and repeat and duration are positive; the plan then carries these arguments with the dates cut to midnight |
| TimerManagement.RequestsPassIff | hikyuu/utilities/TimerManager.h:269-302 | which requests for one instant and for every day pass, by the instant, the dates and the time of day |
| TimerManagement.DelayedRunsOnceAfterDelay | hikyuu/utilities/TimerManager.h:253-257 | a delayed timer is added if and only if the delay is positive; it asks for one run, due exactly the delay after now (after midnight on the earliest calendar day) |
| TimerManagement.RepeatedRunsFirstAfterDuration | hikyuu/utilities/TimerManager.h:235-241 | a repeated timer is added if and only if repeat and duration are positive; it asks for that many runs, the first due exactly a duration after now (after midnight on the earliest calendar day) |
| TimerManagement.AtTimeRunsAtThatInstant | hikyuu/utilities/TimerManager.h:269-276 | a timer asked for at an instant first runs at that very instant |
| TimerManagement.EveryDayIgnoresDates | hikyuu/utilities/TimerManager.h:290-302 | whatever date range is given, the first run is the next occurrence of the time of day |
| TimerDates.FirstRunInRangeIff | hikyuu/utilities/TimerManager.h:290-302 | the request passes, and its first run lies in the given dates if and only if they contain today, or tomorrow once the time of day has passed |
| TimerDates.NextRunInRangeIff | hikyuu/utilities/TimerManager.h:395-399 | after a run the timer is queued inside the dates if and only if they contain tomorrow |
| TimerDates.RestartInRangeIff | hikyuu/utilities/TimerManager.h:101-114 | a restart queues it inside the dates if and only if they contain today, or tomorrow once the time of day has passed |
| TimerDates.EndlessTimersStay | hikyuu/utilities/TimerManager.h:370-405 | over every run, restarts included, a timer without a limit on its runs and without an end date stays in the table unchanged until its user removes it |
| TimerDates.EveryDayTimerStays | hikyuu/utilities/TimerManager.h:290-302 | so does every timer of addFuncAtTimeEveryDay from the step that adds it, and while the manager runs it is queued |
| TimerExamples.EveryDayRunsOutsideRange | hikyuu/utilities/TimerManager.h:290-302 | a run in which a request for the first two days is submitted on the sixth |
| TimerSchedule.FirstTimePoint | hikyuu/utilities/TimerManager.h:468-519 | the branches of _addFunc compute the specified first instant or the specified refusal |
| TimerSchedule.RestartTimePoint | hikyuu/utilities/TimerManager.h:90-136 | the branches of start() compute the specified instant or mark the timer invalid |
| TimerSchedule.RestartAgreesWithAdd | hikyuu/utilities/TimerManager.h:93-136 | start() and _addFunc keep the same timers and compute the same instants |
| TimerSchedule.AddAcceptsIff | hikyuu/utilities/TimerManager.h:468-485 | which plans are accepted: the last day is not over, and a one-shot timer's instant has not passed |
| TimerSchedule.RestartKeepsIff | hikyuu/utilities/TimerManager.h:90-105 | which timers a restart keeps: those with runs left whose last day is not over, and a one-shot timer only before its instant |
| TimerSchedule.FirstRunWithoutWindow | hikyuu/utilities/TimerManager.h:500-501 | an interval timer without a window first runs a duration after now, or after its start time on its start date if that is today or later; the same for a restart |
| TimerSchedule.FirstRunWithWindow | hikyuu/utilities/TimerManager.h:500-518 | with a window it first runs at the least start + k * duration that is not before that instant, or at the next day's start when that instant is past the end; the same for a restart |
| TimerSchedule.FirstRunOfDaily | hikyuu/utilities/TimerManager.h:487-498 | a daily timer is added at the least instant of its time of day that is neither before now nor before its start date; the same for a restart |
| TimerSchedule.AlignIsLeastGridPoint | hikyuu/utilities/TimerManager.h:503-517 | with a window, a raw instant whose time of day is not past the end moves to the least start + k * duration that is not before it, overshooting the end by less than one duration; any other moves to the next day's start |
| TimerSchedule.FirstRunInsideWindowIff | hikyuu/utilities/TimerManager.h:503-517 | the first run is inside some day's window if and only if rounding up to the grid does not pass the end of the window |
| TimerExamples.FirstRunMayLeaveWindow | hikyuu/utilities/TimerManager.h:500-518 | a timer with a window from 9:00 to 10:00 and a step of 40 minutes, added at 9:01, is queued for 10:20 |
| TimerSchedule.GridIndexFitsIntIff | hikyuu/utilities/TimerManager.h:513 | the grid index always fits an int if and only if the duration is at least 41 microseconds |
| TimerSchedule.DailyPointIsNextOccurrence | hikyuu/utilities/TimerManager.h:487-498 | a daily timer first runs at the earliest occurrence of its time of day that is neither before now nor before its start date |
| TimerSchedule.NextPointIsLater | hikyuu/utilities/TimerManager.h:380-399 | when the clock is not before the due instant, the next instant is strictly later than the last, and for a daily timer later than now |
| TimerSchedule.NextRunIsLeast | hikyuu/utilities/TimerManager.h:380-393 | the next run of an interval timer is the least instant that is not past and a duration after the run that was due; with a window, while that is not past today's end, and else tomorrow's start |
| TimerSchedule.NextPointKeepsDistance | hikyuu/utilities/TimerManager.h:381-393 | successive instants are at least a duration apart if and only if there is no window or the step does not reach past tomorrow's start |
| TimerSchedule.NextPointRespectsWindowIff | hikyuu/utilities/TimerManager.h:389-393 | the next run is in today's window or at tomorrow's start if and only if the step or the clock has reached today's start |
| TimerSchedule.NextPointOfDaily | hikyuu/utilities/TimerManager.h:395-399 | a daily timer keeps its time of day and lands on the day after now |
| TimerSchedule.RestartRepeatsDayIff | hikyuu/utilities/TimerManager.h:101-114 | the instant a restart computes for a daily timer is on the day of an earlier instant not before its start if and only if the restart is on that day and not after the time of day |
| PoolSystem.PoolConservesResources | hikyuu/utilities/ResourcePool.h:122-288 | in every reachable state each resource ever built is idle, handed out or freed and only one of them; while the pool lives its count is idle plus handed out, the closer set is exactly the closers of the live handles and all point to the pool; after the destructor none does |
| PoolSystem.EverythingIsFreedExactlyOnce | hikyuu/utilities/ResourcePool.h:75-91 | once the pool is destroyed and every handle dropped, each resource has been deleted exactly once |
| PoolSystem.GrowthRespectsLimits | hikyuu/utilities/ResourcePool.h:126-142 | in any run no step raises the count above the maximum then in force, nor the idle queue above its limit |
| PoolEffects.GetGrants | hikyuu/utilities/ResourcePool.h:122-149 | get hands out the front of the idle queue; on an empty queue it returns nothing at a positive maximum, else builds one resource from the current parameters, and changes nothing when that fails |
| PoolEffects.GetWaitForGrants | hikyuu/utilities/ResourcePool.h:156-196 | getWaitFor does the same, but waits at the maximum |
| PoolEffects.WakeGrants | hikyuu/utilities/ResourcePool.h:156-196 | a waiting thread leaves with the front of the idle queue if there is one, else with nothing after its timeout, and else waits on |
| PoolEffects.ReturnKeepsIff | hikyuu/utilities/ResourcePool.h:611-629 | a returned resource joins the back of the idle queue if and only if there is room for it and it is of the pool's version, and is deleted and no longer counted if and only if not |
| PoolEffects.UnboundReleaseFrees | hikyuu/utilities/ResourcePool.h:245-265 | a handle that no longer points to the pool deletes its resource and touches nothing else |
| PoolEffects.SetParamChanges | hikyuu/utilities/ResourcePool.h:408-416 | a value of another type is refused and the same value changes nothing; else the parameter has the new value, the others their old ones, the version is one higher and all idle resources are deleted |
| PoolEffects.SetParameterChanges | hikyuu/utilities/ResourcePool.h:422-427 | the parameters are replaced, the version is one higher and all idle resources are deleted |
| PoolEffects.ReturnsDeleteOnlyIf | hikyuu/utilities/ResourcePool.h:611-629 | in any run a resource is deleted on its return to the living pool if and only if the idle queue is full or the resource is of an older version |
| PoolEffects.GetSucceedsIff | hikyuu/utilities/ResourcePool.h:122-149 | in any run get grants a resource if and only if there is an idle one, or one can be built and fewer handles than the maximum are out |
| Resources.UpdatedStores | hikyuu/utilities/Parameter.h:328-345 | storing a parameter fails exactly for another type than it has; else just this one parameter changes |
| Resources.SameTypeIff | hikyuu/utilities/Parameter.h:341-343 | two values have the same type exactly when they are of the same alternative |
| PoolSystem.LimitsAreKept | hikyuu/utilities/ResourcePool.h:122-196 | in runs that do not change the limits, idle never exceeds its limit, nor the count a positive maximum |
| PoolSystem.ParametersStayFresh | hikyuu/utilities/ResourcePool.h:408-438 | in every run, incVersion included, all idle resources, and all handles of the pool's version, were built from the parameters in force |
| PoolSystem.GrantsUseCurrentParameters | hikyuu/utilities/ResourcePool.h:459-535 | whatever get or getWaitFor grants, in any run, was built from the parameters in force at that moment |
| PoolSystem.GrantsCarryCurrentVersion | hikyuu/utilities/ResourcePool.h:459-535 | as long as incVersion is only called on an empty idle queue, whatever is granted carries the pool's version |
| PoolSystem.VersionsStayCurrentIff | hikyuu/utilities/ResourcePool.h:447-450 | in every run: all idle resources have carried the pool's version up to some state if and only if incVersion has only been called on an empty idle queue |
| PoolSystem.IdleGoesStaleOnlyByIncVersion | hikyuu/utilities/ResourcePool.h:447-450 | a step leaves idle resources behind the version if and only if it is incVersion and there are idle ones |
| PoolSystem.GrantIsStaleIff | hikyuu/utilities/ResourcePool.h:482-486 | in any run a granted resource is behind the pool's version if and only if it was taken from the front of the idle queue and that resource was |
| PoolSystem.OldResourcesNeverReturn | hikyuu/utilities/ResourcePool.h:611-629 | however the run goes on after a parameter change, no resource built before it is ever idle again |
| PoolSystem.IncVersionMayGrantStale | hikyuu/utilities/ResourcePool.h:447-487 | a run in which get hands out a resource older than the pool's version |
| PoolSystem.IdleResourcesWakeWaiters | hikyuu/utilities/ResourcePool.h:156-196 | in every interleaving, a blocked thread that has not been notified means that the idle queue is empty |
| PoolSystem.ReturnWakesWaitersIff | hikyuu/utilities/ResourcePool.h:271-288 | a returned resource notifies the blocked threads if and only if the pool keeps it |
| PoolSystem.StepStrandsIff | hikyuu/utilities/ResourcePool.h:156-196 | from any reachable state without one, a step leaves a sleeping thread that nobody notified beside room if and only if it deletes a returned resource and so makes room, raises the maximum above the count, or is a wakeup that blocks again beside room |
| PoolSystem.NobodyIsStrandedIff | hikyuu/utilities/ResourcePool.h:156-196 | in every run: no thread has slept unnotified beside room up to some state if and only if no step so far was one of these three |
| PoolSystem.DeletionMayStrandWaiter | hikyuu/utilities/ResourcePool.h:277-280 | a run in which a returned resource is deleted beside a sleeping thread |
| PoolSystem.FlushMayStrandWaiter | hikyuu/utilities/ResourcePool.h:163-174 | a run in which the resource is kept and the thread notified, but released before the thread looks |
| PoolSystem.LargerMaximumMayStrandWaiter | hikyuu/utilities/ResourcePool.h:104-107 | a run in which the maximum is raised beside a sleeping thread |
| ResourcePools.ResourcePool.GetWaitFor | hikyuu/utilities/ResourcePool.h:156-196 | takes the front idle resource, builds one, blocks or fails, as the step does |
| ResourcePools.ResourcePool.Wake | hikyuu/utilities/ResourcePool.h:163-174 | a woken thread leaves with a resource exactly when one is idle under the lock |
| ResourcePools.ResourcePool.ReleaseIdleResource | hikyuu/utilities/ResourcePool.h:223-232 | the loop frees every idle resource in order and counts each down |
| ResourcePools.ResourcePool.SetParam | hikyuu/utilities/ResourcePool.h:408-416 | same value: nothing; other type: error; otherwise parameter, version and flush together |
| ResourcePools.ResourcePool.Destroy | hikyuu/utilities/ResourcePool.h:75-91 | unbinds exactly the registered closers and frees every idle resource |
| AsioPoolSystem.PoolConservesResources | hikyuu/utilities/ResourceAsioPool.h:100-272 | over every interleaving at the suspensions: the idle counter is the queue's length, the count is queue plus handed out and at most a positive maximum, the registered closers are those of the created live handles, and each resource is in exactly one place |
| AsioEffects.GetGrants | hikyuu/utilities/ResourceAsioPool.h:435-489 | get hands out the front of the idle queue if it is of the current version, and deletes it if not; without one it waits at a positive maximum, else builds one resource from the current parameters and registers its closer |
| AsioEffects.LeaveRemovesTimer | hikyuu/utilities/ResourceAsioPool.h:150-167 | a resumed coroutine takes just its own timer off the queue of waiters |
| AsioEffects.ResumeGrants | hikyuu/utilities/ResourceAsioPool.h:169-184 | then it takes the front of the idle queue if it was woken, and throws if that is missing or of an older version, or if the wait ran out |
| AsioEffects.ReturnKeepsIff | hikyuu/utilities/ResourceAsioPool.h:600-635 | a returned resource joins the back of the idle queue if and only if it is of the pool's version and the queue takes it, and is deleted if and only if not; the first waiter is woken unless the version differs |
| AsioEffects.SetParamChanges | hikyuu/utilities/ResourceAsioPool.h:374-383 | a value of another type is refused and the same value changes nothing; else the parameter has the new value, the others their old ones, the version is one higher and all idle resources are deleted |
| AsioEffects.SetParameterChanges | hikyuu/utilities/ResourceAsioPool.h:389-395 | the parameters are replaced, the version is one higher and all idle resources are deleted |
| AsioEffects.GetSucceedsIff | hikyuu/utilities/ResourceAsioPool.h:435-489 | in any run get grants at once if and only if the front is of the current version, or a resource can be built and a stale front or too few handles leave room for it |
| AsioPoolSystem.DestroyMissesReusedHandlesIff | hikyuu/utilities/ResourceAsioPool.h:76-129 | after the destructor a live handle still points to the pool if and only if it was not granted by creation |
| AsioPoolSystem.DestroyMayMissHandle | hikyuu/utilities/ResourceAsioPool.h:76-110 | a run that ends with a live handle pointing to the destroyed pool |
| AsioPoolSystem.WaitersStayInOrder | hikyuu/utilities/ResourceAsioPool.h:132-167 | in every reachable state the waiter queue is duplicate-free, in order of arrival, and holds every pending timer and no cancelled one |
| AsioPoolSystem.LeaveKeepsFifo | hikyuu/utilities/ResourceAsioPool.h:150-167 | removal by popping or by rebuilding the queue takes out just the one timer and keeps the order of the rest |
| AsioPoolSystem.GrantsAreCurrent | hikyuu/utilities/ResourceAsioPool.h:435-541 | in any run, even after incVersion, a granted resource has the pool's version and was built from its parameters |
| AsioPoolSystem.ParametersStayFresh | hikyuu/utilities/ResourceAsioPool.h:374-405 | idle resources are never newer than the pool, and were built from its parameters |
| AsioWakeups.ReturnWakesFirstWaiterIff | hikyuu/utilities/ResourceAsioPool.h:600-635 | a returned resource wakes the first waiter if and only if its handle is bound, it is not stale and that waiter has not just expired |
| AsioWakeups.WokenWaitersAreServedIff | hikyuu/utilities/ResourceAsioPool.h:517-534 | in every run of either pool: all woken waiters have been covered up to some state if and only if no step so far was one of those that take a resource from them |
| AsioWakeups.StepCoversIff | hikyuu/utilities/ResourceAsioPool.h:517-534 | from a reachable state in which the woken waiters are covered, a step leaves them uncovered if and only if it is a get with no fresh resource to spare, a wakeup with nothing new and fresh to grant, a flush, or a change of version, with somebody woken |
| AsioWakeups.CoveredIffAllServed | hikyuu/utilities/ResourceAsioPool.h:517-534 | the woken waiters are covered if and only if they all get a resource when they resume one after another, in whatever order |
| AsioWakeups.NoWakeupIsLostIff | hikyuu/utilities/ResourceAsioPool.h:243-272 | in every run of either pool: up to some state a pending waiter has meant no more idle resources than woken waiters if and only if no wakeup so far was swallowed by an expired waiter |
| AsioWakeups.StepKeepsWakeupsIff | hikyuu/utilities/ResourceAsioPool.h:243-272 | the step that breaks this is a kept resource whose first waiter has expired while another waits and every idle resource has its woken waiter |
| AsioRoom.NobodyWaitsBesideRoomIff | hikyuu/utilities/ResourceAsioPool.h:435-541 | in every run of either pool: no pending waiter has stood beside room for a new resource up to some state if and only if no step so far made room beside one |
| AsioRoom.StepMakesRoomIff | hikyuu/utilities/ResourceAsioPool.h:435-635 | from a reachable state without one, a step leaves a pending waiter beside room if and only if, with somebody still pending, it discards a stale front in a get that then fails to build or in a woken waiter, deletes a returned resource, or flushes idle ones |
| AsioRoom.WaiterMayStayBesideRoom | hikyuu/utilities/ResourceAsioPool.h:600-635 | a run in which a stale resource is deleted on return and the waiter is not woken |
| AsioWakeups.WokenWaiterMayFindNothing | hikyuu/utilities/ResourceAsioPool.h:169-174 | a run in which another get leaves a woken waiter with an exception |
| AsioWakeups.ExpiredWaiterSwallowsWakeup | hikyuu/utilities/ResourceAsioPool.h:255-266 | a run that ends with an idle resource, a pending waiter, and no wakeup under way |
| ResourceAsioPools.ResourceAsioPool.LeaveQueue | hikyuu/utilities/ResourceAsioPool.h:150-167 | the pop or the filtering loop leaves the waiters without the given timer |
| ResourceAsioPools.ResourceAsioPool.Get | hikyuu/utilities/ResourceAsioPool.h:435-489 | pops, discards a stale resource, creates or suspends, as the step does |
| ResourceAsioPools.ResourceAsioPool.ReturnResource | hikyuu/utilities/ResourceAsioPool.h:600-635 | keeps or deletes the resource and wakes at most the first waiter, as the step does |
| Lru11Cache.KeepsMostRecentKeys | hikyuu/utilities/LRUCache11.h:117-182 | after any history of calls the list is a prefix of the list a cache without evictions would hold, most recently touched first with the same values, and while the maximum is positive its size is at most maxSize + max(elasticity, 1) - 1 |
| Lru11Recency.HitMovesToFront | hikyuu/utilities/LRUCache11.h:143-152 | a hit moves its entry to the front with its value and keeps all others in order; a miss changes nothing |
| Lru11Recency.InsertPutsFirst | hikyuu/utilities/LRUCache11.h:117-129 | an insertion puts its key first with its value and keeps the others in order; only a new key evicts, and only from the back |
| Lru11Recency.ListIsInOrderOfLastTouch | hikyuu/utilities/LRUCache11.h:117-152 | after any history the keys stand in the order of the last call that inserted or hit them, latest first, and the keys inserted and not removed that are gone were last touched before all of these |
| Lru11Cache.HitsReturnLastInserted | hikyuu/utilities/LRUCache11.h:143-152 | after any history a hit returns the value last inserted for the key and not since removed; without a maximum every such key hits |
| Lru11Cache.EvictionKeepsExactlyMaxSize | hikyuu/utilities/LRUCache11.h:204-216 | an insertion that evicts leaves exactly the maxSize most recently touched keys |
| Lru11Cache.InsertEvictsIff | hikyuu/utilities/LRUCache11.h:204-216 | an insertion evicts if and only if the key is new, the cache is bounded, and the size reaches the computed limit and passes maxSize |
| Lru11Cache.EvictsAsDocumentedIff | hikyuu/utilities/LRUCache11.h:92-100 | an insertion evicts just when the size passes maxSize + elasticity, as documented, unless a new key brings a bounded cache above maxSize and to a size from the computed limit to maxSize + elasticity |
| Lru11Cache.EvictsAtLimit | hikyuu/utilities/LRUCache11.h:204-216 | with maxSize and elasticity 2 the fourth key leaves two |
| Lru11Cache.Cache.Insert | hikyuu/utilities/LRUCache11.h:117-129 | over nodes updated in place: the list becomes the specified one, and the map takes each key of the list to its own node and nothing else |
| Lru11Cache.Cache.TryGet | hikyuu/utilities/LRUCache11.h:143-152 | returns what the list holds for the key and moves it to the front |
| Lru11Cache.Cache.Remove | hikyuu/utilities/LRUCache11.h:173-182 | erases the key from list and map |
| Lru11Cache.Cache.Prune | hikyuu/utilities/LRUCache11.h:204-216 | the loop leaves the list alone below the limit and else keeps its first maxSize nodes |
| DirtyLruCache.AgreesWithMap | hikyuu/utilities/LruCache.h:74-233 | in every reachable state, resizing included, the keys are distinct, every entry carries the value last inserted, and the size is at most capacity + overflow unless the capacity is 0 |
| DirtyLruCache.HitsReturnLastInserted | hikyuu/utilities/LruCache.h:117-142 | after any history a hit returns the value last inserted for the key and not since removed |
| DirtyLruCache.UnlimitedCacheKeepsAll | hikyuu/utilities/LruCache.h:237-241 | in runs whose capacity stays 0 every key that was inserted and not removed since hits |
| DirtyLruCache.ReadsCommute | hikyuu/utilities/LruCache.h:117-142 | the state after any sequence of reads depends only on the set of keys read, and no read moves a key or changes a value |
| DirtyLruCache.MarkedAllAt | hikyuu/utilities/LruCache.h:117-142 | any sequence of reads sets the flags of exactly the keys read |
| DirtyLruCache.PromotionMovesOneEntry | hikyuu/utilities/LruCache.h:252-289 | a promotion moves exactly the dirty key nearest the tail to the front, cleans it, and keeps order and flags of all others |
| DirtyLruCache.InsertPromotesFirst | hikyuu/utilities/LruCache.h:74-89 | an insertion, of an old key too, first brings the dirty entry nearest the tail to the front and cleans it, then puts its own key before it and takes out that key's old entry; only a new key evicts, from the tail |
| DirtyLruCache.InsertedKeyIsFrontAndClean | hikyuu/utilities/LruCache.h:74-89 | the inserted key ends clean at the front and survives the pruning |
| DirtyLruCache.SurvivesInsertIff | hikyuu/utilities/LruCache.h:83-88 | which entries survive the insertion of a new key, if and only if, by their place after the promotion |
| DirtyLruCache.ReadKeyMayBeEvicted | hikyuu/utilities/LruCache.h:251-289 | of two keys that were read one is evicted by the next insertion |
| DirtyLruCache.LruCache.Insert | hikyuu/utilities/LruCache.h:74-89 | list and map keep the same distinct keys, and become promotion, then insertion, then pruning |
| DirtyLruCache.LruCache.BatchUpdateDirtyNodes | hikyuu/utilities/LruCache.h:252-289 | the scan from the tail and the splice make the promotion |
| DirtyLruCache.LruCache.PruneIfNeeded | hikyuu/utilities/LruCache.h:237-249 | the loop keeps the first capacity keys once capacity + overflow is exceeded |
| DirtyLruCache.LruCache.TryGet | hikyuu/utilities/LruCache.h:133-142 | returns the stored value and only sets the flag |
| Base64.DecodeUndoesEncode | hikyuu/utilities/base64.cpp:116-248 | for every byte string and both alphabets decoding gives it back, also when the padding has been stripped, and the text has 4 * ceil(n / 3) characters |
| Base64.DecodeUndoesLineBreaks | hikyuu/utilities/base64.cpp:78-109 | with line breaks at any positive width, those of PEM and MIME included, decoding with their removal gives the bytes back |
| Base64.EncodeUndoesDecodeIff | hikyuu/utilities/base64.cpp:169-248 | encoding what a text decodes to gives the text back if and only if the text is canonical for that alphabet |
| Base64.LinesHaveWidth | hikyuu/utilities/base64.cpp:78-94 | newlines stand exactly after every width characters |
| Base64.AlphabetsAreUsable | hikyuu/utilities/base64.cpp:43-76 | pos_of_char inverts both tables, which hold no padding character and no newline |
| Base64Values.CharacterOf | hikyuu/utilities/base64.cpp:43-52 | the 64 characters of both alphabets, which differ in '+' and '/' against '-' and '_', and their pads '=' and '.' |
| Base64Values.EncodedCharacter | hikyuu/utilities/base64.cpp:139-163 | character m of group k of the encoded text is the table's character for bits 6 * m to 6 * m + 5 of bytes 3 * k to 3 * k + 2, or the pad where no byte has a bit |
| Base64Values.DecodesIff | hikyuu/utilities/base64.cpp:186-243 | a text decodes if and only if no group has just one character and every character is of an alphabet, a pad at the third or fourth place of a group, or behind a pad |
| Base64Values.DecodedGroup | hikyuu/utilities/base64.cpp:200-238 | the bytes of a group are the upper one, two or three bytes of the 24 bits its characters hold, by the place of the first pad |
| Base64.RemovesOnlyNewlines | hikyuu/utilities/base64.cpp:178-184 | exactly the newlines go, wherever they stand, and the rest keeps its order |
| Base64.CounterIs | hikyuu/utilities/base64.cpp:139-162 | the 32-bit pos is 3 * k modulo 2^32 after k iterations |
| Base64.LoopEndsIff | hikyuu/utilities/base64.cpp:139-163 | pos reaches the length after some number of iterations if and only if the length is below 2^32 |
| Base64.Base64Encode | hikyuu/utilities/base64.cpp:116-166 | the loop over pos computes the encoding, for every length that fits 32 bits |
| Base64.DecodeLoop | hikyuu/utilities/base64.cpp:186-248 | the loop computes the decoding, or throws on the same texts |
| Base64.InsertLinebreaks | hikyuu/utilities/base64.cpp:78-94 | inserting in place computes the lines |
| Base64.Base64EncodePem | hikyuu/utilities/base64.cpp:101-104 | lines of 64 characters, from which decoding with removal of line breaks gives the bytes back |
| Base64.Base64EncodeMime | hikyuu/utilities/base64.cpp:106-109 | lines of 76 characters, from which decoding with removal of line breaks gives the bytes back |
| Base64.EraseNewlines | hikyuu/utilities/base64.cpp:178-184 | erase-remove keeps everything but the newlines |
| Md5Block.ScrambleBlock | hikyuu/utilities/md5.cpp:79-168 | for every state and block, and whatever the word arithmetic is, the 64 written-out updates are the 64 numbered steps of section 3.4 of RFC 1321 with its word order, shifts and constants |
| Md5.FF | hikyuu/utilities/md5.cpp:45-50 | the in-place update is b + ((a + F(b,c,d) + x + t) <<< s) on 32-bit words, as the RFC writes it |
| Md5.BitsOfF | hikyuu/utilities/md5.cpp:15-17 | under any mask F is y where x is set and z where it is clear |
| Md5.BitsOfG | hikyuu/utilities/md5.cpp:21-23 | under any mask G is x where z is set and y where it is clear |
| Md5.BitsOfH | hikyuu/utilities/md5.cpp:27-29 | under any mask H is x where y and z agree and its complement where they differ |
| Md5.BitsOfI | hikyuu/utilities/md5.cpp:33-35 | under any mask I is the complement of y where x is set or z clear, and y elsewhere |
| Md5.BitsOfRotation | hikyuu/utilities/md5.cpp:39-41 | the rotation moves bit i to bit i + n modulo 32 |
| Md5.StartBytes | hikyuu/utilities/md5.cpp:235-238 | the start words are the bytes 01 23 45 67, 89 ab cd ef, fe dc ba 98 and 76 54 32 10, low-order byte first |
| Md5.NextAdds | hikyuu/utilities/md5.cpp:258-263 | each old word is added to the scrambled one |
| Md5.DigestContinues | hikyuu/utilities/md5.cpp:243-264 | the digest starts from the start words, and every further block is scrambled onto what the blocks before it have left |
| Md5.OutputBytes | hikyuu/utilities/md5.cpp:266-285 | output byte 4 * k + j is byte j of word k |
| Md5Answers.EmptyDigest | hikyuu/utilities/md5.cpp:170-286 | the digest of the empty message is d41d8cd98f00b204e9800998ecf8427e, as appendix A.5 of RFC 1321 has it |
| Md5Answers.AbcDigest | hikyuu/utilities/md5.cpp:170-286 | the digest of "abc" is 900150983cd24fb0d6963f7d28e17f72, as appendix A.5 of RFC 1321 has it |
| Md5.SplitUndoesJoin | hikyuu/utilities/md5.cpp:245-285 | the four bytes put out for a word, low-order byte first, are the bytes such a word is decoded from |
| Md5.JoinUndoesSplit | hikyuu/utilities/md5.cpp:245-285 | decoding the four bytes put out for a word gives the word |
| Md5.LoadBlock | hikyuu/utilities/md5.cpp:245-250 | the inner loop loads the sixteen words of a block |
| Md5.Md5 | hikyuu/utilities/md5.cpp:170-286 | for every input the sixteen output bytes are those of chaining all blocks of the padded message; a null input is refused |
| Md5Padding.PaddedLength | hikyuu/utilities/md5.cpp:173-179 | the padded length is a multiple of 64 with 9 to 72 bytes added |
| Md5Padding.ZerosAreLeast | hikyuu/utilities/md5.cpp:173-175 | the zeros added are the least number that leaves eight bytes in the last block |
| Md5Padding.PadBuffer | hikyuu/utilities/md5.cpp:181-233 | the loops fill the buffer with message, 0x80, zeros and length |
| Md5Padding.ShortPadded | hikyuu/utilities/md5.cpp:181-233 | a message of fewer than 32 bytes is padded to one block: the bytes, 0x80, the bit length in byte 56, and zeros elsewhere |
| Md5Padding.LengthDigits | hikyuu/utilities/md5.cpp:206-233 | the eight bytes written from the base-65536 number are the little-endian digits of 8 * len modulo 2^48 |
| Md5Padding.PaddingFollowsRfcIff | hikyuu/utilities/md5.cpp:201-233 | the padded message is that of RFC 1321 if and only if its bit length modulo 2^64 is below 2^48 |
| Md5Padding.ShortMessagesFollowRfc | hikyuu/utilities/md5.cpp:201-233 | messages shorter than 2^45 bytes are padded as in RFC 1321 |
| Md5Padding.DigitsOfValue | hikyuu/utilities/md5.cpp:216-233 | the little-endian digits of the number made of some bytes are these bytes |
| Md5Padding.PaddingIsInjective | hikyuu/utilities/md5.cpp:173-233 | two messages with the same padded form are the same, for all lengths, also where the length field wraps |
| Snowflake.OrIsSum | hikyuu/utilities/snowflake.h:90-91 | on 64-bit words or-ing the shifted parts is adding their multiples, and each part can be shifted and masked out again |
| Snowflake.UnpackUndoesPack | hikyuu/utilities/snowflake.h:90-91 | the parts of an id can be read back |
| Snowflake.PackUndoesUnpack | hikyuu/utilities/snowflake.h:90-91 | every 63-bit number is the id of its parts |
| Snowflake.NextIdIsLargerIff | hikyuu/utilities/snowflake.h:75-92 | a call returns a larger id than the one before if and only if the clock has not stepped back |
| Snowflake.NextSequence | hikyuu/utilities/snowflake.h:75-92 | the sequence starts at 0 in another millisecond, counts up within one, and after 4095 starts at 0 with the reading the wait ends at |
| Snowflake.SequenceCountsWithinMillisecond | hikyuu/utilities/snowflake.h:75-92 | over any run the sequence numbers of a millisecond follow one another without a gap, from 0 in every millisecond the run enters |
| Snowflake.IdsStrictlyIncrease | hikyuu/utilities/snowflake.h:75-92 | over any run of one generator, exhausted sequences included, ids strictly increase |
| Snowflake.GeneratorsNeverCollide | hikyuu/utilities/snowflake.h:61-92 | generators with different worker or datacenter numbers never return the same id |
| Snowflake.Generator.NextId | hikyuu/utilities/snowflake.h:75-107 | sequence, wait and timestamp are updated as specified, and the wait ends at the first later reading |
| TimeDelta.PartsAddUp | hikyuu/utilities/datetime/TimeDelta.cpp:68-142 | for every count of ticks the six parts are in their ranges, only the days can be negative, and they add up to the ticks |
| TimeDelta.RebuildIsIdentity | hikyuu/utilities/datetime/TimeDelta.cpp:20-37 | building a delta from the parts of any representable one gives it back |
| TimeDelta.MakeAcceptsIff | hikyuu/utilities/datetime/TimeDelta.cpp:20-37 | which arguments the constructor accepts, by the limits of each and of their sum, and the ticks it then counts |
| TimeDelta.ConstructorNeverOverflows | hikyuu/utilities/datetime/TimeDelta.cpp:20-37 | no intermediate sum or product of accepted arguments leaves 64 bits |
| DBUpgrade.UpgradesArePathIndependent | hikyuu/utilities/db_connect/DBUpgrade.cpp:46-142 | from an empty database, any sequence of failure-free calls with contiguous slices of their modules' script lists leaves each module with its creation and scripts 2 to its version executed once each and in order, or with nothing executed |
| DBUpgrade.CallKeepsConsistent | hikyuu/utilities/db_connect/DBUpgrade.cpp:95-141 | one proper call keeps every module's log in step with its version and never lowers the version |
| DBUpgrade.CallReaches | hikyuu/utilities/db_connect/DBUpgrade.cpp:95-141 | the version a proper call leaves: 1 after a creation, then the end of the slice if it starts no later than right behind the version and goes beyond it, and otherwise the version as it was |
| DBUpgrade.UselessSlicesChangeNothing | hikyuu/utilities/db_connect/DBUpgrade.cpp:108-130 | a slice that starts too late or has been applied already changes nothing |
| DBUpgrade.InterruptedCallIsConsistentIff | hikyuu/utilities/db_connect/DBUpgrade.cpp:136-141 | a call cut short by a failing statement leaves log and version in step if and only if the last statement that took effect was not a script |
| DBUpgrade.CutCallRunsScriptsAgain | hikyuu/utilities/db_connect/DBUpgrade.cpp:95-141 | repeating a call cut short behind a script, with w scripts in the log and version v recorded, appends scripts v + 1 to the version an uncut call reaches, so that v + 1 to w run twice, the creation script included when v is 0 |
| DBUpgrade.FailedQueryIsHarmlessIff | hikyuu/utilities/db_connect/DBUpgrade.cpp:84-106 | when the version query of a created module fails, log and version stay in step if and only if the call has no creation script; else the creation and all scripts up to the new version run again |
| DBUpgrade.TryRunsPrefix | hikyuu/utilities/db_connect/DBUpgrade.cpp:136-141 | a call that throws has executed exactly a prefix of its statements |
| DBUpgrade.Connection.UpgradeModule | hikyuu/utilities/db_connect/DBUpgrade.cpp:46-142 | the branches and the loop over the scripts execute exactly the specified statements, up to the first that fails, with the version read as 0 when its query fails |

## Left out

- AlignToWindow: the `int` cast of the grid index and the multiplication by a double are exact here; `GridIndexFitsIntIff` says when the cast is.
- Base64Encode: takes inputs shorter than 2^32 bytes, because for longer ones the loop of the source does not end.
- RestartAgreesWithAdd: is about readings of the clock up to the latest date.
- The Datetime calendar, its range checks near the latest date, and time zones.
- Threads as such: fairness of locks, spurious delays, and whether `stop()` ends. The stop flag of the timer manager changes in the same step as the queue, although the source sets it just before taking the lock in `start()` and under it in `stop()`.
- The pool size limit is a plain number; reading it while another thread sets it is one step like any other.
- Wrap-around of the pools' `int` version and of `size_t` counters other than the caches' limits.
- Null resources returned to a pool, and null pointers given to base64.
- A closer that reads its pool pointer without the lock while the destructor unbinds it.
- Cancellation of coroutines; the internals of lock-free queues, of timers and of the thread pool.
- `lru11::Cache::get`, which hands out a reference through which the value can be changed later, and `cwalk`.
- List iterators of `LruCache` are represented by the key they point to, which is unique in the list.
- The hexadecimal form of the MD5 digest; the memory limit on the padded length.
- FailedQueryIsHarmlessIff: the second row that the INSERT then adds to the version table is not modelled; the table holds one version per module.
- Other database drivers than SQLite and MySQL in `DBUpgrade`, the SQL text of its statements, and rows of the version table written by others.
- TimeDelta from text, and its multiplication and division by doubles.
- `maxPoolSize()` without argument, which returns the idle limit (`hikyuu/utilities/ResourcePool.h:94-96`).
- `ConnectPool`, `Parameter` beyond the type check, `FilterNode`, `IniParser`, `moFileReader`, url and string helpers, logging, plugins and the getters: easier members, or input and output.
