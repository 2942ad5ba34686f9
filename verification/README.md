# Gallus framework: a verified model of its concurrent core

Gallus is a C framework of threads, queues, pipelines and timers. This project models the parts of
it whose behaviour is spread over many functions or many threads, and proves what they promise.

| file | models |
|---|---|
| `Pipeline.dfy` | pause, resume and maintenance of a pipeline stage: N workers, one controller, a barrier and two condition variables |
| `CalloutSpec.dfy`, `CalloutRuns.dfy` | the callout scheduler as functions on its state, and what holds over every run of them |
| `CalloutEffects.dfy` | what each operation of the scheduler does to the task it is about and to all others, and what follows for batches and runs |
| `Callout.dfy` | the same scheduler as the C code writes it: task records updated in place, a sorted queue, a table of task states; every method is proved against a function of `CalloutSpec` |
| `CalloutStage.dfy` | the distribution of a batch of tasks over the queues of several workers |
| `CBufferProtocol.dfy` | the bounded blocking queue as a protocol: interleaved puts, gets, peeks, wakeups, clears and a shutdown |
| `CBuffer.dfy` | its ring array with two-part copies, proved against the protocol |
| `HashArith.dfy`, `HashKeys.dfy` | sizes, masks, shifts and hash values of the hash table, in the widths of a 64-bit machine |
| `HashTable.dfy` | the chained table itself: linked entries, rebuild with four times the buckets, deletion, enumeration |
| `HashMap.dfy` | the map API over the table |
| `Statistic.dfy` | lock-free recording of statistics by any number of threads |
| `Thread.dfy` | start, finalization and wait of a thread object |
| `StrEscape.dfy` | escaping and unescaping of strings |
| `Arith.dfy`, `Wrappers.dfy` | shared helpers |

`dafny verify dfyconfig.toml` checks everything.

## How the code is modelled

A mutex makes a critical section one atomic step. A condition wait releases the mutex and may return
at any time, notified, spuriously, timed out or failed, so that a wait is an edge between two steps.
Concurrent code (pipeline, queue protocol, statistics, thread) is a transition system: an action per
critical section or unlocked access, `Enabled`, `Apply`, and runs of any length in any interleaving.
Code that runs under one lock (scheduler, ring array, hash table, map, distribution) is imperative:
classes with the fields of the C structures, and methods proved against functions of the abstract state.

The callout scheduler is treated twice. `Callout.Scheduler` follows the C code statement by statement
and is proved to compute the functions of `CalloutSpec`; `CalloutRuns` proves the invariant and the run
properties of those functions, and `CalloutEffects` says in terms of tasks and times what becomes of a
task: when it is due, when it is executed, when it is destroyed and what is freed. A task pointer is the
number of an allocation, and `mem` holds the records in use, so that a queue that referred to a freed
record would fail to verify. The dispatcher is the single one, `s_run_tasks_by_self`. What a task
procedure does is a parameter: whether it succeeds, and whether it resets its interval. The clock and the
numbers of new allocations are parameters too.

The ring array, the hash table and the map are proved against a FIFO sequence and a finite map.

## Where the code does not keep a promise

Each of these has a lemma with a concrete run or input, and an exact condition: the promise holds, for all
inputs, if and only if the condition does.

- Pause: scheduling maintenance with a NULL function, or while a pause that timed out is still pending,
  leaves the stage marked as paused with the request flag down; the next pause returns OK while workers
  operate (`NullMaintenanceBreaksPause`, `PendingPauseBreaksPause`; exactly when: `PauseHoldsIff`).
- The fatal branch of a blocking get that "must not happen" is reached by a get that needs more elements
  than it accepts, and by a waiting peek at too few elements (`StuckGet`; exactly when: `StuckIff`).
- The wakeup flag: a waiter that leaves by time-out while the flag is up, as the last one, leaves it up for
  the next caller (`LostFlag`, `StaleWakeup`; exactly when: `FlagStep`).
- The hash table has no bucket left after the fifteenth rebuild (exactly when: `SizesSound`).
- Batch distribution: when a wait of a put fails after part of a chunk, the whole chunk is sent again to the
  next queue, so that the part is queued twice, and the submission still reports success (`QueuedTwice`;
  exactly when each task is in one queue: `EachOnceIff`). The error meant is a wait that fails. A queue that
  is shut down fails a put as well, but empties itself, and is not part of this model.
- Escaping: a string with a backslash before an escaped character, or an odd run of them at its end, does not
  survive (`LostBackslash`; exactly when: `RoundTrip`).
- Threads: a start made before an earlier one has returned, or after one whose wait failed, can run two threads
  on one object (`OverlappingStarts`, `StartAfterFailedWait`; exactly when: `OverlapIff`).

A failed wait of a new thread lets its main procedure begin without the acknowledgement (`MainWithoutAck`);
`MainAfterOwnAck` covers all others.

## Model

| member | source | states |
|---|---|---|
| `Pipeline.InvKept` | framework/lib/pipeline_worker.c:458-558 | every step of the pause, resume and maintenance code, of any worker or the controller, keeps the protocol invariant: status, request flag and maintenance procedure agree with the phase of the controller, every worker is where those fields allow, a barrier master excludes all others |
| `Pipeline.RunKeepsInv` | framework/lib/pipeline_worker.c:46-80 | the invariant holds over runs of any length |
| `Pipeline.PausedUntilResume` | framework/lib/pipeline_worker.c:484-493 | once the stage is paused with the flag up, no action but the clearing of the flag lets any worker out of the pause |
| `Pipeline.PauseHolds` | framework/lib/pipeline_stage.c:986-1070 | for N workers and every proper run, back-to-back pauses included: when a pause returns OK all N workers are past the barrier inside the pause, and stay there until a resume clears the flag |
| `Pipeline.TimesRunOnce` | framework/lib/pipeline_worker.c:532-534 | the history of invocations without repetition means each call is run once or never |
| `Pipeline.MaintenanceRunsOnce` | framework/lib/pipeline_stage.c:1114-1205 | a maintenance call that returns OK has had its function run exactly once |
| `Pipeline.MaintenanceIsExclusive` | framework/lib/pipeline_worker.c:505-550 | while a maintenance function runs every other worker is past the barrier and out of fetch, main and throw, and no function ever runs twice |
| `Pipeline.NullMaintenanceBreaksPause` | framework/lib/pipeline_stage.c:1145-1190 | for every N >= 1 a run in which one maintenance call with a NULL function is made, and after which a pause returns OK while a worker operates |
| `Pipeline.PendingPauseBreaksPause` | framework/lib/pipeline_stage.c:1032-1047 | for every N >= 1 the same with a proper function, scheduled while a pause that timed out still has its flag up: the second half of the guard is needed too |
| `Pipeline.PauseHoldsIff` | framework/lib/pipeline_stage.c:1114-1205 | for every N >= 1 and every state that a proper run reaches with the workers at work and no call in progress: a maintenance call keeps the promise of all later pauses, whatever proper run follows, if and only if its function is not NULL and no pause is pending |
| `Pipeline.PauseWorks` | framework/lib/pipeline_stage.c:986-1070 | workers at work, N of them and wherever they are in a round: a pause returns OK with all of them in the resume wait, whichever trips the barrier |
| `Pipeline.ResumeUndoesPause` | framework/lib/pipeline_stage.c:1073-1111 | a resume then brings all of them back to the top of their loop and the stage back to what it was |
| `Pipeline.MaintenanceWorks` | framework/lib/pipeline_worker.c:505-550 | workers at work: a maintenance call with a function returns OK, the function has run once, in the worker that tripped the barrier, and all workers are back at the top of their loop |
| `Pipeline.BackToWork` | framework/lib/pipeline_worker.c:484-550 | over every proper run: when a pause has been resumed or maintenance is done, a worker is in its loop or gets there by one step of its own, and one that does not wait yet does not begin to |
| `Pipeline.Recovers` | framework/lib/pipeline_stage.c:1145-1190 | a maintenance call whose workers have paused instead fails and takes its request back; the workers go back to their loop by themselves and a resume brings the stage back |
| `Pipeline.NoPauseWithout` | framework/lib/pipeline_worker.c:46-80 | once a worker has left its loop no pause returns OK, in any proper run |
| `Pipeline.FunctionStillSet` | framework/lib/pipeline_worker.c:505-512 | over every proper run a worker that goes to the barrier for maintenance still finds the function set |
| `CalloutRuns.InvKept` | framework/lib/callout_task.c:229-809 | every API call, fetch, dispatch and finalization step keeps: table state equals m_status, a submitted task is queued exactly once, the timed queue is sorted, only destroyed tasks were freed |
| `CalloutRuns.RunKeepsInv` | framework/lib/callout.c:375-653 | the invariant, and with it the spacing invariant, holds over runs of any length |
| `CalloutRuns.EveryTaskInOnePlace` | framework/lib/callout_task.c:668-746 | over every run a submitted live task is in exactly one of the timed, urgent and idle queues and the batch being run, and no queue refers to a destroyed task |
| `CalloutRuns.FreedExactlyOnce` | framework/lib/callout_task.c:229-265 | over every run the free-up procedure of a task has been called once if it is destroyed and has one, and otherwise never |
| `CalloutRuns.TimedQueueOrder` | framework/lib/callout_queue.c:41-120 | over every run the timed queue is ordered by time, first come first served among equal times, and m_is_in_timed_q is true exactly for its members |
| `CalloutRuns.SchedSorted` | framework/lib/callout_queue.c:67-85 | insertion before the first later task keeps the order, and puts a task behind those of equal time |
| `CalloutRuns.SchedKept` | framework/lib/callout_queue.c:41-120 | scheduling a detached task re-establishes the whole invariant with the task in the timed queue |
| `CalloutRuns.UnschedDetaches` | framework/lib/callout_queue.c:157-181 | unscheduling takes a task out of the only place it is in and disturbs no other task |
| `CalloutRuns.DestroyKept` | framework/lib/callout_task.c:294-300 | destruction of a detached task re-establishes the invariant and retires exactly that task |
| `CalloutRuns.SubmitKept` | framework/lib/callout_task.c:668-746 | submission keeps the invariant in all its branches: timed, urgent, idle and refused |
| `CalloutRuns.CancelKept` | framework/lib/callout_task.c:323-416 | cancellation keeps the invariant in all its branches |
| `CalloutRuns.ForceKept` | framework/lib/callout_task.c:750-809 | a forced execution keeps the invariant |
| `CalloutRuns.FetchKept` | framework/lib/callout.c:431-521 | the fetch of the main loop moves the tasks it takes into the batch and keeps the invariant |
| `CalloutRuns.RunKept` | framework/lib/callout.c:332-368 | running the next task of the batch keeps the invariant |
| `CalloutRuns.BatchRunsInOrder` | framework/lib/callout.c:340-360 | the dispatcher executes every task of the batch that is not cancelled, once each, in the order of the batch, as of the time of the fetch, and nothing else |
| `CalloutRuns.SpacedKept` | framework/lib/callout_queue.c:57-62 | every step keeps the spacing invariant that ties the record of a periodic task to its last execution |
| `CalloutRuns.SchedSpaced` | framework/lib/callout_queue.c:57-62 | a task that has run before and is scheduled again is due exactly its interval after its last start, and all other tasks stay as they were due |
| `CalloutRuns.PeriodicSpacing` | framework/lib/callout_queue.c:306-316 | over every run consecutive executions of a task, the later one from the timed queue, are at least the interval in force less the 1 usec jitter apart |
| `CalloutRuns.RunnablesExact` | framework/lib/callout_queue.c:301-346 | taking runnables takes the longest due prefix capped at n, ahead of all that stay; fewer than n means that all that remain are later than base plus jitter |
| `CalloutRuns.WakeupExact` | framework/lib/callout_queue.c:333-340 | the reported wake-up time is the least time that remains, or -1, and beyond the jitter unless the array is full |
| `CalloutRuns.CancelUndoesSubmit` | framework/lib/callout_task.c:374-395 | cancelling a timed submission at once restores tables and queues as before the submission, without the task, and frees its argument |
| `CalloutRuns.CancelMakesGone` | framework/lib/callout_task.c:371-411 | a cancelled submitted task is destroyed, or marked for destruction by the dispatcher |
| `CalloutRuns.GoneKept` | framework/lib/callout_task.c:612-650 | no step executes a cancelled task or brings it back |
| `CalloutRuns.GoneForever` | framework/lib/callout_task.c:612-650 | nor does any run |
| `CalloutRuns.CancelIsFinal` | framework/lib/callout.c:876-892 | after the cancellation of a submitted task no step of any run executes it |
| `CalloutRuns.DelayedDeletion` | framework/lib/callout_task.c:626-640 | a cancelled task that reaches the dispatcher is destroyed without being executed |
| `CalloutRuns.DropTimedKept` | framework/lib/callout_queue.c:386-397 | destroying the head of the timed queue retires that task only and keeps the invariant |
| `CalloutRuns.DropUrgentKept` | framework/lib/callout.c:171-181 | the same for the head of the urgent queue |
| `CalloutRuns.DropIdleKept` | framework/lib/callout.c:171-181 | the same for the head of the idle queue |
| `CalloutRuns.DrainedAll` | framework/lib/callout.c:739-771 | when all queues have been emptied exactly the tasks never submitted are left, unchanged, all others are destroyed, and none was executed |
| `CalloutEffects.ExecEffect` | framework/lib/callout_task.c:445-600 | an execution adds exactly one event, at the start time on record; then the task waits in the timed queue, due an interval in force after that start, if and only if the procedure succeeded, the task repeats and that time is not negative; otherwise it is destroyed and in no queue |
| `CalloutEffects.ExecResultIs` | framework/lib/callout_task.c:445-660 | the result: OK exactly for a success that can be queued again if it is to be, for a cancelled task and for one being executed; an error for any other state |
| `CalloutEffects.ForceEffect` | framework/lib/callout_task.c:750-809 | a forced execution of a task in the timed queue runs it once, now, whenever it is due, and leaves it as any execution does and all other tasks alone; in every other case it is refused and nothing changes |
| `CalloutEffects.RunNextEffect` | framework/lib/callout.c:332-368 | the dispatcher executes the next fetched task at the time of the fetch and leaves it as any execution does; a cancelled one is destroyed unexecuted |
| `CalloutEffects.BatchEffect` | framework/lib/callout.c:332-368 | when the whole batch has been run, every task of it waits for its next time or is destroyed, as its own procedure and record say |
| `CalloutEffects.SchedEffect` | framework/lib/callout_queue.c:57-91 | a task that repeats and has run is due an interval after its last start, any other its initial delay from now; the value returned is that time, or -1 for a task that is queued |
| `CalloutEffects.SubmitResultIs` | framework/lib/callout_task.c:668-746 | the result of a submission by the state of the task and the arguments |
| `CalloutEffects.SubmitEffect` | framework/lib/callout_task.c:668-746 | an accepted submission stores delay and interval, makes the task repeat exactly if an interval is given, and puts it alone into the queue its delay says: the timed one, due now plus delay, or the end of the urgent or the idle one; a refused one changes nothing |
| `CalloutEffects.CancelEffect` | framework/lib/callout_task.c:323-416 | a task in the timed queue is destroyed, one in another queue or fetched is marked, any other is left alone; no other task is affected |
| `CalloutEffects.FetchEffect` | framework/lib/callout.c:431-521 | the fetch takes the longest due front of the timed queue, then the urgent and the idle tasks, each up to the size of the array, in this order; what stays is later or did not fit |
| `CalloutEffects.StepAside` | framework/lib/callout_task.c:229-809 | every step leaves all tasks but the one it is about as they are |
| `CalloutEffects.LogGrowsOver` | framework/lib/callout_task.c:472-497 | over every run what has been executed stays on record |
| `CalloutEffects.FirstRunNotEarly` | framework/lib/callout_queue.c:57-62 | over every run with a timed submission in it: if the first execution of the task is one by its time, it starts no sooner than its delay after the submission, less the 1 usec jitter |
| `CalloutEffects.CreatedPristine` | framework/lib/callout_task.c:143-210 | over every run a task that was never submitted is as it was created: no other call makes it repeat or gives it a time |
| `CalloutEffects.FreedAsCreated` | framework/lib/callout_task.c:229-265 | over every run the argument a task was created with is freed once if the task is gone, and not before; a task created without one has nothing freed |
| `Callout.Scheduler.FindPosition` | framework/lib/callout_queue.c:67-82 | the scan stops in front of the first task that is later: the longest prefix not later |
| `Callout.Scheduler.InsertTimed` | framework/lib/callout_queue.c:67-85 | the task is inserted at that position, all others keep their order |
| `Callout.Scheduler.DoSched` | framework/lib/callout_queue.c:41-120 | refines the scheduling function: the record, the table, the queue and the value returned; which times these are is SchedEffect |
| `Callout.Scheduler.DoUnsched` | framework/lib/callout_queue.c:157-181 | refines the unscheduling function; a task not in the timed queue is left alone |
| `Callout.Scheduler.Get` | framework/lib/callout_queue.c:251-274 | hands out the head of the timed queue, marked as dequeued, if there is one |
| `Callout.Scheduler.TakeDue` | framework/lib/callout_queue.c:306-331 | the loop takes due heads until the array is full or the head is not due |
| `Callout.Scheduler.GetRunnables` | framework/lib/callout_queue.c:301-346 | the array holds the front of the queue, as long as it is due and no longer than n; all taken tasks are dequeued; the next wake-up is that of the new head |
| `Callout.Scheduler.CreateTask` | framework/lib/callout.c:823-843 | a new record in state CREATED at an unused address, entered in the table; the invariant is kept |
| `Callout.Scheduler.DeleteTask` | framework/lib/callout_task.c:229-265 | only a cancelled task that is not being deleted leaves table and heap, its argument freed if it has one |
| `Callout.Scheduler.SetCancelAndDestroy` | framework/lib/callout_task.c:294-300 | refines destruction: out of the timed queue, cancelled in the table, deleted |
| `Callout.Scheduler.CancelTask` | framework/lib/callout_task.c:323-416 | refines cancellation with no execution under way and keeps the invariant |
| `Callout.Scheduler.ResetInterval` | framework/lib/callout.c:920-947 | the interval changes only during the execution and only to one that is long enough; the three results |
| `Callout.Scheduler.RunProcedure` | framework/lib/callout_task.c:472-497 | refines the execution proper: both states, the first-run flag, the interval and the record of the event |
| `Callout.Scheduler.SettleTask` | framework/lib/callout_task.c:527-600 | refines what follows an execution: queued again if the task repeats and can be, otherwise destroyed; which of these it is, and for when, is ExecEffect |
| `Callout.Scheduler.ExecTask` | framework/lib/callout_task.c:445-660 | refines execution in the states dequeued, cancelled and all others, with its result; what that comes to is ExecEffect |
| `Callout.Scheduler.SubmitTask` | framework/lib/callout_task.c:668-746 | refines submission of a created task and its four results; what that comes to is SubmitEffect |
| `Callout.Scheduler.SubmitCall` | framework/lib/callout.c:846-872 | refines the API call with its state check, all six results, and keeps the invariant; what that comes to is SubmitEffect |
| `Callout.Scheduler.RunTask` | framework/lib/callout.c:340-360 | one round of the dispatcher: mark as dequeued, stamp the start time, execute |
| `Callout.Scheduler.ForceSchedule` | framework/lib/callout_task.c:750-809 | a task in the timed queue is taken out and executed now, once, and then waits for its next time or is destroyed; any other is refused without effect; the invariant is kept |
| `Callout.Scheduler.RunTasksBySelf` | framework/lib/callout.c:332-368 | the loop over the batch equals running its tasks one after the other, and leaves none |
| `Callout.Scheduler.FetchTasks` | framework/lib/callout.c:431-521 | the buffer holds the runnable timed tasks, the urgent ones and the idle ones, in this order, and they have left their queues |
| `Callout.Scheduler.Iterate` | framework/lib/callout.c:419-537 | one iteration of the main loop: every task that is fetched and not cancelled is executed, once, in the order of the buffer, at the time of the fetch; afterwards each waits for its next time or is destroyed; the invariant is kept and no batch is left |
| `Callout.Scheduler.DestroyAllTimed` | framework/lib/callout_queue.c:386-397 | the loop empties the timed queue, destroys exactly its tasks, and terminates |
| `Callout.Scheduler.ClearUrgent` | framework/lib/cbuffer.c:98-116 | clearing the urgent queue destroys exactly its tasks through the free-up procedure |
| `Callout.Scheduler.ClearIdle` | framework/lib/cbuffer.c:98-116 | clearing the idle queue destroys exactly its tasks |
| `Callout.Scheduler.Finalize` | framework/lib/callout.c:757-759 | after finalization all queues are empty, exactly the tasks never submitted are left, and nothing was executed |
| `CalloutStage.DealtOnce` | framework/lib/callout_stage.c:324-340 | dealing a batch in chunks over W queues gives every task to exactly one queue: no copy is made and none is lost |
| `CalloutStage.DealtInOrder` | framework/lib/callout_stage.c:324-340 | within a queue the tasks are in the order of the batch |
| `CalloutStage.LoadsBalanced` | framework/lib/callout_stage.c:317-340 | the loads that one batch adds to any two queues differ by at most max(1, n / W) |
| `CalloutStage.DealtLoad` | framework/lib/callout_stage.c:324-340 | the load of a queue depends on its distance from the first queue only |
| `CalloutStage.ModNext` | framework/lib/callout_stage.c:327-334 | counting m_last_q up moves on to the next queue, around the end |
| `CalloutStage.TryPossible` | framework/lib/callout_stage.c:43-58 | whatever wakeups and failure a try is given, the put before each wakeup and the last one end as the bounded queue allows |
| `CalloutStage.DeliveredIsDealt` | framework/lib/callout_stage.c:324-345 | when no put fails the batch is dealt out, n tries suffice and nothing is left |
| `CalloutStage.DeliveredCopies` | framework/lib/callout_stage.c:324-345 | however the puts end: the copies of a task in all queues and in what is left are those in the batch and those that failed tries had put |
| `CalloutStage.EachOnceIff` | framework/lib/callout_stage.c:324-345 | every task of a batch is in exactly one queue, once, if and only if all tasks are delivered and no failed try had put anything |
| `CalloutStage.WokenIs` | framework/lib/callout_stage.c:43-58 | the puts before the wakeups of a try add up and leave one task at least for its last put |
| `CalloutStage.QueuedTwice` | framework/lib/callout_stage.c:329-340 | a run with two workers: a wait of the first put fails after one of four tasks, the submission reports all four submitted, and that task is in both queues |
| `CalloutStage.CalloutStage.WorkerSched` | framework/lib/callout_stage.c:28-69 | puts cut short by wakeups are resumed where they stopped: the queue receives the tasks in order, once each; on failure exactly the prefix that the puts had put |
| `CalloutStage.CalloutStage.SubmitChunk` | framework/lib/callout_stage.c:324-340 | one try sends the next chunk to the queue that m_last_q tells, which receives the chunk or the prefix the failed try had put; no other queue changes |
| `CalloutStage.CalloutStage.SubmitChunks` | framework/lib/callout_stage.c:324-345 | for every course of the tries: what each queue receives, the value returned, the tries used, and the number of tasks in the queues with those queued in vain |
| `CalloutStage.CalloutStage.SubmitMany` | framework/lib/callout_stage.c:305-354 | the same for the submission, with the stride it computes |
| `CalloutStage.CalloutStage.Submit` | framework/lib/callout_stage.c:273-363 | the submission to one or to many queues, failures included: every queue grows by exactly its part |
| `CBufferProtocol.InvKept` | framework/lib/cbuffer.c:240-868 | every stretch of code between two waits keeps: contents are what was put and not yet taken, waiters are counted exactly, each call has moved a prefix of its elements, return codes say how far, and a raised flag stands for calls still waiting |
| `CBufferProtocol.WaitersMoved` | framework/lib/cbuffer.c:252-254 | when a call enters or leaves a wait, m_n_waiters stays the number of calls inside one |
| `CBufferProtocol.FifoOverRuns` | framework/lib/cbuffer.c:315-671 | over every interleaving with clears and shutdown: all puts in order equal all that left followed by the contents, the capacity holds, each call accounts for its own elements, m_n_waiters counts the calls inside a wait |
| `CBufferProtocol.PutOutcome` | framework/lib/cbuffer.c:315-489 | a put that may wait and succeeds has put everything; one that is woken up, timed out, failed or shut down a proper prefix, in order; the fatal branch is unreachable |
| `CBufferProtocol.PutMayEnd` | framework/lib/cbuffer.c:349-489 | each of these ends does occur, on a queue of any capacity: after any proper prefix by a wakeup or by a failing wait, and after all values |
| `CBufferProtocol.GetOutcome` | framework/lib/cbuffer.c:493-671 | a destructive get hands out what left the buffer in its name, at least what it asked for if it may wait and succeeds; the fatal branch needs n_at_least > n_vals_max |
| `CBufferProtocol.StuckIff` | framework/lib/cbuffer.c:611-636 | exactly when a pass of a get, destructive or peeking, ends in the fatal branch |
| `CBufferProtocol.StuckGet` | framework/lib/cbuffer.c:545-575 | a run that reaches the fatal branch of a get |
| `CBufferProtocol.WakeupComplete` | framework/lib/cbuffer.c:801-868 | a wakeup that raised the flag returns OK only after every call it found waiting has returned |
| `CBufferProtocol.FoundForever` | framework/lib/cbuffer.c:818-849 | which calls a wakeup found does not change while it waits |
| `CBufferProtocol.FlagStep` | framework/lib/cbuffer.c:240-299 | a step keeps the flag up only while somebody waits, if and only if it is not the last waiter leaving by time-out or failure with the flag up |
| `CBufferProtocol.FlagOverRuns` | framework/lib/cbuffer.c:240-299 | without time-outs and failures the flag is up only while somebody waits, over every run |
| `CBufferProtocol.LostFlag` | framework/lib/cbuffer.c:252-288 | a run with a time-out that leaves the flag up and nobody waiting |
| `CBufferProtocol.StaleWakeup` | framework/lib/cbuffer.c:264-283 | what that does: the next waiter is told of a wakeup nobody requested while it waited |
| `CBufferProtocol.BeginGet` | framework/lib/cbuffer.c:493-671 | a get or a peek in any mode takes at once all that is there and it accepts; it returns that number if it is enough, and waits on an empty buffer; a closed buffer refuses it |
| `CBufferProtocol.PolledGet` | framework/lib/cbuffer.c:511-530 | a get or a peek that does not wait hands out the first min(n_vals_max, contents) elements, returns that number, and removes them unless it peeks |
| `CBufferProtocol.BeginPut` | framework/lib/cbuffer.c:315-489 | a put in any mode appends at once as much as there is room for, returns when all is in or when it does not wait, and waits otherwise |
| `CBufferProtocol.PolledPut` | framework/lib/cbuffer.c:331-347 | a put that does not wait appends the first min(room, n_vals) elements and returns that number |
| `CBufferProtocol.ResumeEffect` | framework/lib/cbuffer.c:240-299 | what a call does when its wait is over: the code it returns with and what it has moved so far, or what it moves now, by result of the wait, wakeup flag, time left and state of the buffer |
| `CBufferProtocol.BeginReady` | framework/lib/cbuffer.c:872-926 | a call that waits until the buffer is ready returns the room, or the number of elements, once there is any or at once if it does not wait |
| `CBufferProtocol.WakeupSteps` | framework/lib/cbuffer.c:801-840 | a wakeup raises the flag exactly if somebody waits on an operational buffer and no other wakeup is under way, and its result |
| `CBufferProtocol.WakeupRechecks` | framework/lib/cbuffer.c:840-868 | a wakeup that waits ends when the flag is down, the buffer closed, or its wait failed |
| `CBufferProtocol.Emptied` | framework/lib/cbuffer.c:119-148 | a clear empties the buffer, a shutdown closes it as well, a second one does nothing; no call is affected before it goes on |
| `CBufferProtocol.ClosedForGood` | framework/lib/cbuffer.c:134-148 | over every run a buffer that is shut down stays closed and empty |
| `CBuffer.RingAppend` | framework/lib/cbuffer.c:157-176 | writing behind the last element, around the end of the array, appends to the FIFO contents |
| `CBuffer.RingDrop` | framework/lib/cbuffer.c:218-220 | moving the read index drops the front of the contents |
| `CBuffer.RingFront` | framework/lib/cbuffer.c:201-216 | the front of the contents is one run of slots, or two |
| `CBuffer.CopyRange` | framework/lib/cbuffer.c:161-173 | a copy writes the range and nothing else |
| `CBuffer.CBuffer.constructor` | framework/lib/cbuffer.c:678-729 | a new buffer is empty, operational, and has one slot more than its capacity |
| `CBuffer.CBuffer.CopyWrapped` | framework/lib/cbuffer.c:158-173 | the two-part copy into the array writes exactly the slots from the index on, around its end |
| `CBuffer.CBuffer.CopyFrom` | framework/lib/cbuffer.c:202-216 | the two-part copy out of the array yields the front of the contents |
| `CBuffer.CBuffer.CopyIn` | framework/lib/cbuffer.c:151-191 | appends as much of the input as there is room for and returns how much |
| `CBuffer.CBuffer.CopyOut` | framework/lib/cbuffer.c:195-236 | yields the front, at most n elements, and removes it only if told to |
| `CBuffer.CBuffer.PutOnce` | framework/lib/cbuffer.c:345-460 | one pass of a put refines the protocol, appends as much as there is room for, and is never in the fatal branch |
| `CBuffer.CBuffer.GetOnce` | framework/lib/cbuffer.c:525-645 | one pass of a get refines the protocol and yields the front of the buffer, as much as there is and the caller accepts |
| `CBuffer.CBuffer.EndWait` | framework/lib/cbuffer.c:254-289 | leaving the wait: count, result code, and the last one out lowers the flag |
| `CBuffer.CBuffer.BeginWakeup` | framework/lib/cbuffer.c:801-858 | raises the flag only for waiters of an operational buffer, and only once |
| `CBuffer.CBuffer.FreeupAllValues` | framework/lib/cbuffer.c:98-116 | the free-up procedure is called with every element, oldest first |
| `CBuffer.CBuffer.Clean` | framework/lib/cbuffer.c:119-131 | empties the buffer, freeing its elements if asked |
| `CBuffer.CBuffer.Shutdown` | framework/lib/cbuffer.c:134-148 | the first shutdown empties and closes the buffer, a second one does nothing |
| `HashArith.AndMask` | framework/lib/hash.c:71-77 | masking with 2^m - 1 is the residue modulo 2^m |
| `HashArith.SizesSound` | framework/lib/hash.c:947-974 | after k rebuilds 4^(k+1) buckets, mask one less, rebuild size three times as many, shift 28 - 2k, if and only if k <= 14; from the fifteenth on the table has no bucket |
| `HashArith.EnlargedSound` | framework/lib/hash.c:957-974 | one rebuild in 32-bit arithmetic goes from one level to the next |
| `HashArith.RandomIndexIs` | framework/lib/hash.c:71-77 | the random index is the stated bits of the 64-bit product, and in range |
| `HashArith.MaskedIndexIs` | framework/lib/hash.c:989-991 | the masked index of a string hash is its residue, and in range |
| `HashArith.RebuildSplits` | framework/lib/hash.c:980-1000 | a rebuild splits every bucket into four: adjacent ones for word and array keys, congruent ones for strings |
| `HashKeys.HashString` | framework/lib/hash.c:430-452 | the hash of a string is its characters read in base 9, modulo 2^32 |
| `HashKeys.HashArray` | framework/lib/hash.c:720-735 | the hash of an array key is the sum of its little-endian words and of what is left over, modulo 2^32 |
| `HashKeys.IndexInRange` | framework/lib/hash.c:600-610 | every computed index is below numBuckets, for all three kinds of keys |
| `HashKeys.IndexIs` | framework/lib/hash.c:71-77 | after k rebuilds the bucket of a pointer or an array is given by the bits of the product from 28 - 2k on, that of a string by its number in base 9, modulo the number of buckets |
| `HashTable.PushFront` | framework/lib/hash.c:676-685 | an entry becomes the first of its bucket; all chains stay well formed |
| `HashTable.MoveHead` | framework/lib/hash.c:980-1000 | the first entry of an old bucket arrives in the bucket its key hashes to under the new sizes; all others stay |
| `HashTable.MoveChain` | framework/lib/hash.c:983-1000 | an old bucket is emptied, no entry is lost or duplicated, and the loop terminates |
| `HashTable.Rehash` | framework/lib/hash.c:980-1000 | all entries end up in the new buckets |
| `HashTable.Rebuilt` | framework/lib/hash.c:947-1005 | the new buckets satisfy the whole table invariant with the same entries |
| `HashTable.SearchChain` | framework/lib/hash.c:612-622 | the search of a bucket finds an entry with the key if and only if there is one |
| `HashTable.UnlinkFrom` | framework/lib/hash.c:182-201 | exactly one entry leaves the chain, and the search for its predecessor succeeds |
| `HashTable.Unlink` | framework/lib/hash.c:182-204 | after that the table invariant holds for the remaining entries |
| `HashTable.FlatExact` | framework/lib/hash.c:278-330 | the chains one after the other list every entry exactly once, and numEntries is the sum of their lengths |
| `HashTable.HashTable.constructor` | framework/lib/hash.c:126-163 | a new table is sound, of the kind that the key length says, and stands for the empty map |
| `HashTable.HashTable.Find` | framework/lib/hash.c:600-622 | finds the entry of the key, with its value, if and only if the map has the key |
| `HashTable.HashTable.AddEntry` | framework/lib/hash.c:668-687 | adds one entry with the initial value to the map |
| `HashTable.HashTable.Rebuild` | framework/lib/hash.c:947-1005 | the rebuild keeps map, entries and count and re-establishes the table invariant under the new sizes |
| `HashTable.HashTable.RebuildIfCrowded` | framework/lib/hash.c:689-696 | after the check the table is not due for a rebuild, and the map is as before |
| `HashTable.HashTable.Create` | framework/lib/hash.c:646-699 | returns the entry of the key, new exactly if the key was not there; the map gains only that key; numEntries stays below rebuildSize |
| `HashTable.HashTable.SetValue` | framework/lib/hash.h:159-160 | setting a value updates the map at the key of the entry |
| `HashTable.HashTable.Delete` | framework/lib/hash.c:182-204 | the map loses exactly the key of the entry, the count one, and the table stays sound |
| `HashTable.HashSearch.constructor` | framework/lib/hash.c:278-289 | a search starts before all entries |
| `HashTable.HashSearch.Next` | framework/lib/hash.c:310-330 | hands out the next of the entries still to be visited, or NULL when there is none, and terminates |
| `HashTable.Enumerate` | framework/lib/hashmap.c:55-74 | the iteration visits the entries in order until the procedure stops it |
| `HashMap.HashMap.constructor` | framework/lib/hashmap.c:158-188 | a new map is operational and empty |
| `HashMap.HashMap.Find` | framework/lib/hashmap.c:293-312 | value and result for present and absent keys, and after a shutdown |
| `HashMap.HashMap.Add` | framework/lib/hashmap.c:361-393 | adds or, if allowed, overwrites; hands back the former value; all three results and an unchanged map on refusal |
| `HashMap.HashMap.Delete` | framework/lib/hashmap.c:445-473 | the map loses the key, the former value is handed back, freed exactly if asked and not NULL |
| `HashMap.HashMap.DoIterate` | framework/lib/hashmap.c:55-74 | every key once with its value unless the procedure stops the iteration; an empty map counts as stopped |
| `HashMap.HashMap.Iterate` | framework/lib/hashmap.c:523-539 | OK exactly for a complete iteration of a map that is not empty; a map shut down is not touched |
| `HashMap.HashMap.FreeupAllValues` | framework/lib/hashmap.c:103-125 | every value is handed to the free-up procedure as often as keys hold it, NULL never; without a procedure nothing is |
| `HashMap.HashMap.CleanOut` | framework/lib/hashmap.c:129-136 | the table is zeroed; if asked and there is a free-up procedure, it gets every value as often as keys held it, and otherwise nothing |
| `HashMap.HashMap.Clear` | framework/lib/hashmap.c:236-249 | an operational map becomes an empty one, and every value is freed as often as keys held it, exactly if asked and there is a free-up procedure |
| `HashMap.HashMap.Shutdown` | framework/lib/hashmap.c:192-207 | the map is closed, its values freed as by a clear; a second shutdown does nothing |
| `HashMap.HashMap.Size` | framework/lib/hashmap.c:594-616 | m_n_entries is the cardinality of the map |
| `HashMap.ShownLists` | framework/lib/hashmap.c:55-74 | a complete enumeration lists the map: every key once, with its value |
| `Statistic.InvKept` | framework/lib/statistic.c:201-226 | every atomic step of any recorder keeps: count and sums are those of the recorders past that step, min and max bound those through their loop and are values recorded |
| `Statistic.MinStep` | framework/include/gallus_macros.h:206-223 | a step of the compare-and-swap loop keeps the minimum below every value through with it and never raises it above what a loop has seen |
| `Statistic.QuietExact` | framework/lib/statistic.c:201-226 | whatever the interleaving, with no recorder under way: count, sum, sum of squares (modulo 2^64), minimum and maximum of the values recorded |
| `Statistic.DeviationsAre` | framework/lib/statistic.c:292-298 | the closed form equals the sum of squared distances, from any point |
| `Statistic.SsumExact` | framework/lib/statistic.c:282-309 | without overflow ssum is the sum of squared deviations from the average, over the reals, and so not negative |
| `Statistic.RecorderFinishes` | framework/include/gallus_macros.h:206-223 | a recorder that nobody disturbs is through with its additions and both loops in seven steps at most |
| `StrEscape.RoundTrip` | framework/lib/strutils.c:1282-1431 | unescaping undoes escaping if and only if the string survives: no backslash run of odd length before an escaped character or the end, or, with the backslash among the escaped, no escaped first character |
| `StrEscape.RoundTripClean` | framework/lib/strutils.c:1282-1431 | strings without backslashes survive every escaping that leaves backslashes alone |
| `StrEscape.LostBackslash` | framework/lib/strutils.c:1354-1431 | a backslash before a quote does not survive |
| `StrEscape.LastRefusedIff` | framework/lib/strutils.c:1295-1299 | of the strings that begin well, one is refused if and only if its last character is in the set and has no backslash in front |
| `StrEscape.FirstRefused` | framework/lib/strutils.c:1295-1299 | a string that begins with a character of the set is refused, one other character is not |
| `StrEscape.UnescapedParts` | framework/lib/strutils.c:1306-1328 | of any string: text without a backslash comes out as it is, a backslash is dropped at the end and before a character of the set and kept with the next character otherwise |
| `StrEscape.EscapedEnds` | framework/lib/strutils.c:1295-1299 | what escaping yields meets the demand on the last character, and on the first unless that is escaped by a backslash that is in the set |
| `StrEscape.CountEscapes` | framework/lib/strutils.c:1368-1388 | the counted length is that of the escaped string; nothing to escape means the string itself |
| `StrEscape.Escape` | framework/lib/strutils.c:1354-1431 | the buffer of the computed size receives the escaped string; the refused arguments; the escaped flag |
| `StrEscape.Unescape` | framework/lib/strutils.c:1282-1350 | value and buffer for every string: the refused ones, the empty result that hands back no buffer, and an output that fits the input |
| `StrEscape.WriteUnescaped` | framework/lib/strutils.c:1306-1328 | the loop with its got_bs flag computes the unescaped string |
| `Thread.InvKept` | framework/lib/thread.c:452-525 | every step of starters, children and waiters keeps: one holder of the finalize lock, no main procedure before an acknowledgement, finalizer calls counted, result code of the child finalized last |
| `Thread.RunKeepsInv` | framework/lib/thread.c:628-704 | over runs of any length |
| `Thread.MainAfterOwnAck` | framework/lib/thread.c:640-676 | when starts do not overlap, a main procedure begins only after the start that created its thread has acknowledged it, unless the wait for that fails |
| `Thread.MainWithoutAck` | framework/lib/thread.c:659-676 | a run in which the wait fails and the main procedure begins all the same |
| `Thread.FinalizerOncePerStart` | framework/lib/thread.c:484-501 | from any start that creates a thread to the next one, the finalizer procedure is called at most once, whatever threads of earlier starts are still about |
| `Thread.WaiterReturns` | framework/lib/thread.c:938-1007 | the step by which a wait returns changes nothing else, and when it may return OK |
| `Thread.WaitMeansFinalized` | framework/lib/thread.c:938-1007 | a wait that saw a start and returns OK: a thread is finalized to the end and its result code is the one stored |
| `Thread.SerialKept` | framework/lib/thread.c:774-877 | with starts that do not overlap, threads of one object run one at a time, and flags and counts tell the phase of the last one |
| `Thread.FinalizerExactlyOnce` | framework/lib/thread.c:452-525 | then the finalizer procedure is called exactly once per finalized thread |
| `Thread.OverlapIff` | framework/lib/thread.c:784-849 | after starts made one after the other, another start makes two threads run on the object if and only if it creates one while the last thread has not begun to run |
| `Thread.StartAfterFailedWait` | framework/lib/thread.c:831-843 | a run in which a start after one whose wait failed leaves two main procedures running, one of them without the acknowledgement of its own start |
| `Thread.OverlappingStarts` | framework/lib/thread.c:774-877 | two starts that overlap run two threads on one object |
| `Thread.WaitAfterStart` | framework/lib/thread.c:938-1007 | after a successful start a wait returns OK only when that very thread is gone and its result code stored |
| `Thread.StartOutcome` | framework/lib/thread.c:774-877 | after orderly starts another one is refused exactly while the last thread is between its entry and its finalization; otherwise it creates a thread still to run, or fails and changes nothing |
| `Thread.ResultFromMain` | framework/lib/thread.c:470-474 | the result code that a successful wait leaves in the object is one that the main procedure of the thread finalized last has ended with |
| `Thread.WaitOkIff` | framework/lib/thread.c:956-997 | a wait returns OK if and only if the last of its condition waits ended well or it made none: a failure before that is forgotten |
| `Thread.WaiterFinishes` | framework/lib/thread.c:956-997 | in every phase of a wait: once a thread is finalized, or the waits of the caller fail, it returns by steps of its own, with the code of its waits |
| `Thread.NoWait` | framework/lib/thread.c:956-997 | with no thread active and the last start finalized, or none made, a wait returns OK without waiting |
| `Thread.WaitHolds` | framework/lib/thread.c:956-972 | while a thread is active and not finalized, a caller whose wait does not fail stays in it, over every run |
| `Thread.StartHolds` | framework/lib/thread.c:831-849 | a start does not return before a thread has entered, unless its wait fails, over every run |
| `Thread.AckHolds` | framework/lib/thread.c:650-676 | a thread that enters waits exactly if there was no acknowledgement since the last start, and then until there is one, unless its wait fails |
| `Thread.FullCycle` | framework/lib/thread.c:628-704 | from every state with no thread active: a start, a main procedure that ends with any code, and a wait come to an end: the start succeeds, the finalizer procedure runs once, the wait returns OK and the object holds the code |

## Left out

Weaker than the source, or narrower:

- Pipeline.PauseHolds: safety only. A pause that follows a resume at once can leave workers that have not woken yet inside the resume wait, so that the barrier never fills; that a pause, resume or maintenance call returns is claimed only for workers at work with nobody else stepping in between (PauseWorks, ResumeUndoesPause, MaintenanceWorks).
- Pipeline.MaintenanceRunsOnce: waits and barriers that fail, and the cancellation or shutdown of a stage under way, are not steps of the model.
- CalloutRuns.CancelKept: no execution is under way when the cancellation is made, as in CancelIsFinal below.
- Callout.Scheduler.CancelTask: the same; the reference counts and the wait of a canceller are left out.
- CalloutRuns.CancelIsFinal: no execution is under way when the cancellation is made. The reference counts of executions and cancellations, the wait of a canceller for an execution, and a procedure that cancels its own task are left out.
- CalloutRuns.PeriodicSpacing: about the start times that the dispatcher records in m_last_abstime, which is the time of the fetch, not the time of the call.
- CalloutRuns.FreedExactlyOnce: a pointer stands for one allocation; that an address used again makes an old pointer refer to a new task is not captured.
- Callout.Scheduler.SubmitTask: a submission that finds the urgent or idle queue full waits with the global lock held; such a submission is not a step.
- Callout.Scheduler.SubmitCall: the same.
- Callout.Scheduler.CreateTask: the number of the allocation is a parameter; names and argument checks are left out.
- Callout.Scheduler.FetchTasks: one step. In the C code the global lock is released between the bounded queues and the timed queue.
- Callout.Scheduler.ExecTask: the reference counts of executions and cancellations are left out; the code of a procedure that fails is Failed.
- Callout.Scheduler.Iterate: the idle procedure, the computation of the time to sleep and the sleep itself are left out.
- CalloutStage.CalloutStage.Submit: m_last_q does not wrap around, how each put ends is a parameter, and no queue is shut down meanwhile.
- CBufferProtocol.FifoOverRuns: the notification of a qmuxer is left out, and the order in which waiters are notified is arbitrary.
- CBuffer.CBuffer.CopyIn: the element counters are unbounded; the recovery from their overflow in s_adjust_indices, which does not keep the distance of the indices, is left out.
- CBuffer.CBuffer.PutOnce: the loop of the blocking calls is cut at its waits: a method is one pass, and CBufferProtocol strings the passes together.
- HashTable.HashTable.Create: for fewer than 3 * 2^30 entries, as from the fifteenth rebuild on the code has no bucket to use; memory is never exhausted.
- HashMap.HashMap.Add: the same.
- HashTable.HashTable.Find: one method for the three search procedures, which differ in hash and key comparison only.
- HashMap.HashMap.Iterate: the procedure is a function of key and value; one that changes the map while it is iterated is left out.
- HashMap.HashMap.CleanOut: the loops of DeleteHashTable that free the entries are left out.
- Statistic.QuietExact: no reset during or between the recordings; reads that are not taken at rest are left out.
- Statistic.SsumExact: over the reals, without the rounding of double and without the root.
- Thread.WaitAfterStart: the object is not destroyed, cancellation flags, automatic deletion, affinity and names are left out; that a wait returns is claimed only as in WaiterFinishes and FullCycle.
- StrEscape.Unescape: memory is never exhausted.

Not modelled:

- Several dispatchers at once (the workers of the callout stage running tasks while the main loop runs): cancellation races with them without synchronisation.
- Pools, poolable objects, pooled threads and tasks (framework/lib/pool.c and its neighbours).
- The global state (framework/lib/gstate.c): its setters and waits would add easy members only.
- The tokenizers and number parsers of framework/lib/strutils.c.
- Argument checks against NULL, log messages, HashStats, and failing allocations.
- Sockets, TLS, certificates, the logger, signals, daemons, process-id files, NUMA, fork handlers, constructors and destructors of modules.
