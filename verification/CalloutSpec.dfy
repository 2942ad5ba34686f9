/**
 The callout scheduler as a function of its state (framework/lib/callout.c, callout_task.c and
 callout_queue.c), with the single dispatcher s_run_tasks_by_self.

 The state keeps, as the C code does, every task state twice: in the task record and in the
 table of valid tasks.  One API call, one fetch of the main loop and one execution of a
 fetched task are one step each.  Module Callout proves the imperative code against the
 functions of this module; module CalloutRuns proves what holds over every run of them.
 */
module CalloutSpec {
  import opened Arith

  const TASK_MAX: nat := 1000          // CALLOUT_TASK_MAX
  const SCHED_JITTER: int := 1000      // CALLOUT_TASK_SCHED_JITTER, 1 usec
  const MIN_INTERVAL: int := 10_000    // CALLOUT_TASK_MIN_INTERVAL, 10 usec

  // A task absent from the table is in TASK_STATE_UNKNOWN.
  datatype TaskState = Created | Enqueued | Dequeued | Executing | ExecFailed | Cancelled | Deleting

  datatype Task = Task(
    status: TaskState,
    isFirst: bool,
    doRepeat: bool,
    inTimedQ: bool,
    initialDelay: int,
    interval: int,
    lastAbstime: int,
    nextAbstime: int,
    wantsFree: bool)      // both m_freeproc and m_arg are set

  // The task's procedure ran; timed tells a dispatch by the main loop from a forced one.
  datatype Event<T> = Event(task: T, time: int, timed: bool, interval: int)

  datatype Result =
    | Ok | Failed | TooSmall | InvalidObject | InvalidState | InvalidStateTransition

  // What a task's procedure does: whether it succeeds, and a reset of the interval from inside.
  datatype Outcome = Outcome(ok: bool, newInterval: int)

  datatype State<T> = State(
    tasks: map<T, Task>,          // live task records
    table: map<T, TaskState>,     // s_tsk_tbl
    timedQ: seq<T>,               // s_chrono_tsk_q
    urgentQ: seq<T>,              // s_urgent_tsk_q
    idleQ: seq<T>,                // s_idle_tsk_q
    batch: seq<T>,                // fetched by the main loop, not yet run
    batchTime: int,               // the time of that fetch
    stamps: map<T, nat>,          // when each task last entered the timed queue
    clock: nat,
    retired: map<T, bool>,        // destroyed tasks, and whether they had an argument to free
    freed: seq<T>,                // calls of free-up procedures
    log: seq<Event<T>>)

  function Init<T>(): State<T> {
    State(map[], map[], [], [], [], [], 0, map[], 0, map[], [], [])
  }

  // ---------------------------------------------------------------- sequences

  // The length of the longest prefix of q whose times are at most limit.
  function DueCount<T>(q: seq<T>, tasks: map<T, Task>, limit: int): (c: nat)
    requires forall x :: x in q ==> x in tasks
    ensures c <= |q|
    ensures forall i :: 0 <= i < c ==> tasks[q[i]].nextAbstime <= limit
    ensures c < |q| ==> tasks[q[c]].nextAbstime > limit
  {
    if q == [] || tasks[q[0]].nextAbstime > limit then 0 else 1 + DueCount(q[1..], tasks, limit)
  }

  function InsertAt<T>(q: seq<T>, c: nat, t: T): seq<T>
    requires c <= |q|
  {
    q[..c] + [t] + q[c..]
  }

  function Remove<T(==)>(q: seq<T>, t: T): seq<T> {
    if q == [] then [] else if q[0] == t then q[1..] else [q[0]] + Remove(q[1..], t)
  }

  // ---------------------------------------------------------------- task states

  function SetStatus<T>(s: State<T>, t: T, st: TaskState): State<T>
    requires t in s.tasks
  {
    s.(tasks := s.tasks[t := s.tasks[t].(status := st)], table := s.table[t := st])
  }

  // Every member of a queue is live.
  ghost predicate QueuesLive<T>(s: State<T>) {
    && (forall x :: x in s.timedQ ==> x in s.tasks)
    && (forall x :: x in s.urgentQ ==> x in s.tasks)
    && (forall x :: x in s.idleQ ==> x in s.tasks)
    && (forall x :: x in s.batch ==> x in s.tasks)
  }

  // ---------------------------------------------------------------- the timed queue

  // s_do_sched(): the new record of t.
  function Rescheduled(r: Task, now: int): Task {
    var timed :=
      if !r.isFirst && r.doRepeat then r.(nextAbstime := r.lastAbstime + r.interval)
      else r.(lastAbstime := now, nextAbstime := now + r.initialDelay);
    timed.(status := Enqueued, inTimedQ := true)
  }

  function Sched<T>(s: State<T>, t: T, now: int): State<T>
    requires t in s.tasks
    requires forall x :: x in s.timedQ ==> x in s.tasks
  {
    if s.tasks[t].inTimedQ then s
    else
      var r := Rescheduled(s.tasks[t], now);
      s.(tasks := s.tasks[t := r],
         table := s.table[t := Enqueued],
         timedQ := InsertAt(s.timedQ, DueCount(s.timedQ, s.tasks, r.nextAbstime), t),
         stamps := s.stamps[t := s.clock],
         clock := s.clock + 1)
  }

  // The value returned by s_do_sched().
  function SchedResult<T>(s: State<T>, t: T, now: int): int
    requires t in s.tasks
  {
    if s.tasks[t].inTimedQ then -1 else Rescheduled(s.tasks[t], now).nextAbstime
  }

  // s_do_unsched()
  function Unsched<T(==)>(s: State<T>, t: T): State<T>
    requires t in s.tasks
  {
    if !s.tasks[t].inTimedQ then s
    else
      var s1 := s.(timedQ := Remove(s.timedQ, t));
      var s2 := if s.tasks[t].status == Enqueued then SetStatus(s1, t, Dequeued) else s1;
      s2.(tasks := s2.tasks[t := s2.tasks[t].(inTimedQ := false)])
  }

  function DequeuedTask(r: Task): Task {
    r.(status := Dequeued, inTimedQ := false)
  }

  // s_get_runnables(): the first n due tasks leave the queue.
  function RunnableCount<T>(s: State<T>, base: int, n: nat): (c: nat)
    requires forall x :: x in s.timedQ ==> x in s.tasks
    ensures c <= |s.timedQ|
  {
    Min(n, DueCount(s.timedQ, s.tasks, base + SCHED_JITTER))
  }

  function TakeRunnables<T(==)>(s: State<T>, c: nat): State<T>
    requires c <= |s.timedQ|
  {
    var taken := s.timedQ[..c];
    s.(tasks := map x | x in s.tasks :: if x in taken then DequeuedTask(s.tasks[x]) else s.tasks[x],
       table := map x | x in s.table.Keys + (set y | y in taken) :: if x in taken then Dequeued else s.table[x],
       timedQ := s.timedQ[c..])
  }

  // s_peek_current_wakeup_time(), also the next_wakeup of s_get_runnables()
  function NextWakeup<T>(s: State<T>): int
    requires forall x :: x in s.timedQ ==> x in s.tasks
  {
    if s.timedQ == [] then -1 else s.tasks[s.timedQ[0]].nextAbstime
  }

  // ---------------------------------------------------------------- the task life cycle

  // gallus_callout_create_task() with a new record.
  function Create<T>(s: State<T>, t: T, wantsFree: bool): State<T> {
    s.(tasks := s.tasks[t := Task(Created, true, false, false, -1, -1, 0, 0, wantsFree)],
       table := s.table[t := Created])
  }

  // s_delete()
  function Delete<T>(s: State<T>, t: T): State<T>
    requires t in s.tasks
  {
    if t in s.table && s.table[t] == Cancelled && s.tasks[t].status != Deleting then
      s.(tasks := s.tasks - {t},
         table := s.table - {t},
         retired := s.retired[t := s.tasks[t].wantsFree],
         freed := if s.tasks[t].wantsFree then s.freed + [t] else s.freed)
    else s
  }

  // s_set_cancel_and_destroy_task_no_lock()
  function Destroy<T(==)>(s: State<T>, t: T): State<T>
    requires t in s.tasks
  {
    var s1 := Unsched(s, t);
    Delete(s1.(table := s1.table[t := Cancelled]), t)
  }

  // gallus_callout_submit_task() and s_submit_task().  The urgent and idle queues are bounded:
  // a submission that finds one full blocks, which is not a step (see SubmitEnabled).
  function SubmitEnabled<T>(s: State<T>, t: T, delay: int, interval: int): bool {
    t in s.table && s.table[t] == Created && (interval >= MIN_INTERVAL || interval == 0) ==>
      (delay == 0 ==> |s.urgentQ| < TASK_MAX) && (delay < 0 ==> |s.idleQ| < TASK_MAX)
  }

  function SubmitResult<T>(s: State<T>, t: T, delay: int, interval: int, now: int): Result
    requires t in s.table ==> t in s.tasks
  {
    if t !in s.table then InvalidObject
    else if s.table[t] != Created then InvalidStateTransition
    else if interval < MIN_INTERVAL && interval != 0 then TooSmall
    else if delay > 0 && SchedResult(Armed(s, t, delay, interval), t, now) <= 0 then Failed
    else Ok
  }

  // The delay and the interval of a submission are stored in the task.
  function Armed<T>(s: State<T>, t: T, delay: int, interval: int): State<T>
    requires t in s.tasks
  {
    var r := s.tasks[t].(initialDelay := delay);
    s.(tasks := s.tasks[t := if interval > 0 then r.(interval := interval, doRepeat := true) else r])
  }

  function Submit<T>(s: State<T>, t: T, delay: int, interval: int, now: int): State<T>
    requires t in s.table ==> t in s.tasks
    requires forall x :: x in s.timedQ ==> x in s.tasks
  {
    if t !in s.table || s.table[t] != Created || (interval < MIN_INTERVAL && interval != 0) then s
    else
      var s1 := Armed(s, t, delay, interval);
      if delay > 0 then Sched(s1, t, now)
      else
        var s2 := if delay == 0 then s1.(urgentQ := s1.urgentQ + [t]) else s1.(idleQ := s1.idleQ + [t]);
        if s2.tasks[t].inTimedQ then s2 else SetStatus(s2, t, Enqueued)
  }

  // gallus_callout_cancel_task(), no task being executed
  function Cancel<T(==)>(s: State<T>, t: T): State<T>
    requires t in s.table ==> t in s.tasks
  {
    if t !in s.table then s
    else match s.table[t]
      case Enqueued => if s.tasks[t].inTimedQ then Destroy(s, t) else SetStatus(s, t, Cancelled)
      case Dequeued => SetStatus(s, t, Cancelled)
      case _ => s
  }

  // s_exec_task() on a task in TASK_STATE_DEQUEUED, up to the return of the procedure.  The
  // procedure may call gallus_callout_task_reset_interval(), which refuses short intervals.
  function Executed<T>(s: State<T>, t: T, o: Outcome, timed: bool): State<T>
    requires t in s.tasks
  {
    var r := s.tasks[t];
    var st := if o.ok then Executing else ExecFailed;
    var interval := if o.newInterval >= MIN_INTERVAL then o.newInterval else r.interval;
    s.(tasks := s.tasks[t := r.(status := st, isFirst := false, interval := interval)],
       table := s.table[t := st],
       log := s.log + [Event(t, r.lastAbstime, timed, interval)])
  }

  // s_exec_task(), after the procedure: a successful periodic task is queued again, any other
  // task is destroyed.
  function Settle<T(==)>(s: State<T>, t: T, ok: bool): State<T>
    requires t in s.tasks
    requires forall x :: x in s.timedQ ==> x in s.tasks
  {
    if ok && s.tasks[t].doRepeat then
      var s1 := Sched(s, t, 0);
      if SchedResult(s, t, 0) >= 0 then s1 else Destroy(s1, t)
    else Destroy(s, t)
  }

  // s_exec_task()
  function Exec<T(==)>(s: State<T>, t: T, o: Outcome, timed: bool): State<T>
    requires t in s.tasks
    requires forall x :: x in s.timedQ ==> x in s.tasks
  {
    if t !in s.table then s
    else match s.table[t]
      case Dequeued => Settle(Executed(s, t, o, timed), t, o.ok)
      case Cancelled => Destroy(s, t)
      case _ => s
  }

  function SettleResult<T>(s: State<T>, t: T, ok: bool): Result
    requires t in s.tasks
  {
    if !ok || (s.tasks[t].doRepeat && SchedResult(s, t, 0) < 0) then Failed else Ok
  }

  // The value of s_exec_task(); a failing procedure's own error is Failed.
  function ExecResult<T>(s: State<T>, t: T, o: Outcome, timed: bool): Result
    requires t in s.tasks
  {
    if t !in s.table then InvalidObject
    else match s.table[t]
      case Dequeued => SettleResult(Executed(s, t, o, timed), t, o.ok)
      case Cancelled => Ok
      case Executing => Ok
      case _ => InvalidStateTransition
  }

  // The loop body of s_run_tasks_by_self() before the execution.
  function Mark<T>(s: State<T>, t: T, start: int): State<T>
    requires t in s.tasks
  {
    var r := s.tasks[t].(lastAbstime := start);
    if r.status == Enqueued || r.status == Created then
      s.(tasks := s.tasks[t := r.(status := Dequeued)], table := s.table[t := Dequeued])
    else
      s.(tasks := s.tasks[t := r])
  }

  function ForceResult<T>(s: State<T>, t: T): Result
    requires t in s.table ==> t in s.tasks
  {
    if t !in s.table then InvalidObject
    else if (s.table[t] == Created || s.table[t] == Enqueued) && s.tasks[t].inTimedQ then Ok
    else InvalidState
  }

  // gallus_callout_exec_task_forcibly() and s_force_schedule_task()
  function Force<T(==)>(s: State<T>, t: T, now: int, o: Outcome): State<T>
    requires t in s.table ==> t in s.tasks
    requires forall x :: x in s.timedQ ==> x in s.tasks
  {
    if ForceResult(s, t) != Ok then s
    else
      RemoveSubset(s.timedQ, t);
      var s1 := SetStatus(Unsched(s, t), t, Dequeued);
      Exec(Mark(s1, t, now), t, o, false)
  }

  lemma RemoveSubset<T>(q: seq<T>, t: T)
    ensures forall x :: x in Remove(q, t) ==> x in q
  {
  }

  // ---------------------------------------------------------------- the main loop

  // One iteration of s_start_callout_main_loop() up to the dispatch: urgent and idle tasks are
  // taken, then the due timed ones, and packed timed first.
  function Fetch<T(==)>(s: State<T>, now: int): State<T>
    requires forall x :: x in s.timedQ ==> x in s.tasks
  {
    var u := Min(TASK_MAX, |s.urgentQ|);
    var i := Min(TASK_MAX, |s.idleQ|);
    var c := if now > 0 then RunnableCount(s, now, TASK_MAX) else 0;
    TakeRunnables(s, c).(
      urgentQ := s.urgentQ[u..],
      idleQ := s.idleQ[i..],
      batch := s.timedQ[..c] + s.urgentQ[..u] + s.idleQ[..i],
      batchTime := now)
  }

  // s_run_tasks_by_self() on the next fetched task
  function RunNext<T(==)>(s: State<T>, o: Outcome): State<T>
    requires s.batch != [] && s.batch[0] in s.tasks
    requires forall x :: x in s.timedQ ==> x in s.tasks
  {
    var t := s.batch[0];
    Exec(Mark(s.(batch := s.batch[1..]), t, s.batchTime), t, o, true)
  }

  // ---------------------------------------------------------------- finalization

  // s_destroy_all_queued_timed_tasks(), one task: s_get() and destroy.
  function DropTimed<T(==)>(s: State<T>): State<T>
    requires s.timedQ != [] && s.timedQ[0] in s.tasks
  {
    Destroy(TakeRunnables(s, 1), s.timedQ[0])
  }

  // gallus_bbq_clear() with s_task_freeup(), one task.
  function DropUrgent<T(==)>(s: State<T>): State<T>
    requires s.urgentQ != [] && s.urgentQ[0] in s.tasks
  {
    Destroy(s.(urgentQ := s.urgentQ[1..]), s.urgentQ[0])
  }

  function DropIdle<T(==)>(s: State<T>): State<T>
    requires s.idleQ != [] && s.idleQ[0] in s.tasks
  {
    Destroy(s.(idleQ := s.idleQ[1..]), s.idleQ[0])
  }
}
