/**
 The callout scheduler in the form of framework/lib/callout.c, callout_task.c and
 callout_queue.c: task records updated in place, queues and the table of valid tasks as
 fields, proved against the functions of module CalloutSpec.

 A task pointer is the number of an allocation; mem holds the records that are allocated, so that
 following a pointer to a freed record is a proof obligation that fails.  Locks are left out:
 a method is what runs while they are held.  The clock is a parameter.
 */
module Callout {
  import opened Arith
  import opened CalloutEffects
  import opened CalloutSpec
  import opened CalloutRuns
  import opened Wrappers

  class CalloutTask {
    var status: TaskState
    var isFirst: bool
    var doRepeat: bool
    var inTimedQ: bool
    var initialDelay: int
    var interval: int
    var lastAbstime: int
    var nextAbstime: int
    const wantsFree: bool

    constructor (wantsFree: bool)
      ensures Record() == Task(Created, true, false, false, -1, -1, 0, 0, wantsFree)
    {
      status, isFirst, doRepeat, inTimedQ := Created, true, false, false;
      initialDelay, interval, lastAbstime, nextAbstime := -1, -1, 0, 0;
      this.wantsFree := wantsFree;
    }

    ghost function Record(): Task
      reads this
    {
      Task(status, isFirst, doRepeat, inTimedQ, initialDelay, interval, lastAbstime, nextAbstime, wantsFree)
    }
  }

  class Scheduler {
    var mem: map<nat, CalloutTask>
    var table: map<nat, TaskState>
    var timedQ: seq<nat>
    var urgentQ: seq<nat>
    var idleQ: seq<nat>
    ghost var batch: seq<nat>
    ghost var batchTime: int
    ghost var stamps: map<nat, nat>
    ghost var clock: nat
    ghost var retired: map<nat, bool>
    ghost var freed: seq<nat>
    ghost var log: seq<Event<nat>>

    ghost function Tasks(): map<nat, Task>
      reads this`mem, mem.Values
    {
      map t | t in mem :: mem[t].Record()
    }

    ghost function S(): State<nat>
      reads this, mem.Values
    {
      State(Tasks(), table, timedQ, urgentQ, idleQ, batch, batchTime,
            stamps, clock, retired, freed, log)
    }

    // No two pointers refer to the same record, and the queues refer to live records.
    ghost predicate Ok()
      reads this, mem.Values
    {
      && (forall a, b :: a in mem && b in mem && a != b ==> mem[a] != mem[b])
      && (forall x :: x in timedQ ==> x in mem)
      && (forall x :: x in urgentQ ==> x in mem)
      && (forall x :: x in idleQ ==> x in mem)
      && (forall x :: x in batch ==> x in mem)
    }

    // Only the record of t has changed.
    twostate lemma OneRecord(t: nat)
      requires old(Ok()) && mem == old(mem) && t in mem
      requires forall x :: x in mem && x != t ==> unchanged(mem[x])
      ensures Tasks() == old(Tasks())[t := mem[t].Record()]
    {
    }

    constructor ()
      ensures Ok() && S() == Init() && fresh(mem.Values)
    {
      mem, table := map[], map[];
      timedQ, urgentQ, idleQ := [], [], [];
      batch, batchTime, stamps, clock, retired, freed, log := [], 0, map[], 0, map[], [], [];
    }

    // s_set_task_state_in_table()
    method SetTaskStateInTable(t: nat, st: TaskState)
      requires Ok()
      modifies this`table
      ensures Ok() && S() == old(S()).(table := old(table)[t := st])
    {
      table := table[t := st];
    }

    method SetTaskState(t: nat, st: TaskState)
      requires Ok() && t in mem
      modifies this`table, mem[t]
      ensures Ok() && S() == SetStatus(old(S()), t, st)
      ensures mem[t].status == st && mem[t].inTimedQ == old(mem[t].inTimedQ)
    {
      table := table[t := st];
      mem[t].status := st;
      OneRecord(t);
    }

    // The position of t in the timed queue: before the first task that is due later.
    method FindPosition(t: nat) returns (i: nat)
      requires Ok() && t in mem
      ensures i <= |timedQ| && i == DueCount(timedQ, Tasks(), mem[t].nextAbstime)
    {
      i := 0;
      while i < |timedQ| && mem[timedQ[i]].nextAbstime <= mem[t].nextAbstime
        invariant i <= |timedQ|
        invariant forall k :: 0 <= k < i ==> timedQ[k] in mem && mem[timedQ[k]].nextAbstime <= mem[t].nextAbstime
      {
        assert timedQ[i] in timedQ;
        i := i + 1;
      }
      DueCountIs(timedQ, Tasks(), mem[t].nextAbstime, i);
    }

    // s_do_sched(), (re-)computing the next execution time
    method ComputeNextTime(t: nat, now: int)
      requires Ok() && t in mem
      modifies mem[t]
      ensures Ok() && S() == old(S()).(tasks := old(Tasks())[t := Timed(old(mem[t].Record()), now)])
    {
      if !mem[t].isFirst && mem[t].doRepeat {
        mem[t].nextAbstime := mem[t].lastAbstime + mem[t].interval;
      } else {
        mem[t].lastAbstime := now;
        mem[t].nextAbstime := mem[t].lastAbstime + mem[t].initialDelay;
      }
      OneRecord(t);
    }

    // s_do_sched(), inserting the task into the queue
    method InsertTimed(t: nat)
      requires Ok() && t in mem
      modifies this`timedQ, this`stamps, this`clock
      ensures Ok()
      ensures S() == old(S()).(
                timedQ := InsertAt(old(timedQ), DueCount(old(timedQ), old(Tasks()), old(Tasks())[t].nextAbstime), t),
                stamps := old(stamps)[t := old(clock)], clock := old(clock) + 1)
    {
      var i := FindPosition(t);
      InsertBefore(t, i);
      Stamp(t);
    }

    // TAILQ_INSERT_BEFORE(), or TAILQ_INSERT_TAIL() at the end
    method InsertBefore(t: nat, i: nat)
      requires Ok() && t in mem && i <= |timedQ|
      modifies this`timedQ
      ensures Ok() && S() == old(S()).(timedQ := InsertAt(old(timedQ), i, t))
    {
      timedQ := timedQ[..i] + [t] + timedQ[i..];
      assert forall x :: x in timedQ ==> x == t || x in old(timedQ);
    }

    ghost method Stamp(t: nat)
      requires Ok()
      modifies this`stamps, this`clock
      ensures Ok() && S() == old(S()).(stamps := old(stamps)[t := old(clock)], clock := old(clock) + 1)
    {
      stamps, clock := stamps[t := clock], clock + 1;
    }

    method SetQueued(t: nat, queued: bool)
      requires Ok() && t in mem
      modifies mem[t]
      ensures Ok() && S() == old(S()).(tasks := old(S()).tasks[t := old(S()).tasks[t].(inTimedQ := queued)])
    {
      mem[t].inTimedQ := queued;
      OneRecord(t);
    }

    // s_do_sched(), marking the task
    method EnterQueue(t: nat)
      requires Ok() && t in mem
      modifies this`table, mem[t]
      ensures Ok() && S() == Queued(old(S()), t)
    {
      SetTaskState(t, Enqueued);
      SetQueued(t, true);
    }

    // s_do_sched()
    method DoSched(t: nat, now: int) returns (ret: int)
      requires Ok() && t in mem && (t in timedQ ==> mem[t].inTimedQ)
      modifies this`table, this`timedQ, this`stamps, this`clock, mem[t]
      ensures Ok() && S() == Sched(old(S()), t, now) && ret == SchedResult(old(S()), t, now)
    {
      ret := -1;
      if !mem[t].inTimedQ {
        ComputeNextTime(t, now);
        InsertTimed(t);
        EnterQueue(t);
        ret := mem[t].nextAbstime;
        SchedSteps(old(S()), t, now);
      }
    }

    // ---------------------------------------------------------------- leaving the timed queue

    // TAILQ_REMOVE()
    method RemoveTimed(t: nat)
      requires Ok()
      modifies this`timedQ
      ensures Ok() && S() == old(S()).(timedQ := Remove(old(timedQ), t))
    {
      RemoveSubset(timedQ, t);
      timedQ := Remove(timedQ, t);
    }

    // s_do_unsched()
    method DoUnsched(t: nat)
      requires Ok() && t in mem
      modifies this`table, this`timedQ, mem[t]
      ensures Ok() && S() == Unsched(old(S()), t)
      ensures timedQ == if old(mem[t].inTimedQ) then Remove(old(timedQ), t) else old(timedQ)
    {
      if mem[t].inTimedQ {
        RemoveTimed(t);
        if mem[t].status == Enqueued {
          SetTaskState(t, Dequeued);
        }
        SetQueued(t, false);
      }
    }

    // The head of the timed queue is removed and its task marked, as s_get() and
    // s_get_runnables() do.
    method DequeueHead() returns (e: nat)
      requires Ok() && timedQ != []
      modifies this`table, this`timedQ, mem.Values
      ensures Ok() && e == old(timedQ)[0] && S() == HeadDequeued(old(S()))
    {
      e := timedQ[0];
      timedQ := timedQ[1..];
      SetTaskState(e, Dequeued);
      SetQueued(e, false);
    }

    // The test and the removal common to s_get() and s_get_runnables(): the head leaves the
    // timed queue if there is one that is due by the given time.
    method TakeIfDue(time: int) returns (e: Option<nat>)
      requires Ok()
      modifies this`table, this`timedQ, mem.Values
      ensures Ok()
      ensures HeadDue(old(timedQ), old(Tasks()), time) ==> e == Some(old(timedQ)[0]) && S() == HeadDequeued(old(S()))
      ensures !HeadDue(old(timedQ), old(Tasks()), time) ==> e == None && S() == old(S())
    {
      if timedQ != [] && mem[timedQ[0]].nextAbstime <= time {
        var h := DequeueHead();
        e := Some(h);
      } else {
        e := None;
      }
    }

    // s_get()
    method Get() returns (t: Option<nat>)
      requires Ok()
      modifies this`table, this`timedQ, mem.Values
      ensures Ok()
      ensures old(timedQ) == [] ==> t.None? && S() == old(S())
      ensures old(timedQ) != [] ==> t == Some(old(timedQ)[0]) && S() == TakeRunnables(old(S()), 1)
    {
      if timedQ == [] {
        t := None;
      } else {
        HeadIsOneRunnable(S());
        var e := DequeueHead();
        t := Some(e);
      }
    }

    // TakeIfDue() after c tasks have been taken from the state s.
    method TakeNext(time: int, ghost s: State<nat>, ghost c: nat) returns (e: Option<nat>)
      requires Ok() && Taken(s, c, S())
      modifies this`table, this`timedQ, mem.Values
      ensures Ok()
      ensures e == if HeadDue(s.timedQ[c..], s.tasks, time) then Some(s.timedQ[c]) else None
      ensures Taken(s, if e.Some? then c + 1 else c, S())
    {
      TakeKeepsTimes(s, c, time);
      if HeadDue(s.timedQ[c..], s.tasks, time) { TakeOneMore(s, c); }
      e := TakeIfDue(time);
    }

    // s_get_runnables(): tasks is what the caller's array is filled with.
    method GetRunnables(base: int, n: nat) returns (tasks: seq<nat>, nextWakeup: int)
      requires Ok()
      modifies this`table, this`timedQ, mem.Values
      ensures Ok()
      ensures |tasks| == RunnableCount(old(S()), base, n) && tasks == old(timedQ)[..|tasks|]
      ensures S() == TakeRunnables(old(S()), |tasks|)
      ensures nextWakeup == NextWakeup(S())
    {
      tasks := TakeDue(base + SCHED_JITTER, n);
      RunnableCountIs(old(S()), base, n, |tasks|);
      nextWakeup := if timedQ != [] then mem[timedQ[0]].nextAbstime else -1;
    }

    // s_get_runnables(), the loop
    method TakeDue(theAbstime: int, n: nat) returns (tasks: seq<nat>)
      requires Ok()
      modifies this`table, this`timedQ, mem.Values
      ensures Ok() && TakenDue(old(S()), theAbstime, n, tasks)
      ensures |tasks| == n || !HeadDue(old(timedQ)[|tasks|..], old(Tasks()), theAbstime)
      ensures S() == TakeRunnables(old(S()), |tasks|)
    {
      ghost var s := S();
      tasks := [];
      TakeNothing(s);
      var e := if timedQ == [] then None else Some(timedQ[0]);
      while |tasks| < n && e.Some?
        invariant Ok() && Taking(s, theAbstime, n, tasks, S())
        invariant e.None? ==> !HeadDue(s.timedQ[|tasks|..], s.tasks, theAbstime)
        decreases n - |tasks|, e.Some?
      {
        tasks, e := TakeOne(theAbstime, n, tasks, s);
      }
    }

    // One round of the loop
    method TakeOne(theAbstime: int, n: nat, tasks: seq<nat>, ghost s: State<nat>)
      returns (tasks': seq<nat>, e: Option<nat>)
      requires Ok() && Taking(s, theAbstime, n, tasks, S()) && |tasks| < n
      modifies this`table, this`timedQ, mem.Values
      ensures Ok() && Taking(s, theAbstime, n, tasks', S())
      ensures |tasks'| == |tasks| + if e.Some? then 1 else 0
      ensures e.None? ==> !HeadDue(s.timedQ[|tasks'|..], s.tasks, theAbstime)
    {
      e := TakeNext(theAbstime, s, |tasks|);
      tasks' := tasks;
      if e.Some? {
        TakenOneMore(s, theAbstime, n, tasks);
        tasks' := tasks + [e.value];
      }
    }

    // ---------------------------------------------------------------- the task life cycle

    // The invariant of module CalloutRuns at the boundaries of the API.
    ghost predicate Valid()
      reads this, mem.Values
    {
      Ok() && Inv(S())
    }

    // s_create_task(): the allocation is a new one.
    method NewTask(t: nat, wantsFree: bool)
      requires Ok() && t !in mem
      modifies this`mem, this`table
      ensures Ok() && S() == Create(old(S()), t, wantsFree)
      ensures fresh(mem.Values - old(mem.Values))
    {
      var r := new CalloutTask(wantsFree);
      mem := mem[t := r];
      assert forall x :: x in old(mem) ==> mem[x] == old(mem)[x] && mem[x] != r;
      table := table[t := Created];
      assert Tasks() == old(Tasks())[t := r.Record()];
    }

    // gallus_callout_create_task()
    method CreateTask(t: nat, wantsFree: bool)
      requires Valid() && t !in mem && t !in retired
      modifies this`mem, this`table
      ensures Valid() && S() == Create(old(S()), t, wantsFree)
      ensures fresh(mem.Values - old(mem.Values))
    {
      CreateKept(S(), t, wantsFree);
      NewTask(t, wantsFree);
    }

    // s_delete(): the record leaves the heap.
    method DeleteTask(t: nat)
      requires Ok() && t in mem && t !in timedQ && t !in urgentQ && t !in idleQ && t !in batch
      modifies this`mem, this`table, this`retired, this`freed, mem[t]
      ensures Ok() && S() == Delete(old(S()), t) && mem.Values <= old(mem.Values)
    {
      if t in table && table[t] == Cancelled {
        if mem[t].status != Deleting {
          ForgetTask(t);
          SetDeleting(t);
          if mem[t].wantsFree {
            FreeArgument(t);
          }
          FreeRecord(t);
          DeleteSteps(old(S()), t);
        }
      }
    }

    // s_delete_task_in_table()
    method ForgetTask(t: nat)
      requires Ok()
      modifies this`table
      ensures Ok() && S() == old(S()).(table := old(table) - {t})
    {
      table := table - {t};
    }

    method SetDeleting(t: nat)
      requires Ok() && t in mem
      modifies mem[t]
      ensures Ok() && S() == old(S()).(tasks := old(S()).tasks[t := old(S()).tasks[t].(status := Deleting)])
    {
      mem[t].status := Deleting;
      OneRecord(t);
    }

    method FreeArgument(t: nat)
      requires Ok()
      modifies this`freed
      ensures Ok() && S() == old(S()).(freed := old(freed) + [t])
    {
      freed := freed + [t];
    }

    method FreeRecord(t: nat)
      requires Ok() && t in mem && t !in timedQ && t !in urgentQ && t !in idleQ && t !in batch
      modifies this`mem, this`retired
      ensures Ok() && mem == old(mem) - {t}
      ensures mem.Values <= old(mem.Values)
      ensures S() == old(S()).(tasks := old(S()).tasks - {t}, retired := old(retired)[t := old(S()).tasks[t].wantsFree])
    {
      retired := retired[t := mem[t].wantsFree];
      mem := mem - {t};
      assert Tasks() == old(Tasks()) - {t};
    }

    // s_set_cancel_and_destroy_task_no_lock()
    method SetCancelAndDestroy(t: nat)
      requires Ok() && t in mem && t !in urgentQ && t !in idleQ && t !in batch
      requires t !in (if mem[t].inTimedQ then Remove(timedQ, t) else timedQ)
      modifies this`mem, this`table, this`timedQ, this`retired, this`freed, mem[t]
      ensures Ok() && S() == Destroy(old(S()), t) && mem.Values <= old(mem.Values)
    {
      DoUnsched(t);
      SetTaskStateInTable(t, Cancelled);
      DeleteTask(t);
    }

    // s_cancel(), no task being executed
    method CancelTask(t: nat)
      requires Valid()
      modifies this, mem.Values
      ensures Valid() && S() == Cancel(old(S()), t) && mem.Values <= old(mem.Values)
    {
      ghost var s := S();
      CancelKept(s, t);
      if t in table && table[t] != Cancelled {
        assert PlaceOk(s, t);
        if table[t] == Enqueued {
          if mem[t].inTimedQ {
            OnlyTimed(s, t);
            SetCancelAndDestroy(t);
          } else {
            SetTaskState(t, Cancelled);
          }
        } else if table[t] == Dequeued {
          SetTaskState(t, Cancelled);
        }
      }
    }

    // gallus_callout_task_reset_interval()
    method ResetInterval(t: nat, newInterval: int) returns (r: Result)
      requires Ok() && t in mem
      modifies mem[t]
      ensures Ok()
      ensures r == if newInterval < MIN_INTERVAL then TooSmall
                   else if old(mem[t].status) == Executing then CalloutSpec.Ok else InvalidStateTransition
      ensures S() == if r == CalloutSpec.Ok
                     then old(S()).(tasks := old(Tasks())[t := old(Tasks())[t].(interval := newInterval)])
                     else old(S())
    {
      if newInterval >= MIN_INTERVAL {
        if mem[t].status == Executing {
          mem[t].interval := newInterval;
          OneRecord(t);
          r := CalloutSpec.Ok;
        } else {
          r := InvalidStateTransition;
        }
      } else {
        r := TooSmall;
      }
    }

    // s_exec_task(), the execution proper.  The procedure is known by what it does: o.
    method RunProcedure(t: nat, o: Outcome, ghost timed: bool)
      requires Ok() && t in mem
      modifies this`table, this`log, mem[t]
      ensures Ok() && S() == Executed(old(S()), t, o, timed)
      ensures mem[t].inTimedQ == old(mem[t].inTimedQ)
    {
      SetTaskState(t, Executing);
      ClearFirst(t);
      var r := ResetInterval(t, o.newInterval);
      RecordEvent(Event(t, mem[t].lastAbstime, timed, mem[t].interval));
      if !o.ok {
        SetTaskState(t, ExecFailed);
      }
      ExecutedSteps(old(S()), t, o, timed);
    }

    ghost method RecordEvent(e: Event<nat>)
      requires Ok()
      modifies this`log
      ensures Ok() && S() == old(S()).(log := old(log) + [e])
    {
      log := log + [e];
    }

    method ClearFirst(t: nat)
      requires Ok() && t in mem
      modifies mem[t]
      ensures Ok() && S() == old(S()).(tasks := old(Tasks())[t := old(Tasks())[t].(isFirst := false)])
    {
      mem[t].isFirst := false;
      OneRecord(t);
    }

    // s_exec_task(), after the procedure
    method SettleTask(t: nat, ok: bool) returns (r: Result)
      requires Ok() && t in mem && !mem[t].inTimedQ
      requires t !in timedQ && t !in urgentQ && t !in idleQ && t !in batch
      modifies this`mem, this`table, this`timedQ, this`stamps, this`clock, this`retired, this`freed, mem[t]
      ensures Ok() && S() == Settle(old(S()), t, ok) && mem.Values <= old(mem.Values)
      ensures r == SettleResult(old(S()), t, ok)
    {
      var doDelete := true;
      r := if ok then CalloutSpec.Ok else Failed;
      if ok && mem[t].doRepeat {
        RemoveScheduled(S(), t, 0);
        var ret := DoSched(t, 0);
        doDelete := ret < 0;
        r := if ret >= 0 then CalloutSpec.Ok else Failed;
      }
      if doDelete {
        SetCancelAndDestroy(t);
      }
    }

    // s_exec_task()
    method ExecTask(t: nat, o: Outcome, ghost timed: bool) returns (r: Result)
      requires Ok() && t in mem
      requires t in table && (table[t] == Dequeued || table[t] == Cancelled) ==>
                 table[t] == mem[t].status && !mem[t].inTimedQ
                 && t !in timedQ && t !in urgentQ && t !in idleQ && t !in batch
      modifies this`mem, this`table, this`timedQ, this`stamps, this`clock, this`retired, this`freed, this`log, mem[t]
      ensures Ok() && S() == Exec(old(S()), t, o, timed) && mem.Values <= old(mem.Values)
      ensures r == ExecResult(old(S()), t, o, timed)
    {
      if t in table && table[t] == Dequeued {
        RunProcedure(t, o, timed);
        r := SettleTask(t, o.ok);
      } else if t in table && table[t] == Cancelled {
        // Delayed deletion.
        SetCancelAndDestroy(t);
        r := CalloutSpec.Ok;
      } else if t in table {
        r := if table[t] == Executing then CalloutSpec.Ok else InvalidStateTransition;
      } else {
        r := InvalidObject;
      }
    }

    // ---------------------------------------------------------------- submission

    // s_submit_task(), storing the delay and the interval
    method ArmTask(t: nat, delay: int, interval: int)
      requires Ok() && t in mem
      modifies mem[t]
      ensures Ok() && S() == Armed(old(S()), t, delay, interval)
    {
      mem[t].initialDelay := delay;
      if interval > 0 {
        mem[t].interval := interval;
        mem[t].doRepeat := true;
      }
      OneRecord(t);
    }

    // The urgent and the idle queue are bounded queues: see module CBuffer.
    method PutUrgent(t: nat)
      requires Ok() && t in mem && |urgentQ| < TASK_MAX
      modifies this`urgentQ
      ensures Ok() && S() == old(S()).(urgentQ := old(urgentQ) + [t])
    {
      urgentQ := urgentQ + [t];
    }

    method PutIdle(t: nat)
      requires Ok() && t in mem && |idleQ| < TASK_MAX
      modifies this`idleQ
      ensures Ok() && S() == old(S()).(idleQ := old(idleQ) + [t])
    {
      idleQ := idleQ + [t];
    }

    // s_submit_task()
    method SubmitTask(t: nat, delay: int, interval: int, now: int) returns (r: Result)
      requires Ok() && t in mem && t in table && table[t] == Created && !mem[t].inTimedQ && t !in timedQ
      requires SubmitEnabled(S(), t, delay, interval)
      modifies this`table, this`timedQ, this`urgentQ, this`idleQ, this`stamps, this`clock, mem[t]
      ensures Ok() && S() == Submit(old(S()), t, delay, interval, now)
      ensures r == SubmitResult(old(S()), t, delay, interval, now)
    {
      if interval >= MIN_INTERVAL || interval == 0 {
        ArmTask(t, delay, interval);
        if delay == 0 {
          PutUrgent(t);
          r := CalloutSpec.Ok;
        } else if delay > 0 {
          var next := DoSched(t, now);
          r := if next > 0 then CalloutSpec.Ok else Failed;
        } else {
          PutIdle(t);
          r := CalloutSpec.Ok;
        }
        if r == CalloutSpec.Ok && !mem[t].inTimedQ {
          SetTaskState(t, Enqueued);
        }
      } else {
        r := TooSmall;
      }
    }

    // gallus_callout_submit_task()
    method SubmitCall(t: nat, delay: int, interval: int, now: int) returns (r: Result)
      requires Valid() && SubmitEnabled(S(), t, delay, interval)
      modifies this`table, this`timedQ, this`urgentQ, this`idleQ, this`stamps, this`clock, mem.Values
      ensures Valid() && S() == Submit(old(S()), t, delay, interval, now)
      ensures r == SubmitResult(old(S()), t, delay, interval, now)
    {
      SubmitKept(S(), t, delay, interval, now);
      if t in table {
        if table[t] == Created {
          CreatedNowhere(S(), t);
          r := SubmitTask(t, delay, interval, now);
        } else {
          r := InvalidStateTransition;
        }
      } else {
        r := InvalidObject;
      }
    }

    // ---------------------------------------------------------------- dispatch

    // s_run_tasks_by_self(), the loop body
    method RunTask(t: nat, start: int, o: Outcome, ghost timed: bool)
      requires Ok() && t in mem && !mem[t].inTimedQ
      requires t in table && table[t] == mem[t].status
      requires t !in timedQ && t !in urgentQ && t !in idleQ && t !in batch
      modifies this`mem, this`table, this`timedQ, this`stamps, this`clock, this`retired, this`freed, this`log, mem[t]
      ensures Ok() && S() == Exec(Mark(old(S()), t, start), t, o, timed) && mem.Values <= old(mem.Values)
    {
      MarkTask(t, start);
      var ignored := ExecTask(t, o, timed);
    }

    method MarkTask(t: nat, start: int)
      requires Ok() && t in mem
      modifies this`table, mem[t]
      ensures Ok() && S() == Mark(old(S()), t, start)
      ensures mem[t].inTimedQ == old(mem[t].inTimedQ)
      ensures old(t in table && table[t] == mem[t].status) ==> t in table && table[t] == mem[t].status
    {
      if mem[t].status == Enqueued || mem[t].status == Created {
        SetTaskState(t, Dequeued);
      }
      SetLastAbstime(t, start);
      MarkSteps(old(S()), t, start);
    }

    method SetLastAbstime(t: nat, start: int)
      requires Ok() && t in mem
      modifies mem[t]
      ensures Ok() && S() == old(S()).(tasks := old(S()).tasks[t := old(S()).tasks[t].(lastAbstime := start)])
      ensures mem[t].status == old(mem[t].status) && mem[t].inTimedQ == old(mem[t].inTimedQ)
    {
      mem[t].lastAbstime := start;
      OneRecord(t);
    }

    // s_force_schedule_task(), on a task in the timed queue
    method RunForced(t: nat, now: int, o: Outcome)
      requires Ok() && t in mem && t in table && ForceResult(S(), t) == CalloutSpec.Ok
      requires t !in urgentQ && t !in idleQ && t !in batch && t !in Remove(timedQ, t)
      modifies this`mem, this`table, this`timedQ, this`stamps, this`clock, this`retired, this`freed, this`log, mem[t]
      ensures Ok() && S() == Force(old(S()), t, now, o) && mem.Values <= old(mem.Values)
    {
      DoUnsched(t);
      SetTaskState(t, Dequeued);
      RunTask(t, now, o, false);
    }

    // s_force_schedule_task() and gallus_callout_exec_task_forcibly()
    method ForceSchedule(t: nat, now: int, o: Outcome) returns (r: Result)
      requires Valid()
      modifies this, mem.Values
      ensures Valid() && S() == Force(old(S()), t, now, o) && r == ForceResult(old(S()), t)
      ensures ForcedAs(old(S()), S(), t, now, o, r) && mem.Values <= old(mem.Values)
    {
      ghost var s := S();
      ForceKept(s, t, now, o);
      ForceEffect(s, t, now, o);
      if t in table {
        if (table[t] == Created || table[t] == Enqueued) && mem[t].inTimedQ {
          ForcedNowhere(s, t);
          RunForced(t, now, o);
          r := CalloutSpec.Ok;
        } else {
          r := InvalidState;
        }
      } else {
        r := InvalidObject;
      }
    }

    // s_run_tasks_by_self()
    method RunTasksBySelf(tasks: seq<nat>, start: int, outcomes: seq<Outcome>)
      requires Valid() && tasks == batch && start == batchTime && |outcomes| == |tasks|
      modifies this, mem.Values
      ensures Valid() && S() == RunAll(old(S()), outcomes) && batch == []
      ensures mem.Values <= old(mem.Values)
    {
      ghost var final := RunAll(S(), outcomes);
      StartRunning(tasks, start, outcomes);
      var i := 0;
      while i < |tasks|
        invariant i <= |tasks| && Running(tasks, i, start, outcomes, final)
        invariant mem.Values <= old(mem.Values)
      {
        RunOne(tasks, i, start, outcomes, final);
        i := i + 1;
      }
    }

    // What is left of a batch is tasks[i..]; running it ends in the given state.
    ghost predicate Running(tasks: seq<nat>, i: nat, start: int, outcomes: seq<Outcome>, final: State<nat>)
      requires i <= |tasks|
      reads this, mem.Values
    {
      && Valid() && batch == tasks[i..] && batchTime == start && |outcomes| == |tasks|
      && Reaches(S(), outcomes[i..], final)
    }

    lemma StartRunning(tasks: seq<nat>, start: int, outcomes: seq<Outcome>)
      requires Valid() && tasks == batch && start == batchTime && |outcomes| == |tasks|
      ensures Running(tasks, 0, start, outcomes, RunAll(S(), outcomes))
    {
      assert outcomes[0..] == outcomes;
    }

    method RunOne(tasks: seq<nat>, i: nat, start: int, outcomes: seq<Outcome>, ghost final: State<nat>)
      requires i < |tasks| && Running(tasks, i, start, outcomes, final)
      modifies this, mem.Values
      ensures Running(tasks, i + 1, start, outcomes, final) && mem.Values <= old(mem.Values)
    {
      ReachesNext(S(), outcomes, i, final);
      RunNextTask(tasks[i], start, outcomes[i]);
    }

    method RunNextTask(t: nat, start: int, o: Outcome)
      requires Valid() && batch != [] && t == batch[0] && start == batchTime
      modifies this, mem.Values
      ensures Valid() && S() == RunNext(old(S()), o) && mem.Values <= old(mem.Values)
      ensures batch == old(batch)[1..] && batchTime == old(batchTime)
    {
      ghost var s := S();
      RunNextBatch(s, o);
      DispatchedNowhere(s);
      TakeFromBatch();
      RunTask(t, start, o, true);
      RunNextIs(s, o);
    }

    ghost method TakeFromBatch()
      requires Ok() && batch != []
      modifies this`batch
      ensures Ok() && S() == old(S()).(batch := old(batch)[1..])
    {
      batch := batch[1..];
    }

    // ---------------------------------------------------------------- the main loop

    // gallus_bbq_get_n() on the urgent queue: module CBuffer proves what it takes.
    method GetUrgent() returns (tasks: seq<nat>)
      requires Ok()
      modifies this`urgentQ
      ensures Ok() && tasks == old(urgentQ)[..Min(TASK_MAX, |old(urgentQ)|)]
      ensures S() == old(S()).(urgentQ := old(urgentQ)[|tasks|..])
    {
      var n := Min(TASK_MAX, |urgentQ|);
      tasks := urgentQ[..n];
      urgentQ := urgentQ[n..];
    }

    method GetIdle() returns (tasks: seq<nat>)
      requires Ok()
      modifies this`idleQ
      ensures Ok() && tasks == old(idleQ)[..Min(TASK_MAX, |old(idleQ)|)]
      ensures S() == old(S()).(idleQ := old(idleQ)[|tasks|..])
    {
      var n := Min(TASK_MAX, |idleQ|);
      tasks := idleQ[..n];
      idleQ := idleQ[n..];
    }

    ghost method SetBatch(tasks: seq<nat>, now: int)
      requires Ok() && forall x :: x in tasks ==> x in mem
      modifies this`batch, this`batchTime
      ensures Ok() && S() == old(S()).(batch := tasks, batchTime := now)
    {
      batch, batchTime := tasks, now;
    }

    // s_get_runnable_timed_task()
    method GetRunnableTimed(now: int) returns (tasks: seq<nat>)
      requires Ok()
      modifies this`table, this`timedQ, mem.Values
      ensures Ok()
      ensures |tasks| == (if now > 0 then RunnableCount(old(S()), now, TASK_MAX) else 0)
      ensures tasks == old(timedQ)[..|tasks|] && S() == TakeRunnables(old(S()), |tasks|)
    {
      if now > 0 {
        var nextWakeup;
        tasks, nextWakeup := GetRunnables(now, TASK_MAX);
      } else {
        tasks := [];
        TakeNothing(S());
      }
    }

    // s_start_callout_main_loop(), fetching the tasks and packing them into one buffer
    method FetchTasks(now: int) returns (out: seq<nat>)
      requires Valid() && batch == []
      modifies this`table, this`timedQ, this`urgentQ, this`idleQ, this`batch, this`batchTime, mem.Values
      ensures Valid() && S() == Fetch(old(S()), now)
      ensures out == batch && batchTime == now
    {
      FetchKept(S(), now);
      out := PackTasks(now);
    }

    // The queues are emptied in the order urgent, idle, timed, and packed in the order timed,
    // urgent, idle.
    method PackTasks(now: int) returns (out: seq<nat>)
      requires Ok()
      modifies this`table, this`timedQ, this`urgentQ, this`idleQ, this`batch, this`batchTime, mem.Values
      ensures Ok() && S() == Fetch(old(S()), now) && out == batch && batchTime == now
    {
      FetchSteps(S(), now);
      var urgent, idle := GetUntimed();
      var timed := GetRunnableTimed(now);
      out := timed + urgent + idle;
      SetBatch(out, now);
    }

    method GetUntimed() returns (urgent: seq<nat>, idle: seq<nat>)
      requires Ok()
      modifies this`urgentQ, this`idleQ
      ensures Ok() && S() == UntimedTaken(old(S()))
      ensures urgent == Front(old(urgentQ)) && idle == Front(old(idleQ))
      ensures forall x :: x in urgent || x in idle ==> x in mem
    {
      urgent := GetUrgent();
      idle := GetIdle();
    }

    // s_start_callout_main_loop(), one iteration with s_run_tasks_by_self() as the dispatcher.
    // Every task that is fetched and not cancelled is executed, in the order of the buffer.
    method Iterate(now: int, outcomes: seq<Outcome>)
      requires Valid() && batch == [] && QueuesLive(S()) && |outcomes| == |Fetch(S(), now).batch|
      modifies this, mem.Values
      ensures Valid() && batch == [] && Inv(Fetch(old(S()), now)) && S() == RunAll(Fetch(old(S()), now), outcomes)
      ensures old(log) <= log
      ensures Dispatches(log[|old(log)|..], Live(Fetch(old(S()), now).tasks, Fetch(old(S()), now).batch), now)
      ensures AllEnded(Fetch(old(S()), now), S(), outcomes)
    {
      var out := FetchTasks(now);
      LocatedLive(S());
      BatchRunsInOrder(S(), outcomes);
      BatchEnds(S(), outcomes);
      RunTasksBySelf(out, now, outcomes);
    }

    // ---------------------------------------------------------------- finalization

    // s_destroy_all_queued_timed_tasks(), one task
    method DropHead() returns (t: nat)
      requires Valid() && timedQ != []
      modifies this, mem.Values
      ensures Valid() && Dropped(old(S()), S(), t) && mem.Values <= old(mem.Values)
      ensures timedQ == old(timedQ)[1..] && urgentQ == old(urgentQ) && idleQ == old(idleQ)
    {
      DropTimedKept(S());
      TimedNowhere(S());
      t := DestroyFirst();
    }

    method DestroyFirst() returns (t: nat)
      requires Ok() && timedQ != []
      requires var h, s := timedQ[0], TakeRunnables(S(), 1);
               && !s.tasks[h].inTimedQ && h !in s.timedQ && h !in s.urgentQ && h !in s.idleQ && h !in s.batch
      modifies this, mem.Values
      ensures Ok() && t == old(timedQ)[0] && S() == DropTimed(old(S())) && mem.Values <= old(mem.Values)
    {
      var e := Get();
      t := e.value;
      SetCancelAndDestroy(t);
    }

    // s_destroy_all_queued_timed_tasks()
    method DestroyAllTimed()
      requires Valid() && batch == []
      modifies this, mem.Values
      ensures Valid() && Drained(old(S()), S()) && mem.Values <= old(mem.Values)
      ensures timedQ == [] && urgentQ == old(urgentQ) && idleQ == old(idleQ) && batch == []
    {
      while timedQ != []
        invariant Valid() && Drained(old(S()), S()) && mem.Values <= old(mem.Values)
        invariant urgentQ == old(urgentQ) && idleQ == old(idleQ) && batch == []
        decreases |timedQ|
      {
        ghost var s := S();
        var t := DropHead();
        DrainedMore(old(S()), s, S(), t);
      }
    }

    // s_task_freeup() on the head of the urgent queue
    method FreeUrgent() returns (t: nat)
      requires Valid() && urgentQ != []
      modifies this, mem.Values
      ensures Valid() && Dropped(old(S()), S(), t) && mem.Values <= old(mem.Values)
      ensures urgentQ == old(urgentQ)[1..] && timedQ == old(timedQ) && idleQ == old(idleQ)
    {
      t := urgentQ[0];
      DropUrgentKept(S());
      HeadNowhere(S(), S().(urgentQ := urgentQ[1..]), t);
      TakeUrgent();
      SetCancelAndDestroy(t);
    }

    method TakeUrgent()
      requires Ok() && urgentQ != []
      modifies this`urgentQ
      ensures Ok() && S() == old(S()).(urgentQ := old(urgentQ)[1..])
    {
      urgentQ := urgentQ[1..];
    }

    // gallus_bbq_clear() on the urgent queue, with s_task_freeup()
    method ClearUrgent()
      requires Valid() && batch == []
      modifies this, mem.Values
      ensures Valid() && Drained(old(S()), S()) && mem.Values <= old(mem.Values)
      ensures urgentQ == [] && timedQ == old(timedQ) && idleQ == old(idleQ) && batch == []
    {
      while urgentQ != []
        invariant Valid() && Drained(old(S()), S()) && mem.Values <= old(mem.Values)
        invariant timedQ == old(timedQ) && idleQ == old(idleQ) && batch == []
        decreases |urgentQ|
      {
        ghost var s := S();
        var t := FreeUrgent();
        DrainedMore(old(S()), s, S(), t);
      }
    }

    // s_task_freeup() on the head of the idle queue
    method FreeIdle() returns (t: nat)
      requires Valid() && idleQ != []
      modifies this, mem.Values
      ensures Valid() && Dropped(old(S()), S(), t) && mem.Values <= old(mem.Values)
      ensures idleQ == old(idleQ)[1..] && timedQ == old(timedQ) && urgentQ == old(urgentQ)
    {
      t := idleQ[0];
      DropIdleKept(S());
      HeadNowhere(S(), S().(idleQ := idleQ[1..]), t);
      TakeIdle();
      SetCancelAndDestroy(t);
    }

    method TakeIdle()
      requires Ok() && idleQ != []
      modifies this`idleQ
      ensures Ok() && S() == old(S()).(idleQ := old(idleQ)[1..])
    {
      idleQ := idleQ[1..];
    }

    // gallus_bbq_clear() on the idle queue, with s_task_freeup()
    method ClearIdle()
      requires Valid() && batch == []
      modifies this, mem.Values
      ensures Valid() && Drained(old(S()), S()) && mem.Values <= old(mem.Values)
      ensures idleQ == [] && timedQ == old(timedQ) && urgentQ == old(urgentQ) && batch == []
    {
      while idleQ != []
        invariant Valid() && Drained(old(S()), S()) && mem.Values <= old(mem.Values)
        invariant timedQ == old(timedQ) && urgentQ == old(urgentQ) && batch == []
        decreases |idleQ|
      {
        ghost var s := S();
        var t := FreeIdle();
        DrainedMore(old(S()), s, S(), t);
      }
    }

    // gallus_callout_finalize_handler(), after the main loop has stopped: exactly the tasks that
    // were never submitted are left, every other task is destroyed without being executed.
    method Finalize()
      requires Valid() && batch == []
      modifies this, mem.Values
      ensures Valid() && timedQ == [] && urgentQ == [] && idleQ == [] && OnlyCreatedLeft(old(S()), S())
    {
      ghost var s := S();
      EmptyQueues();
      DrainedAll(s, S());
    }

    method EmptyQueues()
      requires Valid() && batch == []
      modifies this, mem.Values
      ensures Valid() && Drained(old(S()), S())
      ensures timedQ == [] && urgentQ == [] && idleQ == [] && batch == []
    {
      ghost var s := S();
      DestroyAllTimed();
      ghost var s1 := S();
      EmptyOthers();
      DrainedTwice(s, s1, S());
    }

    method EmptyOthers()
      requires Valid() && batch == []
      modifies this, mem.Values
      ensures Valid() && Drained(old(S()), S())
      ensures timedQ == old(timedQ) && urgentQ == [] && idleQ == [] && batch == []
    {
      ghost var s := S();
      ClearUrgent();
      ghost var s1 := S();
      ClearIdle();
      DrainedTwice(s, s1, S());
    }
  }

  // Running the rest of a batch, with the given outcomes, ends in the given state.
  ghost predicate Reaches(s: State<nat>, outcomes: seq<Outcome>, final: State<nat>) {
    Inv(s) && |outcomes| == |s.batch| && RunAll(s, outcomes) == final
  }

  lemma ReachesNext(s: State<nat>, outcomes: seq<Outcome>, i: nat, final: State<nat>)
    requires i < |outcomes| && s.batch != [] && Reaches(s, outcomes[i..], final)
    ensures QueuesLive(s) && Reaches(RunNext(s, outcomes[i]), outcomes[i + 1..], final)
  {
    assert outcomes[i..][0] == outcomes[i] && outcomes[i..][1..] == outcomes[i + 1..];
    RunNextBatch(s, outcomes[i]);
  }

  lemma RunNextIs(s: State<nat>, o: Outcome)
    requires QueuesLive(s) && s.batch != []
    ensures RunNext(s, o) == Exec(Mark(s.(batch := s.batch[1..]), s.batch[0], s.batchTime), s.batch[0], o, true)
  {
  }

  lemma CreatedNowhere(s: State<nat>, t: nat)
    requires Inv(s) && t in s.tasks && s.tasks[t].status == Created
    ensures !s.tasks[t].inTimedQ && t !in s.timedQ
  {
    CreatedDetached(s, t);
    assert Places(s, t) == 0;
  }

  lemma ForcedNowhere(s: State<nat>, t: nat)
    requires Inv(s) && t in s.tasks && s.tasks[t].inTimedQ
    ensures t !in s.urgentQ && t !in s.idleQ && t !in s.batch && t !in Remove(s.timedQ, t)
  {
    assert PlaceOk(s, t);
    OnlyTimed(s, t);
  }

  lemma DispatchedNowhere(s: State<nat>)
    requires Inv(s) && s.batch != []
    ensures var t := s.batch[0];
            && t in s.tasks && !s.tasks[t].inTimedQ && s.table[t] == s.tasks[t].status
            && t !in s.timedQ && t !in s.urgentQ && t !in s.idleQ && t !in s.batch[1..]
  {
    var t := s.batch[0];
    LocatedLive(s);
    HeadDetached(s, s.(batch := s.batch[1..]), t);
    assert Places(s.(batch := s.batch[1..]), t) == 0;
  }

  lemma TimedNowhere(s: State<nat>)
    requires Inv(s) && s.timedQ != []
    ensures var t, s1 := s.timedQ[0], TakeRunnables(s, 1);
            && t in s1.tasks && !s1.tasks[t].inTimedQ
            && t !in s1.timedQ && t !in s1.urgentQ && t !in s1.idleQ && t !in s1.batch
  {
    TakeRunnablesOne(s);
    assert Places(TakeRunnables(s, 1), s.timedQ[0]) == 0;
  }

  lemma HeadNowhere(s: State<nat>, s1: State<nat>, t: nat)
    requires Inv(s) && t in s.tasks && HeadTaken(s, s1, t)
    ensures !s1.tasks[t].inTimedQ
    ensures t !in s1.timedQ && t !in s1.urgentQ && t !in s1.idleQ && t !in s1.batch
  {
    HeadDetached(s, s1, t);
    assert Places(s1, t) == 0;
  }

  // What gallus_bbq_get_n() takes from a queue.
  function Front<T>(q: seq<T>): seq<T> {
    q[..Min(TASK_MAX, |q|)]
  }

  // The urgent and the idle queue after a fetch.
  function UntimedTaken<T>(s: State<T>): State<T> {
    s.(urgentQ := s.urgentQ[Min(TASK_MAX, |s.urgentQ|)..], idleQ := s.idleQ[Min(TASK_MAX, |s.idleQ|)..])
  }

  // Fetch() in the order in which the main loop writes.
  lemma FetchSteps(s: State<nat>, now: int)
    requires QueuesLive(s)
    ensures var u, i := Min(TASK_MAX, |s.urgentQ|), Min(TASK_MAX, |s.idleQ|);
            var s1 := UntimedTaken(s);
            var c := if now > 0 then RunnableCount(s1, now, TASK_MAX) else 0;
            Fetch(s, now) == TakeRunnables(s1, c).(
                               batch := s.timedQ[..c] + s.urgentQ[..u] + s.idleQ[..i], batchTime := now)
  {
  }

  lemma ExecutedSteps<T>(s: State<T>, t: T, o: Outcome, timed: bool)
    requires t in s.tasks
    ensures var s1 := SetStatus(s, t, Executing);
            var s2 := s1.(tasks := s1.tasks[t := s1.tasks[t].(isFirst := false)]);
            var s3 := if o.newInterval >= MIN_INTERVAL
                      then s2.(tasks := s2.tasks[t := s2.tasks[t].(interval := o.newInterval)]) else s2;
            var s4 := s3.(log := s3.log + [Event(t, s3.tasks[t].lastAbstime, timed, s3.tasks[t].interval)]);
            Executed(s, t, o, timed) == if o.ok then s4 else SetStatus(s4, t, ExecFailed)
  {
  }

  // Delete() in the order in which s_delete() writes.
  lemma DeleteSteps<T>(s: State<T>, t: T)
    requires t in s.tasks && t in s.table && s.table[t] == Cancelled && s.tasks[t].status != Deleting
    ensures var s1 := s.(table := s.table - {t});
            var s2 := s1.(tasks := s1.tasks[t := s1.tasks[t].(status := Deleting)]);
            var s3 := if s2.tasks[t].wantsFree then s2.(freed := s2.freed + [t]) else s2;
            Delete(s, t) == s3.(tasks := s3.tasks - {t}, retired := s3.retired[t := s3.tasks[t].wantsFree])
  {
    assert s.tasks[t := s.tasks[t].(status := Deleting)] - {t} == s.tasks - {t};
  }

  // Mark() in the order in which s_run_tasks_by_self() writes.
  lemma MarkSteps<T>(s: State<T>, t: T, start: int)
    requires t in s.tasks
    ensures var st := s.tasks[t].status;
            var s1 := if st == Enqueued || st == Created then SetStatus(s, t, Dequeued) else s;
            Mark(s, t, start) == s1.(tasks := s1.tasks[t := s1.tasks[t].(lastAbstime := start)])
  {
  }

  lemma RemoveScheduled(s: State<nat>, t: nat, now: int)
    requires t in s.tasks && !s.tasks[t].inTimedQ && t !in s.timedQ && forall x :: x in s.timedQ ==> x in s.tasks
    ensures t !in Remove(Sched(s, t, now).timedQ, t)
  {
    RemoveInserted(s.timedQ, DueCount(s.timedQ, s.tasks, Rescheduled(s.tasks[t], now).nextAbstime), t);
  }

  // A task in the timed queue is there once, and nowhere else.
  lemma OnlyTimed(s: State<nat>, t: nat)
    requires Inv(s) && t in s.timedQ
    ensures t !in s.urgentQ && t !in s.idleQ && t !in s.batch && t !in Remove(s.timedQ, t)
  {
    MultisetRemove(s.timedQ, t);
    assert Places(s, t) == 1 && multiset(s.timedQ)[t] >= 1;
    assert t !in multiset(Remove(s.timedQ, t));
  }

  predicate HeadDue<T>(q: seq<T>, tasks: map<T, Task>, time: int)
    requires q != [] ==> q[0] in tasks
  {
    q != [] && tasks[q[0]].nextAbstime <= time
  }

  lemma TakeKeepsTimes<T>(s: State<T>, c: nat, time: int)
    requires c <= |s.timedQ| && forall x :: x in s.timedQ ==> x in s.tasks
    ensures HeadDue(s.timedQ[c..], TakeRunnables(s, c).tasks, time) <==> HeadDue(s.timedQ[c..], s.tasks, time)
  {
    if c < |s.timedQ| { assert s.timedQ[c..][0] in s.timedQ; }
  }

  lemma HeadIsOneRunnable<T>(s: State<T>)
    requires s.timedQ != [] && s.timedQ[0] in s.tasks
    ensures HeadDequeued(s) == TakeRunnables(s, 1)
  {
    TakeNothing(s);
    TakeOneMore(s, 0);
  }

  // One removal of the head of the timed queue.
  function HeadDequeued<T>(s: State<T>): State<T>
    requires s.timedQ != [] && s.timedQ[0] in s.tasks
  {
    var t := s.timedQ[0];
    var s1 := SetStatus(s.(timedQ := s.timedQ[1..]), t, Dequeued);
    s1.(tasks := s1.tasks[t := s1.tasks[t].(inTimedQ := false)])
  }

  lemma TakeNothing<T>(s: State<T>)
    ensures TakeRunnables(s, 0) == s
  {
    var s' := TakeRunnables(s, 0);
    assert s'.tasks == s.tasks && s'.table == s.table;
  }

  // Taking one more runnable task is one more removal of the head.
  lemma TakeOneMore<T>(s: State<T>, c: nat)
    requires c < |s.timedQ| && s.timedQ[c] in s.tasks
    ensures HeadDequeued(TakeRunnables(s, c)) == TakeRunnables(s, c + 1)
  {
    assert s.timedQ[c..][0] == s.timedQ[c] && s.timedQ[c..][1..] == s.timedQ[c + 1..];
    TakeOneMoreTask(s, c);
    TakeOneMoreEntry(s, c);
  }

  lemma TakeOneMoreTask<T>(s: State<T>, c: nat)
    requires c < |s.timedQ| && s.timedQ[c] in s.tasks
    ensures var m := TakeRunnables(s, c).tasks;
            TakeRunnables(s, c + 1).tasks == m[s.timedQ[c] := DequeuedTask(m[s.timedQ[c]])]
  {
    assert forall x :: x in s.timedQ[..c + 1] <==> x in s.timedQ[..c] || x == s.timedQ[c];
  }

  lemma TakeOneMoreEntry<T>(s: State<T>, c: nat)
    requires c < |s.timedQ|
    ensures TakeRunnables(s, c + 1).table == TakeRunnables(s, c).table[s.timedQ[c] := Dequeued]
  {
    assert forall x :: x in s.timedQ[..c + 1] <==> x in s.timedQ[..c] || x == s.timedQ[c];
  }

  // tasks is the front of the timed queue, no longer than n, and due at the given time.
  ghost predicate TakenDue<T(!new)>(s: State<T>, time: int, n: nat, tasks: seq<T>) {
    && (forall x :: x in s.timedQ ==> x in s.tasks)
    && |tasks| <= n && |tasks| <= |s.timedQ| && tasks == s.timedQ[..|tasks|]
    && forall k :: 0 <= k < |tasks| ==> s.tasks[s.timedQ[k]].nextAbstime <= time
  }

  // s' is s after the first c tasks have left the timed queue.
  ghost predicate Taken<T(!new)>(s: State<T>, c: nat, s': State<T>) {
    (forall x :: x in s.timedQ ==> x in s.tasks) && c <= |s.timedQ| && s' == TakeRunnables(s, c)
  }

  // tasks have been taken from s, which has become s'.
  ghost predicate Taking<T(!new)>(s: State<T>, time: int, n: nat, tasks: seq<T>, s': State<T>) {
    TakenDue(s, time, n, tasks) && Taken(s, |tasks|, s')
  }

  lemma TakenOneMore<T(!new)>(s: State<T>, time: int, n: nat, tasks: seq<T>)
    requires TakenDue(s, time, n, tasks) && |tasks| < n && HeadDue(s.timedQ[|tasks|..], s.tasks, time)
    ensures TakenDue(s, time, n, tasks + [s.timedQ[|tasks|]])
  {
  }

  lemma RunnableCountIs<T(!new)>(s: State<T>, base: int, n: nat, c: nat)
    requires c <= |s.timedQ| && TakenDue(s, base + SCHED_JITTER, n, s.timedQ[..c])
    requires c == n || !HeadDue(s.timedQ[c..], s.tasks, base + SCHED_JITTER)
    ensures RunnableCount(s, base, n) == c
  {
    DueAtLeast(s.timedQ, s.tasks, base + SCHED_JITTER, c);
    if c < n { DueCountIs(s.timedQ, s.tasks, base + SCHED_JITTER, c); }
  }

  lemma {:induction false} DueAtLeast<T>(q: seq<T>, tasks: map<T, Task>, limit: int, c: nat)
    requires forall x :: x in q ==> x in tasks
    requires c <= |q| && forall k :: 0 <= k < c ==> tasks[q[k]].nextAbstime <= limit
    ensures DueCount(q, tasks, limit) >= c
    decreases c
  {
    if c > 0 { DueAtLeast(q[1..], tasks, limit, c - 1); }
  }

  // Rescheduled() without the change of state.
  function Timed(r: Task, now: int): Task {
    Rescheduled(r, now).(status := r.status, inTimedQ := r.inTimedQ)
  }

  // The task t is marked as queued.
  function Queued<T>(s: State<T>, t: T): State<T>
    requires t in s.tasks
  {
    var s1 := SetStatus(s, t, Enqueued);
    s1.(tasks := s1.tasks[t := s1.tasks[t].(inTimedQ := true)])
  }

  // Sched() in the order in which s_do_sched() writes.
  lemma SchedSteps<T>(s: State<T>, t: T, now: int)
    requires t in s.tasks && t !in s.timedQ && !s.tasks[t].inTimedQ && forall x :: x in s.timedQ ==> x in s.tasks
    ensures var r := Timed(s.tasks[t], now);
            var s1 := s.(tasks := s.tasks[t := r]);
            var s2 := s1.(timedQ := InsertAt(s1.timedQ, DueCount(s1.timedQ, s1.tasks, r.nextAbstime), t),
                          stamps := s1.stamps[t := s1.clock], clock := s1.clock + 1);
            Sched(s, t, now) == Queued(s2, t)
  {
    var r := Timed(s.tasks[t], now);
    DueCountFrame(s.timedQ, s.tasks[t := r], s.tasks, r.nextAbstime);
  }

  lemma {:induction false} DueCountFrame<T>(q: seq<T>, m: map<T, Task>, n: map<T, Task>, limit: int)
    requires forall x :: x in q ==> x in m && x in n && m[x].nextAbstime == n[x].nextAbstime
    ensures DueCount(q, m, limit) == DueCount(q, n, limit)
  {
    DueCountIs(q, n, limit, DueCount(q, m, limit));
  }

  lemma {:induction false} DueCountIs<T>(q: seq<T>, tasks: map<T, Task>, limit: int, c: nat)
    requires forall x :: x in q ==> x in tasks
    requires c <= |q| && forall k :: 0 <= k < c ==> tasks[q[k]].nextAbstime <= limit
    requires c < |q| ==> tasks[q[c]].nextAbstime > limit
    ensures DueCount(q, tasks, limit) == c
    decreases c
  {
    if c > 0 { DueCountIs(q[1..], tasks, limit, c - 1); }
  }
}
