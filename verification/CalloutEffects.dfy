/**
 What each operation of the callout scheduler of module CalloutSpec does to the task it is about,
 and to all others; and what follows for whole batches and runs.
 */
module CalloutEffects {
  import opened Arith
  import opened CalloutSpec
  import opened CalloutRuns

  // ---------------------------------------------------------------- what becomes of a task

  // Nothing happens to t: it keeps its record, and is neither executed nor destroyed.
  ghost predicate Aside<T(!new)>(s: State<T>, s': State<T>, t: T) {
    && (t in s'.tasks <==> t in s.tasks) && (t in s.tasks ==> s'.tasks[t] == s.tasks[t])
    && (t in s'.retired <==> t in s.retired) && s'.batchTime == s.batchTime
    && s.log <= s'.log && forall k :: |s.log| <= k < |s'.log| ==> s'.log[k].task != t
  }

  lemma AsideTwice<T(!new)>(s: State<T>, s1: State<T>, s2: State<T>, t: T)
    requires Aside(s, s1, t) && Aside(s1, s2, t)
    ensures Aside(s, s2, t)
  {
  }

  // t is destroyed, and no queue refers to it.
  ghost predicate Destroyed<T>(s: State<T>, t: T) {
    && t in s.retired && t !in s.tasks && t !in s.table
    && t !in s.timedQ && t !in s.urgentQ && t !in s.idleQ && t !in s.batch
  }

  // t waits in the timed queue for the given time.
  ghost predicate DueAt<T>(s: State<T>, t: T, due: int) {
    t in s.tasks && t in s.timedQ && s.tasks[t].status == Enqueued && s.tasks[t].nextAbstime == due
  }

  // The interval in force when a procedure has returned.
  function IntervalAfter(r: Task, o: Outcome): int {
    if o.newInterval >= MIN_INTERVAL then o.newInterval else r.interval
  }

  // A task with the record r, executed at the given time, is to run again.
  predicate RunsAgain(r: Task, o: Outcome, start: int) {
    o.ok && r.doRepeat && start + IntervalAfter(r, o) >= 0
  }

  // What an execution leaves of t: it waits for the time an interval after its start, exactly if
  // it is to run again, and is destroyed otherwise.
  ghost predicate Settled<T>(s: State<T>, t: T, r: Task, o: Outcome, start: int) {
    if RunsAgain(r, o, start) then
      && DueAt(s, t, start + IntervalAfter(r, o)) && t !in s.retired
      && s.tasks[t].lastAbstime == start && s.tasks[t].interval == IntervalAfter(r, o)
      && s.tasks[t].doRepeat && !s.tasks[t].isFirst
    else Destroyed(s, t)
  }

  // ---------------------------------------------------------------- scheduling

  // A task that has run before and repeats is due an interval after its last start; any other one
  // its initial delay from now.  The value returned is that time, or -1 for a task in the queue.
  lemma SchedEffect<T(!new)>(s: State<T>, t: T, now: int)
    requires t in s.tasks && QueuesLive(s)
    ensures s.tasks[t].inTimedQ ==> Sched(s, t, now) == s && SchedResult(s, t, now) == -1
    ensures !s.tasks[t].inTimedQ ==>
              var r, s' := s.tasks[t], Sched(s, t, now);
              && DueAt(s', t, if r.doRepeat && !r.isFirst then r.lastAbstime + r.interval else now + r.initialDelay)
              && s'.tasks[t].lastAbstime == (if r.doRepeat && !r.isFirst then r.lastAbstime else now)
              && s'.tasks[t].isFirst == r.isFirst && s'.tasks[t].doRepeat == r.doRepeat
              && s'.tasks[t].interval == r.interval && s'.tasks[t].initialDelay == r.initialDelay
              && SchedResult(s, t, now) == s'.tasks[t].nextAbstime
  {
    if !s.tasks[t].inTimedQ { SchedMember(s, t, now, t); }
  }

  lemma SchedAside<T(!new)>(s: State<T>, x: T, now: int, t: T)
    requires x in s.tasks && x != t && forall y :: y in s.timedQ ==> y in s.tasks
    ensures Aside(s, Sched(s, x, now), t)
  {
  }

  lemma UnschedAside<T(!new)>(s: State<T>, x: T, t: T)
    requires x in s.tasks && x != t
    ensures Aside(s, Unsched(s, x), t)
  {
  }

  lemma DeleteAside<T(!new)>(s: State<T>, x: T, t: T)
    requires x in s.tasks && x != t
    ensures Aside(s, Delete(s, x), t)
  {
  }

  lemma DestroyAside<T(!new)>(s: State<T>, x: T, t: T)
    requires x in s.tasks && x != t
    ensures Aside(s, Destroy(s, x), t)
  {
    UnschedAside(s, x, t);
    var s1 := Unsched(s, x);
    DeleteAside(s1.(table := s1.table[x := Cancelled]), x, t);
  }

  lemma NowhereDestroyed<T(!new)>(s: State<T>, t: T)
    requires Inv(s) && t in s.retired
    ensures Destroyed(s, t)
  {
    LocatedLive(s);
  }

  lemma DestroyEffect<T(!new)>(s: State<T>, t: T)
    requires Detached(s, t)
    ensures Destroyed(Destroy(s, t), t) && Destroy(s, t).log == s.log
  {
    DestroyKept(s, t);
    DestroyLog(s, t);
    NowhereDestroyed(Destroy(s, t), t);
  }

  // ---------------------------------------------------------------- execution

  lemma ExecutedFields<T>(s: State<T>, t: T, o: Outcome, timed: bool)
    requires t in s.tasks
    ensures var r, s1 := s.tasks[t], Executed(s, t, o, timed);
            && t in s1.tasks && s1.log == s.log + [Event(t, r.lastAbstime, timed, IntervalAfter(r, o))]
            && s1.timedQ == s.timedQ && s1.retired == s.retired
            && s1.tasks[t] == r.(status := s1.tasks[t].status, isFirst := false, interval := IntervalAfter(r, o))
  {
  }

  lemma ExecutedAside<T(!new)>(s: State<T>, x: T, o: Outcome, timed: bool, t: T)
    requires x in s.tasks && x != t
    ensures Aside(s, Executed(s, x, o, timed), t)
  {
    ExecutedFields(s, x, o, timed);
  }

  // The end of an execution, by what the procedure and the record say.
  lemma ExecEnds<T(!new)>(s: State<T>, t: T, o: Outcome, timed: bool)
    requires t in s.tasks && t in s.table && s.table[t] == s.tasks[t].status == Dequeued && !s.tasks[t].inTimedQ
    requires forall x :: x in s.timedQ ==> x in s.tasks
    ensures var s1, due := Executed(s, t, o, timed), s.tasks[t].lastAbstime + IntervalAfter(s.tasks[t], o);
            Exec(s, t, o, timed) ==
            if !o.ok || !s.tasks[t].doRepeat then Destroy(s1, t)
            else if due >= 0 then Sched(s1, t, 0)
            else Destroy(Sched(s1, t, 0), t)
  {
    ExecutedFields(s, t, o, timed);
  }

  // An execution runs the procedure once and ends as Settled() says.
  lemma ExecEffect<T(!new)>(s: State<T>, t: T, o: Outcome, timed: bool)
    requires Detached(s, t) && s.table[t] == s.tasks[t].status == Dequeued
    ensures var r, s' := s.tasks[t], Exec(s, t, o, timed);
            && s'.log == s.log + [Event(t, r.lastAbstime, timed, IntervalAfter(r, o))]
            && Settled(s', t, r, o, r.lastAbstime)
  {
    var s1 := Executed(s, t, o, timed);
    BlockedLive(s, t);
    ExecutedFields(s, t, o, timed);
    ExecutedKept(s, t, o, timed);
    ExecEnds(s, t, o, timed);
    BlockedLive(s1, t);
    if !o.ok || !s.tasks[t].doRepeat {
      DestroyEffect(s1, t);
    } else {
      SchedEffect(s1, t, 0);
      SchedKept(s1, t, 0);
      SchedLog(s1, t, 0);
      if s1.tasks[t].lastAbstime + s1.tasks[t].interval < 0 {
        DestroyQueuedEffect(Sched(s1, t, 0), t);
      }
    }
  }

  lemma DestroyQueuedEffect<T(!new)>(s: State<T>, t: T)
    requires Inv(s) && t in s.timedQ
    ensures t in s.tasks && Destroyed(Destroy(s, t), t) && Destroy(s, t).log == s.log
  {
    DestroyQueued(s, t);
    DestroyLog(s, t);
    NowhereDestroyed(Destroy(s, t), t);
  }

  lemma BlockedLive<T(!new)>(s: State<T>, t: T)
    requires LocatedBut(s, t)
    ensures QueuesLive(s)
  {
    forall x | x in s.timedQ || x in s.urgentQ || x in s.idleQ || x in s.batch ensures x in s.tasks {
      assert Places(s, x) > 0;
    }
  }

  // The result tells whether the task is executed, and queued again if it repeats.  A cancelled task,
  // or one that is being executed, is none of the caller's business, and any other is an error.
  lemma ExecResultIs<T(!new)>(s: State<T>, t: T, o: Outcome, timed: bool)
    requires t in s.tasks && !s.tasks[t].inTimedQ
    ensures var r := ExecResult(s, t, o, timed);
            && (r == InvalidObject <==> t !in s.table)
            && (r == InvalidStateTransition <==> t in s.table && s.table[t] !in {Dequeued, Cancelled, Executing})
            && (t in s.table && s.table[t] in {Cancelled, Executing} ==> r == Ok)
            && (t in s.table && s.table[t] == Dequeued ==>
                  r == if o.ok && (s.tasks[t].doRepeat ==> RunsAgain(s.tasks[t], o, s.tasks[t].lastAbstime)) then Ok else Failed)
            && r in {Ok, Failed, InvalidObject, InvalidStateTransition}
  {
    ExecutedFields(s, t, o, timed);
  }

  lemma ExecAside<T(!new)>(s: State<T>, x: T, o: Outcome, timed: bool, t: T)
    requires Detached(s, x) && x != t && s.table[x] == s.tasks[x].status
    requires s.tasks[x].status == Dequeued || s.tasks[x].status == Cancelled
    ensures Aside(s, Exec(s, x, o, timed), t)
  {
    BlockedLive(s, x);
    ExecCases(s, x, o, timed);
    var s1 := Executed(s, x, o, timed);
    ExecutedAside(s, x, o, timed, t);
    DestroyAside(s, x, t);
    DestroyAside(s1, x, t);
    SchedAside(s1, x, 0, t);
    DestroyAside(Sched(s1, x, 0), x, t);
  }

  // ---------------------------------------------------------------- forced execution

  lemma ForcedFields<T(!new)>(s: State<T>, t: T, now: int)
    requires t in s.tasks
    ensures var r, m := s.tasks[t], Forced(s, t, now);
            && t in m.tasks && m.log == s.log && m.tasks[t].lastAbstime == now
            && m.tasks[t].interval == r.interval && m.tasks[t].doRepeat == r.doRepeat
  {
  }

  lemma ForcedAside<T(!new)>(s: State<T>, x: T, now: int, t: T)
    requires x in s.tasks && x != t
    ensures Aside(s, Forced(s, x, now), t)
  {
    UnschedAside(s, x, t);
  }

  lemma ForceIs<T(!new)>(s: State<T>, t: T, now: int, o: Outcome)
    requires Inv(s) && QueuesLive(s) && ForceResult(s, t) == Ok
    ensures t in s.tasks && Detached(Forced(s, t, now), t)
    ensures Force(s, t, now, o) == Exec(Forced(s, t, now), t, o, false)
  {
    ForcedDetached(s, t, now);
  }

  // What a forced execution does: a task in the timed queue is executed now, whenever it is due, and
  // ends like any other one executed, and no other task is affected.  In all other cases it is
  // refused, and nothing happens.
  ghost predicate ForcedAs<T(!new)>(s: State<T>, s': State<T>, t: T, now: int, o: Outcome, r: Result)
    requires forall x :: x in s.timedQ ==> x in s.tasks
  {
    if t in s.timedQ then
      && r == Ok && s'.log == s.log + [Event(t, now, false, IntervalAfter(s.tasks[t], o))]
      && Settled(s', t, s.tasks[t], o, now) && forall x :: x != t ==> Aside(s, s', x)
    else r == (if t in s.tasks then InvalidState else InvalidObject) && s' == s
  }

  lemma ForceEffect<T(!new)>(s: State<T>, t: T, now: int, o: Outcome)
    requires Inv(s) && QueuesLive(s)
    ensures ForcedAs(s, Force(s, t, now, o), t, now, o, ForceResult(s, t))
  {
    if t in s.tasks { assert PlaceOk(s, t); }
    if t in s.timedQ {
      ForceIs(s, t, now, o);
      ForcedDetached(s, t, now);
      ForcedFields(s, t, now);
      ExecEffect(Forced(s, t, now), t, o, false);
      forall x | x != t ensures Aside(s, Force(s, t, now, o), x) { ForceAside(s, t, now, o, x); }
    }
  }

  lemma ForceAside<T(!new)>(s: State<T>, x: T, now: int, o: Outcome, t: T)
    requires Inv(s) && QueuesLive(s) && x != t
    ensures Aside(s, Force(s, x, now, o), t)
  {
    if ForceResult(s, x) == Ok {
      ForceIs(s, x, now, o);
      ForcedDetached(s, x, now);
      ForcedAside(s, x, now, t);
      ExecAside(Forced(s, x, now), x, o, false, t);
    }
  }

  // ---------------------------------------------------------------- the batch

  lemma DispatchedKeeps<T(!new)>(s: State<T>)
    requires s.batch != [] && s.batch[0] in s.tasks
    ensures var r, m := s.tasks[s.batch[0]], Dispatched(s);
            && s.batch[0] in m.tasks && m.log == s.log && m.tasks[s.batch[0]].lastAbstime == s.batchTime
            && m.tasks[s.batch[0]].interval == r.interval && m.tasks[s.batch[0]].doRepeat == r.doRepeat
            && (m.tasks[s.batch[0]].status == Cancelled <==> r.status == Cancelled)
  {
  }

  lemma DispatchedAside<T(!new)>(s: State<T>, t: T)
    requires s.batch != [] && s.batch[0] in s.tasks && s.batch[0] != t
    ensures Aside(s, Dispatched(s), t)
  {
  }

  lemma RunNextAside<T(!new)>(s: State<T>, o: Outcome, t: T)
    requires Inv(s) && QueuesLive(s) && s.batch != [] && s.batch[0] != t
    ensures Aside(s, RunNext(s, o), t)
  {
    DispatchedDetached(s);
    DispatchedAside(s, t);
    ExecAside(Dispatched(s), s.batch[0], o, true, t);
  }

  // What becomes of a fetched task with the record r: a cancelled one is destroyed.
  ghost predicate Ended<T>(s: State<T>, t: T, r: Task, o: Outcome, start: int) {
    if r.status == Cancelled then Destroyed(s, t) else Settled(s, t, r, o, start)
  }

  // The dispatcher executes the next task of the batch, as of the time of the fetch, unless it is
  // cancelled; a cancelled task is destroyed.
  lemma RunNextEffect<T(!new)>(s: State<T>, o: Outcome)
    requires Inv(s) && QueuesLive(s) && s.batch != []
    ensures var t, s' := s.batch[0], RunNext(s, o);
            var r := s.tasks[t];
            && s'.log == (if r.status == Cancelled then s.log
                          else s.log + [Event(t, s.batchTime, true, IntervalAfter(r, o))])
            && Ended(s', t, r, o, s.batchTime)
  {
    DispatchedDetached(s);
    DispatchedKeeps(s);
    DispatchedEnds(Dispatched(s), s.batch[0], o, s.batchTime, s.tasks[s.batch[0]]);
  }

  lemma DispatchedEnds<T(!new)>(s: State<T>, t: T, o: Outcome, start: int, r: Task)
    requires Detached(s, t) && s.table[t] == s.tasks[t].status && s.tasks[t].status in {Dequeued, Cancelled}
    requires s.tasks[t].lastAbstime == start && s.tasks[t].interval == r.interval && s.tasks[t].doRepeat == r.doRepeat
    requires s.tasks[t].status == Cancelled <==> r.status == Cancelled
    ensures var s' := Exec(s, t, o, true);
            && s'.log == (if r.status == Cancelled then s.log
                          else s.log + [Event(t, start, true, IntervalAfter(r, o))])
            && Ended(s', t, r, o, start)
  {
    if s.tasks[t].status == Cancelled { DestroyEffect(s, t); } else { ExecEffect(s, t, o, true); }
  }

  lemma {:induction false} RunAllAside<T(!new)>(s: State<T>, outcomes: seq<Outcome>, t: T)
    requires Inv(s) && |outcomes| == |s.batch| && t !in s.batch
    ensures Aside(s, RunAll(s, outcomes), t)
    decreases |s.batch|
  {
    if s.batch != [] {
      LocatedLive(s);
      RunNextAside(s, outcomes[0], t);
      RunNextBatch(s, outcomes[0]);
      RunAllAside(RunNext(s, outcomes[0]), outcomes[1..], t);
      AsideTwice(s, RunNext(s, outcomes[0]), RunAll(s, outcomes), t);
    }
  }

  // No step about another task changes that.
  lemma EndedAside<T(!new)>(s: State<T>, s': State<T>, t: T, r: Task, o: Outcome, start: int)
    requires Inv(s) && Inv(s') && Aside(s, s', t) && Ended(s, t, r, o, start)
    ensures Ended(s', t, r, o, start)
  {
    if r.status != Cancelled && RunsAgain(r, o, start) {
      assert PlaceOk(s, t) && PlaceOk(s', t);
    } else {
      NowhereDestroyed(s', t);
    }
  }

  lemma FirstEnds<T(!new)>(s: State<T>, outcomes: seq<Outcome>)
    requires Inv(s) && QueuesLive(s) && |outcomes| == |s.batch| > 0
    ensures Ended(RunAll(s, outcomes), s.batch[0], s.tasks[s.batch[0]], outcomes[0], s.batchTime)
  {
    var t, s1 := s.batch[0], RunNext(s, outcomes[0]);
    RunNextBatch(s, outcomes[0]);
    RunNextEffect(s, outcomes[0]);
    OnceInBatch(s, 0);
    RunAllAside(s1, outcomes[1..], t);
    EndedAside(s1, RunAll(s, outcomes), t, s.tasks[t], outcomes[0], s.batchTime);
  }

  // The rest of the batch is as it was, and is run next.
  lemma RestOfBatch<T(!new)>(s: State<T>, outcomes: seq<Outcome>, k: nat)
    requires Inv(s) && QueuesLive(s) && |outcomes| == |s.batch| && 0 < k < |s.batch|
    ensures var s1 := RunNext(s, outcomes[0]);
            && Inv(s1) && QueuesLive(s1) && s1.batch == s.batch[1..] && s1.batchTime == s.batchTime
            && s.batch[k] in s1.tasks && s1.tasks[s.batch[k]] == s.tasks[s.batch[k]]
            && RunAll(s, outcomes) == RunAll(s1, outcomes[1..])
  {
    OnceInBatch(s, k);
    RunNextBatch(s, outcomes[0]);
    RunNextAside(s, outcomes[0], s.batch[k]);
    LocatedLive(RunNext(s, outcomes[0]));
  }

  // After the batch each of its tasks has ended as its own procedure and record say: the ones to
  // run again wait for the time an interval after the fetch, all others are destroyed.
  lemma {:induction false} BatchEffect<T(!new)>(s: State<T>, outcomes: seq<Outcome>, k: nat)
    requires Inv(s) && QueuesLive(s) && |outcomes| == |s.batch| && k < |s.batch|
    ensures Ended(RunAll(s, outcomes), s.batch[k], s.tasks[s.batch[k]], outcomes[k], s.batchTime)
    decreases |s.batch|
  {
    if k == 0 {
      FirstEnds(s, outcomes);
    } else {
      RestOfBatch(s, outcomes, k);
      BatchEffect(RunNext(s, outcomes[0]), outcomes[1..], k - 1);
    }
  }

  // All tasks of a fetched batch have ended.
  ghost predicate AllEnded<T(!new)>(s: State<T>, s': State<T>, outcomes: seq<Outcome>)
    requires |outcomes| == |s.batch| && forall x :: x in s.batch ==> x in s.tasks
  {
    forall k :: 0 <= k < |s.batch| ==> Ended(s', s.batch[k], s.tasks[s.batch[k]], outcomes[k], s.batchTime)
  }

  lemma BatchEnds<T(!new)>(s: State<T>, outcomes: seq<Outcome>)
    requires Inv(s) && QueuesLive(s) && |outcomes| == |s.batch|
    ensures AllEnded(s, RunAll(s, outcomes), outcomes)
  {
    var s' := RunAll(s, outcomes);
    forall k | 0 <= k < |s.batch| ensures Ended(s', s.batch[k], s.tasks[s.batch[k]], outcomes[k], s.batchTime) {
      BatchEffect(s, outcomes, k);
    }
  }

  lemma OnceInBatch<T(!new)>(s: State<T>, k: nat)
    requires Located(s) && k < |s.batch|
    ensures k > 0 ==> s.batch[0] != s.batch[k]
    ensures k == 0 ==> s.batch[0] !in s.batch[1..]
  {
    var t := s.batch[0];
    MultisetTail(s.batch);
    assert Places(s, t) <= 1;
    assert s.batch[1..] != [] && k > 0 ==> s.batch[1..][k - 1] == s.batch[k];
    assert t !in multiset(s.batch[1..]);
  }

  // ---------------------------------------------------------------- submission

  // A task that was never submitted is as it was created.
  ghost predicate PristineTask(r: Task) {
    r.status == Created ==> r == Task(Created, true, false, false, -1, -1, 0, 0, r.wantsFree)
  }

  ghost predicate Pristine<T(!new)>(s: State<T>) {
    forall t :: t in s.tasks ==> PristineTask(s.tasks[t])
  }

  // The result of a submission, by the state of the task and the arguments.
  lemma SubmitResultIs<T(!new)>(s: State<T>, t: T, delay: int, interval: int, now: int)
    requires Inv(s) && QueuesLive(s) && Pristine(s)
    ensures SubmitResult(s, t, delay, interval, now) ==
            if t !in s.tasks then InvalidObject
            else if s.tasks[t].status != Created then InvalidStateTransition
            else if interval != 0 && interval < MIN_INTERVAL then TooSmall
            else if delay > 0 && now + delay <= 0 then Failed
            else Ok
  {
    if t in s.tasks && s.tasks[t].status == Created {
      assert PristineTask(s.tasks[t]);
      ArmedDetached(s, t, delay, interval);
      SchedEffect(Armed(s, t, delay, interval), t, now);
    }
  }

  // The record of a task that was submitted: it repeats exactly if an interval was given.
  ghost predicate ArmedWith(r: Task, delay: int, interval: int) {
    && r.status == Enqueued && r.isFirst && r.initialDelay == delay
    && (r.doRepeat <==> interval > 0) && (interval > 0 ==> r.interval == interval)
  }

  // A submission that is refused changes nothing; any other one puts the task, and nothing else,
  // into the queue that its delay says: the timed one, due its delay from now; or the end of the
  // urgent or of the idle one.
  lemma SubmitEffect<T(!new)>(s: State<T>, t: T, delay: int, interval: int, now: int)
    requires Inv(s) && QueuesLive(s) && Pristine(s)
    ensures var s' := Submit(s, t, delay, interval, now);
            if SubmitResult(s, t, delay, interval, now) in {InvalidObject, InvalidStateTransition, TooSmall} then s' == s
            else
              && t in s'.tasks && ArmedWith(s'.tasks[t], delay, interval) && s'.log == s.log
              && (delay > 0 ==> DueAt(s', t, now + delay) && s'.tasks[t].lastAbstime == now)
              && s'.urgentQ == (if delay == 0 then s.urgentQ + [t] else s.urgentQ)
              && s'.idleQ == (if delay < 0 then s.idleQ + [t] else s.idleQ)
              && s'.batch == s.batch && (delay <= 0 ==> s'.timedQ == s.timedQ)
    ensures forall x :: x != t ==> Aside(s, Submit(s, t, delay, interval, now), x)
  {
    if t in s.tasks && s.tasks[t].status == Created && (interval >= MIN_INTERVAL || interval == 0) {
      ArmedFields(s, t, delay, interval);
      CreatedDetached(s, t);
      ArmedDetached(s, t, delay, interval);
      SubmitAccepted(s, t, delay, interval, now);
      if delay > 0 {
        TimedEffect(Armed(s, t, delay, interval), t, now, interval);
      } else {
        EnqueueEffect(Armed(s, t, delay, interval), t, delay == 0, interval);
      }
    } else {
      SubmitRefused(s, t, delay, interval, now);
    }
    SubmitResultIs(s, t, delay, interval, now);
    forall x | x != t ensures Aside(s, Submit(s, t, delay, interval, now), x) { SubmitAside(s, t, delay, interval, now, x); }
  }

  lemma ArmedFields<T(!new)>(s: State<T>, t: T, delay: int, interval: int)
    requires t in s.tasks && s.tasks[t].status == Created && Pristine(s)
    ensures var s1 := Armed(s, t, delay, interval);
            && s1 == s.(tasks := s1.tasks) && t in s1.tasks && !s1.tasks[t].inTimedQ
            && ArmedWith(s1.tasks[t].(status := Enqueued), delay, interval)
  {
    assert PristineTask(s.tasks[t]);
  }

  lemma TimedEffect<T(!new)>(s: State<T>, t: T, now: int, interval: int)
    requires t in s.tasks && QueuesLive(s) && !s.tasks[t].inTimedQ
    requires ArmedWith(s.tasks[t].(status := Enqueued), s.tasks[t].initialDelay, interval)
    ensures var s', delay := Sched(s, t, now), s.tasks[t].initialDelay;
            && DueAt(s', t, now + delay) && ArmedWith(s'.tasks[t], delay, interval) && s'.tasks[t].lastAbstime == now
            && s'.log == s.log && s'.urgentQ == s.urgentQ && s'.idleQ == s.idleQ && s'.batch == s.batch
  {
    SchedEffect(s, t, now);
  }

  lemma EnqueueEffect<T(!new)>(s: State<T>, t: T, urgent: bool, interval: int)
    requires t in s.tasks && ArmedWith(s.tasks[t].(status := Enqueued), s.tasks[t].initialDelay, interval)
    ensures var s' := Enqueue(s, t, urgent);
            && t in s'.tasks && ArmedWith(s'.tasks[t], s.tasks[t].initialDelay, interval) && s'.log == s.log
            && s'.urgentQ == (if urgent then s.urgentQ + [t] else s.urgentQ)
            && s'.idleQ == (if urgent then s.idleQ else s.idleQ + [t])
            && s'.timedQ == s.timedQ && s'.batch == s.batch
  {
  }

  lemma ArmedAside<T(!new)>(s: State<T>, x: T, delay: int, interval: int, t: T)
    requires x in s.tasks && x != t
    ensures Aside(s, Armed(s, x, delay, interval), t)
  {
  }

  lemma EnqueueAside<T(!new)>(s: State<T>, x: T, urgent: bool, t: T)
    requires x in s.tasks && x != t
    ensures Aside(s, Enqueue(s, x, urgent), t)
  {
  }

  lemma SubmitAside<T(!new)>(s: State<T>, x: T, delay: int, interval: int, now: int, t: T)
    requires Inv(s) && QueuesLive(s) && x != t
    ensures Aside(s, Submit(s, x, delay, interval, now), t)
  {
    if x in s.tasks && s.tasks[x].status == Created && (interval >= MIN_INTERVAL || interval == 0) {
      CreatedDetached(s, x);
      SubmitAccepted(s, x, delay, interval, now);
      ArmedAside(s, x, delay, interval, t);
      SchedAside(Armed(s, x, delay, interval), x, now, t);
      EnqueueAside(Armed(s, x, delay, interval), x, delay == 0, t);
    } else {
      SubmitRefused(s, x, delay, interval, now);
    }
  }

  // ---------------------------------------------------------------- cancellation

  lemma SetStatusAside<T(!new)>(s: State<T>, x: T, st: TaskState, t: T)
    requires x in s.tasks && x != t
    ensures Aside(s, SetStatus(s, x, st), t)
  {
  }

  // A task in the timed queue is destroyed at once; one in another queue, or fetched, keeps its
  // place with the mark; a task not submitted, or cancelled before, is left alone.
  lemma CancelEffect<T(!new)>(s: State<T>, t: T)
    requires Inv(s)
    ensures var s' := Cancel(s, t);
            if t in s.timedQ then Destroyed(s', t) && s'.log == s.log && s'.urgentQ == s.urgentQ && s'.idleQ == s.idleQ
            else if t in s.tasks && s.tasks[t].status in {Enqueued, Dequeued} then
              s' == s.(tasks := s.tasks[t := s.tasks[t].(status := Cancelled)], table := s.table[t := Cancelled])
            else s' == s
    ensures forall x :: x != t ==> Aside(s, Cancel(s, t), x)
  {
    LocatedLive(s);
    if t in s.tasks { assert PlaceOk(s, t); }
    if t in s.timedQ { DestroyQueuedEffect(s, t); }
    forall x | x != t ensures Aside(s, Cancel(s, t), x) { CancelAside(s, t, x); }
  }

  lemma CancelAside<T(!new)>(s: State<T>, x: T, t: T)
    requires Inv(s) && x != t
    ensures Aside(s, Cancel(s, x), t)
  {
    if x in s.tasks {
      DestroyAside(s, x, t);
      SetStatusAside(s, x, Cancelled, t);
    }
  }

  // ---------------------------------------------------------------- the fetch

  // The fetch takes the longest due front of the timed queue, then from the urgent and from the
  // idle queue all there is, each up to the size of the caller's array, in this order.
  lemma FetchEffect<T(!new)>(s: State<T>, now: int) returns (timed: seq<T>, urgent: seq<T>, idle: seq<T>)
    requires Inv(s) && QueuesLive(s) && s.batch == []
    ensures var s' := Fetch(s, now);
            && s'.batch == timed + urgent + idle && s'.batchTime == now && s'.log == s.log
            && s.timedQ == timed + s'.timedQ && s.urgentQ == urgent + s'.urgentQ && s.idleQ == idle + s'.idleQ
            && |timed| <= TASK_MAX && |urgent| <= TASK_MAX && |idle| <= TASK_MAX
            && (s'.urgentQ != [] ==> |urgent| == TASK_MAX) && (s'.idleQ != [] ==> |idle| == TASK_MAX)
            && (forall x :: x in timed ==> s.tasks[x].nextAbstime <= now + SCHED_JITTER)
            && (now <= 0 ==> timed == [])
            && (now > 0 && |timed| < TASK_MAX ==>
                  forall x :: x in s'.timedQ ==> s.tasks[x].nextAbstime > now + SCHED_JITTER)
  {
    var c := FetchCount(s, now);
    timed, urgent, idle := s.timedQ[..c], FrontOf(s.urgentQ), FrontOf(s.idleQ);
    FetchDue(s, now);
    FetchFields(s, now);
    Parts(s.timedQ, c);
    Parts(s.urgentQ, |urgent|);
    Parts(s.idleQ, |idle|);
  }

  function FetchCount<T>(s: State<T>, now: int): (c: nat)
    requires forall x :: x in s.timedQ ==> x in s.tasks
    ensures c <= |s.timedQ|
  {
    if now > 0 then RunnableCount(s, now, TASK_MAX) else 0
  }

  function FrontOf<T>(q: seq<T>): (f: seq<T>)
    ensures |f| == Min(TASK_MAX, |q|)
  {
    q[..Min(TASK_MAX, |q|)]
  }

  lemma Parts<T>(q: seq<T>, c: nat)
    requires c <= |q|
    ensures q == q[..c] + q[c..]
  {
  }

  lemma FetchFields<T>(s: State<T>, now: int)
    requires QueuesLive(s)
    ensures var s', c := Fetch(s, now), FetchCount(s, now);
            && s'.batch == s.timedQ[..c] + FrontOf(s.urgentQ) + FrontOf(s.idleQ) && s'.batchTime == now && s'.log == s.log
            && s'.timedQ == s.timedQ[c..] && s'.urgentQ == s.urgentQ[|FrontOf(s.urgentQ)|..]
            && s'.idleQ == s.idleQ[|FrontOf(s.idleQ)|..]
  {
  }

  lemma FetchDue<T(!new)>(s: State<T>, now: int)
    requires Inv(s) && QueuesLive(s)
    ensures var c := FetchCount(s, now);
            && c <= TASK_MAX && (forall x :: x in s.timedQ[..c] ==> s.tasks[x].nextAbstime <= now + SCHED_JITTER)
            && (now > 0 && c < TASK_MAX ==> forall x :: x in s.timedQ[c..] ==> s.tasks[x].nextAbstime > now + SCHED_JITTER)
  {
    RunnablesExact(s, now, TASK_MAX);
  }

  // What the fetch changes of a record: a task taken from the timed queue is dequeued.
  lemma FetchRecord<T(!new)>(s: State<T>, now: int, t: T)
    requires Inv(s) && QueuesLive(s) && s.batch == []
    ensures var s' := Fetch(s, now);
            && (t in s'.tasks <==> t in s.tasks) && s'.retired == s.retired && s'.log == s.log
            && (t in s.tasks ==>
                  s'.tasks[t] == if t in s.timedQ && t !in s'.timedQ then DequeuedTask(s.tasks[t]) else s.tasks[t])
  {
    var c := if now > 0 then RunnableCount(s, now, TASK_MAX) else 0;
    if t in s.timedQ {
      assert multiset(s.timedQ)[t] <= Places(s, t) <= 1;
      TakenOrLeft(s.timedQ, c, t);
    }
  }

  // ---------------------------------------------------------------- every step

  // The task that an action is about.
  function Subject<T>(s: State<T>, a: Action<T>): (t: seq<T>)
    ensures |t| <= 1
  {
    match a
    case DoCreate(t, _) => [t]
    case DoSubmit(t, _, _, _) => [t]
    case DoCancel(t) => [t]
    case DoForce(t, _, _) => [t]
    case DoFetch(_) => []
    case DoRun(_) => s.batch[..Min(1, |s.batch|)]
    case DoDropTimed => s.timedQ[..Min(1, |s.timedQ|)]
    case DoDropUrgent => s.urgentQ[..Min(1, |s.urgentQ|)]
    case DoDropIdle => s.idleQ[..Min(1, |s.idleQ|)]
  }

  lemma DropTimedAside<T(!new)>(s: State<T>, t: T)
    requires Inv(s) && s.timedQ != [] && s.timedQ[0] != t
    ensures s.timedQ[0] in s.tasks && Aside(s, DropTimed(s), t)
  {
    TakeRunnablesOne(s);
    TakeOneFrame(s);
    DestroyAside(TakeRunnables(s, 1), s.timedQ[0], t);
  }

  // A step leaves every task alone but the one it is about.
  lemma StepAside<T(!new)>(s: State<T>, a: Action<T>, t: T)
    requires Inv(s) && Enabled(s, a) && !a.DoFetch? && t !in Subject(s, a)
    ensures Aside(s, Apply(s, a), t)
  {
    LocatedLive(s);
    match a
    case DoCreate(x, _) => assert x != t;
    case DoSubmit(x, delay, interval, now) => assert x != t; SubmitAside(s, x, delay, interval, now, t);
    case DoCancel(x) => assert x != t; CancelAside(s, x, t);
    case DoForce(x, now, o) => assert x != t; ForceAside(s, x, now, o, t);
    case DoRun(o) => assert s.batch[0] != t; RunNextAside(s, o, t);
    case DoDropTimed => assert s.timedQ[0] != t; DropTimedAside(s, t);
    case DoDropUrgent =>
      assert s.urgentQ[0] != t;
      DestroyAside(s.(urgentQ := s.urgentQ[1..]), s.urgentQ[0], t);
    case DoDropIdle =>
      assert s.idleQ[0] != t;
      DestroyAside(s.(idleQ := s.idleQ[1..]), s.idleQ[0], t);
  }

  // ---------------------------------------------------------------- every run

  lemma PristineKept<T(!new)>(s: State<T>, a: Action<T>)
    requires Inv(s) && Pristine(s) && Enabled(s, a)
    ensures Pristine(Apply(s, a))
  {
    LocatedLive(s);
    InvKept(s, a);
    forall t | t in Apply(s, a).tasks ensures PristineTask(Apply(s, a).tasks[t]) {
      if t in s.tasks { assert PristineTask(s.tasks[t]); }
      if a.DoFetch? {
        FetchRecord(s, a.now, t);
      } else if t in Subject(s, a) {
        PristineSubject(s, a, t);
      } else {
        StepAside(s, a, t);
      }
    }
  }

  // The task that a step is about is not left created, but for the step that creates it.
  lemma PristineSubject<T(!new)>(s: State<T>, a: Action<T>, t: T)
    requires Inv(s) && QueuesLive(s) && Pristine(s) && Enabled(s, a) && t in Subject(s, a) && t in Apply(s, a).tasks
    ensures PristineTask(Apply(s, a).tasks[t])
  {
    match a
    case DoCreate(x, _) =>
    case DoSubmit(x, delay, interval, now) => PristineSubmit(s, x, delay, interval, now);
    case DoCancel(x) => PristineCancel(s, x);
    case DoForce(x, now, o) => PristineForce(s, x, now, o);
    case DoRun(o) => PristineRun(s, o);
    case _ => DropEffect(s, a, t);
  }

  lemma PristineCancel<T(!new)>(s: State<T>, t: T)
    requires Inv(s) && QueuesLive(s) && Pristine(s) && t in Cancel(s, t).tasks
    ensures PristineTask(Cancel(s, t).tasks[t])
  {
    CancelEffect(s, t);
    if t in s.tasks { assert PristineTask(s.tasks[t]); }
  }

  lemma PristineRun<T(!new)>(s: State<T>, o: Outcome)
    requires Inv(s) && QueuesLive(s) && s.batch != [] && s.batch[0] in RunNext(s, o).tasks
    ensures PristineTask(RunNext(s, o).tasks[s.batch[0]])
  {
    RunNextEffect(s, o);
  }

  lemma PristineForce<T(!new)>(s: State<T>, t: T, now: int, o: Outcome)
    requires Inv(s) && QueuesLive(s) && Pristine(s) && t in Force(s, t, now, o).tasks
    ensures PristineTask(Force(s, t, now, o).tasks[t])
  {
    ForceEffect(s, t, now, o);
    if t in s.tasks { assert PristineTask(s.tasks[t]); }
  }

  lemma PristineSubmit<T(!new)>(s: State<T>, t: T, delay: int, interval: int, now: int)
    requires Inv(s) && QueuesLive(s) && Pristine(s) && t in Submit(s, t, delay, interval, now).tasks
    ensures PristineTask(Submit(s, t, delay, interval, now).tasks[t])
  {
    SubmitEffect(s, t, delay, interval, now);
    if Submit(s, t, delay, interval, now) == s { assert PristineTask(s.tasks[t]); }
  }

  // A queue is emptied by destroying its tasks.
  lemma DropEffect<T(!new)>(s: State<T>, a: Action<T>, t: T)
    requires Inv(s) && QueuesLive(s) && Enabled(s, a) && t in Subject(s, a)
    requires a.DoDropTimed? || a.DoDropUrgent? || a.DoDropIdle?
    ensures Destroyed(Apply(s, a), t) && Apply(s, a).log == s.log
  {
    InvKept(s, a);
    if a.DoDropTimed? { DropTimedKept(s); }
    if a.DoDropUrgent? { DropUrgentKept(s); }
    if a.DoDropIdle? { DropIdleKept(s); }
    NowhereDestroyed(Apply(s, a), t);
  }

  lemma {:induction false} RunKeepsPristine<T(!new)>(s: State<T>, actions: seq<Action<T>>)
    requires Inv(s) && Pristine(s) && IsRun(s, actions)
    ensures Pristine(After(s, actions))
    decreases |actions|
  {
    if actions != [] {
      InvKept(s, actions[0]);
      PristineKept(s, actions[0]);
      RunKeepsPristine(Apply(s, actions[0]), actions[1..]);
    }
  }

  // What has been executed stays on record.
  lemma LogGrows<T(!new)>(s: State<T>, a: Action<T>)
    requires Inv(s) && Enabled(s, a)
    ensures s.log <= Apply(s, a).log
  {
    LocatedLive(s);
    match a
    case DoCreate(_, _) =>
    case DoSubmit(x, delay, interval, now) => SubmitLog(s, x, delay, interval, now);
    case DoCancel(x) => CancelEffect(s, x);
    case DoForce(x, now, o) => ForceEffect(s, x, now, o);
    case DoFetch(now) =>
    case DoRun(o) => RunNextEffect(s, o);
    case DoDropTimed => DropEffect(s, a, s.timedQ[0]);
    case DoDropUrgent => DropEffect(s, a, s.urgentQ[0]);
    case DoDropIdle => DropEffect(s, a, s.idleQ[0]);
  }

  lemma SubmitLog<T(!new)>(s: State<T>, t: T, delay: int, interval: int, now: int)
    requires Inv(s) && QueuesLive(s)
    ensures Submit(s, t, delay, interval, now).log == s.log
  {
  }

  lemma {:induction false} LogGrowsOver<T(!new)>(s: State<T>, actions: seq<Action<T>>)
    requires Inv(s) && IsRun(s, actions)
    ensures s.log <= After(s, actions).log
    decreases |actions|
  {
    if actions != [] {
      InvKept(s, actions[0]);
      LogGrows(s, actions[0]);
      LogGrowsOver(Apply(s, actions[0]), actions[1..]);
    }
  }

  // ---------------------------------------------------------------- the first execution

  // t, which has never run, waits to be dispatched at the time due.
  ghost predicate Pending<T>(s: State<T>, t: T, due: int) {
    && t in s.tasks && s.tasks[t].status != Created
    && (t in s.timedQ || t in s.batch)
    && (t in s.timedQ ==> s.tasks[t].nextAbstime == due)
    && (t in s.batch ==> s.batchTime >= due - SCHED_JITTER)
  }

  // From s on the first execution of t is not dispatched before its time.
  ghost predicate NotEarly<T(!new)>(log: seq<Event<T>>, from: nat, t: T, due: int) {
    forall i :: from <= i < |log| && FirstOf(log, from, t, i) && log[i].timed ==> log[i].time >= due - SCHED_JITTER
  }

  ghost predicate FirstOf<T>(log: seq<Event<T>>, from: nat, t: T, i: nat)
    requires from <= i < |log|
  {
    log[i].task == t && forall j :: from <= j < i ==> log[j].task != t
  }

  // Only the fetch fills the batch, and only the dispatcher takes from it.
  lemma BatchAfter<T(!new)>(s: State<T>, a: Action<T>)
    requires Inv(s) && Enabled(s, a) && !a.DoFetch?
    ensures Apply(s, a).batch == if a.DoRun? then s.batch[1..] else s.batch
  {
    LocatedLive(s);
    match a
    case DoCreate(_, _) =>
    case DoSubmit(x, delay, interval, now) => SubmitBatch(s, x, delay, interval, now);
    case DoCancel(x) => CancelBatch(s, x);
    case DoForce(x, now, o) => ForceBatch(s, x, now, o);
    case DoRun(o) => RunNextBatch(s, o);
    case DoDropTimed => DropTimedKept(s);
    case DoDropUrgent => DropUrgentKept(s);
    case DoDropIdle => DropIdleKept(s);
  }

  lemma SubmitBatch<T(!new)>(s: State<T>, t: T, delay: int, interval: int, now: int)
    requires Inv(s) && QueuesLive(s)
    ensures Submit(s, t, delay, interval, now).batch == s.batch
  {
  }

  lemma CancelBatch<T(!new)>(s: State<T>, t: T)
    requires Inv(s)
    ensures Cancel(s, t).batch == s.batch
  {
    if t in s.tasks { DestroyBatch(s, t); }
  }

  lemma ForceBatch<T(!new)>(s: State<T>, t: T, now: int, o: Outcome)
    requires Inv(s) && QueuesLive(s)
    ensures Force(s, t, now, o).batch == s.batch
  {
    if ForceResult(s, t) == Ok {
      ForceIs(s, t, now, o);
      ForcedDetached(s, t, now);
      BlockedLive(Forced(s, t, now), t);
      ExecBatch(Forced(s, t, now), t, o, false);
      ForcedBatch(s, t, now);
    }
  }

  lemma ForcedBatch<T>(s: State<T>, t: T, now: int)
    requires t in s.tasks
    ensures Forced(s, t, now).batch == s.batch
  {
  }

  // A step about another task leaves a pending one waiting.
  lemma PendingAside<T(!new)>(s: State<T>, a: Action<T>, t: T, due: int)
    requires Inv(s) && Enabled(s, a) && !a.DoFetch? && t !in Subject(s, a) && Pending(s, t, due)
    ensures Pending(Apply(s, a), t, due) && Aside(s, Apply(s, a), t)
  {
    var s' := Apply(s, a);
    StepAside(s, a, t);
    InvKept(s, a);
    BatchAfter(s, a);
    assert PlaceOk(s, t) && PlaceOk(s', t) && Places(s, t) == 1 && Places(s', t) == 1;
    if t in s.batch && a.DoRun? { assert t in s.batch[1..] by { InRest(s.batch, t); } }
  }

  lemma InRest<T>(q: seq<T>, t: T)
    requires t in q && q[0] != t
    ensures t in q[1..]
  {
    var i :| 0 <= i < |q| && q[i] == t;
    assert q[1..][i - 1] == t;
  }

  lemma PendingFetched<T(!new)>(s: State<T>, now: int, t: T, due: int)
    requires Inv(s) && QueuesLive(s) && s.batch == [] && Pending(s, t, due)
    ensures Pending(Fetch(s, now), t, due) && Fetch(s, now).log == s.log
  {
    FetchRecord(s, now, t);
    FetchRepeating(s, now, t);
    FetchKept(s, now);
    assert PlaceOk(s, t) && PlaceOk(Fetch(s, now), t);
  }

  // The step has executed t, and not before its time if it was dispatched from the timed queue.
  ghost predicate RanInTime<T>(s: State<T>, s': State<T>, t: T, due: int) {
    && s.log <= s'.log && |s'.log| == |s.log| + 1 && s'.log[|s.log|].task == t
    && (s'.log[|s.log|].timed ==> s'.log[|s.log|].time >= due - SCHED_JITTER)
  }

  ghost predicate StillPending<T(!new)>(s: State<T>, s': State<T>, t: T, due: int) {
    Pending(s', t, due) && s.log <= s'.log && forall k :: |s.log| <= k < |s'.log| ==> s'.log[k].task != t
  }

  // A step leaves a pending task waiting, does away with it unexecuted, or executes it in time.
  ghost predicate StepsOn<T(!new)>(s: State<T>, s': State<T>, t: T, due: int) {
    RanInTime(s, s', t, due) || StillPending(s, s', t, due) || (Gone(s', t) && s'.log == s.log)
  }

  lemma PendingSubmit<T(!new)>(s: State<T>, t: T, delay: int, interval: int, now: int, due: int)
    requires Inv(s) && QueuesLive(s) && Pending(s, t, due)
    ensures StepsOn(s, Submit(s, t, delay, interval, now), t, due)
  {
    assert PlaceOk(s, t);
    SubmitRefused(s, t, delay, interval, now);
  }

  lemma PendingCancel<T(!new)>(s: State<T>, t: T, due: int)
    requires Inv(s) && QueuesLive(s) && Pending(s, t, due)
    ensures StepsOn(s, Cancel(s, t), t, due)
  {
    assert PlaceOk(s, t);
    CancelEffect(s, t);
  }

  lemma PendingForce<T(!new)>(s: State<T>, t: T, now: int, o: Outcome, due: int)
    requires Inv(s) && QueuesLive(s) && Pending(s, t, due)
    ensures StepsOn(s, Force(s, t, now, o), t, due)
  {
    ForceEffect(s, t, now, o);
  }

  lemma PendingRun<T(!new)>(s: State<T>, o: Outcome, due: int)
    requires Inv(s) && QueuesLive(s) && s.batch != [] && Pending(s, s.batch[0], due)
    ensures StepsOn(s, RunNext(s, o), s.batch[0], due)
  {
    RunNextEffect(s, o);
  }

  lemma PendingSubject<T(!new)>(s: State<T>, a: Action<T>, t: T, due: int)
    requires Inv(s) && QueuesLive(s) && Enabled(s, a) && t in Subject(s, a) && Pending(s, t, due)
    ensures StepsOn(s, Apply(s, a), t, due)
  {
    match a
    case DoSubmit(x, delay, interval, now) => PendingSubmit(s, x, delay, interval, now, due);
    case DoCancel(x) => PendingCancel(s, x, due);
    case DoForce(x, now, o) => PendingForce(s, x, now, o, due);
    case DoRun(o) => PendingRun(s, o, due);
    case _ => DropEffect(s, a, t);
  }

  // Events of other tasks in between do not matter.
  lemma LaterFirst<T(!new)>(l0: seq<Event<T>>, l1: seq<Event<T>>, l2: seq<Event<T>>, t: T, due: int)
    requires l0 <= l1 <= l2 && NotEarly(l2, |l1|, t, due)
    requires forall k :: |l0| <= k < |l1| ==> l1[k].task != t
    ensures NotEarly(l2, |l0|, t, due)
  {
    forall i | |l0| <= i < |l2| && FirstOf(l2, |l0|, t, i) && l2[i].timed ensures l2[i].time >= due - SCHED_JITTER {
      assert i >= |l1| by { assert l2[i].task == t; }
      assert FirstOf(l2, |l1|, t, i);
    }
  }

  lemma NoneFollows<T(!new)>(l0: seq<Event<T>>, l2: seq<Event<T>>, t: T, due: int)
    requires Last(l2, t) < |l0|
    ensures NotEarly(l2, |l0|, t, due)
  {
  }

  lemma OneFollows<T(!new)>(l0: seq<Event<T>>, l1: seq<Event<T>>, l2: seq<Event<T>>, t: T, due: int)
    requires l0 <= l1 <= l2 && |l1| == |l0| + 1 && l1[|l0|].task == t
    requires l1[|l0|].timed ==> l1[|l0|].time >= due - SCHED_JITTER
    ensures NotEarly(l2, |l0|, t, due)
  {
    assert l2[|l0|] == l1[|l0|];
  }

  lemma {:induction false} PendingNotEarly<T(!new)>(s: State<T>, actions: seq<Action<T>>, t: T, due: int)
    requires Inv(s) && IsRun(s, actions) && Pending(s, t, due)
    ensures NotEarly(After(s, actions).log, |s.log|, t, due)
    decreases |actions|
  {
    if actions != [] {
      var a, s1 := actions[0], Apply(s, actions[0]);
      LocatedLive(s);
      InvKept(s, a);
      LogGrows(s, a);
      LogGrowsOver(s1, actions[1..]);
      PendingStep(s, a, t, due);
      if RanInTime(s, s1, t, due) {
        OneFollows(s.log, s1.log, After(s, actions).log, t, due);
      } else if StillPending(s, s1, t, due) {
        PendingNotEarly(s1, actions[1..], t, due);
        LaterFirst(s.log, s1.log, After(s, actions).log, t, due);
      } else {
        GoneForever(s1, actions[1..], t);
        NoneFollows(s.log, After(s, actions).log, t, due);
      }
    }
  }

  lemma PendingStep<T(!new)>(s: State<T>, a: Action<T>, t: T, due: int)
    requires Inv(s) && QueuesLive(s) && Enabled(s, a) && Pending(s, t, due)
    ensures StepsOn(s, Apply(s, a), t, due)
  {
    if a.DoFetch? {
      PendingFetched(s, a.now, t, due);
    } else if t !in Subject(s, a) {
      PendingAside(s, a, t, due);
    } else {
      PendingSubject(s, a, t, due);
    }
  }

  // What a submission leaves, and what a run of the scheduler comes to.
  ghost function AfterSubmit<T(!new)>(s: State<T>, t: T, delay: int, interval: int, now: int): (s': State<T>)
    requires Inv(s)
    ensures Inv(s')
  {
    SubmitKept(s, t, delay, interval, now);
    Submit(s, t, delay, interval, now)
  }

  ghost function Reached<T(!new)>(actions: seq<Action<T>>): (s: State<T>)
    requires IsRun(Start<T>(), actions)
    ensures Inv(s) && QueuesLive(s) && Pristine(s)
  {
    RunKeepsInv(Start<T>(), actions);
    RunKeepsPristine(Start<T>(), actions);
    LocatedLive(After(Start<T>(), actions));
    After(Start<T>(), actions)
  }

  lemma FirstAfterSubmit<T(!new)>(s: State<T>, t: T, delay: int, interval: int, now: int, actions: seq<Action<T>>)
    requires Inv(s) && QueuesLive(s) && Pristine(s)
    requires delay > 0 && SubmitResult(s, t, delay, interval, now) == Ok
    requires IsRun(AfterSubmit(s, t, delay, interval, now), actions)
    ensures NotEarly(After(AfterSubmit(s, t, delay, interval, now), actions).log, |s.log|, t, now + delay)
  {
    var s1 := AfterSubmit(s, t, delay, interval, now);
    SubmitEffect(s, t, delay, interval, now);
    SubmittedPending(s1, t, now + delay);
    PendingNotEarly(s1, actions, t, now + delay);
  }

  // Over every run with a timed submission in it: if the first execution of the task is one
  // dispatched by its time, it starts no sooner than its delay after the submission, less the jitter.
  lemma FirstRunNotEarly<T(!new)>(before: seq<Action<T>>, t: T, delay: int, interval: int, now: int,
                                  later: seq<Action<T>>, i: nat)
    requires IsRun(Start<T>(), before)
    requires delay > 0 && SubmitResult(Reached(before), t, delay, interval, now) == Ok
    requires IsRun(AfterSubmit(Reached(before), t, delay, interval, now), later)
    requires var n, log := |Reached(before).log|, After(AfterSubmit(Reached(before), t, delay, interval, now), later).log;
             n <= i < |log| && FirstOf(log, n, t, i) && log[i].timed
    ensures After(AfterSubmit(Reached(before), t, delay, interval, now), later).log[i].time >= now + delay - SCHED_JITTER
  {
    FirstAfterSubmit(Reached(before), t, delay, interval, now, later);
  }

  lemma SubmittedPending<T(!new)>(s: State<T>, t: T, due: int)
    requires Inv(s) && DueAt(s, t, due)
    ensures Pending(s, t, due)
  {
    assert PlaceOk(s, t) && Places(s, t) == 1;
  }

  // Over every run, a task that was never submitted is as it was created: no run of other calls
  // makes it repeat.
  lemma CreatedPristine<T(!new)>(actions: seq<Action<T>>, t: T)
    requires IsRun(Start<T>(), actions) && t in After(Start<T>(), actions).tasks
    ensures PristineTask(After(Start<T>(), actions).tasks[t])
  {
    RunKeepsPristine(Start<T>(), actions);
  }

  // ---------------------------------------------------------------- what is freed

  predicate Known<T>(s: State<T>, t: T) {
    t in s.tasks || t in s.retired
  }

  // Whether t was created with an argument to free.
  function Wish<T>(s: State<T>, t: T): bool
    requires Known(s, t)
  {
    if t in s.tasks then s.tasks[t].wantsFree else s.retired[t]
  }

  ghost predicate WishKept<T>(s: State<T>, s': State<T>, t: T) {
    (Known(s', t) <==> Known(s, t)) && (Known(s, t) ==> Wish(s', t) == Wish(s, t))
  }

  lemma WishTwice<T>(s: State<T>, s1: State<T>, s2: State<T>, t: T)
    requires WishKept(s, s1, t) && WishKept(s1, s2, t)
    ensures WishKept(s, s2, t)
  {
  }

  lemma UnschedWish<T>(s: State<T>, x: T, t: T)
    requires x in s.tasks
    ensures WishKept(s, Unsched(s, x), t)
  {
  }

  lemma DeleteWish<T>(s: State<T>, x: T, t: T)
    requires x in s.tasks
    ensures WishKept(s, Delete(s, x), t)
  {
  }

  lemma DestroyWish<T>(s: State<T>, x: T, t: T)
    requires x in s.tasks
    ensures WishKept(s, Destroy(s, x), t)
  {
    UnschedWish(s, x, t);
    var s1 := Unsched(s, x);
    DeleteWish(s1.(table := s1.table[x := Cancelled]), x, t);
  }

  lemma SchedWish<T>(s: State<T>, x: T, now: int, t: T)
    requires x in s.tasks && forall y :: y in s.timedQ ==> y in s.tasks
    ensures WishKept(s, Sched(s, x, now), t)
  {
  }

  lemma ExecutedWish<T>(s: State<T>, x: T, o: Outcome, timed: bool, t: T)
    requires x in s.tasks
    ensures WishKept(s, Executed(s, x, o, timed), t)
  {
  }

  lemma SettleWish<T>(s: State<T>, x: T, ok: bool, t: T)
    requires x in s.tasks && forall y :: y in s.timedQ ==> y in s.tasks
    ensures WishKept(s, Settle(s, x, ok), t)
  {
    DestroyWish(s, x, t);
    SchedWish(s, x, 0, t);
    DestroyWish(Sched(s, x, 0), x, t);
    if ok && s.tasks[x].doRepeat && SchedResult(s, x, 0) < 0 { WishTwice(s, Sched(s, x, 0), Destroy(Sched(s, x, 0), x), t); }
  }

  lemma ExecWish<T>(s: State<T>, x: T, o: Outcome, timed: bool, t: T)
    requires x in s.tasks && forall y :: y in s.timedQ ==> y in s.tasks
    ensures WishKept(s, Exec(s, x, o, timed), t)
  {
    var s1 := Executed(s, x, o, timed);
    ExecutedWish(s, x, o, timed, t);
    SettleWish(s1, x, o.ok, t);
    DestroyWish(s, x, t);
    if x in s.table && s.table[x] == Dequeued { WishTwice(s, s1, Settle(s1, x, o.ok), t); }
  }

  lemma SubmitWish<T>(s: State<T>, x: T, delay: int, interval: int, now: int, t: T)
    requires (x in s.table ==> x in s.tasks) && forall y :: y in s.timedQ ==> y in s.tasks
    ensures WishKept(s, Submit(s, x, delay, interval, now), t)
  {
    if x in s.tasks {
      var s1 := Armed(s, x, delay, interval);
      assert WishKept(s, s1, t);
      SchedWish(s1, x, now, t);
      if x in s.table && s.table[x] == Created && (interval >= MIN_INTERVAL || interval == 0) && delay > 0 {
        WishTwice(s, s1, Sched(s1, x, now), t);
      }
    }
  }

  lemma ForcedWish<T>(s: State<T>, x: T, now: int, t: T)
    requires x in s.tasks
    ensures WishKept(s, Forced(s, x, now), t)
  {
    UnschedWish(s, x, t);
  }

  lemma ForceWish<T(!new)>(s: State<T>, x: T, now: int, o: Outcome, t: T)
    requires Inv(s) && QueuesLive(s)
    ensures WishKept(s, Force(s, x, now, o), t)
  {
    if ForceResult(s, x) == Ok {
      ForceIs(s, x, now, o);
      var s1 := Forced(s, x, now);
      BlockedLive(s1, x);
      ForcedWish(s, x, now, t);
      ExecWish(s1, x, o, false, t);
      WishTwice(s, s1, Exec(s1, x, o, false), t);
    }
  }

  lemma DispatchedWish<T>(s: State<T>, t: T)
    requires s.batch != [] && s.batch[0] in s.tasks
    ensures WishKept(s, Dispatched(s), t)
  {
  }

  lemma RunNextWish<T(!new)>(s: State<T>, o: Outcome, t: T)
    requires Inv(s) && QueuesLive(s) && s.batch != []
    ensures WishKept(s, RunNext(s, o), t)
  {
    DispatchedDetached(s);
    BlockedLive(Dispatched(s), s.batch[0]);
    DispatchedWish(s, t);
    ExecWish(Dispatched(s), s.batch[0], o, true, t);
    WishTwice(s, Dispatched(s), RunNext(s, o), t);
  }

  lemma TakenWish<T(!new)>(s: State<T>, t: T)
    requires s.timedQ != [] && s.timedQ[0] in s.tasks
    ensures s.timedQ[0] in TakeRunnables(s, 1).tasks && WishKept(s, TakeRunnables(s, 1), t)
  {
    TakeOneFrame(s);
  }

  lemma DropTimedWish<T(!new)>(s: State<T>, t: T)
    requires s.timedQ != [] && s.timedQ[0] in s.tasks
    ensures WishKept(s, DropTimed(s), t)
  {
    var s1 := TakeRunnables(s, 1);
    TakenWish(s, t);
    DestroyWish(s1, s.timedQ[0], t);
    WishTwice(s, s1, Destroy(s1, s.timedQ[0]), t);
  }

  lemma DropWish<T(!new)>(s: State<T>, a: Action<T>, t: T)
    requires Inv(s) && QueuesLive(s) && Enabled(s, a) && (a.DoDropTimed? || a.DoDropUrgent? || a.DoDropIdle?)
    ensures WishKept(s, Apply(s, a), t)
  {
    match a
    case DoDropTimed => DropTimedWish(s, t);
    case DoDropUrgent => DestroyWish(s.(urgentQ := s.urgentQ[1..]), s.urgentQ[0], t);
    case DoDropIdle => DestroyWish(s.(idleQ := s.idleQ[1..]), s.idleQ[0], t);
  }

  lemma CancelWish<T>(s: State<T>, x: T, t: T)
    requires x in s.table ==> x in s.tasks
    ensures WishKept(s, Cancel(s, x), t)
  {
    if x in s.tasks { DestroyWish(s, x, t); }
  }

  lemma WishStep<T(!new)>(s: State<T>, a: Action<T>, t: T)
    requires Inv(s) && Enabled(s, a)
    ensures if a.DoCreate? && a.t == t then Known(Apply(s, a), t) && Wish(Apply(s, a), t) == a.wantsFree
            else WishKept(s, Apply(s, a), t)
  {
    LocatedLive(s);
    match a
    case DoCreate(_, _) =>
    case DoSubmit(x, delay, interval, now) => SubmitWish(s, x, delay, interval, now, t);
    case DoCancel(x) => CancelWish(s, x, t);
    case DoForce(x, now, o) => ForceWish(s, x, now, o, t);
    case DoFetch(now) => FetchRecord(s, now, t);
    case DoRun(o) => RunNextWish(s, o, t);
    case _ => DropWish(s, a, t);
  }

  lemma {:induction false} WishRun<T(!new)>(s: State<T>, actions: seq<Action<T>>, t: T)
    requires Inv(s) && IsRun(s, actions)
    ensures Known(s, t) ==> WishKept(s, After(s, actions), t)
    ensures !Known(s, t) ==> forall w :: DoCreate(t, w) in actions ==>
              Known(After(s, actions), t) && Wish(After(s, actions), t) == w
    decreases |actions|
  {
    if actions != [] {
      var a, s1 := actions[0], Apply(s, actions[0]);
      InvKept(s, a);
      WishStep(s, a, t);
      WishRun(s1, actions[1..], t);
      if Known(s1, t) && !Known(s, t) { CreatedOnce(s1, actions[1..], t); }
    }
  }

  // The address of a task is not used again.
  lemma {:induction false} CreatedOnce<T(!new)>(s: State<T>, actions: seq<Action<T>>, t: T)
    requires Inv(s) && IsRun(s, actions) && Known(s, t)
    ensures forall w :: DoCreate(t, w) !in actions
    decreases |actions|
  {
    if actions != [] {
      InvKept(s, actions[0]);
      WishStep(s, actions[0], t);
      CreatedOnce(Apply(s, actions[0]), actions[1..], t);
    }
  }

  // Over every run: the argument that a task was created with is freed once when the task is
  // destroyed, and not before; a task created without one has nothing freed.
  lemma FreedAsCreated<T(!new)>(actions: seq<Action<T>>, t: T, w: bool)
    requires IsRun(Start<T>(), actions) && DoCreate(t, w) in actions
    ensures var s := After(Start<T>(), actions);
            && (t in s.tasks || t in s.retired)
            && multiset(s.freed)[t] == if w && t !in s.tasks then 1 else 0
  {
    WishRun(Start<T>(), actions, t);
    FreedExactlyOnce(actions, t);
    RunKeepsInv(Start<T>(), actions);
  }
}
