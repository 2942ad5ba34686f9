/**
 What holds over every run of the callout scheduler of module CalloutSpec.
 */
module CalloutRuns {
  import opened Arith
  import opened CalloutSpec

  datatype Action<T> =
    | DoCreate(t: T, wantsFree: bool)
    | DoSubmit(t: T, delay: int, interval: int, now: int)
    | DoCancel(t: T)
    | DoForce(t: T, now: int, outcome: Outcome)
    | DoFetch(now: int)
    | DoRun(outcome: Outcome)
    | DoDropTimed
    | DoDropUrgent
    | DoDropIdle

  // ---------------------------------------------------------------- the invariant

  // The number of places a task is queued in.
  ghost function Places<T>(s: State<T>, t: T): nat {
    multiset(s.timedQ)[t] + multiset(s.urgentQ)[t] + multiset(s.idleQ)[t] + multiset(s.batch)[t]
  }

  // The table and the records agree.
  ghost predicate TableAgrees<T(!new)>(s: State<T>) {
    && s.table.Keys == s.tasks.Keys
    && forall t :: t in s.tasks ==> s.table[t] == s.tasks[t].status
  }

  // Every submitted live task is queued in exactly one place, no other task anywhere.
  ghost predicate Located<T(!new)>(s: State<T>) {
    forall t :: Places(s, t) == if t in s.tasks && s.tasks[t].status != Created then 1 else 0
  }

  ghost predicate PlaceOk<T(!new)>(s: State<T>, t: T)
    requires t in s.tasks
  {
    var r := s.tasks[t];
    && r.status in {Created, Enqueued, Dequeued, Cancelled}
    && (r.inTimedQ <==> t in s.timedQ)
    && (t in s.timedQ ==> r.status == Enqueued && t in s.stamps && s.stamps[t] < s.clock)
    && (r.status == Dequeued ==> t in s.batch)
  }

  ghost predicate PlacesOk<T(!new)>(s: State<T>) {
    forall t :: t in s.tasks ==> PlaceOk(s, t)
  }

  // Earlier time first; among equal times, the one queued earlier first.
  ghost predicate Before<T>(s: State<T>, x: T, y: T)
    requires x in s.tasks && y in s.tasks && x in s.stamps && y in s.stamps
  {
    s.tasks[x].nextAbstime < s.tasks[y].nextAbstime ||
    (s.tasks[x].nextAbstime == s.tasks[y].nextAbstime && s.stamps[x] < s.stamps[y])
  }

  ghost predicate Sorted<T(!new)>(s: State<T>) {
    && (forall x :: x in s.timedQ ==> x in s.tasks && x in s.stamps)
    && forall i, j :: 0 <= i < j < |s.timedQ| ==> Before(s, s.timedQ[i], s.timedQ[j])
  }

  // Free-up procedures have run exactly for the destroyed tasks that had one, once each.
  ghost predicate FreedOk<T(!new)>(s: State<T>) {
    && (forall t :: t in s.retired ==> t !in s.tasks)
    && (forall t :: multiset(s.freed)[t] == if t in s.retired && s.retired[t] then 1 else 0)
  }

  ghost predicate Inv<T(!new)>(s: State<T>) {
    TableAgrees(s) && Located(s) && PlacesOk(s) && Sorted(s) && FreedOk(s)
  }

  lemma InitInv<T(!new)>()
    ensures Inv(Init<T>())
  {
  }

  // The scheduler after gallus_callout_initialize_handler().
  ghost function Start<T(!new)>(): (s: State<T>)
    ensures Inv(s) && s.log == [] && s.tasks == map[]
  {
    InitInv<T>();
    Init()
  }

  lemma LocatedLive<T(!new)>(s: State<T>)
    requires Located(s)
    ensures QueuesLive(s)
  {
    forall x | x in s.timedQ || x in s.urgentQ || x in s.idleQ || x in s.batch ensures x in s.tasks {
      assert Places(s, x) > 0;
    }
  }

  // The invariant for every task but t, which is live and queued nowhere: the state in the
  // middle of a step that is about t.

  ghost predicate TableAgreesBut<T(!new)>(s: State<T>, t: T) {
    && s.table.Keys == s.tasks.Keys
    && forall x :: x in s.tasks && x != t ==> s.table[x] == s.tasks[x].status
  }

  ghost predicate LocatedBut<T(!new)>(s: State<T>, t: T) {
    forall x :: Places(s, x) == if x in s.tasks && x != t && s.tasks[x].status != Created then 1 else 0
  }

  ghost predicate PlacesOkBut<T(!new)>(s: State<T>, t: T) {
    forall x :: x in s.tasks && x != t ==> PlaceOk(s, x)
  }

  ghost predicate Detached<T(!new)>(s: State<T>, t: T) {
    && t in s.tasks && !s.tasks[t].inTimedQ && s.tasks[t].status != Deleting
    && TableAgreesBut(s, t) && LocatedBut(s, t) && PlacesOkBut(s, t)
    && Sorted(s) && FreedOk(s)
  }

  // ---------------------------------------------------------------- queue lemmas

  lemma MultisetSplit<T>(q: seq<T>, c: nat)
    requires c <= |q|
    ensures multiset(q) == multiset(q[..c]) + multiset(q[c..])
  {
    assert q == q[..c] + q[c..];
  }

  lemma MultisetInsert<T>(q: seq<T>, c: nat, t: T)
    requires c <= |q|
    ensures multiset(InsertAt(q, c, t)) == multiset(q) + multiset{t}
  {
    MultisetSplit(q, c);
  }

  lemma {:induction false} MultisetRemove<T>(q: seq<T>, t: T)
    requires t in q
    ensures multiset(Remove(q, t)) == multiset(q) - multiset{t}
  {
    if q[0] == t {
      assert q == [t] + q[1..];
    } else {
      MultisetRemove(q[1..], t);
      assert q == [q[0]] + q[1..];
    }
  }

  // Removal keeps the order: the result is q with one position left out.
  lemma {:induction false} RemoveIndex<T>(q: seq<T>, t: T) returns (k: nat)
    requires t in q
    ensures k < |q| && q[k] == t && Remove(q, t) == q[..k] + q[k + 1..]
  {
    if q[0] == t {
      k := 0;
    } else {
      k := RemoveIndex(q[1..], t);
      k := k + 1;
      assert q[..k] + q[k + 1..] == [q[0]] + (q[1..][..k - 1] + q[1..][k..]);
    }
  }

  // ---------------------------------------------------------------- steps on one task

  // The order depends on the queued tasks' times and stamps only.
  lemma SortedFrame<T(!new)>(s: State<T>, s': State<T>)
    requires Sorted(s) && s'.timedQ == s.timedQ
    requires forall x :: x in s.timedQ ==> x in s'.tasks && s'.tasks[x].nextAbstime == s.tasks[x].nextAbstime
    requires forall x :: x in s.timedQ ==> x in s'.stamps && s'.stamps[x] == s.stamps[x]
    ensures Sorted(s')
  {
    forall i, j | 0 <= i < j < |s'.timedQ| ensures Before(s', s'.timedQ[i], s'.timedQ[j]) {
      assert Before(s, s.timedQ[i], s.timedQ[j]);
    }
  }

  lemma SortedWithout<T(!new)>(s: State<T>, k: nat, q: seq<T>)
    requires Sorted(s) && k < |s.timedQ|
    requires q == s.timedQ[..k] + s.timedQ[k + 1..]
    ensures Sorted(s.(timedQ := q))
  {
    var s' := s.(timedQ := q);
    forall i, j | 0 <= i < j < |q| ensures Before(s', q[i], q[j]) {
      assert Before(s, s.timedQ[if i < k then i else i + 1], s.timedQ[if j < k then j else j + 1]);
    }
  }

  lemma InsertIndex<T>(q: seq<T>, c: nat, t: T, i: nat)
    requires c <= |q| && i <= |q|
    ensures |InsertAt(q, c, t)| == |q| + 1
    ensures InsertAt(q, c, t)[i] == if i < c then q[i] else if i == c then t else q[i - 1]
  {
  }

  lemma SchedSorted<T(!new)>(s: State<T>, t: T, now: int)
    requires Sorted(s) && t in s.tasks && t !in s.timedQ && !s.tasks[t].inTimedQ
    requires forall x :: x in s.timedQ ==> s.stamps[x] < s.clock
    ensures Sorted(Sched(s, t, now))
  {
    var s' := Sched(s, t, now);
    var q, q' := s.timedQ, s'.timedQ;
    var key := s'.tasks[t].nextAbstime;
    var c := DueCount(q, s.tasks, key);
    forall i, j | 0 <= i < j < |q'| ensures Before(s', q'[i], q'[j]) {
      InsertIndex(q, c, t, i);
      InsertIndex(q, c, t, j);
      SchedPair(s, t, c, key, i, j);
    }
    forall x | x in q' ensures x in s'.tasks && x in s'.stamps {
      var i :| 0 <= i < |q'| && q'[i] == x;
      InsertIndex(q, c, t, i);
    }
  }

  lemma SchedPair<T(!new)>(s: State<T>, t: T, c: nat, key: int, i: nat, j: nat)
    requires Sorted(s) && t !in s.timedQ && c <= |s.timedQ| && i < j <= |s.timedQ|
    requires forall x :: x in s.timedQ ==> s.stamps[x] < s.clock
    requires forall k :: 0 <= k < c ==> s.tasks[s.timedQ[k]].nextAbstime <= key
    requires c < |s.timedQ| ==> s.tasks[s.timedQ[c]].nextAbstime > key
    ensures i == c ==> s.tasks[s.timedQ[j - 1]].nextAbstime > key
    ensures j == c ==> s.tasks[s.timedQ[i]].nextAbstime <= key && s.stamps[s.timedQ[i]] < s.clock
    ensures i != c && j != c ==>
      Before(s, s.timedQ[if i < c then i else i - 1], s.timedQ[if j < c then j else j - 1])
  {
    if i == c && c < j - 1 {
      assert Before(s, s.timedQ[c], s.timedQ[j - 1]);
    }
  }

  lemma SchedLocated<T(!new)>(s: State<T>, t: T, now: int)
    requires t in s.tasks && !s.tasks[t].inTimedQ && LocatedBut(s, t)
    requires forall x :: x in s.timedQ ==> x in s.tasks
    ensures Located(Sched(s, t, now))
  {
    MultisetInsert(s.timedQ, DueCount(s.timedQ, s.tasks, Rescheduled(s.tasks[t], now).nextAbstime), t);
    forall x ensures Places(Sched(s, t, now), x) == Places(s, x) + if x == t then 1 else 0 {}
  }

  lemma SchedPlaces<T(!new)>(s: State<T>, t: T, now: int)
    requires t in s.tasks && !s.tasks[t].inTimedQ && PlacesOkBut(s, t)
    requires forall x :: x in s.timedQ ==> x in s.tasks
    ensures PlacesOk(Sched(s, t, now)) && t in Sched(s, t, now).timedQ
  {
    var s' := Sched(s, t, now);
    MultisetInsert(s.timedQ, DueCount(s.timedQ, s.tasks, Rescheduled(s.tasks[t], now).nextAbstime), t);
    assert t in multiset(s'.timedQ);
    forall x | x in s'.tasks ensures PlaceOk(s', x) {
      assert x in multiset(s'.timedQ) <==> x == t || x in multiset(s.timedQ);
      if x != t { assert PlaceOk(s, x); }
    }
  }

  lemma SchedKept<T(!new)>(s: State<T>, t: T, now: int)
    requires Detached(s, t)
    ensures Inv(Sched(s, t, now)) && t in Sched(s, t, now).timedQ
  {
    assert Places(s, t) == 0;
    SchedAgrees(s, t, now);
    SchedLocated(s, t, now);
    SchedPlaces(s, t, now);
    forall x | x in s.timedQ ensures s.stamps[x] < s.clock { assert PlaceOk(s, x); }
    SchedSorted(s, t, now);
  }

  lemma SchedAgrees<T(!new)>(s: State<T>, t: T, now: int)
    requires t in s.tasks && !s.tasks[t].inTimedQ && TableAgreesBut(s, t) && FreedOk(s)
    requires forall x :: x in s.timedQ ==> x in s.tasks
    ensures TableAgrees(Sched(s, t, now)) && FreedOk(Sched(s, t, now))
  {
  }

  lemma DestroyFields<T(!new)>(s: State<T>, t: T)
    requires t in s.tasks && !s.tasks[t].inTimedQ && s.tasks[t].status != Deleting
    ensures var s' := Destroy(s, t);
            && s'.tasks == s.tasks - {t} && s'.table == s.table - {t}
            && s'.timedQ == s.timedQ && s'.urgentQ == s.urgentQ && s'.idleQ == s.idleQ && s'.batch == s.batch
            && s'.stamps == s.stamps && s'.clock == s.clock && s'.retired == s.retired[t := s.tasks[t].wantsFree]
            && s'.freed == if s.tasks[t].wantsFree then s.freed + [t] else s.freed
  {
  }

  lemma DestroyKept<T(!new)>(s: State<T>, t: T)
    requires Detached(s, t)
    ensures Inv(Destroy(s, t)) && t !in Destroy(s, t).tasks
    ensures Destroy(s, t).retired == s.retired[t := s.tasks[t].wantsFree]
  {
    var s' := Destroy(s, t);
    DestroyFields(s, t);
    DestroyFreed(s, s', t);
    assert Located(s') by { forall x ensures Places(s', x) == Places(s, x) {} }
    assert PlacesOk(s') by {
      forall x | x in s'.tasks ensures PlaceOk(s', x) { assert PlaceOk(s, x); }
    }
    assert Sorted(s') by {
      assert Places(s, t) == 0;
      SortedFrame(s, s');
    }
  }

  lemma DestroyFreed<T(!new)>(s: State<T>, s': State<T>, t: T)
    requires FreedOk(s) && t in s.tasks && s'.tasks == s.tasks - {t}
    requires s'.retired == s.retired[t := s.tasks[t].wantsFree]
    requires s'.freed == if s.tasks[t].wantsFree then s.freed + [t] else s.freed
    ensures FreedOk(s')
  {
  }

  lemma UnschedFields<T(!new)>(s: State<T>, t: T)
    requires t in s.tasks && s.tasks[t].inTimedQ
    ensures var s' := Unsched(s, t);
            && s'.timedQ == Remove(s.timedQ, t) && s'.urgentQ == s.urgentQ && s'.idleQ == s.idleQ && s'.batch == s.batch
            && s'.stamps == s.stamps && s'.tasks.Keys == s.tasks.Keys
            && (forall x :: x in s.tasks ==> s'.tasks[x].nextAbstime == s.tasks[x].nextAbstime)
            && forall x :: x in s.tasks && x != t ==> s'.tasks[x] == s.tasks[x]
  {
  }

  lemma UnschedSorted<T(!new)>(s: State<T>, t: T)
    requires Sorted(s) && t in s.timedQ && s.tasks[t].inTimedQ
    ensures Sorted(Unsched(s, t))
  {
    UnschedFields(s, t);
    var k := RemoveIndex(s.timedQ, t);
    var q := Remove(s.timedQ, t);
    SortedWithout(s, k, q);
    SortedFrame(s.(timedQ := q), Unsched(s, t));
  }

  lemma UnschedLocated<T(!new)>(s: State<T>, t: T)
    requires t in s.tasks && s.tasks[t].inTimedQ && t in s.timedQ && Located(s)
    ensures LocatedBut(Unsched(s, t), t)
  {
    assert Places(s, t) == 1;
    UnschedFields(s, t);
    forall x ensures Places(Unsched(s, t), x) == Places(s, x) - if x == t then 1 else 0 { UnschedCount(s, t, x); }
  }

  lemma UnschedCount<T(!new)>(s: State<T>, t: T, x: T)
    requires t in s.tasks && s.tasks[t].inTimedQ && t in s.timedQ
    ensures Places(Unsched(s, t), x) == Places(s, x) - if x == t then 1 else 0
  {
    UnschedFields(s, t);
    MultisetRemove(s.timedQ, t);
  }

  lemma UnschedPlaces<T(!new)>(s: State<T>, t: T)
    requires t in s.tasks && t in s.timedQ && PlacesOk(s)
    ensures PlacesOkBut(Unsched(s, t), t)
  {
    var s' := Unsched(s, t);
    assert PlaceOk(s, t);
    MultisetRemove(s.timedQ, t);
    forall x | x in s'.tasks && x != t ensures PlaceOk(s', x) {
      assert PlaceOk(s, x);
      assert x in multiset(s'.timedQ) <==> x in multiset(s.timedQ);
    }
  }

  lemma UnschedDetaches<T(!new)>(s: State<T>, t: T)
    requires Inv(s) && t in s.timedQ
    ensures Detached(Unsched(s, t), t)
  {
    assert PlaceOk(s, t);
    UnschedLocated(s, t);
    UnschedPlaces(s, t);
    UnschedSorted(s, t);
  }

  // Two states that differ in the record and the table entry of t, and in the log, only.
  ghost predicate DifferAt<T(!new)>(s: State<T>, s': State<T>, t: T) {
    && s'.timedQ == s.timedQ && s'.urgentQ == s.urgentQ && s'.idleQ == s.idleQ && s'.batch == s.batch
    && s'.stamps == s.stamps && s'.clock == s.clock && s'.retired == s.retired && s'.freed == s.freed
    && s'.tasks.Keys == s.tasks.Keys && s'.table.Keys == s.table.Keys
    && (forall x :: x in s.tasks && x != t ==> s'.tasks[x] == s.tasks[x])
    && (forall x :: x in s.table && x != t ==> s'.table[x] == s.table[x])
  }

  // A change of t's own record other than its queueing keeps it detached.
  lemma DetachedUpdate<T(!new)>(s: State<T>, s': State<T>, t: T)
    requires Detached(s, t) && DifferAt(s, s', t)
    requires !s'.tasks[t].inTimedQ && s'.tasks[t].status != Deleting
    ensures Detached(s', t)
  {
    assert LocatedBut(s', t) by { forall x ensures Places(s', x) == Places(s, x) {} }
    assert PlacesOkBut(s', t) by {
      forall x | x in s'.tasks && x != t ensures PlaceOk(s', x) { assert PlaceOk(s, x); }
    }
    assert Sorted(s') by {
      assert Places(s, t) == 0;
      SortedFrame(s, s');
    }
  }

  lemma DestroyQueued<T(!new)>(s: State<T>, t: T)
    requires Inv(s) && t in s.timedQ
    ensures Inv(Destroy(s, t)) && t !in Destroy(s, t).tasks
    ensures Destroy(s, t).retired == s.retired[t := s.tasks[t].wantsFree]
  {
    UnschedDetaches(s, t);
    DestroyKept(Unsched(s, t), t);
    assert PlaceOk(s, t);
    assert Destroy(s, t) == Destroy(Unsched(s, t), t);
  }

  lemma CreatedDetached<T(!new)>(s: State<T>, t: T)
    requires Inv(s) && t in s.tasks && s.tasks[t].status == Created
    ensures Detached(s, t)
  {
    assert PlaceOk(s, t) && Places(s, t) == 0;
  }

  // Taking the head off a queue other than the timed one.
  ghost predicate HeadTaken<T>(s: State<T>, s': State<T>, t: T) {
    || (s.batch != [] && s.batch[0] == t && s' == s.(batch := s.batch[1..]))
    || (s.urgentQ != [] && s.urgentQ[0] == t && s' == s.(urgentQ := s.urgentQ[1..]))
    || (s.idleQ != [] && s.idleQ[0] == t && s' == s.(idleQ := s.idleQ[1..]))
  }

  lemma MultisetTail<T>(q: seq<T>)
    requires q != []
    ensures multiset(q[1..]) == multiset(q) - multiset{q[0]}
  {
    assert q == [q[0]] + q[1..];
  }

  lemma BatchHeadCount<T>(s: State<T>, x: T)
    requires s.batch != []
    ensures Places(s.(batch := s.batch[1..]), x) == Places(s, x) - if x == s.batch[0] then 1 else 0
  {
    MultisetTail(s.batch);
  }

  lemma UrgentHeadCount<T>(s: State<T>, x: T)
    requires s.urgentQ != []
    ensures Places(s.(urgentQ := s.urgentQ[1..]), x) == Places(s, x) - if x == s.urgentQ[0] then 1 else 0
  {
    MultisetTail(s.urgentQ);
  }

  lemma IdleHeadCount<T>(s: State<T>, x: T)
    requires s.idleQ != []
    ensures Places(s.(idleQ := s.idleQ[1..]), x) == Places(s, x) - if x == s.idleQ[0] then 1 else 0
  {
    MultisetTail(s.idleQ);
  }

  lemma HeadPlacesCount<T>(s: State<T>, s': State<T>, t: T, x: T)
    requires HeadTaken(s, s', t)
    ensures Places(s', x) == Places(s, x) - if x == t then 1 else 0
  {
    if s.batch != [] { BatchHeadCount(s, x); }
    if s.urgentQ != [] { UrgentHeadCount(s, x); }
    if s.idleQ != [] { IdleHeadCount(s, x); }
  }

  lemma HeadPlaceOk<T(!new)>(s: State<T>, s': State<T>, t: T, x: T)
    requires HeadTaken(s, s', t) && x in s.tasks && x != t && PlaceOk(s, x)
    ensures PlaceOk(s', x)
  {
    if x in s.batch && s'.batch != s.batch {
      var i :| 0 <= i < |s.batch| && s.batch[i] == x;
      assert s'.batch[i - 1] == x;
    }
  }

  lemma HeadLocated<T(!new)>(s: State<T>, s': State<T>, t: T)
    requires Located(s) && t in s.tasks && HeadTaken(s, s', t)
    ensures LocatedBut(s', t) && Places(s, t) == 1
  {
    HeadPlacesCount(s, s', t, t);
    forall x ensures Places(s', x) == Places(s, x) - if x == t then 1 else 0 { HeadPlacesCount(s, s', t, x); }
    assert Places(s, t) == 1;
  }

  lemma HeadPlaces<T(!new)>(s: State<T>, s': State<T>, t: T)
    requires PlacesOk(s) && t in s.tasks && HeadTaken(s, s', t)
    ensures PlacesOkBut(s', t)
  {
    forall x | x in s'.tasks && x != t ensures PlaceOk(s', x) {
      assert PlaceOk(s, x);
      HeadPlaceOk(s, s', t, x);
    }
  }

  // A task at the head of another queue is not in the timed one.
  lemma HeadUntimed<T(!new)>(s: State<T>, s': State<T>, t: T)
    requires Inv(s) && t in s.tasks && HeadTaken(s, s', t) && Places(s, t) == 1
    ensures !s.tasks[t].inTimedQ
  {
    HeadPlacesCount(s, s', t, t);
    assert PlaceOk(s, t);
  }

  lemma HeadDetached<T(!new)>(s: State<T>, s': State<T>, t: T)
    requires Inv(s) && t in s.tasks && HeadTaken(s, s', t)
    ensures Detached(s', t)
  {
    HeadLocated(s, s', t);
    HeadPlaces(s, s', t);
    HeadUntimed(s, s', t);
    assert PlaceOk(s, t);
    SortedFrame(s, s');
  }

  lemma ExecutedKept<T(!new)>(s: State<T>, t: T, o: Outcome, timed: bool)
    requires Detached(s, t) 
    ensures Detached(Executed(s, t, o, timed), t)
  {
    DetachedUpdate(s, Executed(s, t, o, timed), t);
  }

  lemma RescheduleKept<T(!new)>(s: State<T>, t: T)
    requires Detached(s, t)
    ensures Inv(Sched(s, t, 0)) && (SchedResult(s, t, 0) < 0 ==> Inv(Destroy(Sched(s, t, 0), t)))
  {
    SchedKept(s, t, 0);
    if SchedResult(s, t, 0) < 0 { DestroyQueued(Sched(s, t, 0), t); }
  }

  // The four ends of an execution.
  lemma ExecCases<T(!new)>(s: State<T>, t: T, o: Outcome, timed: bool)
    requires t in s.tasks && t in s.table && s.table[t] == s.tasks[t].status && !s.tasks[t].inTimedQ
    requires s.tasks[t].status == Dequeued || s.tasks[t].status == Cancelled
    requires forall x :: x in s.timedQ ==> x in s.tasks
    ensures var s1 := Executed(s, t, o, timed);
            || Exec(s, t, o, timed) == Destroy(s, t)
            || Exec(s, t, o, timed) == Destroy(s1, t)
            || (s.tasks[t].doRepeat && Exec(s, t, o, timed) == Sched(s1, t, 0))
            || (s.tasks[t].doRepeat && SchedResult(s1, t, 0) < 0 && Exec(s, t, o, timed) == Destroy(Sched(s1, t, 0), t))
  {
  }

  lemma ExecKept<T(!new)>(s: State<T>, t: T, o: Outcome, timed: bool)
    requires Detached(s, t) && s.table[t] == s.tasks[t].status
    requires s.tasks[t].status == Dequeued || s.tasks[t].status == Cancelled
    ensures Inv(Exec(s, t, o, timed))
  {
    ExecCases(s, t, o, timed);
    DestroyKept(s, t);
    ExecutedKept(s, t, o, timed);
    DestroyKept(Executed(s, t, o, timed), t);
    RescheduleKept(Executed(s, t, o, timed), t);
  }

  lemma MarkKept<T(!new)>(s: State<T>, t: T, start: int)
    requires Detached(s, t) && s.table[t] == s.tasks[t].status
    ensures Detached(Mark(s, t, start), t)
    ensures var m := Mark(s, t, start); m.table[t] == m.tasks[t].status
  {
    DetachedUpdate(s, Mark(s, t, start), t);
  }

  // ---------------------------------------------------------------- every step

  lemma CreateLocated<T(!new)>(s: State<T>, t: T, wantsFree: bool)
    requires Located(s) && t !in s.tasks
    ensures Located(Create(s, t, wantsFree))
  {
    var s' := Create(s, t, wantsFree);
    assert Places(s, t) == 0;
    forall x ensures Places(s', x) == Places(s, x) {}
  }

  lemma CreatePlaces<T(!new)>(s: State<T>, t: T, wantsFree: bool)
    requires PlacesOk(s) && Located(s) && t !in s.tasks
    ensures PlacesOk(Create(s, t, wantsFree))
  {
    var s' := Create(s, t, wantsFree);
    assert Places(s, t) == 0;
    forall x | x in s'.tasks ensures PlaceOk(s', x) { if x != t { assert PlaceOk(s, x); } }
  }

  lemma CreateSorted<T(!new)>(s: State<T>, t: T, wantsFree: bool)
    requires Sorted(s) && t !in s.tasks
    ensures Sorted(Create(s, t, wantsFree))
  {
    SortedFrame(s, Create(s, t, wantsFree));
  }

  lemma CreateKept<T(!new)>(s: State<T>, t: T, wantsFree: bool)
    requires Inv(s) && t !in s.tasks && t !in s.retired
    ensures Inv(Create(s, t, wantsFree))
  {
    CreateAgrees(s, t, wantsFree);
    CreateLocated(s, t, wantsFree);
    CreatePlaces(s, t, wantsFree);
    CreateSorted(s, t, wantsFree);
  }

  lemma CreateAgrees<T(!new)>(s: State<T>, t: T, wantsFree: bool)
    requires TableAgrees(s) && FreedOk(s) && t !in s.retired
    ensures TableAgrees(Create(s, t, wantsFree)) && FreedOk(Create(s, t, wantsFree))
  {
  }

  // s_submit_task() on an urgent or an idle task
  function Enqueue<T>(s: State<T>, t: T, urgent: bool): State<T>
    requires t in s.tasks
  {
    SetStatus(if urgent then s.(urgentQ := s.urgentQ + [t]) else s.(idleQ := s.idleQ + [t]), t, Enqueued)
  }

  lemma EnqueuePlaces<T>(s: State<T>, t: T, urgent: bool, x: T)
    requires t in s.tasks
    ensures Places(Enqueue(s, t, urgent), x) == Places(s, x) + if x == t then 1 else 0
  {
  }

  lemma EnqueueLocated<T(!new)>(s: State<T>, t: T, urgent: bool)
    requires t in s.tasks && LocatedBut(s, t)
    ensures Located(Enqueue(s, t, urgent))
  {
    forall x ensures Places(Enqueue(s, t, urgent), x) == Places(s, x) + if x == t then 1 else 0 {
      EnqueuePlaces(s, t, urgent, x);
    }
  }

  lemma EnqueuePlacesOk<T(!new)>(s: State<T>, t: T, urgent: bool)
    requires Detached(s, t)
    ensures PlacesOk(Enqueue(s, t, urgent))
  {
    var s' := Enqueue(s, t, urgent);
    assert Places(s, t) == 0;
    forall x | x in s'.tasks ensures PlaceOk(s', x) { if x != t { assert PlaceOk(s, x); } }
  }

  lemma EnqueueKept<T(!new)>(s: State<T>, t: T, urgent: bool)
    requires Detached(s, t)
    ensures Inv(Enqueue(s, t, urgent))
  {
    EnqueueAgrees(s, t, urgent);
    EnqueueLocated(s, t, urgent);
    EnqueuePlacesOk(s, t, urgent);
    EnqueueSorted(s, t, urgent);
  }

  lemma EnqueueAgrees<T(!new)>(s: State<T>, t: T, urgent: bool)
    requires t in s.tasks && TableAgreesBut(s, t) && FreedOk(s)
    ensures TableAgrees(Enqueue(s, t, urgent)) && FreedOk(Enqueue(s, t, urgent))
  {
  }

  lemma EnqueueSorted<T(!new)>(s: State<T>, t: T, urgent: bool)
    requires t in s.tasks && Sorted(s)
    ensures Sorted(Enqueue(s, t, urgent))
  {
    SortedFrame(s, Enqueue(s, t, urgent));
  }

  lemma SubmitRefused<T(!new)>(s: State<T>, t: T, delay: int, interval: int, now: int)
    requires QueuesLive(s) && (t in s.table ==> t in s.tasks)
    requires t !in s.table || s.table[t] != Created || (interval < MIN_INTERVAL && interval != 0)
    ensures Submit(s, t, delay, interval, now) == s
  {
  }

  lemma SubmitAccepted<T(!new)>(s: State<T>, t: T, delay: int, interval: int, now: int)
    requires QueuesLive(s) && t in s.tasks && t in s.table && s.table[t] == Created && !s.tasks[t].inTimedQ
    requires interval >= MIN_INTERVAL || interval == 0
    ensures t in Armed(s, t, delay, interval).tasks && QueuesLive(Armed(s, t, delay, interval))
    ensures Submit(s, t, delay, interval, now) ==
            if delay > 0 then Sched(Armed(s, t, delay, interval), t, now)
            else Enqueue(Armed(s, t, delay, interval), t, delay == 0)
  {
  }

  lemma SubmitLive<T(!new)>(s: State<T>, t: T, delay: int, interval: int, now: int)
    requires Inv(s) && QueuesLive(s) && t in s.tasks && s.tasks[t].status == Created
    ensures t in Armed(s, t, delay, interval).tasks && QueuesLive(Armed(s, t, delay, interval))
    ensures Inv(if delay > 0 then Sched(Armed(s, t, delay, interval), t, now)
                else Enqueue(Armed(s, t, delay, interval), t, delay == 0))
  {
    var s1 := Armed(s, t, delay, interval);
    ArmedDetached(s, t, delay, interval);
    if delay > 0 { SchedKept(s1, t, now); } else { EnqueueKept(s1, t, delay == 0); }
  }

  lemma SubmitKept<T(!new)>(s: State<T>, t: T, delay: int, interval: int, now: int)
    requires Inv(s)
    ensures QueuesLive(s) && Inv(Submit(s, t, delay, interval, now))
  {
    LocatedLive(s);
    if t !in s.table || s.table[t] != Created || (interval < MIN_INTERVAL && interval != 0) {
      SubmitRefused(s, t, delay, interval, now);
    } else {
      CreatedDetached(s, t);
      SubmitAccepted(s, t, delay, interval, now);
      SubmitLive(s, t, delay, interval, now);
    }
  }

  // Changing the status of a task queued elsewhere than in the timed queue.
  lemma CancelMarkKept<T(!new)>(s: State<T>, t: T)
    requires Inv(s) && t in s.tasks && s.tasks[t].status != Created && !s.tasks[t].inTimedQ
    ensures Inv(SetStatus(s, t, Cancelled))
  {
    CancelMarkLocated(s, t);
    CancelMarkPlaces(s, t);
    CancelMarkSorted(s, t);
  }

  lemma CancelMarkLocated<T(!new)>(s: State<T>, t: T)
    requires Located(s) && t in s.tasks && s.tasks[t].status != Created
    ensures Located(SetStatus(s, t, Cancelled))
  {
    forall x ensures Places(SetStatus(s, t, Cancelled), x) == Places(s, x) {}
  }

  lemma CancelMarkPlaces<T(!new)>(s: State<T>, t: T)
    requires PlacesOk(s) && t in s.tasks && !s.tasks[t].inTimedQ
    ensures PlacesOk(SetStatus(s, t, Cancelled))
  {
    var s' := SetStatus(s, t, Cancelled);
    assert PlaceOk(s, t);
    forall x | x in s'.tasks ensures PlaceOk(s', x) { assert PlaceOk(s, x); }
  }

  lemma CancelMarkSorted<T(!new)>(s: State<T>, t: T)
    requires Sorted(s) && t in s.tasks
    ensures Sorted(SetStatus(s, t, Cancelled))
  {
    SortedFrame(s, SetStatus(s, t, Cancelled));
  }

  lemma CancelKept<T(!new)>(s: State<T>, t: T)
    requires Inv(s)
    ensures Inv(Cancel(s, t))
  {
    if t in s.tasks {
      assert PlaceOk(s, t);
      if s.table[t] == Enqueued && s.tasks[t].inTimedQ {
        DestroyQueued(s, t);
      } else if s.table[t] == Enqueued || s.table[t] == Dequeued {
        CancelMarkKept(s, t);
      }
    }
  }

  // The task of a forced dispatch, ready to be executed.
  function Forced<T(==)>(s: State<T>, t: T, now: int): State<T>
    requires t in s.tasks
  {
    Mark(SetStatus(Unsched(s, t), t, Dequeued), t, now)
  }

  lemma ForcedDetached<T(!new)>(s: State<T>, t: T, now: int)
    requires Inv(s) && ForceResult(s, t) == Ok
    ensures t in s.tasks && Detached(Forced(s, t, now), t)
    ensures var m := Forced(s, t, now); m.table[t] == m.tasks[t].status == Dequeued
  {
    assert PlaceOk(s, t);
    UnschedDetaches(s, t);
    DequeuedDetached(Unsched(s, t), t, now);
  }

  lemma DequeuedDetached<T(!new)>(s: State<T>, t: T, now: int)
    requires Detached(s, t)
    ensures Detached(Mark(SetStatus(s, t, Dequeued), t, now), t)
    ensures var m := Mark(SetStatus(s, t, Dequeued), t, now); m.table[t] == m.tasks[t].status == Dequeued
  {
    DetachedUpdate(s, SetStatus(s, t, Dequeued), t);
    MarkKept(SetStatus(s, t, Dequeued), t, now);
  }

  lemma ForceKept<T(!new)>(s: State<T>, t: T, now: int, o: Outcome)
    requires Inv(s)
    ensures QueuesLive(s) && Inv(Force(s, t, now, o))
  {
    LocatedLive(s);
    if ForceResult(s, t) == Ok {
      ForcedDetached(s, t, now);
      ExecKept(Forced(s, t, now), t, o, false);
    }
  }

  // The next fetched task, ready to be executed.
  function Dispatched<T>(s: State<T>): State<T>
    requires s.batch != [] && s.batch[0] in s.tasks
  {
    Mark(s.(batch := s.batch[1..]), s.batch[0], s.batchTime)
  }

  lemma DispatchedDetached<T(!new)>(s: State<T>)
    requires Inv(s) && s.batch != []
    ensures s.batch[0] in s.tasks && Detached(Dispatched(s), s.batch[0])
    ensures var m := Dispatched(s);
            m.table[s.batch[0]] == m.tasks[s.batch[0]].status && m.tasks[s.batch[0]].status in {Dequeued, Cancelled}
  {
    LocatedLive(s);
    var t := s.batch[0];
    HeadDetached(s, s.(batch := s.batch[1..]), t);
    assert PlaceOk(s, t) && Places(s, t) == 1;
    MarkKept(s.(batch := s.batch[1..]), t, s.batchTime);
  }

  lemma RunKept<T(!new)>(s: State<T>, o: Outcome)
    requires Inv(s) && s.batch != []
    ensures QueuesLive(s) && Inv(RunNext(s, o))
  {
    LocatedLive(s);
    DispatchedDetached(s);
    ExecKept(Dispatched(s), s.batch[0], o, true);
  }

  lemma SortedSuffix<T(!new)>(s: State<T>, s': State<T>, c: nat)
    requires Sorted(s) && c <= |s.timedQ| && s'.timedQ == s.timedQ[c..] && s'.stamps == s.stamps
    requires forall x :: x in s'.timedQ ==> x in s'.tasks && s'.tasks[x].nextAbstime == s.tasks[x].nextAbstime
    ensures Sorted(s')
  {
    forall i, j | 0 <= i < j < |s'.timedQ| ensures Before(s', s'.timedQ[i], s'.timedQ[j]) {
      assert Before(s, s.timedQ[c + i], s.timedQ[c + j]);
    }
  }

  lemma FetchPlacesCount<T(!new)>(s: State<T>, now: int, x: T)
    requires QueuesLive(s) && s.batch == []
    ensures Places(Fetch(s, now), x) == Places(s, x)
  {
    var u := Min(TASK_MAX, |s.urgentQ|);
    var i := Min(TASK_MAX, |s.idleQ|);
    var c := if now > 0 then RunnableCount(s, now, TASK_MAX) else 0;
    MultisetSplit(s.timedQ, c);
    MultisetSplit(s.urgentQ, u);
    MultisetSplit(s.idleQ, i);
  }

  // A queued task stays queued once; the ones taken from the timed queue are those whose
  // record becomes DEQUEUED.
  lemma FetchPlaceOk<T(!new)>(s: State<T>, now: int, x: T)
    requires Inv(s) && QueuesLive(s) && s.batch == [] && x in s.tasks
    ensures PlaceOk(Fetch(s, now), x)
  {
    var c := if now > 0 then RunnableCount(s, now, TASK_MAX) else 0;
    assert PlaceOk(s, x);
    assert multiset(s.timedQ)[x] <= Places(s, x) <= 1;
    TakenOrLeft(s.timedQ, c, x);
  }

  lemma TakenOrLeft<T>(q: seq<T>, c: nat, x: T)
    requires c <= |q| && multiset(q)[x] <= 1
    ensures x in q <==> x in q[..c] || x in q[c..]
    ensures !(x in q[..c] && x in q[c..])
  {
    MultisetSplit(q, c);
    assert x in multiset(q) <==> x in multiset(q[..c]) || x in multiset(q[c..]);
    assert multiset(q)[x] == multiset(q[..c])[x] + multiset(q[c..])[x];
  }

  lemma FetchLocated<T(!new)>(s: State<T>, now: int)
    requires Inv(s) && QueuesLive(s) && s.batch == []
    ensures Located(Fetch(s, now))
  {
    var s' := Fetch(s, now);
    forall x ensures Places(s', x) == if x in s'.tasks && s'.tasks[x].status != Created then 1 else 0 {
      FetchPlacesCount(s, now, x);
      if x in s.tasks && x in s.timedQ { assert PlaceOk(s, x); }
    }
  }

  lemma FetchSorted<T(!new)>(s: State<T>, now: int)
    requires Sorted(s) && QueuesLive(s)
    ensures Sorted(Fetch(s, now))
  {
    SortedSuffix(s, Fetch(s, now), if now > 0 then RunnableCount(s, now, TASK_MAX) else 0);
  }

  lemma FetchAgrees<T(!new)>(s: State<T>, now: int)
    requires TableAgrees(s) && QueuesLive(s)
    ensures TableAgrees(Fetch(s, now))
  {
  }

  lemma FetchKept<T(!new)>(s: State<T>, now: int)
    requires Inv(s) && s.batch == []
    ensures QueuesLive(s) && Inv(Fetch(s, now))
  {
    LocatedLive(s);
    var s' := Fetch(s, now);
    FetchAgrees(s, now);
    FetchLocated(s, now);
    FetchSorted(s, now);
    forall x | x in s'.tasks ensures PlaceOk(s', x) { FetchPlaceOk(s, now, x); }
  }

  lemma TakeOnePlacesCount<T(!new)>(s: State<T>, x: T)
    requires s.timedQ != []
    ensures Places(TakeRunnables(s, 1), x) == Places(s, x) - if x == s.timedQ[0] then 1 else 0
  {
    MultisetTail(s.timedQ);
  }

  lemma TakeOnePlaceOk<T(!new)>(s: State<T>, x: T)
    requires s.timedQ != [] && x in s.tasks && x != s.timedQ[0] && PlaceOk(s, x)
    ensures PlaceOk(TakeRunnables(s, 1), x)
  {
    MultisetTail(s.timedQ);
    assert s.timedQ[..1] == [s.timedQ[0]];
    assert x in multiset(s.timedQ[1..]) <==> x in multiset(s.timedQ);
  }

  lemma TakeOneLocated<T(!new)>(s: State<T>)
    requires Located(s) && s.timedQ != [] && Places(s, s.timedQ[0]) == 1
    ensures LocatedBut(TakeRunnables(s, 1), s.timedQ[0])
  {
    var t, s' := s.timedQ[0], TakeRunnables(s, 1);
    assert s.timedQ[..1] == [t];
    forall x ensures Places(s', x) == if x in s'.tasks && x != t && s'.tasks[x].status != Created then 1 else 0 {
      TakeOnePlacesCount(s, x);
    }
  }

  lemma TakeOnePlaces<T(!new)>(s: State<T>)
    requires PlacesOk(s) && s.timedQ != []
    ensures PlacesOkBut(TakeRunnables(s, 1), s.timedQ[0])
  {
    var t, s' := s.timedQ[0], TakeRunnables(s, 1);
    forall x | x in s'.tasks && x != t ensures PlaceOk(s', x) {
      assert PlaceOk(s, x);
      TakeOnePlaceOk(s, x);
    }
  }

  lemma TakeOneAgrees<T(!new)>(s: State<T>)
    requires TableAgrees(s) && s.timedQ != [] && s.timedQ[0] in s.tasks
    ensures TableAgreesBut(TakeRunnables(s, 1), s.timedQ[0])
  {
    assert s.timedQ[..1] == [s.timedQ[0]];
  }

  lemma TakeOneSorted<T(!new)>(s: State<T>)
    requires Sorted(s) && s.timedQ != []
    ensures Sorted(TakeRunnables(s, 1))
  {
    SortedSuffix(s, TakeRunnables(s, 1), 1);
  }

  lemma TakeRunnablesOne<T(!new)>(s: State<T>)
    requires Inv(s) && s.timedQ != []
    ensures s.timedQ[0] in s.tasks && Detached(TakeRunnables(s, 1), s.timedQ[0])
  {
    var t := s.timedQ[0];
    assert PlaceOk(s, t) && Places(s, t) == 1 by { assert t in s.tasks && Places(s, t) > 0; }
    TakeOneAgrees(s);
    TakeOneLocated(s);
    TakeOnePlaces(s);
    TakeOneSorted(s);
  }

  // ---------------------------------------------------------------- runs

  predicate Enabled<T(==)>(s: State<T>, a: Action<T>) {
    match a
    case DoCreate(t, _) => t !in s.tasks && t !in s.retired
    case DoSubmit(t, delay, interval, _) => SubmitEnabled(s, t, delay, interval)
    case DoCancel(_) => true
    case DoForce(_, _, _) => true
    case DoFetch(_) => s.batch == []
    case DoRun(_) => s.batch != []
    case DoDropTimed => s.batch == [] && s.timedQ != []
    case DoDropUrgent => s.batch == [] && s.urgentQ != []
    case DoDropIdle => s.batch == [] && s.idleQ != []
  }

  ghost function Apply<T(!new)>(s: State<T>, a: Action<T>): State<T>
    requires Inv(s) && Enabled(s, a)
  {
    LocatedLive(s);
    match a
    case DoCreate(t, wantsFree) => Create(s, t, wantsFree)
    case DoSubmit(t, delay, interval, now) => Submit(s, t, delay, interval, now)
    case DoCancel(t) => Cancel(s, t)
    case DoForce(t, now, o) => Force(s, t, now, o)
    case DoFetch(now) => Fetch(s, now)
    case DoRun(o) => RunNext(s, o)
    case DoDropTimed => DropTimed(s)
    case DoDropUrgent => DropUrgent(s)
    case DoDropIdle => DropIdle(s)
  }

  // The invariant is kept by every step.
  lemma InvKept<T(!new)>(s: State<T>, a: Action<T>)
    requires Inv(s) && Enabled(s, a)
    ensures Inv(Apply(s, a))
  {
    LocatedLive(s);
    match a
    case DoCreate(t, wantsFree) => CreateKept(s, t, wantsFree);
    case DoSubmit(t, delay, interval, now) => SubmitKept(s, t, delay, interval, now);
    case DoCancel(t) => CancelKept(s, t);
    case DoForce(t, now, o) => ForceKept(s, t, now, o);
    case DoFetch(now) => FetchKept(s, now);
    case DoRun(o) => RunKept(s, o);
    case DoDropTimed =>
      TakeRunnablesOne(s);
      DestroyKept(TakeRunnables(s, 1), s.timedQ[0]);
    case DoDropUrgent =>
      var s1 := s.(urgentQ := s.urgentQ[1..]);
      HeadDetached(s, s1, s.urgentQ[0]);
      DestroyKept(s1, s.urgentQ[0]);
    case DoDropIdle =>
      var s1 := s.(idleQ := s.idleQ[1..]);
      HeadDetached(s, s1, s.idleQ[0]);
      DestroyKept(s1, s.idleQ[0]);
  }

  lemma DestroyBatch<T>(s: State<T>, t: T)
    requires t in s.tasks
    ensures Destroy(s, t).batch == s.batch && Destroy(s, t).batchTime == s.batchTime
  {
  }

  lemma SchedBatch<T>(s: State<T>, t: T, now: int)
    requires t in s.tasks && forall x :: x in s.timedQ ==> x in s.tasks
    ensures t in Sched(s, t, now).tasks
    ensures Sched(s, t, now).batch == s.batch && Sched(s, t, now).batchTime == s.batchTime
  {
  }

  lemma ExecBatch<T(!new)>(s: State<T>, t: T, o: Outcome, timed: bool)
    requires t in s.tasks && t in s.table && s.table[t] == s.tasks[t].status && !s.tasks[t].inTimedQ
    requires s.tasks[t].status == Dequeued || s.tasks[t].status == Cancelled
    requires forall x :: x in s.timedQ ==> x in s.tasks
    ensures Exec(s, t, o, timed).batch == s.batch && Exec(s, t, o, timed).batchTime == s.batchTime
  {
    ExecCases(s, t, o, timed);
    var s1 := Executed(s, t, o, timed);
    DestroyBatch(s, t);
    DestroyBatch(s1, t);
    SchedBatch(s1, t, 0);
    DestroyBatch(Sched(s1, t, 0), t);
  }

  lemma RunNextBatch<T(!new)>(s: State<T>, o: Outcome)
    requires Inv(s) && s.batch != []
    ensures QueuesLive(s) && Inv(RunNext(s, o)) && RunNext(s, o).batch == s.batch[1..]
    ensures RunNext(s, o).batchTime == s.batchTime
  {
    RunKept(s, o);
    DispatchedDetached(s);
    ExecBatch(Dispatched(s), s.batch[0], o, true);
  }

  // s_run_tasks_by_self() on all the fetched tasks
  ghost function RunAll<T(!new)>(s: State<T>, outcomes: seq<Outcome>): (s': State<T>)
    requires Inv(s) && |outcomes| == |s.batch|
    ensures Inv(s')
    decreases |s.batch|
  {
    if s.batch == [] then s
    else
      RunNextBatch(s, outcomes[0]);
      RunAll(RunNext(s, outcomes[0]), outcomes[1..])
  }

  // ---------------------------------------------------------------- one batch

  // The tasks of a batch that are to be executed: all but the cancelled ones, in order.
  ghost function Live<T>(tasks: map<T, Task>, batch: seq<T>): seq<T>
    requires forall x :: x in batch ==> x in tasks
  {
    if batch == [] then []
    else if tasks[batch[0]].status == Cancelled then Live(tasks, batch[1..])
    else [batch[0]] + Live(tasks, batch[1..])
  }

  lemma {:induction false} LiveFrame<T>(m: map<T, Task>, n: map<T, Task>, batch: seq<T>)
    requires forall x :: x in batch ==> x in m && x in n && m[x].status == n[x].status
    ensures Live(m, batch) == Live(n, batch)
  {
    if batch != [] { LiveFrame(m, n, batch[1..]); }
  }

  // log is the record of dispatches of the given tasks at the given time.
  ghost predicate Dispatches<T>(log: seq<Event<T>>, tasks: seq<T>, time: int) {
    |log| == |tasks| && forall k :: 0 <= k < |log| ==> log[k].task == tasks[k] && log[k].time == time && log[k].timed
  }

  lemma DestroyLog<T>(s: State<T>, t: T)
    requires t in s.tasks
    ensures Destroy(s, t).log == s.log
  {
  }

  lemma SchedLog<T>(s: State<T>, t: T, now: int)
    requires t in s.tasks && forall x :: x in s.timedQ ==> x in s.tasks
    ensures t in Sched(s, t, now).tasks && Sched(s, t, now).log == s.log
  {
  }

  lemma ExecLog<T(!new)>(s: State<T>, t: T, o: Outcome)
    requires t in s.tasks && t in s.table && s.table[t] == s.tasks[t].status && !s.tasks[t].inTimedQ
    requires s.tasks[t].status == Dequeued || s.tasks[t].status == Cancelled
    requires forall x :: x in s.timedQ ==> x in s.tasks
    ensures s.tasks[t].status == Cancelled ==> Exec(s, t, o, true).log == s.log
    ensures s.tasks[t].status == Dequeued ==> Exec(s, t, o, true).log == Executed(s, t, o, true).log
  {
    var s1 := Executed(s, t, o, true);
    DestroyLog(s, t);
    DestroyLog(s1, t);
    SchedLog(s1, t, 0);
    DestroyLog(Sched(s1, t, 0), t);
  }

  lemma RunNextLog<T(!new)>(s: State<T>, o: Outcome)
    requires Inv(s) && QueuesLive(s) && s.batch != []
    ensures var t, s' := s.batch[0], RunNext(s, o);
            if s.tasks[t].status == Cancelled then s'.log == s.log
            else |s'.log| == |s.log| + 1 && s'.log[..|s.log|] == s.log
                 && Dispatches(s'.log[|s.log|..], [t], s.batchTime)
  {
    DispatchedDetached(s);
    DispatchedFields(s);
    ExecLog(Dispatched(s), s.batch[0], o);
    ExecutedLog(Dispatched(s), s.batch[0], o);
  }

  lemma ExecutedLog<T>(s: State<T>, t: T, o: Outcome)
    requires t in s.tasks
    ensures var log := Executed(s, t, o, true).log;
            |log| == |s.log| + 1 && log[..|s.log|] == s.log && Dispatches(log[|s.log|..], [t], s.tasks[t].lastAbstime)
  {
  }

  lemma DispatchedFields<T>(s: State<T>)
    requires s.batch != [] && s.batch[0] in s.tasks
    ensures var t, m := s.batch[0], Dispatched(s);
            && m.log == s.log && m.tasks[t].lastAbstime == s.batchTime
            && (m.tasks[t].status == Cancelled <==> s.tasks[t].status == Cancelled)
  {
  }

  lemma RunNextOthers<T(!new)>(s: State<T>, o: Outcome, x: T)
    requires Inv(s) && QueuesLive(s) && s.batch != [] && x in s.batch[1..]
    ensures x in RunNext(s, o).tasks && RunNext(s, o).tasks[x].status == s.tasks[x].status
  {
    var t := s.batch[0];
    MultisetTail(s.batch);
    assert x in multiset(s.batch[1..]) && Places(s, x) <= 1;
    DispatchedDetached(s);
    DispatchedUntouched(s, x);
    ExecUntouched(Dispatched(s), t, o, true, x);
  }

  // s_run_tasks_by_self() executes every task of the batch that is not cancelled, once each, in
  // the order of the batch, as of the time of the fetch, and nothing else.
  lemma {:induction false} BatchRunsInOrder<T(!new)>(s: State<T>, outcomes: seq<Outcome>)
    requires Inv(s) && QueuesLive(s) && |outcomes| == |s.batch|
    ensures var s' := RunAll(s, outcomes);
            && s.log <= s'.log
            && Dispatches(s'.log[|s.log|..], Live(s.tasks, s.batch), s.batchTime)
    decreases |s.batch|
  {
    if s.batch != [] {
      var s1 := RunNext(s, outcomes[0]);
      RunNextBatch(s, outcomes[0]);
      LocatedLive(s1);
      RunNextLog(s, outcomes[0]);
      forall x | x in s.batch[1..] ensures x in s1.tasks && s1.tasks[x].status == s.tasks[x].status {
        RunNextOthers(s, outcomes[0], x);
      }
      LiveFrame(s.tasks, s1.tasks, s.batch[1..]);
      BatchRunsInOrder(s1, outcomes[1..]);
      DispatchesJoin(s.log, s1.log, RunAll(s1, outcomes[1..]).log, s.batch[0],
                     s.tasks[s.batch[0]].status == Cancelled, Live(s1.tasks, s1.batch), s.batchTime);
    }
  }

  lemma DispatchesJoin<T>(l0: seq<Event<T>>, l1: seq<Event<T>>, l2: seq<Event<T>>, t: T, skipped: bool,
                          rest: seq<T>, time: int)
    requires l0 <= l1 <= l2 && Dispatches(l2[|l1|..], rest, time)
    requires if skipped then l1 == l0 else Dispatches(l1[|l0|..], [t], time)
    ensures Dispatches(l2[|l0|..], if skipped then rest else [t] + rest, time)
  {
    if !skipped {
      assert l2[|l0|..] == l1[|l0|..] + l2[|l1|..];
    }
  }

  // ---------------------------------------------------------------- draining

  // t, queued in s, has been destroyed, and no other task is affected.
  ghost predicate Dropped<T(!new)>(s: State<T>, s': State<T>, t: T) {
    && t in s.tasks && s.tasks[t].status != Created && s'.tasks.Keys == s.tasks.Keys - {t}
    && (forall x :: x in s'.tasks ==> s'.tasks[x] == s.tasks[x])
    && s'.retired == s.retired[t := s.tasks[t].wantsFree] && s'.log == s.log && s'.batch == s.batch
  }

  lemma DestroyDrops<T(!new)>(s: State<T>, s1: State<T>, t: T)
    requires Detached(s1, t) && t in s.tasks && s.tasks[t].status != Created
    requires s1.tasks.Keys == s.tasks.Keys && s1.tasks[t].wantsFree == s.tasks[t].wantsFree
    requires forall x :: x in s.tasks && x != t ==> s1.tasks[x] == s.tasks[x]
    requires s1.retired == s.retired && s1.log == s.log && s1.batch == s.batch
    ensures Inv(Destroy(s1, t)) && Dropped(s, Destroy(s1, t), t)
    ensures Destroy(s1, t).timedQ == s1.timedQ && Destroy(s1, t).urgentQ == s1.urgentQ
            && Destroy(s1, t).idleQ == s1.idleQ
  {
    DestroyKept(s1, t);
  }

  lemma TakeOneFrame<T(!new)>(s: State<T>)
    requires s.timedQ != [] && s.timedQ[0] in s.tasks
    ensures var t, s1 := s.timedQ[0], TakeRunnables(s, 1);
            && s1.tasks.Keys == s.tasks.Keys && s1.tasks[t].wantsFree == s.tasks[t].wantsFree
            && (forall x :: x in s.tasks && x != t ==> s1.tasks[x] == s.tasks[x])
            && s1.retired == s.retired && s1.log == s.log && s1.batch == s.batch
            && s1.timedQ == s.timedQ[1..] && s1.urgentQ == s.urgentQ && s1.idleQ == s.idleQ
  {
    assert s.timedQ[..1] == [s.timedQ[0]];
  }

  lemma DropTimedKept<T(!new)>(s: State<T>)
    requires Inv(s) && s.timedQ != []
    ensures s.timedQ[0] in s.tasks
    ensures var s' := DropTimed(s);
            && Inv(s') && Dropped(s, s', s.timedQ[0])
            && s'.timedQ == s.timedQ[1..] && s'.urgentQ == s.urgentQ && s'.idleQ == s.idleQ
  {
    TakeRunnablesOne(s);
    TakeOneFrame(s);
    assert PlaceOk(s, s.timedQ[0]);
    DestroyDrops(s, TakeRunnables(s, 1), s.timedQ[0]);
  }

  lemma DropUrgentKept<T(!new)>(s: State<T>)
    requires Inv(s) && s.urgentQ != []
    ensures s.urgentQ[0] in s.tasks
    ensures var s' := DropUrgent(s);
            && Inv(s') && Dropped(s, s', s.urgentQ[0])
            && s'.timedQ == s.timedQ && s'.urgentQ == s.urgentQ[1..] && s'.idleQ == s.idleQ
  {
    LocatedLive(s);
    assert Places(s, s.urgentQ[0]) > 0;
    var s1 := s.(urgentQ := s.urgentQ[1..]);
    HeadDetached(s, s1, s.urgentQ[0]);
    DestroyDrops(s, s1, s.urgentQ[0]);
  }

  lemma DropIdleKept<T(!new)>(s: State<T>)
    requires Inv(s) && s.idleQ != []
    ensures s.idleQ[0] in s.tasks
    ensures var s' := DropIdle(s);
            && Inv(s') && Dropped(s, s', s.idleQ[0])
            && s'.timedQ == s.timedQ && s'.urgentQ == s.urgentQ && s'.idleQ == s.idleQ[1..]
  {
    LocatedLive(s);
    assert Places(s, s.idleQ[0]) > 0;
    var s1 := s.(idleQ := s.idleQ[1..]);
    HeadDetached(s, s1, s.idleQ[0]);
    DestroyDrops(s, s1, s.idleQ[0]);
  }

  // Some of the queued tasks of s have been destroyed, and none has been executed.
  ghost predicate Drained<T(!new)>(s: State<T>, s': State<T>) {
    && s'.tasks.Keys <= s.tasks.Keys && s'.log == s.log && s'.batch == s.batch
    && s.retired.Keys <= s'.retired.Keys
    && (forall t :: t in s'.tasks ==> s'.tasks[t] == s.tasks[t])
    && (forall t :: t in s.tasks && t !in s'.tasks ==> s.tasks[t].status != Created && t in s'.retired)
  }

  lemma DrainedMore<T(!new)>(s: State<T>, s1: State<T>, s2: State<T>, t: T)
    requires Drained(s, s1) && Dropped(s1, s2, t)
    ensures Drained(s, s2)
  {
  }

  lemma DrainedTwice<T(!new)>(s: State<T>, s1: State<T>, s2: State<T>)
    requires Drained(s, s1) && Drained(s1, s2)
    ensures Drained(s, s2)
  {
  }

  // Exactly the tasks never submitted are left, as they were; all others are destroyed, and none
  // has been executed.
  ghost predicate OnlyCreatedLeft<T(!new)>(s: State<T>, s': State<T>) {
    && (forall t :: t in s'.tasks <==> t in s.tasks && s.tasks[t].status == Created)
    && (forall t :: t in s'.tasks ==> s'.tasks[t] == s.tasks[t])
    && (forall t :: t in s.tasks && s.tasks[t].status != Created ==> t in s'.retired)
    && s'.log == s.log
  }

  // Emptying every queue leaves exactly the tasks that were never submitted.
  lemma DrainedAll<T(!new)>(s: State<T>, s': State<T>)
    requires Inv(s) && Inv(s') && Drained(s, s')
    requires s'.timedQ == [] && s'.urgentQ == [] && s'.idleQ == [] && s'.batch == []
    ensures OnlyCreatedLeft(s, s')
  {
    forall t | t in s'.tasks ensures s'.tasks[t].status == Created { assert Places(s', t) == 0; }
  }

  // ---------------------------------------------------------------- spacing of periodic tasks

  // The index of the last event of t, or -1.
  function Last<T(==)>(log: seq<Event<T>>, t: T): (k: int)
    ensures -1 <= k < |log|
    ensures k >= 0 ==> log[k].task == t
    ensures forall j :: k < j < |log| ==> log[j].task != t
  {
    if log == [] then -1
    else if log[|log| - 1].task == t then |log| - 1
    else Last(log[..|log| - 1], t)
  }

  lemma LastAppend<T>(log: seq<Event<T>>, e: Event<T>, t: T)
    ensures Last(log + [e], t) == if e.task == t then |log| else Last(log, t)
  {
    assert (log + [e])[..|log|] == log;
  }

  // Consecutive executions i, j of a task, the later one dispatched from the timed queue, lie
  // at least the interval in force minus the jitter apart.
  ghost predicate SpacedPair<T(!new)>(log: seq<Event<T>>, i: nat, j: nat)
    requires i < j < |log|
  {
    log[i].task == log[j].task && (forall k :: i < k < j ==> log[k].task != log[j].task) && log[j].timed
    ==> log[j].time >= log[i].time + log[i].interval - SCHED_JITTER
  }

  ghost predicate LogSpaced<T(!new)>(log: seq<Event<T>>) {
    forall i, j :: 0 <= i < j < |log| ==> SpacedPair(log, i, j)
  }

  lemma LogSpacedAppend<T(!new)>(log: seq<Event<T>>, e: Event<T>)
    requires LogSpaced(log)
    requires var k := Last(log, e.task);
             k >= 0 && e.timed ==> e.time >= log[k].time + log[k].interval - SCHED_JITTER
    ensures LogSpaced(log + [e])
  {
    var l := log + [e];
    forall i, j | 0 <= i < j < |l| ensures SpacedPair(l, i, j) {
      if j < |log| {
        assert SpacedPair(log, i, j);
        if !(forall k :: i < k < j ==> log[k].task != log[j].task) {
          var k :| i < k < j && log[k].task == log[j].task;
          assert l[k].task == l[j].task;
        }
      } else if l[i].task == e.task && Last(log, e.task) > i {
        assert l[Last(log, e.task)].task == e.task;
      }
    }
  }

  // A task that has run before is periodic, keeps the time of its last run, and waits in the
  // timed queue or in the batch for the time an interval later.
  ghost predicate TaskSpaced<T>(s: State<T>, t: T)
    requires t in s.tasks
  {
    var r, k := s.tasks[t], Last(s.log, t);
    && (r.isFirst <==> k < 0)
    && (!r.isFirst ==>
          && r.doRepeat
          && s.log[k].time == r.lastAbstime && s.log[k].interval == r.interval
          && (t in s.timedQ || t in s.batch)
          && (t in s.timedQ ==> r.nextAbstime == r.lastAbstime + r.interval)
          && (t in s.batch ==> s.batchTime >= r.lastAbstime + r.interval - SCHED_JITTER))
  }

  ghost predicate Spaced<T(!new)>(s: State<T>) {
    && (forall t :: t in s.tasks ==> TaskSpaced(s, t))
    && (forall k :: 0 <= k < |s.log| ==> s.log[k].task in s.tasks || s.log[k].task in s.retired)
    && LogSpaced(s.log)
  }

  // What a step about t leaves alone for another task x.
  ghost predicate SameFor<T>(s: State<T>, s': State<T>, x: T) {
    && x in s.tasks && x in s'.tasks
    && s'.tasks[x].isFirst == s.tasks[x].isFirst && s'.tasks[x].doRepeat == s.tasks[x].doRepeat
    && s'.tasks[x].lastAbstime == s.tasks[x].lastAbstime && s'.tasks[x].interval == s.tasks[x].interval
    && s'.tasks[x].nextAbstime == s.tasks[x].nextAbstime
    && (x in s'.timedQ <==> x in s.timedQ) && (x in s'.batch <==> x in s.batch)
    && s'.batchTime == s.batchTime
    && (s'.log == s.log || (|s'.log| == |s.log| + 1 && s'.log[..|s.log|] == s.log && s'.log[|s.log|].task != x))
  }

  lemma SpacedFrame<T>(s: State<T>, s': State<T>, x: T)
    requires SameFor(s, s', x) && TaskSpaced(s, x)
    ensures TaskSpaced(s', x)
  {
    if s'.log != s.log {
      assert s'.log == s.log + [s'.log[|s.log|]];
      LastAppend(s.log, s'.log[|s.log|], x);
    }
  }

  ghost predicate LogKnown<T(!new)>(s: State<T>) {
    forall k :: 0 <= k < |s.log| ==> s.log[k].task in s.tasks || s.log[k].task in s.retired
  }

  // Spaced for every task but t, in the middle of a step about t.
  ghost predicate SpacedBut<T(!new)>(s: State<T>, t: T) {
    && (forall x :: x in s.tasks && x != t ==> TaskSpaced(s, x))
    && LogKnown(s) && LogSpaced(s.log)
  }

  // t has never run, or its record and its last event agree.
  ghost predicate Fresh<T>(s: State<T>, t: T)
    requires t in s.tasks
  {
    var r, k := s.tasks[t], Last(s.log, t);
    && (r.isFirst <==> k < 0)
    && (!r.isFirst ==> r.doRepeat && s.log[k].time == r.lastAbstime && s.log[k].interval == r.interval)
  }

  lemma SpacedButFrame<T(!new)>(s: State<T>, s': State<T>, t: T)
    requires SpacedBut(s, t) && LogKnown(s') && LogSpaced(s'.log)
    requires forall x :: x in s'.tasks && x != t ==> SameFor(s, s', x)
    ensures SpacedBut(s', t)
  {
    forall x | x in s'.tasks && x != t ensures TaskSpaced(s', x) { SpacedFrame(s, s', x); }
  }

  lemma SchedMember<T>(s: State<T>, t: T, now: int, x: T)
    requires t in s.tasks && !s.tasks[t].inTimedQ
    requires forall y :: y in s.timedQ ==> y in s.tasks
    ensures x in Sched(s, t, now).timedQ <==> x == t || x in s.timedQ
  {
    MultisetInsert(s.timedQ, DueCount(s.timedQ, s.tasks, Rescheduled(s.tasks[t], now).nextAbstime), t);
    assert x in multiset(Sched(s, t, now).timedQ) <==> x == t || x in multiset(s.timedQ);
  }

  lemma SchedSpacedSelf<T(!new)>(s: State<T>, t: T, now: int)
    requires t in s.tasks && Fresh(s, t) && !s.tasks[t].inTimedQ && t !in s.batch
    requires forall y :: y in s.timedQ ==> y in s.tasks
    ensures TaskSpaced(Sched(s, t, now), t)
  {
    SchedMember(s, t, now, t);
  }

  lemma SchedSpaced<T(!new)>(s: State<T>, t: T, now: int)
    requires Detached(s, t) && SpacedBut(s, t) && Fresh(s, t)
    ensures Spaced(Sched(s, t, now))
  {
    var s' := Sched(s, t, now);
    assert Places(s, t) == 0;
    SchedSpacedSelf(s, t, now);
    assert SpacedBut(s', t) by {
      forall x | x in s'.tasks && x != t ensures SameFor(s, s', x) { SchedMember(s, t, now, x); }
      SpacedButFrame(s, s', t);
    }
  }

  lemma DestroySpaced<T(!new)>(s: State<T>, t: T)
    requires Detached(s, t) && SpacedBut(s, t)
    ensures Spaced(Destroy(s, t))
  {
    var s' := Destroy(s, t);
    forall x | x in s'.tasks && x != t ensures SameFor(s, s', x) {}
    SpacedButFrame(s, s', t);
  }

  lemma UnschedSpaced<T(!new)>(s: State<T>, t: T)
    requires Inv(s) && t in s.timedQ && Spaced(s)
    ensures SpacedBut(Unsched(s, t), t)
  {
    var s' := Unsched(s, t);
    assert PlaceOk(s, t);
    MultisetRemove(s.timedQ, t);
    forall x | x in s'.tasks && x != t ensures SameFor(s, s', x) {
      assert x in multiset(s'.timedQ) <==> x in multiset(s.timedQ);
    }
    SpacedButFrame(s, s', t);
  }

  lemma DestroyQueuedSpaced<T(!new)>(s: State<T>, t: T)
    requires Inv(s) && t in s.timedQ && Spaced(s)
    ensures Spaced(Destroy(s, t))
  {
    UnschedDetaches(s, t);
    UnschedSpaced(s, t);
    DestroySpaced(Unsched(s, t), t);
    assert PlaceOk(s, t);
    assert Destroy(s, t) == Destroy(Unsched(s, t), t);
  }

  lemma ExecutedSpaced<T(!new)>(s: State<T>, t: T, o: Outcome, timed: bool)
    requires t in s.tasks && SpacedBut(s, t)
    requires var k := Last(s.log, t);
             k >= 0 && timed ==> s.tasks[t].lastAbstime >= s.log[k].time + s.log[k].interval - SCHED_JITTER
    ensures SpacedBut(Executed(s, t, o, timed), t)
    ensures s.tasks[t].doRepeat ==> Fresh(Executed(s, t, o, timed), t)
  {
    var s' := Executed(s, t, o, timed);
    var e := s'.log[|s.log|];
    LogSpacedAppend(s.log, e);
    LastAppend(s.log, e, t);
    forall x | x in s'.tasks && x != t ensures SameFor(s, s', x) {}
    SpacedButFrame(s, s', t);
  }

  lemma RescheduleSpaced<T(!new)>(s: State<T>, t: T)
    requires Detached(s, t) && SpacedBut(s, t) && Fresh(s, t)
    ensures Spaced(Sched(s, t, 0)) && (SchedResult(s, t, 0) < 0 ==> Spaced(Destroy(Sched(s, t, 0), t)))
  {
    SchedKept(s, t, 0);
    SchedSpaced(s, t, 0);
    if SchedResult(s, t, 0) < 0 { DestroyQueuedSpaced(Sched(s, t, 0), t); }
  }

  lemma ExecSpaced<T(!new)>(s: State<T>, t: T, o: Outcome, timed: bool)
    requires Detached(s, t) && s.table[t] == s.tasks[t].status && SpacedBut(s, t)
    requires s.tasks[t].status == Dequeued || s.tasks[t].status == Cancelled
    requires var k := Last(s.log, t);
             k >= 0 && timed ==> s.tasks[t].lastAbstime >= s.log[k].time + s.log[k].interval - SCHED_JITTER
    ensures Spaced(Exec(s, t, o, timed))
  {
    ExecCases(s, t, o, timed);
    DestroySpaced(s, t);
    ExecutedKept(s, t, o, timed);
    ExecutedSpaced(s, t, o, timed);
    DestroySpaced(Executed(s, t, o, timed), t);
    if s.tasks[t].doRepeat { RescheduleSpaced(Executed(s, t, o, timed), t); }
  }

  lemma MarkSpaced<T(!new)>(s: State<T>, t: T, start: int)
    requires t in s.tasks && SpacedBut(s, t)
    ensures SpacedBut(Mark(s, t, start), t)
  {
    var s' := Mark(s, t, start);
    forall x | x in s'.tasks && x != t ensures SameFor(s, s', x) {}
    SpacedButFrame(s, s', t);
  }

  lemma HeadSpaced<T(!new)>(s: State<T>, s': State<T>, t: T)
    requires Spaced(s) && HeadTaken(s, s', t)
    ensures SpacedBut(s', t)
  {
    forall x | x in s'.tasks && x != t ensures SameFor(s, s', x) {
      if x in s.batch && s'.batch != s.batch {
        var i :| 0 <= i < |s.batch| && s.batch[i] == x;
        assert s'.batch[i - 1] == x;
      }
    }
    SpacedButFrame(s, s', t);
  }

  lemma DispatchedSpaced<T(!new)>(s: State<T>)
    requires Inv(s) && Spaced(s) && s.batch != [] && s.batch[0] in s.tasks
    ensures SpacedBut(Dispatched(s), s.batch[0])
    ensures var t, m := s.batch[0], Dispatched(s);
            var k := Last(m.log, t);
            k >= 0 ==> m.tasks[t].lastAbstime >= m.log[k].time + m.log[k].interval - SCHED_JITTER
  {
    var t := s.batch[0];
    HeadSpaced(s, s.(batch := s.batch[1..]), t);
    MarkSpaced(s.(batch := s.batch[1..]), t, s.batchTime);
    assert TaskSpaced(s, t);
  }

  lemma RunSpaced<T(!new)>(s: State<T>, o: Outcome)
    requires Inv(s) && Spaced(s) && s.batch != []
    ensures QueuesLive(s) && Spaced(RunNext(s, o))
  {
    LocatedLive(s);
    DispatchedDetached(s);
    DispatchedSpaced(s);
    ExecSpaced(Dispatched(s), s.batch[0], o, true);
  }

  lemma ForcedSpaced<T(!new)>(s: State<T>, t: T, now: int)
    requires Inv(s) && Spaced(s) && t in s.timedQ && t in s.tasks
    ensures SpacedBut(Forced(s, t, now), t)
  {
    UnschedSpaced(s, t);
    var s0 := Unsched(s, t);
    var s1 := SetStatus(s0, t, Dequeued);
    assert SpacedBut(s1, t) by {
      forall x | x in s1.tasks && x != t ensures SameFor(s0, s1, x) {}
      SpacedButFrame(s0, s1, t);
    }
    MarkSpaced(s1, t, now);
  }

  lemma ForceSpaced<T(!new)>(s: State<T>, t: T, now: int, o: Outcome)
    requires Inv(s) && Spaced(s)
    ensures QueuesLive(s) && Spaced(Force(s, t, now, o))
  {
    LocatedLive(s);
    if ForceResult(s, t) == Ok {
      assert PlaceOk(s, t);
      ForcedDetached(s, t, now);
      ForcedSpaced(s, t, now);
      ExecSpaced(Forced(s, t, now), t, o, false);
    }
  }

  lemma CreatedFresh<T(!new)>(s: State<T>, t: T)
    requires Inv(s) && Spaced(s) && t in s.tasks && s.tasks[t].status == Created
    ensures s.tasks[t].isFirst && Fresh(s, t) && SpacedBut(s, t)
  {
    assert Places(s, t) == 0 && TaskSpaced(s, t);
  }

  lemma EnqueueSpaced<T(!new)>(s: State<T>, t: T, urgent: bool)
    requires t in s.tasks && s.tasks[t].isFirst && SpacedBut(s, t) && Fresh(s, t)
    ensures Spaced(Enqueue(s, t, urgent))
  {
    var s' := Enqueue(s, t, urgent);
    forall x | x in s'.tasks && x != t ensures SameFor(s, s', x) {}
    SpacedButFrame(s, s', t);
  }

  lemma ArmedSpaced<T(!new)>(s: State<T>, t: T, delay: int, interval: int)
    requires t in s.tasks && s.tasks[t].isFirst && SpacedBut(s, t) && Fresh(s, t)
    ensures var s1 := Armed(s, t, delay, interval); s1.tasks[t].isFirst && SpacedBut(s1, t) && Fresh(s1, t)
  {
    var s1 := Armed(s, t, delay, interval);
    forall x | x in s1.tasks && x != t ensures SameFor(s, s1, x) {}
    SpacedButFrame(s, s1, t);
  }

  lemma SubmitSpacedLive<T(!new)>(s: State<T>, t: T, delay: int, interval: int, now: int)
    requires Inv(s) && Spaced(s) && QueuesLive(s) && t in s.tasks && s.tasks[t].status == Created
    ensures t in Armed(s, t, delay, interval).tasks && QueuesLive(Armed(s, t, delay, interval))
    ensures Spaced(if delay > 0 then Sched(Armed(s, t, delay, interval), t, now)
                   else Enqueue(Armed(s, t, delay, interval), t, delay == 0))
  {
    CreatedFresh(s, t);
    ArmedSpaced(s, t, delay, interval);
    ArmedDetached(s, t, delay, interval);
    if delay > 0 {
      SchedSpaced(Armed(s, t, delay, interval), t, now);
    } else {
      EnqueueSpaced(Armed(s, t, delay, interval), t, delay == 0);
    }
  }

  lemma ArmedDetached<T(!new)>(s: State<T>, t: T, delay: int, interval: int)
    requires Inv(s) && QueuesLive(s) && t in s.tasks && s.tasks[t].status == Created
    ensures var s1 := Armed(s, t, delay, interval); Detached(s1, t) && QueuesLive(s1)
  {
    CreatedDetached(s, t);
    DetachedUpdate(s, Armed(s, t, delay, interval), t);
  }

  lemma SubmitSpaced<T(!new)>(s: State<T>, t: T, delay: int, interval: int, now: int)
    requires Inv(s) && Spaced(s)
    ensures QueuesLive(s) && Spaced(Submit(s, t, delay, interval, now))
  {
    LocatedLive(s);
    if t !in s.table || s.table[t] != Created || (interval < MIN_INTERVAL && interval != 0) {
      SubmitRefused(s, t, delay, interval, now);
    } else {
      CreatedDetached(s, t);
      SubmitAccepted(s, t, delay, interval, now);
      SubmitSpacedLive(s, t, delay, interval, now);
    }
  }

  lemma CancelMarkSpaced<T(!new)>(s: State<T>, t: T)
    requires Spaced(s) && t in s.tasks
    ensures Spaced(SetStatus(s, t, Cancelled))
  {
    var s' := SetStatus(s, t, Cancelled);
    forall x | x in s'.tasks ensures TaskSpaced(s', x) { SpacedFrame(s, s', x); }
  }

  lemma CancelSpaced<T(!new)>(s: State<T>, t: T)
    requires Inv(s) && Spaced(s)
    ensures Spaced(Cancel(s, t))
  {
    if t in s.tasks {
      assert PlaceOk(s, t);
      if s.table[t] == Enqueued && s.tasks[t].inTimedQ {
        DestroyQueuedSpaced(s, t);
      } else if s.table[t] == Enqueued || s.table[t] == Dequeued {
        CancelMarkSpaced(s, t);
      }
    }
  }

  lemma CreateSpaced<T(!new)>(s: State<T>, t: T, wantsFree: bool)
    requires Inv(s) && Spaced(s) && t !in s.tasks && t !in s.retired
    ensures Spaced(Create(s, t, wantsFree))
  {
    var s' := Create(s, t, wantsFree);
    assert Places(s, t) == 0;
    forall x | x in s'.tasks && x != t ensures SameFor(s, s', x) {}
    SpacedButFrame(s, s', t);
  }

  lemma FetchSpaced<T(!new)>(s: State<T>, now: int)
    requires Inv(s) && Spaced(s) && s.batch == []
    ensures QueuesLive(s) && Spaced(Fetch(s, now))
  {
    LocatedLive(s);
    var s' := Fetch(s, now);
    forall x | x in s'.tasks ensures TaskSpaced(s', x) {
      assert TaskSpaced(s, x) && PlaceOk(s, x);
      if !s.tasks[x].isFirst { FetchRepeating(s, now, x); }
    }
  }

  // A task that has run before is fetched when it is due, and from the timed queue.
  lemma FetchRepeating<T(!new)>(s: State<T>, now: int, x: T)
    requires Inv(s) && QueuesLive(s) && s.batch == [] && x in s.timedQ
    ensures var s' := Fetch(s, now);
            && (x in s'.timedQ || x in s'.batch)
            && (x in s'.batch ==> s.tasks[x].nextAbstime <= now + SCHED_JITTER)
  {
    var c := if now > 0 then RunnableCount(s, now, TASK_MAX) else 0;
    MultisetSplit(s.timedQ, c);
    assert x in multiset(s.timedQ) && Places(s, x) <= 1;
    assert x !in multiset(s.urgentQ) && x !in multiset(s.idleQ);
    assert x in s.timedQ[..c] || x in s.timedQ[c..];
    assert forall y :: y in s.timedQ[..c] ==> s.tasks[y].nextAbstime <= now + SCHED_JITTER;
  }

  lemma TakeOneSame<T(!new)>(s: State<T>, x: T)
    requires s.timedQ != [] && x in s.tasks && x != s.timedQ[0]
    ensures SameFor(s, TakeRunnables(s, 1), x)
  {
    assert s.timedQ[..1] == [s.timedQ[0]];
    MultisetTail(s.timedQ);
    assert x in multiset(s.timedQ[1..]) <==> x in multiset(s.timedQ);
  }

  lemma DropTimedSpaced<T(!new)>(s: State<T>)
    requires Inv(s) && Spaced(s) && s.timedQ != []
    ensures s.timedQ[0] in s.tasks && Spaced(DropTimed(s))
  {
    TakeRunnablesOne(s);
    TakeOneSpaced(s);
    DestroySpaced(TakeRunnables(s, 1), s.timedQ[0]);
  }

  lemma TakeOneSpaced<T(!new)>(s: State<T>)
    requires Spaced(s) && s.timedQ != [] && s.timedQ[0] in s.tasks
    ensures SpacedBut(TakeRunnables(s, 1), s.timedQ[0])
  {
    var t, s1 := s.timedQ[0], TakeRunnables(s, 1);
    TakeOneFrame(s);
    forall x | x in s1.tasks && x != t ensures SameFor(s, s1, x) { TakeOneSame(s, x); }
    SpacedButFrame(s, s1, t);
  }

  lemma SpacedKept<T(!new)>(s: State<T>, a: Action<T>)
    requires Inv(s) && Spaced(s) && Enabled(s, a)
    ensures Spaced(Apply(s, a))
  {
    LocatedLive(s);
    match a
    case DoCreate(t, wantsFree) => CreateSpaced(s, t, wantsFree);
    case DoSubmit(t, delay, interval, now) => SubmitSpaced(s, t, delay, interval, now);
    case DoCancel(t) => CancelSpaced(s, t);
    case DoForce(t, now, o) => ForceSpaced(s, t, now, o);
    case DoFetch(now) => FetchSpaced(s, now);
    case DoRun(o) => RunSpaced(s, o);
    case DoDropTimed => DropTimedSpaced(s);
    case DoDropUrgent =>
      var s1 := s.(urgentQ := s.urgentQ[1..]);
      HeadDetached(s, s1, s.urgentQ[0]);
      HeadSpaced(s, s1, s.urgentQ[0]);
      DestroySpaced(s1, s.urgentQ[0]);
    case DoDropIdle =>
      var s1 := s.(idleQ := s.idleQ[1..]);
      HeadDetached(s, s1, s.idleQ[0]);
      HeadSpaced(s, s1, s.idleQ[0]);
      DestroySpaced(s1, s.idleQ[0]);
  }

  // ---------------------------------------------------------------- the main results

  ghost predicate IsRun<T(!new)>(s: State<T>, actions: seq<Action<T>>)
    requires Inv(s)
    decreases |actions|
  {
    actions == [] || (Enabled(s, actions[0]) && (InvKept(s, actions[0]); IsRun(Apply(s, actions[0]), actions[1..])))
  }

  ghost function After<T(!new)>(s: State<T>, actions: seq<Action<T>>): State<T>
    requires Inv(s) && IsRun(s, actions)
    decreases |actions|
  {
    if actions == [] then s
    else
      InvKept(s, actions[0]);
      After(Apply(s, actions[0]), actions[1..])
  }

  lemma {:induction false} RunKeepsInv<T(!new)>(s: State<T>, actions: seq<Action<T>>)
    requires Inv(s) && IsRun(s, actions)
    ensures Inv(After(s, actions))
    ensures Spaced(s) ==> Spaced(After(s, actions))
    decreases |actions|
  {
    if actions != [] {
      InvKept(s, actions[0]);
      if Spaced(s) { SpacedKept(s, actions[0]); }
      RunKeepsInv(Apply(s, actions[0]), actions[1..]);
    }
  }

  // Over every run: the two copies of a task's state agree, a submitted live task is in exactly
  // one queue (or in the batch being run), and no queue holds a destroyed task.
  lemma EveryTaskInOnePlace<T(!new)>(actions: seq<Action<T>>, t: T)
    requires IsRun(Start<T>(), actions)
    ensures var s := After(Start<T>(), actions);
            && (t in s.table <==> t in s.tasks)
            && (t in s.tasks ==> s.table[t] == s.tasks[t].status)
            && (t in s.tasks && s.tasks[t].status != Created ==> Places(s, t) == 1)
            && (t !in s.tasks ==> t !in s.timedQ && t !in s.urgentQ && t !in s.idleQ && t !in s.batch)
  {
    RunKeepsInv(Start<T>(), actions);
    var s := After(Start<T>(), actions);
    LocatedLive(s);
  }

  // Over every run: the free-up procedure of a task has been called once if the task is
  // destroyed and has one, and not at all otherwise.
  lemma FreedExactlyOnce<T(!new)>(actions: seq<Action<T>>, t: T)
    requires IsRun(Start<T>(), actions)
    ensures var s := After(Start<T>(), actions);
            && multiset(s.freed)[t] == (if t in s.retired && s.retired[t] then 1 else 0)
            && (t in s.freed ==> t !in s.tasks)
  {
    RunKeepsInv(Start<T>(), actions);
  }

  // Over every run: the timed queue is sorted by time, first come first served among equals,
  // and m_is_in_timed_q is true exactly for its members.
  lemma TimedQueueOrder<T(!new)>(actions: seq<Action<T>>)
    requires IsRun(Start<T>(), actions)
    ensures var s := After(Start<T>(), actions);
            && Sorted(s)
            && (forall t :: t in s.tasks ==> (s.tasks[t].inTimedQ <==> t in s.timedQ))
  {
    RunKeepsInv(Start<T>(), actions);
    var s := After(Start<T>(), actions);
    forall t | t in s.tasks ensures s.tasks[t].inTimedQ <==> t in s.timedQ { assert PlaceOk(s, t); }
  }

  // Over every run: an execution dispatched from the timed queue starts no sooner after the
  // task's previous execution, forced or timed, than the interval in force less the jitter.
  lemma PeriodicSpacing<T(!new)>(actions: seq<Action<T>>, i: nat, j: nat)
    requires IsRun(Start<T>(), actions)
    requires var log := After(Start<T>(), actions).log;
             && i < j < |log| && log[i].task == log[j].task && log[j].timed
             && forall k :: i < k < j ==> log[k].task != log[j].task
    ensures var log := After(Start<T>(), actions).log;
            log[j].time - log[i].time >= log[i].interval - SCHED_JITTER
  {
    RunKeepsInv(Start<T>(), actions);
    var log := After(Start<T>(), actions).log;
    assert SpacedPair(log, i, j);
  }

  // s_get_runnables() takes every due task, earliest first, unless the caller's array is full.
  lemma RunnablesExact<T(!new)>(s: State<T>, base: int, n: nat)
    requires Inv(s) && QueuesLive(s)
    ensures var c := RunnableCount(s, base, n);
            && c <= n
            && (forall k :: 0 <= k < c ==> s.tasks[s.timedQ[k]].nextAbstime <= base + SCHED_JITTER)
            && (c < n ==> forall x :: x in s.timedQ[c..] ==> s.tasks[x].nextAbstime > base + SCHED_JITTER)
            && (forall x, y :: x in s.timedQ[..c] && y in s.timedQ[c..] ==> Before(s, x, y))
  {
    var c := RunnableCount(s, base, n);
    var q := s.timedQ;
    forall x | x in q[c..] ensures s.tasks[q[c]].nextAbstime <= s.tasks[x].nextAbstime {
      var k :| c <= k < |q| && q[k] == x;
      if c < k { assert Before(s, q[c], q[k]); }
    }
    forall x, y | x in q[..c] && y in q[c..] ensures Before(s, x, y) {
      var i :| 0 <= i < c && q[i] == x;
      var j :| c <= j < |q| && q[j] == y;
    }
  }

  // The wake-up time that s_get_runnables() reports is the earliest of the times that remain,
  // and later than the jitter allows if the caller's array is not full.
  lemma WakeupExact<T(!new)>(s: State<T>, base: int, n: nat)
    requires Inv(s) && QueuesLive(s)
    ensures var c := RunnableCount(s, base, n);
            var s' := TakeRunnables(s, c);
            && (s'.timedQ == [] ==> NextWakeup(s') == -1)
            && (forall x :: x in s'.timedQ ==> NextWakeup(s') <= s'.tasks[x].nextAbstime)
            && (c < n && s'.timedQ != [] ==> NextWakeup(s') > base + SCHED_JITTER)
  {
    var c := RunnableCount(s, base, n);
    var s' := TakeRunnables(s, c);
    TakeRunnablesTimes(s, c);
    forall x | x in s'.timedQ ensures NextWakeup(s') <= s'.tasks[x].nextAbstime { FirstIsLeast(s, c, x); }
  }

  lemma TakeRunnablesTimes<T(!new)>(s: State<T>, c: nat)
    requires QueuesLive(s) && c <= |s.timedQ|
    ensures var s' := TakeRunnables(s, c);
            && s'.timedQ == s.timedQ[c..]
            && (forall x :: x in s'.timedQ ==> x in s'.tasks && s'.tasks[x].nextAbstime == s.tasks[x].nextAbstime)
            && NextWakeup(s') == if c == |s.timedQ| then -1 else s.tasks[s.timedQ[c]].nextAbstime
  {
  }

  lemma FirstIsLeast<T(!new)>(s: State<T>, c: nat, x: T)
    requires Sorted(s) && c < |s.timedQ| && x in s.timedQ[c..]
    ensures s.tasks[s.timedQ[c]].nextAbstime <= s.tasks[x].nextAbstime
  {
    var k :| c <= k < |s.timedQ| && s.timedQ[k] == x;
    if c < k { assert Before(s, s.timedQ[c], s.timedQ[k]); }
  }

  // ---------------------------------------------------------------- cancellation

  lemma {:induction false} RemoveInserted<T>(q: seq<T>, c: nat, t: T)
    requires c <= |q| && t !in q
    ensures Remove(InsertAt(q, c, t), t) == q
  {
    var p := InsertAt(q, c, t);
    if c > 0 {
      assert p[0] == q[0] && p[1..] == InsertAt(q[1..], c - 1, t);
      RemoveInserted(q[1..], c - 1, t);
    }
  }

  // s' is s without t: nothing else has changed but the list of freed arguments.
  ghost predicate Withdrawn<T>(s: State<T>, s': State<T>, t: T)
    requires t in s.tasks
  {
    && s'.tasks == s.tasks - {t} && s'.table == s.table - {t}
    && s'.timedQ == s.timedQ && s'.urgentQ == s.urgentQ && s'.idleQ == s.idleQ && s'.batch == s.batch
    && s'.freed == if s.tasks[t].wantsFree then s.freed + [t] else s.freed
  }

  lemma DestroyUndoesSched<T(!new)>(s: State<T>, t: T, now: int)
    requires t in s.tasks && !s.tasks[t].inTimedQ && s.tasks[t].status != Deleting && t !in s.timedQ
    requires forall x :: x in s.timedQ ==> x in s.tasks
    ensures t in Sched(s, t, now).tasks && Withdrawn(s, Destroy(Sched(s, t, now), t), t)
  {
    var r := Rescheduled(s.tasks[t], now);
    RemoveInserted(s.timedQ, DueCount(s.timedQ, s.tasks, r.nextAbstime), t);
  }

  lemma WithdrawnArmed<T>(s: State<T>, t: T, delay: int, interval: int, s': State<T>)
    requires t in s.tasks && Withdrawn(Armed(s, t, delay, interval), s', t)
    ensures Withdrawn(s, s', t)
  {
    assert Armed(s, t, delay, interval).tasks - {t} == s.tasks - {t};
  }

  lemma SubmitTimedThenCancel<T(!new)>(s: State<T>, t: T, delay: int, interval: int, now: int)
    requires t in s.table && t in s.tasks && delay > 0 && !s.tasks[t].inTimedQ
    requires forall x :: x in s.timedQ ==> x in s.tasks
    requires SubmitResult(s, t, delay, interval, now) == Ok
    ensures t in Sched(Armed(s, t, delay, interval), t, now).tasks
    ensures Submit(s, t, delay, interval, now) == Sched(Armed(s, t, delay, interval), t, now)
    ensures Cancel(Submit(s, t, delay, interval, now), t) == Destroy(Sched(Armed(s, t, delay, interval), t, now), t)
  {
  }

  // Cancelling a timed submission at once undoes it, destroys the task, and frees its argument.
  lemma CancelUndoesSubmit<T(!new)>(s: State<T>, t: T, delay: int, interval: int, now: int)
    requires Inv(s) && QueuesLive(s) && delay > 0
    requires SubmitResult(s, t, delay, interval, now) == Ok
    ensures t in s.tasks && t in Submit(s, t, delay, interval, now).tasks
    ensures Withdrawn(s, Cancel(Submit(s, t, delay, interval, now), t), t)
  {
    assert t !in s.timedQ && !s.tasks[t].inTimedQ by { CreatedDetached(s, t); assert Places(s, t) == 0; }
    SubmitTimedThenCancel(s, t, delay, interval, now);
    var a := Armed(s, t, delay, interval);
    DestroyUndoesSched(a, t, now);
    WithdrawnArmed(s, t, delay, interval, Destroy(Sched(a, t, now), t));
  }

  // t is destroyed, or cancelled and waiting for the dispatcher to destroy it.
  ghost predicate Gone<T>(s: State<T>, t: T) {
    t in s.retired || (t in s.tasks && s.tasks[t].status == Cancelled)
  }

  lemma CancelMakesGone<T(!new)>(s: State<T>, t: T)
    requires Inv(s) && t in s.tasks && s.tasks[t].status != Created
    ensures Gone(Cancel(s, t), t)
  {
    assert PlaceOk(s, t);
    if s.table[t] == Enqueued && s.tasks[t].inTimedQ { UnschedDetaches(s, t); }
  }

  // Whatever happens to another task, t keeps its record and is not executed.
  ghost predicate Untouched<T>(s: State<T>, s': State<T>, t: T) {
    && (t in s'.tasks <==> t in s.tasks)
    && (t in s.tasks ==> s'.tasks[t].status == s.tasks[t].status && s'.tasks[t].inTimedQ == s.tasks[t].inTimedQ)
    && (t in s'.retired <==> t in s.retired)
    && Last(s'.log, t) == Last(s.log, t)
  }

  lemma DestroyUntouched<T(!new)>(s: State<T>, x: T, t: T)
    requires x in s.tasks && x != t
    ensures Untouched(s, Destroy(s, x), t)
  {
  }

  lemma SchedUntouched<T(!new)>(s: State<T>, x: T, now: int, t: T)
    requires x in s.tasks && x != t && forall y :: y in s.timedQ ==> y in s.tasks
    ensures Untouched(s, Sched(s, x, now), t)
  {
  }

  lemma ExecUntouched<T(!new)>(s: State<T>, x: T, o: Outcome, timed: bool, t: T)
    requires Detached(s, x) && x != t && s.table[x] == s.tasks[x].status
    requires s.tasks[x].status == Dequeued || s.tasks[x].status == Cancelled
    ensures Untouched(s, Exec(s, x, o, timed), t)
  {
    ExecCases(s, x, o, timed);
    var s1 := Executed(s, x, o, timed);
    LastAppend(s.log, s1.log[|s.log|], t);
    DestroyUntouched(s, x, t);
    DestroyUntouched(s1, x, t);
    SchedUntouched(s1, x, 0, t);
    DestroyUntouched(Sched(s1, x, 0), x, t);
  }

  // A cancelled task is never executed again, and stays cancelled until it is destroyed.
  lemma GoneKept<T(!new)>(s: State<T>, a: Action<T>, t: T)
    requires Inv(s) && Enabled(s, a) && Gone(s, t)
    ensures Gone(Apply(s, a), t) && Last(Apply(s, a).log, t) == Last(s.log, t)
  {
    LocatedLive(s);
    if t in s.tasks { assert PlaceOk(s, t); }
    match a
    case DoCreate(_, _) =>
    case DoSubmit(x, delay, interval, now) => SubmitGone(s, x, delay, interval, now, t);
    case DoCancel(x) => CancelGone(s, x, t);
    case DoForce(x, now, o) => ForceGone(s, x, now, o, t);
    case DoFetch(now) => FetchGone(s, now, t);
    case DoRun(o) => RunGone(s, o, t);
    case _ => DrainGone(s, a, t);
  }

  lemma DrainGone<T(!new)>(s: State<T>, a: Action<T>, t: T)
    requires Inv(s) && QueuesLive(s) && Enabled(s, a) && Gone(s, t)
    requires a.DoDropTimed? || a.DoDropUrgent? || a.DoDropIdle?
    ensures Gone(Apply(s, a), t) && Last(Apply(s, a).log, t) == Last(s.log, t)
  {
    match a
    case DoDropTimed =>
      TakeRunnablesOne(s);
      TakeOneFrame(s);
      DropGone(s, TakeRunnables(s, 1), s.timedQ[0], t);
    case DoDropUrgent =>
      HeadDetached(s, s.(urgentQ := s.urgentQ[1..]), s.urgentQ[0]);
      DropGone(s, s.(urgentQ := s.urgentQ[1..]), s.urgentQ[0], t);
    case DoDropIdle =>
      HeadDetached(s, s.(idleQ := s.idleQ[1..]), s.idleQ[0]);
      DropGone(s, s.(idleQ := s.idleQ[1..]), s.idleQ[0], t);
    case _ =>
  }

  lemma DropGone<T(!new)>(s: State<T>, s1: State<T>, x: T, t: T)
    requires Gone(s, t) && Detached(s1, x) && s1.log == s.log && s1.retired == s.retired
    requires t in s.tasks ==> t in s1.tasks && (x != t ==> s1.tasks[t].status == s.tasks[t].status)
    ensures Gone(Destroy(s1, x), t) && Last(Destroy(s1, x).log, t) == Last(s.log, t)
  {
    if t != x { DestroyUntouched(s1, x, t); } else { DestroyKept(s1, x); }
  }

  lemma SubmitUntouched<T(!new)>(s: State<T>, x: T, delay: int, interval: int, now: int, t: T)
    requires x in s.tasks && x != t && forall y :: y in s.timedQ ==> y in s.tasks
    ensures Untouched(s, Submit(s, x, delay, interval, now), t)
  {
    SchedUntouched(Armed(s, x, delay, interval), x, now, t);
  }

  lemma SubmitGone<T(!new)>(s: State<T>, x: T, delay: int, interval: int, now: int, t: T)
    requires Inv(s) && QueuesLive(s) && Gone(s, t)
    ensures Gone(Submit(s, x, delay, interval, now), t)
    ensures Last(Submit(s, x, delay, interval, now).log, t) == Last(s.log, t)
  {
    if x in s.tasks && x != t { SubmitUntouched(s, x, delay, interval, now, t); }
  }

  lemma CancelGone<T(!new)>(s: State<T>, x: T, t: T)
    requires Inv(s) && Gone(s, t)
    ensures Gone(Cancel(s, x), t) && Last(Cancel(s, x).log, t) == Last(s.log, t)
  {
    if x in s.tasks && x != t { DestroyUntouched(s, x, t); }
  }

  lemma ForcedUntouched<T(!new)>(s: State<T>, x: T, now: int, t: T)
    requires x in s.tasks && x != t
    ensures Untouched(s, Forced(s, x, now), t)
  {
  }

  lemma ForceGone<T(!new)>(s: State<T>, x: T, now: int, o: Outcome, t: T)
    requires Inv(s) && QueuesLive(s) && Gone(s, t)
    ensures Gone(Force(s, x, now, o), t) && Last(Force(s, x, now, o).log, t) == Last(s.log, t)
  {
    if ForceResult(s, x) == Ok {
      ForcedDetached(s, x, now);
      ForcedUntouched(s, x, now, t);
      ExecUntouched(Forced(s, x, now), x, o, false, t);
    }
  }

  lemma FetchGone<T(!new)>(s: State<T>, now: int, t: T)
    requires Inv(s) && QueuesLive(s) && s.batch == [] && Gone(s, t)
    ensures Gone(Fetch(s, now), t) && Last(Fetch(s, now).log, t) == Last(s.log, t)
  {
    if t in s.tasks { assert PlaceOk(s, t) && t !in s.timedQ; }
  }

  lemma DispatchedUntouched<T(!new)>(s: State<T>, t: T)
    requires s.batch != [] && s.batch[0] in s.tasks
    requires s.batch[0] != t || s.tasks[t].status == Cancelled
    ensures Untouched(s, Dispatched(s), t)
  {
  }

  // A cancelled task that reaches the dispatcher is destroyed without being executed.
  lemma DelayedDeletion<T(!new)>(s: State<T>, t: T, o: Outcome)
    requires Detached(s, t) && s.table[t] == Cancelled
    ensures t in Exec(s, t, o, true).retired && Exec(s, t, o, true).log == s.log
  {
    DestroyKept(s, t);
  }

  lemma RunGone<T(!new)>(s: State<T>, o: Outcome, t: T)
    requires Inv(s) && QueuesLive(s) && s.batch != [] && Gone(s, t)
    ensures Gone(RunNext(s, o), t) && Last(RunNext(s, o).log, t) == Last(s.log, t)
  {
    var x := s.batch[0];
    DispatchedDetached(s);
    DispatchedUntouched(s, t);
    if x != t {
      ExecUntouched(Dispatched(s), x, o, true, t);
    } else {
      DelayedDeletion(Dispatched(s), t, o);
    }
  }

  lemma {:induction false} GoneForever<T(!new)>(s: State<T>, actions: seq<Action<T>>, t: T)
    requires Inv(s) && IsRun(s, actions) && Gone(s, t)
    ensures Gone(After(s, actions), t) && Last(After(s, actions).log, t) == Last(s.log, t)
    decreases |actions|
  {
    if actions != [] {
      InvKept(s, actions[0]);
      GoneKept(s, actions[0], t);
      GoneForever(Apply(s, actions[0]), actions[1..], t);
    }
  }

  // After a submitted task is cancelled, no step of any run executes it.
  lemma CancelIsFinal<T(!new)>(s: State<T>, t: T, actions: seq<Action<T>>)
    requires Inv(s) && t in s.tasks && s.tasks[t].status != Created
    requires Inv(Cancel(s, t)) && IsRun(Cancel(s, t), actions)
    ensures Last(After(Cancel(s, t), actions).log, t) == Last(s.log, t)
    ensures Gone(After(Cancel(s, t), actions), t)
  {
    CancelMakesGone(s, t);
    GoneForever(Cancel(s, t), actions, t);
    assert PlaceOk(s, t);
  }
}
