/**
 The start, finalize and wait handshake of framework/lib/thread.c.

 A thread object may be started again after it has finished: every successful pthread_create()
 is a child.  A step is what runs under m_wait_lock or under m_finalize_lock between two waits;
 s_finalize() holds m_finalize_lock over several steps.  Waits may end at any time, notified or
 spuriously, or fail.  The object is not destroyed.
 */
module Thread {
  import opened Wrappers

  // A start that succeeds has acknowledged the child it created.
  datatype StartResult = Started(child: nat) | AlreadyExists | CreateFailed | StartWaitFailed

  datatype Starter = Starting(child: nat) | StartReturned(result: StartResult)

  // Where a child is in s_pthd_entry_point().
  datatype Place =
    | Born                       // before it has taken m_wait_lock
    | WaitingAck                 // in the wait for m_startup_sync_done
    | InMain                     // in m_main_proc
    | Exiting(code: int)         // before s_finalize() has taken m_finalize_lock
    | Storing(code: int)         // m_result_code is stored
    | Leaving(code: int)         // finalized, m_finalize_lock still held
    | Gone(code: int)            // s_finalize() is over

  // acksBefore: the acknowledgements given before the child was created.
  datatype Child = Child(place: Place, acksBefore: nat, ackFailed: bool)

  datatype WaitCode = WaitOk | WaitFailed

  // Where a caller is in gallus_thread_wait(): ret is the value so far.
  datatype Waiter =
    | WaitingExit
    | CheckingStarted(ret: WaitCode)
    | LockingFinalize(ret: WaitCode)
    | WaitingFinalize
    | WaitReturned(ret: WaitCode, sawStarted: bool)

  datatype State = State(
    hasFinal: bool,              // m_final_proc is set
    activated: bool,
    started: bool,
    syncDone: bool,
    finalizedCount: nat,
    resultCode: Option<int>,     // None is GALLUS_RESULT_NOT_STARTED
    finalizeLock: Option<nat>,   // the child that holds m_finalize_lock
    children: seq<Child>,
    starters: seq<Starter>,
    waiters: seq<Waiter>,
    acks: nat,                   // acknowledgements so far
    acksAtReset: nat,            // and before the last start
    finalCalls: nat,             // calls of m_final_proc
    lastFinal: Option<nat>)      // the child that was finalized last

  datatype Action =
    | Start(created: bool)                   // gallus_thread_start(), up to its wait
    | StartResume(i: nat, ok: bool)
    | Enter(k: nat)                          // s_pthd_entry_point(), up to its wait
    | AckResume(k: nat, ok: bool)
    | MainEnds(k: nat, code: int)            // by return or by cancellation
    | Store(k: nat)                          // s_finalize(), step by step
    | Finalize(k: nat)
    | Release(k: nat)
    | Wait                                   // gallus_thread_wait(), step by step
    | ExitResume(w: nat, ok: bool)
    | CheckStarted(w: nat)
    | LockFinalize(w: nat)
    | FinalizeResume(w: nat, ok: bool)

  // gallus_thread_create()
  function Init(hasFinal: bool): State {
    State(hasFinal, false, false, false, 0, None, None, [], [], [], 0, 0, 0, None)
  }

  function Move(s: State, k: nat, p: Place): State
    requires k < |s.children|
  {
    s.(children := s.children[k := s.children[k].(place := p)])
  }

  function MoveWaiter(s: State, w: nat, x: Waiter): State
    requires w < |s.waiters|
  {
    s.(waiters := s.waiters[w := x])
  }

  predicate Enabled(s: State, a: Action) {
    match a
    case Start(_) => true
    case StartResume(i, _) => i < |s.starters| && s.starters[i].Starting?
    case Enter(k) => k < |s.children| && s.children[k].place.Born?
    case AckResume(k, _) => k < |s.children| && s.children[k].place.WaitingAck?
    case MainEnds(k, _) => k < |s.children| && s.children[k].place.InMain?
    case Store(k) => k < |s.children| && s.children[k].place.Exiting? && s.finalizeLock == None
    case Finalize(k) => k < |s.children| && s.children[k].place.Storing?
    case Release(k) => k < |s.children| && s.children[k].place.Leaving?
    case Wait => true
    case ExitResume(w, _) => w < |s.waiters| && s.waiters[w].WaitingExit?
    case CheckStarted(w) => w < |s.waiters| && s.waiters[w].CheckingStarted?
    case LockFinalize(w) => w < |s.waiters| && s.waiters[w].LockingFinalize? && s.finalizeLock == None
    case FinalizeResume(w, _) => w < |s.waiters| && s.waiters[w].WaitingFinalize? && s.finalizeLock == None
  }

  function Apply(s: State, a: Action): State
    requires Enabled(s, a)
  {
    match a
    case Start(created) =>
      if s.activated then s.(starters := s.starters + [StartReturned(AlreadyExists)])
      else if !created then s.(starters := s.starters + [StartReturned(CreateFailed)])
      else s.(activated := false, started := false, syncDone := false, finalizedCount := 0,
              children := s.children + [Child(Born, s.acks, false)],
              starters := s.starters + [Starting(|s.children|)],
              acksAtReset := s.acks)
    case StartResume(i, ok) =>
      if !ok then s.(starters := s.starters[i := StartReturned(StartWaitFailed)])
      else if !s.started then s
      else s.(syncDone := true, acks := s.acks + 1, starters := s.starters[i := StartReturned(Started(s.starters[i].child))])
    case Enter(k) =>
      Move(s.(activated := true, started := true), k, if s.syncDone then InMain else WaitingAck)
    case AckResume(k, ok) =>
      if !ok then s.(children := s.children[k := s.children[k].(place := InMain, ackFailed := true)])
      else if s.syncDone then Move(s, k, InMain)
      else s
    case MainEnds(k, code) => Move(s, k, Exiting(code))
    case Store(k) =>
      Move(s, k, Storing(s.children[k].place.code)).(finalizeLock := Some(k),
                                                     resultCode := Some(s.children[k].place.code))
    case Finalize(k) =>
      Move(s, k, Leaving(s.children[k].place.code)).(
        finalCalls := if s.hasFinal && s.finalizedCount == 0 then s.finalCalls + 1 else s.finalCalls,
        activated := false, finalizedCount := s.finalizedCount + 1, lastFinal := Some(k))
    case Release(k) => Move(s, k, Gone(s.children[k].place.code)).(finalizeLock := None)
    case Wait => s.(waiters := s.waiters + [if s.activated then WaitingExit else CheckingStarted(WaitOk)])
    case ExitResume(w, ok) =>
      if !ok then MoveWaiter(s, w, CheckingStarted(WaitFailed))
      else if s.activated then s
      else MoveWaiter(s, w, CheckingStarted(WaitOk))
    case CheckStarted(w) =>
      var ret := s.waiters[w].ret;
      MoveWaiter(s, w, if s.started then LockingFinalize(ret) else WaitReturned(ret, false))
    case LockFinalize(w) =>
      MoveWaiter(s, w, if s.finalizedCount == 0 then WaitingFinalize else WaitReturned(s.waiters[w].ret, true))
    case FinalizeResume(w, ok) =>
      MoveWaiter(s, w, if !ok then WaitReturned(WaitFailed, true)
                       else if s.finalizedCount == 0 then WaitingFinalize
                       else WaitReturned(WaitOk, true))
  }

  // ---------------------------------------------------------------- the invariant

  predicate Past(p: Place) { p.Leaving? || p.Gone? }

  predicate Holding(p: Place) { p.Storing? || p.Leaving? }

  predicate HasBegun(p: Place) { !p.Born? && !p.WaitingAck? }

  ghost predicate LockOk(s: State) {
    forall k :: 0 <= k < |s.children| ==> (Holding(s.children[k].place) <==> s.finalizeLock == Some(k))
  }

  // A child whose wait did not fail has begun its main procedure only after an acknowledgement
  // given since its creation.
  ghost predicate AcksOk(s: State) {
    && s.acksAtReset <= s.acks && (s.syncDone ==> s.acksAtReset < s.acks)
    && forall k :: 0 <= k < |s.children| ==>
         var c := s.children[k];
         c.acksBefore <= s.acksAtReset && (HasBegun(c.place) && !c.ackFailed ==> c.acksBefore < s.acks)
  }

  ghost predicate CallsOk(s: State) {
    && s.finalCalls <= |s.children|
    && (s.finalizedCount == 0 && s.children != [] ==> s.finalCalls < |s.children|)
  }

  ghost predicate ResultOk(s: State) {
    && (s.finalizedCount > 0 ==> s.lastFinal.Some?)
    && (s.finalizeLock.Some? ==>
          var k := s.finalizeLock.value;
          && k < |s.children| && Holding(s.children[k].place) && s.resultCode == Some(s.children[k].place.code)
          && (s.children[k].place.Leaving? ==> s.lastFinal == Some(k)))
    && (s.lastFinal.Some? ==> s.lastFinal.value < |s.children| && Past(s.children[s.lastFinal.value].place))
    && (s.lastFinal.Some? && s.finalizeLock == None ==>
          s.resultCode == Some(s.children[s.lastFinal.value].place.code))
  }

  ghost predicate Inv(s: State) {
    LockOk(s) && AcksOk(s) && CallsOk(s) && ResultOk(s)
  }

  lemma LockKept(s: State, a: Action)
    requires LockOk(s) && Enabled(s, a)
    requires s.finalizeLock.Some? ==> s.finalizeLock.value < |s.children|
    ensures LockOk(Apply(s, a))
  {
  }

  lemma AcksKept(s: State, a: Action)
    requires AcksOk(s) && Enabled(s, a)
    ensures AcksOk(Apply(s, a))
  {
    var s' := Apply(s, a);
    assert s.acks <= s'.acks && s.acksAtReset <= s'.acksAtReset <= s'.acks;
    forall k | 0 <= k < |s'.children|
      ensures var c := s'.children[k];
              c.acksBefore <= s'.acksAtReset && (HasBegun(c.place) && !c.ackFailed ==> c.acksBefore < s'.acks)
    {
      if k < |s.children| { assert s'.children[k].acksBefore == s.children[k].acksBefore; }
    }
  }

  lemma CallsKept(s: State, a: Action)
    requires CallsOk(s) && Enabled(s, a)
    ensures CallsOk(Apply(s, a))
  {
  }

  // Only the steps of s_finalize() touch the result.
  lemma OthersQuiet(s: State, a: Action)
    requires Enabled(s, a) && !a.Store? && !a.Finalize? && !a.Release?
    ensures var s' := Apply(s, a);
            && s'.finalizeLock == s.finalizeLock && s'.resultCode == s.resultCode && s'.lastFinal == s.lastFinal
            && s'.finalizedCount <= s.finalizedCount
  {
  }

  lemma OthersInPlace(s: State, a: Action, k: nat)
    requires Enabled(s, a) && !a.Store? && !a.Finalize? && !a.Release?
    requires k < |s.children| && (Holding(s.children[k].place) || Past(s.children[k].place))
    ensures k < |Apply(s, a).children| && Apply(s, a).children[k].place == s.children[k].place
  {
    match a
    case Start(created) =>
    case Enter(j) =>
    case AckResume(j, ok) =>
    case MainEnds(j, code) =>
    case _ =>
  }

  lemma ResultKept(s: State, a: Action)
    requires ResultOk(s) && LockOk(s) && Enabled(s, a)
    ensures ResultOk(Apply(s, a))
  {
    match a
    case Store(k) => assert s.finalizeLock == None;
    case Finalize(k) => assert s.finalizeLock == Some(k);
    case Release(k) => assert s.finalizeLock == Some(k);
    case _ =>
      OthersQuiet(s, a);
      forall k | 0 <= k < |s.children| && (Holding(s.children[k].place) || Past(s.children[k].place))
        ensures k < |Apply(s, a).children| && Apply(s, a).children[k].place == s.children[k].place
      {
        OthersInPlace(s, a, k);
      }
  }

  lemma InvKept(s: State, a: Action)
    requires Inv(s) && Enabled(s, a)
    ensures Inv(Apply(s, a))
  {
    LockKept(s, a);
    AcksKept(s, a);
    CallsKept(s, a);
    ResultKept(s, a);
  }

  // ---------------------------------------------------------------- every run

  ghost predicate IsRun(s: State, actions: seq<Action>)
    decreases |actions|
  {
    actions == [] || (Enabled(s, actions[0]) && IsRun(Apply(s, actions[0]), actions[1..]))
  }

  ghost function After(s: State, actions: seq<Action>): State
    requires IsRun(s, actions)
    decreases |actions|
  {
    if actions == [] then s else After(Apply(s, actions[0]), actions[1..])
  }

  lemma {:induction false} RunKeepsInv(s: State, actions: seq<Action>)
    requires Inv(s) && IsRun(s, actions)
    ensures Inv(After(s, actions))
    decreases |actions|
  {
    if actions != [] {
      InvKept(s, actions[0]);
      RunKeepsInv(Apply(s, actions[0]), actions[1..]);
    }
  }

  // Over every run, starts overlapping or not: a main procedure begins only after an
  // acknowledgement given since its thread was created, unless the child's wait for it fails.
  lemma MainAfterAck(hasFinal: bool, actions: seq<Action>, k: nat)
    requires IsRun(Init(hasFinal), actions) && k < |After(Init(hasFinal), actions).children|
    requires var c := After(Init(hasFinal), actions).children[k]; HasBegun(c.place) && !c.ackFailed
    ensures var s := After(Init(hasFinal), actions); s.children[k].acksBefore < s.acks
  {
    RunKeepsInv(Init(hasFinal), actions);
  }

  // When the wait fails, the main procedure begins all the same.
  lemma MainWithoutAck(hasFinal: bool) returns (actions: seq<Action>)
    ensures IsRun(Init(hasFinal), actions)
    ensures var s := After(Init(hasFinal), actions); s.acks == 0 && |s.children| == 1 && s.children[0].place == InMain
  {
    actions := [Start(true), Enter(0), AckResume(0, false)];
    assert actions[1..] == [Enter(0), AckResume(0, false)] && actions[1..][1..] == [AckResume(0, false)];
    assert actions[1..][1..][1..] == [];
  }

  // Over every run the finalizer procedure is called at most once for each start.
  lemma FinalizerAtMostOnce(hasFinal: bool, actions: seq<Action>)
    requires IsRun(Init(hasFinal), actions)
    ensures var s := After(Init(hasFinal), actions); s.finalCalls <= |s.children|
  {
    RunKeepsInv(Init(hasFinal), actions);
  }

  // gallus_thread_start() creates a thread.
  predicate Creates(s: State, a: Action) {
    a == Start(true) && !s.activated
  }

  ghost predicate NoneCreates(s: State, actions: seq<Action>)
    requires IsRun(s, actions)
    decreases |actions|
  {
    actions == [] || (!Creates(s, actions[0]) && NoneCreates(Apply(s, actions[0]), actions[1..]))
  }

  lemma {:induction false} CallsBetweenStarts(s: State, actions: seq<Action>)
    requires IsRun(s, actions) && NoneCreates(s, actions)
    ensures s.finalCalls <= After(s, actions).finalCalls
    ensures After(s, actions).finalCalls <= s.finalCalls + if s.finalizedCount == 0 then 1 else 0
    decreases |actions|
  {
    if actions != [] { CallsBetweenStarts(Apply(s, actions[0]), actions[1..]); }
  }

  // From any start that creates a thread up to the next one, the finalizer procedure is called at
  // most once, whatever threads of earlier starts are still about.
  lemma FinalizerOncePerStart(s: State, actions: seq<Action>)
    requires Creates(s, Start(true))
    requires IsRun(Apply(s, Start(true)), actions) && NoneCreates(Apply(s, Start(true)), actions)
    ensures After(Apply(s, Start(true)), actions).finalCalls <= s.finalCalls + 1
  {
    CallsBetweenStarts(Apply(s, Start(true)), actions);
  }

  // The step by which a gallus_thread_wait() returns changes nothing else; and it returns
  // GALLUS_RESULT_OK only if nobody is in the middle of s_finalize() and somebody has been, or if
  // it has found the thread not started.
  lemma WaiterReturns(s: State, a: Action, w: nat)
    requires Enabled(s, a) && w < |s.waiters| && !s.waiters[w].WaitReturned?
    requires Apply(s, a).waiters[w].WaitReturned?
    ensures var s' := Apply(s, a);
            && s' == s.(waiters := s'.waiters)
            && (s'.waiters[w].sawStarted && s'.waiters[w].ret == WaitOk ==> s.finalizeLock == None && s.finalizedCount > 0)
            && (!s'.waiters[w].sawStarted ==> !s.started)
  {
  }

  // A gallus_thread_wait() that has seen a start and returns GALLUS_RESULT_OK: at that moment a
  // thread has been finalized to the end, and its result code is stored.
  lemma WaitMeansFinalized(hasFinal: bool, actions: seq<Action>, a: Action, w: nat)
    requires IsRun(Init(hasFinal), actions) && Enabled(After(Init(hasFinal), actions), a)
    requires var s := After(Init(hasFinal), actions); w < |s.waiters| && !s.waiters[w].WaitReturned?
    requires Apply(After(Init(hasFinal), actions), a).waiters[w] == WaitReturned(WaitOk, true)
    ensures var s' := Apply(After(Init(hasFinal), actions), a);
            && s'.finalizedCount > 0 && s'.lastFinal.Some? && s'.lastFinal.value < |s'.children|
            && s'.children[s'.lastFinal.value].place.Gone?
            && s'.resultCode == Some(s'.children[s'.lastFinal.value].place.code)
  {
    RunKeepsInv(Init(hasFinal), actions);
    var s := After(Init(hasFinal), actions);
    WaiterReturns(s, a, w);
    LastIsGone(s);
  }

  lemma LastIsGone(s: State)
    requires Inv(s) && s.finalizeLock == None && s.finalizedCount > 0
    ensures s.lastFinal.Some? && s.lastFinal.value < |s.children|
    ensures var p := s.children[s.lastFinal.value].place; p.Gone? && s.resultCode == Some(p.code)
  {
  }

  // ---------------------------------------------------------------- starts one after the other

  // A start is made only when the ones before it have returned, and none by a failed wait.
  predicate Orderly(s: State, a: Action) {
    a.Start? ==> forall i :: 0 <= i < |s.starters| ==>
                   s.starters[i].StartReturned? && s.starters[i].result != StartWaitFailed
  }

  predicate LastPast(s: State) {
    s.children == [] || Past(s.children[|s.children| - 1].place)
  }

  ghost predicate Serial(s: State) {
    && (forall k :: 0 <= k < |s.children| - 1 ==> Past(s.children[k].place))
    && (s.children == [] ==> !s.activated && !s.started && s.finalizedCount == 0)
    && (s.children != [] ==>
          var p := s.children[|s.children| - 1].place;
          && s.started == !p.Born? && s.activated == (!p.Born? && !Past(p))
          && s.finalizedCount == (if Past(p) then 1 else 0)
          && (Past(p) ==> s.lastFinal == Some(|s.children| - 1))
          && (p.Born? ==> exists i :: 0 <= i < |s.starters| &&
                                      (s.starters[i].Starting? || s.starters[i] == StartReturned(StartWaitFailed))))
    && s.finalCalls == if !s.hasFinal then 0 else if LastPast(s) then |s.children| else |s.children| - 1
  }

  lemma StartSerial(s: State, created: bool)
    requires Serial(s) && Orderly(s, Start(created))
    ensures Serial(Apply(s, Start(created)))
  {
    var s' := Apply(s, Start(created));
    if s'.children != s.children { assert s'.starters[|s.starters|].Starting?; }
  }

  lemma StartResumeSerial(s: State, i: nat, ok: bool)
    requires Serial(s) && Enabled(s, StartResume(i, ok))
    ensures Serial(Apply(s, StartResume(i, ok)))
  {
    var s' := Apply(s, StartResume(i, ok));
    if s.children != [] && s.children[|s.children| - 1].place.Born? {
      var j :| 0 <= j < |s.starters| && (s.starters[j].Starting? || s.starters[j] == StartReturned(StartWaitFailed));
      assert s'.starters[j].Starting? || s'.starters[j] == StartReturned(StartWaitFailed);
    }
  }

  lemma ChildSerial(s: State, a: Action)
    requires Serial(s) && LockOk(s) && Enabled(s, a)
    requires a.Enter? || a.AckResume? || a.MainEnds? || a.Store? || a.Finalize? || a.Release?
    ensures Serial(Apply(s, a))
  {
    var s' := Apply(s, a);
    assert a.k == |s.children| - 1 || Past(s.children[a.k].place);
    assert s'.starters == s.starters;
  }

  lemma SerialKept(s: State, a: Action)
    requires Serial(s) && LockOk(s) && Enabled(s, a) && Orderly(s, a)
    ensures Serial(Apply(s, a))
  {
    match a
    case Start(created) => StartSerial(s, created);
    case StartResume(i, ok) => StartResumeSerial(s, i, ok);
    case Wait =>
    case ExitResume(w, _) =>
    case CheckStarted(w) =>
    case LockFinalize(w) =>
    case FinalizeResume(w, _) =>
    case _ => ChildSerial(s, a);
  }

  ghost predicate IsOrderlyRun(s: State, actions: seq<Action>)
    decreases |actions|
  {
    actions == [] ||
    (Enabled(s, actions[0]) && Orderly(s, actions[0]) && IsOrderlyRun(Apply(s, actions[0]), actions[1..]))
  }

  lemma {:induction false} OrderlyRun(s: State, actions: seq<Action>)
    requires Inv(s) && Serial(s) && IsOrderlyRun(s, actions)
    ensures IsRun(s, actions) && Inv(After(s, actions)) && Serial(After(s, actions))
    decreases |actions|
  {
    if actions != [] {
      InvKept(s, actions[0]);
      SerialKept(s, actions[0]);
      OrderlyRun(Apply(s, actions[0]), actions[1..]);
    }
  }

  // When starts do not overlap, threads of one object run one at a time, and the finalizer
  // procedure has been called exactly once for every start whose thread is finalized.
  lemma FinalizerExactlyOnce(hasFinal: bool, actions: seq<Action>)
    requires IsOrderlyRun(Init(hasFinal), actions)
    ensures IsRun(Init(hasFinal), actions)
    ensures var s := After(Init(hasFinal), actions);
            && (forall k :: 0 <= k < |s.children| - 1 ==> Past(s.children[k].place))
            && (hasFinal ==> s.finalCalls == |s.children| - if LastPast(s) then 0 else 1)
  {
    OrderlyRun(Init(hasFinal), actions);
    HasFinalKept(Init(hasFinal), actions);
  }

  lemma {:induction false} HasFinalKept(s: State, actions: seq<Action>)
    requires IsRun(s, actions)
    ensures After(s, actions).hasFinal == s.hasFinal
    decreases |actions|
  {
    if actions != [] { HasFinalKept(Apply(s, actions[0]), actions[1..]); }
  }

  // Two threads of the object are about.
  ghost predicate Overlapping(s: State) {
    exists j, k :: 0 <= j < k < |s.children| && !Past(s.children[j].place) && !Past(s.children[k].place)
  }

  // Of starts made one after the other so far, another one makes two threads run on the object if
  // and only if it succeeds in creating one while the last thread has not begun to run yet.
  lemma OverlapIff(hasFinal: bool, actions: seq<Action>, created: bool)
    requires IsOrderlyRun(Init(hasFinal), actions) && IsRun(Init(hasFinal), actions)
    ensures var s := After(Init(hasFinal), actions);
            Overlapping(Apply(s, Start(created))) <==>
            created && s.children != [] && s.children[|s.children| - 1].place.Born?
  {
    OrderlyRun(Init(hasFinal), actions);
    var s := After(Init(hasFinal), actions);
    var s' := Apply(s, Start(created));
    var n := |s.children|;
    forall k | 0 <= k < n - 1 ensures Past(s'.children[k].place) {}
    if created && n > 0 && s.children[n - 1].place.Born? {
      assert !Past(s'.children[n - 1].place) && !Past(s'.children[n].place);
    }
  }

  // That takes a start that has not returned, or that has returned because its wait failed.
  lemma OrderlyStartsApart(hasFinal: bool, actions: seq<Action>, created: bool)
    requires IsOrderlyRun(Init(hasFinal), actions) && IsRun(Init(hasFinal), actions)
    requires Orderly(After(Init(hasFinal), actions), Start(created))
    ensures !Overlapping(Apply(After(Init(hasFinal), actions), Start(created)))
  {
    OrderlyRun(Init(hasFinal), actions);
    OverlapIff(hasFinal, actions, created);
  }

  // Two starts that overlap run two threads on one object.
  lemma OverlappingStarts(hasFinal: bool) returns (actions: seq<Action>)
    ensures IsRun(Init(hasFinal), actions)
    ensures var s := After(Init(hasFinal), actions);
            |s.children| == 2 && s.children[0].place == WaitingAck && s.children[1].place == WaitingAck
  {
    actions := [Start(true), Start(true), Enter(0), Enter(1)];
    assert actions[1..] == [Start(true), Enter(0), Enter(1)] && actions[1..][1..] == [Enter(0), Enter(1)];
    assert actions[1..][1..][1..] == [Enter(1)] && actions[1..][1..][1..][1..] == [];
  }

  // So does a start made after one whose wait failed: both main procedures run, on the
  // acknowledgement of the second start alone.
  lemma StartAfterFailedWait(hasFinal: bool) returns (actions: seq<Action>)
    ensures IsRun(Init(hasFinal), actions)
    ensures var s := After(Init(hasFinal), actions);
            && |s.children| == 2 && s.children[0].place == InMain && s.children[1].place == InMain
            && s.starters == [StartReturned(StartWaitFailed), StartReturned(Started(1))]
            && !s.children[0].ackFailed && !Acknowledged(s, 0)
  {
    var s0 := Init(hasFinal);
    var s1 := Apply(s0, Start(true));
    var s2 := Apply(s1, StartResume(0, false));
    var s3 := Apply(s2, Start(true));
    var s4 := Apply(s3, Enter(0));
    var s5 := Apply(s4, Enter(1));
    var s6 := Apply(s5, StartResume(1, true));
    var s7 := Apply(s6, AckResume(0, true));
    var s8 := Apply(s7, AckResume(1, true));
    actions := RunBefore(s7, AckResume(1, true), []);
    actions := RunBefore(s6, AckResume(0, true), actions);
    actions := RunBefore(s5, StartResume(1, true), actions);
    actions := RunBefore(s4, Enter(1), actions);
    actions := RunBefore(s3, Enter(0), actions);
    actions := RunBefore(s2, Start(true), actions);
    actions := RunBefore(s1, StartResume(0, false), actions);
    actions := RunBefore(s0, Start(true), actions);
    assert s8.starters == [StartReturned(StartWaitFailed), StartReturned(Started(1))];
  }

  lemma RunBefore(s: State, a: Action, rest: seq<Action>) returns (actions: seq<Action>)
    requires Enabled(s, a) && IsRun(Apply(s, a), rest)
    ensures actions == [a] + rest && IsRun(s, actions) && After(s, actions) == After(Apply(s, a), rest)
  {
    actions := [a] + rest;
    assert actions[1..] == rest;
  }

  // ---------------------------------------------------------------- acknowledgements

  // The starter that created the child k has acknowledged its start.
  ghost predicate Acknowledged(s: State, k: nat) {
    exists i :: 0 <= i < |s.starters| && s.starters[i] == StartReturned(Started(k))
  }

  // What starts one after the other keep: only the last thread can still be unacknowledged.
  ghost predicate OwnAcks(s: State) {
    && (forall i :: 0 <= i < |s.starters| && s.starters[i].Starting? ==> s.starters[i].child == |s.children| - 1)
    && (s.children != [] && s.syncDone ==> Acknowledged(s, |s.children| - 1))
    && forall k :: 0 <= k < |s.children| && HasBegun(s.children[k].place) && !s.children[k].ackFailed ==>
                     Acknowledged(s, k)
  }

  lemma AcknowledgedStays(s: State, a: Action, k: nat)
    requires Enabled(s, a) && Acknowledged(s, k)
    ensures Acknowledged(Apply(s, a), k)
  {
    var i :| 0 <= i < |s.starters| && s.starters[i] == StartReturned(Started(k));
    assert Apply(s, a).starters[i] == StartReturned(Started(k));
  }

  lemma OwnAcksKept(s: State, a: Action)
    requires OwnAcks(s) && Serial(s) && Enabled(s, a) && Orderly(s, a)
    ensures OwnAcks(Apply(s, a))
  {
    var s' := Apply(s, a);
    StartersKept(s, a);
    if a.StartResume? && s'.acks > s.acks {
      assert s'.starters[a.i] == StartReturned(Started(|s.children| - 1));
    } else if s'.children != [] && s'.syncDone {
      AcknowledgedStays(s, a, |s.children| - 1);
    }
    forall k | 0 <= k < |s'.children| && HasBegun(s'.children[k].place) && !s'.children[k].ackFailed
      ensures Acknowledged(s', k)
    {
      BegunBefore(s, a, k);
      AcknowledgedStays(s, a, k);
    }
  }

  lemma StartersKept(s: State, a: Action)
    requires OwnAcks(s) && Enabled(s, a) && Orderly(s, a)
    ensures var s' := Apply(s, a);
            forall i :: 0 <= i < |s'.starters| && s'.starters[i].Starting? ==> s'.starters[i].child == |s'.children| - 1
  {
  }

  // A main procedure that has begun was acknowledged before the step.
  lemma BegunBefore(s: State, a: Action, k: nat)
    requires OwnAcks(s) && Serial(s) && Enabled(s, a) && k < |Apply(s, a).children|
    requires var c := Apply(s, a).children[k]; HasBegun(c.place) && !c.ackFailed
    ensures Acknowledged(s, k)
  {
    BeginsBy(s, a, k);
    if !(HasBegun(s.children[k].place) && !s.children[k].ackFailed) {
      assert k == |s.children| - 1;
    }
  }

  // A main procedure begins acknowledged by two steps only, both of which see the acknowledgement.
  lemma BeginsBy(s: State, a: Action, k: nat)
    requires Enabled(s, a) && k < |Apply(s, a).children|
    requires var c := Apply(s, a).children[k]; HasBegun(c.place) && !c.ackFailed
    ensures k < |s.children| && !s.children[k].ackFailed
    ensures HasBegun(s.children[k].place) || (s.syncDone && !Past(s.children[k].place))
  {
    match a
    case Start(created) =>
    case Enter(j) =>
    case AckResume(j, ok) =>
    case _ =>
  }

  lemma {:induction false} OwnAcksRun(s: State, actions: seq<Action>)
    requires Inv(s) && Serial(s) && OwnAcks(s) && IsOrderlyRun(s, actions) && IsRun(s, actions)
    ensures OwnAcks(After(s, actions))
    decreases |actions|
  {
    if actions != [] {
      OwnAcksKept(s, actions[0]);
      InvKept(s, actions[0]);
      SerialKept(s, actions[0]);
      OwnAcksRun(Apply(s, actions[0]), actions[1..]);
    }
  }

  // When starts do not overlap, a main procedure begins only after the start that created its
  // thread has acknowledged it, unless the thread's wait for that fails.
  lemma MainAfterOwnAck(hasFinal: bool, actions: seq<Action>, k: nat)
    requires IsOrderlyRun(Init(hasFinal), actions) && IsRun(Init(hasFinal), actions)
    requires k < |After(Init(hasFinal), actions).children|
    requires var c := After(Init(hasFinal), actions).children[k]; HasBegun(c.place) && !c.ackFailed
    ensures Acknowledged(After(Init(hasFinal), actions), k)
  {
    OwnAcksRun(Init(hasFinal), actions);
  }

  // ---------------------------------------------------------------- waiting after a start

  // A wait that began after the last start returned: if it is over with GALLUS_RESULT_OK, the
  // thread of that start is gone and its result code stored.
  ghost predicate WaitSound(s: State, w: nat) {
    && s.children != [] && s.started && w < |s.waiters|
    && (s.waiters[w].WaitReturned? && s.waiters[w].ret == WaitOk ==>
          var p := s.children[|s.children| - 1].place;
          p.Gone? && s.resultCode == Some(p.code))
  }

  lemma WaitSoundKept(s: State, a: Action, w: nat)
    requires Inv(s) && Serial(s) && WaitSound(s, w) && Enabled(s, a) && !a.Start?
    ensures WaitSound(Apply(s, a), w)
  {
    StartedStays(s, a, w);
    if s.waiters[w].WaitReturned? {
      if s.waiters[w].ret == WaitOk { GoneStays(s, a); }
    } else if Apply(s, a).waiters[w].WaitReturned? {
      WaiterReturns(s, a, w);
      if s.finalizeLock == None && s.finalizedCount > 0 { LastFinalized(s); }
    }
  }

  lemma StartedStays(s: State, a: Action, w: nat)
    requires Enabled(s, a) && !a.Start? && s.started && w < |s.waiters|
    ensures var s' := Apply(s, a);
            && s'.started && |s'.children| == |s.children| && w < |s'.waiters|
            && (s.waiters[w].WaitReturned? ==> s'.waiters[w] == s.waiters[w])
  {
  }

  lemma GoneStays(s: State, a: Action)
    requires Inv(s) && Serial(s) && Enabled(s, a) && !a.Start?
    requires s.children != [] && s.children[|s.children| - 1].place.Gone?
    ensures Apply(s, a).children == s.children && Apply(s, a).resultCode == s.resultCode
  {
    assert forall k :: 0 <= k < |s.children| ==> Past(s.children[k].place);
    assert s.finalizeLock == None;
  }

  // Of orderly starts, the thread finalized last is that of the last start.
  lemma LastFinalized(s: State)
    requires Inv(s) && Serial(s) && s.finalizeLock == None && s.finalizedCount > 0
    ensures s.children != []
    ensures var p := s.children[|s.children| - 1].place; p.Gone? && s.resultCode == Some(p.code)
  {
  }

  lemma {:induction false} WaitSoundRun(s: State, actions: seq<Action>, w: nat)
    requires Inv(s) && Serial(s) && WaitSound(s, w) && IsRun(s, actions)
    requires forall i :: 0 <= i < |actions| ==> !actions[i].Start?
    ensures WaitSound(After(s, actions), w)
    decreases |actions|
  {
    if actions != [] {
      assert !actions[0].Start?;
      InvKept(s, actions[0]);
      SerialKept(s, actions[0]);
      WaitSoundKept(s, actions[0], w);
      WaitSoundRun(Apply(s, actions[0]), actions[1..], w);
    }
  }

  // After a start that has returned GALLUS_RESULT_OK, starts not overlapping and no other start
  // following, a gallus_thread_wait() returns GALLUS_RESULT_OK only when the thread is finalized
  // to the end and its result code is stored.
  lemma WaitAfterStart(hasFinal: bool, before: seq<Action>, after: seq<Action>)
    requires IsOrderlyRun(Init(hasFinal), before) && IsRun(Init(hasFinal), before)
    requires var s := After(Init(hasFinal), before); s.children != [] && s.started
    requires IsRun(Apply(After(Init(hasFinal), before), Wait), after)
    requires forall i :: 0 <= i < |after| ==> !after[i].Start?
    ensures var s := After(Init(hasFinal), before);
            var s', w := After(Apply(s, Wait), after), |s.waiters|;
            && w < |s'.waiters| && s'.children != []
            && (s'.waiters[w].WaitReturned? && s'.waiters[w].ret == WaitOk ==>
                  var p := s'.children[|s'.children| - 1].place;
                  p.Gone? && s'.resultCode == Some(p.code))
  {
    OrderlyRun(Init(hasFinal), before);
    var s := After(Init(hasFinal), before);
    InvKept(s, Wait);
    SerialKept(s, Wait);
    WaitSoundRun(Apply(s, Wait), after, |s.waiters|);
  }

  // ---------------------------------------------------------------- what a start comes to

  // After orderly starts, another one is refused exactly while the thread of the last start is
  // between its entry and its finalization.  Otherwise it creates a thread that is still to run and
  // that nobody has acknowledged, or fails to and changes nothing.
  lemma StartOutcome(hasFinal: bool, actions: seq<Action>, created: bool)
    requires IsOrderlyRun(Init(hasFinal), actions) && IsRun(Init(hasFinal), actions)
    ensures var s := After(Init(hasFinal), actions);
            var t := Apply(s, Start(created));
            var busy := s.children != [] && !s.children[|s.children| - 1].place.Born? && !LastPast(s);
            && t.starters == s.starters + [if busy then StartReturned(AlreadyExists)
                                           else if created then Starting(|s.children|) else StartReturned(CreateFailed)]
            && (busy || !created ==> t == s.(starters := t.starters))
            && (!busy && created ==> t.children == s.children + [Child(Born, s.acks, false)] && t.finalCalls == s.finalCalls)
  {
    OrderlyRun(Init(hasFinal), actions);
  }

  predicate HasEnded(p: Place) { p.Exiting? || p.Storing? || p.Leaving? || p.Gone? }

  // The code a thread ends with is the one its main procedure has ended with.
  lemma {:induction false} CodeFromMain(s: State, actions: seq<Action>, k: nat)
    requires IsRun(s, actions) && k < |After(s, actions).children| && HasEnded(After(s, actions).children[k].place)
    ensures var code := After(s, actions).children[k].place.code;
            || MainEnds(k, code) in actions
            || (k < |s.children| && HasEnded(s.children[k].place) && s.children[k].place.code == code)
    decreases |actions|
  {
    if actions != [] {
      var s1 := Apply(s, actions[0]);
      CodeFromMain(s1, actions[1..], k);
      if k < |s1.children| && HasEnded(s1.children[k].place) { CodeStep(s, actions[0], k); }
    }
  }

  lemma CodeStep(s: State, a: Action, k: nat)
    requires Enabled(s, a) && k < |Apply(s, a).children| && HasEnded(Apply(s, a).children[k].place)
    ensures var code := Apply(s, a).children[k].place.code;
            a == MainEnds(k, code) || (k < |s.children| && HasEnded(s.children[k].place) && s.children[k].place.code == code)
  {
    match a
    case Start(created) =>
    case _ =>
  }

  // The result code of the object, once a gallus_thread_wait() that saw a start has returned
  // GALLUS_RESULT_OK: a main procedure has ended with it.
  lemma ResultFromMain(hasFinal: bool, actions: seq<Action>, a: Action, w: nat)
    requires IsRun(Init(hasFinal), actions) && Enabled(After(Init(hasFinal), actions), a)
    requires var s := After(Init(hasFinal), actions); w < |s.waiters| && !s.waiters[w].WaitReturned?
    requires Apply(After(Init(hasFinal), actions), a).waiters[w] == WaitReturned(WaitOk, true)
    ensures var s' := Apply(After(Init(hasFinal), actions), a);
            && s'.lastFinal.Some? && s'.resultCode.Some?
            && MainEnds(s'.lastFinal.value, s'.resultCode.value) in actions
  {
    WaitMeansFinalized(hasFinal, actions, a, w);
    var s := After(Init(hasFinal), actions);
    WaiterReturns(s, a, w);
    CodeFromMain(Init(hasFinal), actions, s.lastFinal.value);
  }

  // ---------------------------------------------------------------- what a wait returns

  predicate IsResume(a: Action, w: nat) {
    (a.ExitResume? || a.FinalizeResume?) && a.w == w
  }

  // Whether the last of the caller's condition waits ended well, ok being how the one before did.
  function LastOk(actions: seq<Action>, w: nat, ok: bool): bool {
    if actions == [] then ok
    else LastOk(actions[1..], w, if IsResume(actions[0], w) then actions[0].ok else ok)
  }

  predicate Tells(x: Waiter, ok: bool) {
    x.CheckingStarted? || x.LockingFinalize? || x.WaitReturned? ==> x.ret == if ok then WaitOk else WaitFailed
  }

  lemma TellsStep(s: State, a: Action, w: nat, ok: bool)
    requires Enabled(s, a) && w < |s.waiters| && Tells(s.waiters[w], ok)
    ensures w < |Apply(s, a).waiters|
    ensures Tells(Apply(s, a).waiters[w], if IsResume(a, w) then a.ok else ok)
  {
    match a
    case Wait =>
    case ExitResume(v, _) =>
    case CheckStarted(v) =>
    case LockFinalize(v) =>
    case FinalizeResume(v, _) =>
    case _ =>
  }

  lemma {:induction false} TellsRun(s: State, actions: seq<Action>, w: nat, ok: bool)
    requires IsRun(s, actions) && w < |s.waiters| && Tells(s.waiters[w], ok)
    ensures w < |After(s, actions).waiters| && Tells(After(s, actions).waiters[w], LastOk(actions, w, ok))
    decreases |actions|
  {
    if actions != [] {
      TellsStep(s, actions[0], w, ok);
      TellsRun(Apply(s, actions[0]), actions[1..], w, if IsResume(actions[0], w) then actions[0].ok else ok);
    }
  }

  // A gallus_thread_wait() returns GALLUS_RESULT_OK if and only if the last of its condition waits
  // ended well, or it did not wait at all: a failure before that is forgotten.
  lemma WaitOkIff(s: State, actions: seq<Action>)
    requires IsRun(Apply(s, Wait), actions)
    ensures var t, w := After(Apply(s, Wait), actions), |s.waiters|;
            && w < |t.waiters|
            && (t.waiters[w].WaitReturned? ==> (t.waiters[w].ret == WaitOk <==> LastOk(actions, w, true)))
  {
    TellsRun(Apply(s, Wait), actions, |s.waiters|, true);
  }

  // What is left for a caller to do, its waits all ending well or all failing.
  function OwnSteps(s: State, w: nat, ok: bool): seq<Action>
    requires w < |s.waiters|
  {
    var wait := [FinalizeResume(w, ok)];
    var lock := [LockFinalize(w)] + if s.finalizedCount == 0 then wait else [];
    var check := [CheckStarted(w)] + if s.started then lock else [];
    match s.waiters[w]
    case WaitingExit => [ExitResume(w, ok)] + check
    case CheckingStarted(_) => check
    case LockingFinalize(_) => lock
    case WaitingFinalize => wait
    case WaitReturned(_, _) => []
  }

  // Nobody has to do anything for the caller's waits to end.
  predicate CanFinish(s: State, w: nat, ok: bool)
    requires w < |s.waiters|
  {
    s.finalizeLock == None && (ok ==> s.finalizedCount > 0 && (s.waiters[w].WaitingExit? ==> !s.activated))
  }

  lemma LockFinishes(s: State, w: nat, ok: bool)
    requires w < |s.waiters| && CanFinish(s, w, ok) && s.waiters[w].LockingFinalize?
    ensures IsRun(s, OwnSteps(s, w, ok))
    ensures After(s, OwnSteps(s, w, ok))
         == MoveWaiter(s, w, WaitReturned(if s.finalizedCount == 0 then WaitFailed else s.waiters[w].ret, true))
  {
    var s1 := Apply(s, LockFinalize(w));
    var steps := [];
    if s.finalizedCount == 0 { steps := RunBefore(s1, FinalizeResume(w, ok), []); }
    steps := RunBefore(s, LockFinalize(w), steps);
    assert steps == OwnSteps(s, w, ok);
  }

  lemma CheckFinishes(s: State, w: nat, ok: bool)
    requires w < |s.waiters| && CanFinish(s, w, ok) && s.waiters[w].CheckingStarted?
    ensures IsRun(s, OwnSteps(s, w, ok))
    ensures After(s, OwnSteps(s, w, ok))
         == MoveWaiter(s, w, WaitReturned(if s.started && s.finalizedCount == 0 then WaitFailed else s.waiters[w].ret,
                                          s.started))
  {
    var s1 := Apply(s, CheckStarted(w));
    var steps := [];
    if s.started {
      LockFinishes(s1, w, ok);
      steps := OwnSteps(s1, w, ok);
    }
    steps := RunBefore(s, CheckStarted(w), steps);
    assert steps == OwnSteps(s, w, ok);
  }

  // Once a thread is finalized to the end, whoever is in gallus_thread_wait() needs nobody else to
  // return, with the code of the waits it has made; a caller that still waits for the exit needs
  // m_is_activated down for that.  With its waits failing, a caller always returns by itself once
  // m_finalize_lock is free: a time-out is kept, whatever the thread does.
  lemma WaiterFinishes(s: State, w: nat, ok: bool)
    requires w < |s.waiters| && CanFinish(s, w, ok)
    ensures IsRun(s, OwnSteps(s, w, ok))
    ensures var x, t := s.waiters[w], After(s, OwnSteps(s, w, ok));
            var end := if ok then WaitOk else WaitFailed;
            var again := s.finalizedCount == 0;
            t == MoveWaiter(s, w, match x
                                  case WaitingExit => WaitReturned(end, s.started)
                                  case CheckingStarted(ret) => WaitReturned(if s.started && again then end else ret, s.started)
                                  case LockingFinalize(ret) => WaitReturned(if again then end else ret, true)
                                  case WaitingFinalize => WaitReturned(end, true)
                                  case WaitReturned(_, _) => x)
  {
    match s.waiters[w]
    case WaitingExit =>
      var s1 := Apply(s, ExitResume(w, ok));
      CheckFinishes(s1, w, ok);
      var steps := RunBefore(s, ExitResume(w, ok), OwnSteps(s1, w, ok));
      assert steps == OwnSteps(s, w, ok);
    case CheckingStarted(_) => CheckFinishes(s, w, ok);
    case LockingFinalize(_) => LockFinishes(s, w, ok);
    case WaitingFinalize =>
      var steps := RunBefore(s, FinalizeResume(w, ok), []);
      assert steps == OwnSteps(s, w, ok);
    case WaitReturned(_, _) =>
      assert s.waiters[w := s.waiters[w]] == s.waiters;
  }

  // With no thread active, a caller returns GALLUS_RESULT_OK without waiting at all, if the last
  // start has been finalized or there was none.
  lemma NoWait(s: State)
    requires !s.activated && s.finalizeLock == None && (s.started ==> s.finalizedCount > 0)
    ensures var s1, w := Apply(s, Wait), |s.waiters|;
            var steps := [CheckStarted(w)] + if s.started then [LockFinalize(w)] else [];
            IsRun(s1, steps) && After(s1, steps) == s.(waiters := s.waiters + [WaitReturned(WaitOk, s.started)])
  {
    CheckFinishes(Apply(s, Wait), |s.waiters|, false);
  }

  // While a thread is active and not finalized, a caller that does not give up stays in its wait.
  lemma {:induction false} WaitsForExit(s: State, actions: seq<Action>, w: nat)
    requires s.activated && w < |s.waiters| && s.waiters[w].WaitingExit? && IsRun(s, actions)
    requires ExitResume(w, false) !in actions && forall a :: a in actions ==> !a.Finalize?
    ensures w < |After(s, actions).waiters| && After(s, actions).waiters[w].WaitingExit?
    decreases |actions|
  {
    if actions != [] {
      var a := actions[0];
      assert a in actions;
      StillActive(s, a, w);
      WaitsForExit(Apply(s, a), actions[1..], w);
    }
  }

  lemma StillActive(s: State, a: Action, w: nat)
    requires s.activated && w < |s.waiters| && s.waiters[w].WaitingExit? && Enabled(s, a)
    requires a != ExitResume(w, false) && !a.Finalize?
    ensures var t := Apply(s, a); t.activated && w < |t.waiters| && t.waiters[w].WaitingExit?
  {
    match a
    case ExitResume(v, ok) =>
    case _ =>
  }

  lemma WaitHolds(s: State, actions: seq<Action>)
    requires s.activated && IsRun(Apply(s, Wait), actions)
    requires ExitResume(|s.waiters|, false) !in actions && forall a :: a in actions ==> !a.Finalize?
    ensures var t := After(Apply(s, Wait), actions); |s.waiters| < |t.waiters| && t.waiters[|s.waiters|].WaitingExit?
  {
    WaitsForExit(Apply(s, Wait), actions, |s.waiters|);
  }

  // A start returns only after a thread has entered, unless its wait fails.
  lemma {:induction false} StartHolds(s: State, actions: seq<Action>, i: nat)
    requires !s.started && i < |s.starters| && s.starters[i].Starting? && IsRun(s, actions)
    requires StartResume(i, false) !in actions && forall a :: a in actions ==> !a.Enter?
    ensures i < |After(s, actions).starters| && After(s, actions).starters[i] == s.starters[i]
    decreases |actions|
  {
    if actions != [] {
      var a := actions[0];
      assert a in actions;
      var t := Apply(s, a);
      assert !t.started && i < |t.starters| && t.starters[i] == s.starters[i];
      StartHolds(t, actions[1..], i);
    }
  }

  // A thread that enters waits for an acknowledgement exactly if there has been none since the last
  // start, and then until there is one, unless its wait fails.
  lemma {:induction false} AckHolds(s: State, actions: seq<Action>, k: nat)
    requires k < |s.children| && Enabled(s, Enter(k)) && IsRun(Apply(s, Enter(k)), actions)
    requires AckResume(k, false) !in actions && forall a :: a in actions ==> !a.StartResume?
    requires MainEndsNot(actions, k)
    ensures var p := After(Apply(s, Enter(k)), actions).children; k < |p|
    ensures !s.syncDone ==> After(Apply(s, Enter(k)), actions).children[k].place.WaitingAck?
    ensures s.syncDone ==> After(Apply(s, Enter(k)), actions).children[k].place.InMain?
  {
    if s.syncDone { InMainHolds(Apply(s, Enter(k)), actions, k); } else { AckWaits(Apply(s, Enter(k)), actions, k); }
  }

  predicate MainEndsNot(actions: seq<Action>, k: nat) {
    forall i :: 0 <= i < |actions| ==> !(actions[i].MainEnds? && actions[i].k == k)
  }

  lemma {:induction false} AckWaits(s: State, actions: seq<Action>, k: nat)
    requires k < |s.children| && s.children[k].place.WaitingAck? && !s.syncDone && IsRun(s, actions)
    requires AckResume(k, false) !in actions && forall a :: a in actions ==> !a.StartResume?
    ensures k < |After(s, actions).children| && After(s, actions).children[k].place.WaitingAck?
    decreases |actions|
  {
    if actions != [] {
      var a := actions[0];
      assert a in actions;
      var t := Apply(s, a);
      assert !t.syncDone && k < |t.children| && t.children[k].place.WaitingAck?;
      AckWaits(t, actions[1..], k);
    }
  }

  lemma {:induction false} InMainHolds(s: State, actions: seq<Action>, k: nat)
    requires k < |s.children| && s.children[k].place.InMain? && IsRun(s, actions) && MainEndsNot(actions, k)
    ensures k < |After(s, actions).children| && After(s, actions).children[k].place.InMain?
    decreases |actions|
  {
    if actions != [] {
      var t := Apply(s, actions[0]);
      assert k < |t.children| && t.children[k].place.InMain?;
      InMainHolds(t, actions[1..], k);
    }
  }

  // ---------------------------------------------------------------- from the start to the end

  // A start with nobody in the way: the thread enters, the start acknowledges it.
  lemma StartRuns(s: State) returns (steps: seq<Action>)
    requires !s.activated
    ensures IsRun(s, steps)
    ensures var t, k := After(s, steps), |s.children|;
            && t.activated && t.started && t.finalizedCount == 0 && t.finalizeLock == s.finalizeLock
            && t.children == s.children + [Child(InMain, s.acks, false)]
            && t.starters == s.starters + [StartReturned(Started(k))]
            && t.waiters == s.waiters && t.hasFinal == s.hasFinal && t.finalCalls == s.finalCalls
  {
    var k, i := |s.children|, |s.starters|;
    var s1 := Apply(s, Start(true));
    var s2 := Apply(s1, Enter(k));
    var s3 := Apply(s2, StartResume(i, true));
    steps := RunBefore(s3, AckResume(k, true), []);
    steps := RunBefore(s2, StartResume(i, true), steps);
    steps := RunBefore(s1, Enter(k), steps);
    steps := RunBefore(s, Start(true), steps);
  }

  // A main procedure ends and nobody is in the way of the finalization.
  lemma EndRuns(s: State, k: nat, code: int) returns (steps: seq<Action>)
    requires k < |s.children| && s.children[k].place.InMain? && s.finalizeLock == None
    ensures IsRun(s, steps)
    ensures var t := After(s, steps);
            && !t.activated && t.started == s.started && t.finalizedCount == s.finalizedCount + 1 && t.finalizeLock == None
            && t.children == s.children[k := s.children[k].(place := Gone(code))]
            && t.starters == s.starters && t.waiters == s.waiters && t.resultCode == Some(code) && t.lastFinal == Some(k)
            && t.finalCalls == s.finalCalls + if s.hasFinal && s.finalizedCount == 0 then 1 else 0
  {
    var s1 := Apply(s, MainEnds(k, code));
    var s2 := Apply(s1, Store(k));
    var s3 := Apply(s2, Finalize(k));
    steps := RunBefore(s3, Release(k), []);
    steps := RunBefore(s2, Finalize(k), steps);
    steps := RunBefore(s1, Store(k), steps);
    steps := RunBefore(s, MainEnds(k, code), steps);
  }

  lemma {:induction false} RunOn(s: State, xs: seq<Action>, ys: seq<Action>)
    requires IsRun(s, xs) && IsRun(After(s, xs), ys)
    ensures IsRun(s, xs + ys) && After(s, xs + ys) == After(After(s, xs), ys)
    decreases |xs|
  {
    if xs == [] {
      assert xs + ys == ys;
    } else {
      RunOn(Apply(s, xs[0]), xs[1..], ys);
      assert (xs + ys)[0] == xs[0] && (xs + ys)[1..] == xs[1..] + ys;
    }
  }

  // From any state in which no thread is active or being finalized, a thread can be started and
  // waited for to the end, whatever its code: the start succeeds, the finalizer procedure is called
  // once, the wait returns GALLUS_RESULT_OK and the object holds the code.
  lemma FullCycle(s: State, code: int) returns (steps: seq<Action>)
    requires !s.activated && s.finalizeLock == None
    ensures IsRun(s, steps)
    ensures var t, k := After(s, steps), |s.children|;
            && !t.activated && t.finalizeLock == None
            && t.children == s.children + [Child(Gone(code), s.acks, false)]
            && t.starters == s.starters + [StartReturned(Started(k))]
            && t.waiters == s.waiters + [WaitReturned(WaitOk, true)]
            && t.resultCode == Some(code)
            && t.finalCalls == s.finalCalls + if s.hasFinal then 1 else 0
  {
    var k, w := |s.children|, |s.waiters|;
    steps := StartRuns(s);
    var s1 := After(s, steps);
    var s2 := Apply(s1, Wait);
    var rest := EndRuns(s2, k, code);
    var s3 := After(s2, rest);
    WaiterFinishes(s3, w, true);
    RunOn(s2, rest, OwnSteps(s3, w, true));
    rest := RunBefore(s1, Wait, rest + OwnSteps(s3, w, true));
    RunOn(s, steps, rest);
    steps := steps + rest;
  }
}
