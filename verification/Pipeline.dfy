/**
 The pause / resume / maintenance protocol of a pipeline stage
 (framework/lib/pipeline_stage.c and framework/lib/pipeline_worker.c).

 N workers and one controller share a stage record.  The stage lock is held by the
 controller for the whole of an API call, so at most one call is in progress; the pause
 lock is released inside the condition waits.  Every action below is one critical section,
 or one unlocked read, of the C code; a run is any interleaving of enabled actions.
 A condition wait may return at any time (spurious wake-ups included).
 */
module Pipeline {
  import opened Wrappers

  datatype Status = Started | Paused | MaintenanceRequested

  // m_maint_proc: NULL, or the function passed by a given schedule_maintenance call.
  datatype MaintProc = NoProc | Proc(call: nat)

  // The branch of the worker loop through which a worker reached the barrier.
  datatype Entry = ViaPause | ViaMaintenance

  datatype Worker =
    | LoopTop                                    // about to read m_pause_requested
    | Operating                                  // inside fetch / main / throw
    | FlagSeen                                   // read the flag as true, about to read m_maint_proc
    | EnteringPause                              // called s_worker_pause
    | EnteringMaintenance                        // called s_worker_maintenance
    | AtBarrier(entry: Entry)
    | PastBarrier(entry: Entry, isMaster: bool)  // about to take the pause lock
    | WaitingResume                              // in the resume wait of s_worker_pause
    | RunningMaintenance                         // the master, inside the maintenance function
    | WaitingMaintenance                         // in the pause wait of s_worker_maintenance
    | Exited

  datatype Controller =
    | NoCall
    | PauseEntered | PauseWait
    | ResumeEntered | ResumeCleared
    | MaintEntered(call: nat, proc: MaintProc) | MaintWait(call: nat) | MaintFailing(call: nat)

  datatype FuncRun = FuncRun(call: nat, worker: nat)

  datatype Stage = Stage(
    status: Status,
    pauseRequested: bool,
    maintProc: MaintProc,
    workers: seq<Worker>,
    controller: Controller,
    lockHolder: Option<nat>,  // worker keeping the pause lock across actions, if any
    nextCall: nat,            // number given to the next schedule_maintenance call
    runs: seq<FuncRun>)       // every invocation of a maintenance function so far

  datatype Action =
    // workers
    | CheckFlag(i: nat)
    | FinishOps(i: nat, fatal: bool)
    | Leave(i: nat)
    | CheckProc(i: nat)
    | ArriveAtBarrier(i: nat)
    | TripBarrier(master: nat)
    | TakeLock(i: nat)
    | WakeUp(i: nat)
    | FinishMaintenance(i: nat)
    // the controller
    | PauseCall | PauseSet | PauseReturn | PauseTimeout
    | ResumeCall | ResumeClear | ResumeFinish
    | MaintCall(isNull: bool) | MaintSet | MaintReturn | MaintFail

  function Init(n: nat): Stage {
    Stage(Started, false, NoProc, seq(n, _ => LoopTop), NoCall, None, 0, [])
  }

  predicate Enabled(s: Stage, a: Action) {
    var n := |s.workers|;
    match a
    case CheckFlag(i) => i < n && s.workers[i].LoopTop?
    case FinishOps(i, _) => i < n && s.workers[i].Operating?
    case Leave(i) => i < n && s.workers[i].LoopTop?
    case CheckProc(i) => i < n && s.workers[i].FlagSeen?
    case ArriveAtBarrier(i) => i < n && (s.workers[i].EnteringPause? || s.workers[i].EnteringMaintenance?)
    case TripBarrier(m) => m < n && forall i :: 0 <= i < n ==> s.workers[i].AtBarrier?
    case TakeLock(i) => i < n && s.workers[i].PastBarrier? && s.lockHolder.None?
    case WakeUp(i) => i < n && (s.workers[i].WaitingResume? || s.workers[i].WaitingMaintenance?) && s.lockHolder.None?
    case FinishMaintenance(i) => i < n && s.workers[i].RunningMaintenance?
    case PauseCall => s.controller.NoCall?
    case PauseSet => s.controller.PauseEntered? && s.lockHolder.None?
    case PauseReturn => s.controller.PauseWait? && s.lockHolder.None? && s.status == Paused
    case PauseTimeout => s.controller.PauseWait? && s.lockHolder.None?
    case ResumeCall => s.controller.NoCall?
    case ResumeClear => s.controller.ResumeEntered? && s.lockHolder.None?
    case ResumeFinish => s.controller.ResumeCleared?
    case MaintCall(_) => s.controller.NoCall?
    case MaintSet => s.controller.MaintEntered? && s.lockHolder.None?
    case MaintReturn => s.controller.MaintWait? && s.lockHolder.None? && s.status != MaintenanceRequested
    case MaintFail => s.controller.MaintFailing?
  }

  function SetWorker(s: Stage, i: nat, w: Worker): Stage
    requires i < |s.workers|
  {
    s.(workers := s.workers[i := w])
  }

  function Apply(s: Stage, a: Action): Stage
    requires Enabled(s, a)
  {
    match a
    case CheckFlag(i) => SetWorker(s, i, if s.pauseRequested then FlagSeen else Operating)
    case FinishOps(i, fatal) => SetWorker(s, i, if fatal then Exited else LoopTop)
    case Leave(i) => SetWorker(s, i, Exited)
    case CheckProc(i) => SetWorker(s, i, if s.maintProc.Proc? then EnteringMaintenance else EnteringPause)
    case ArriveAtBarrier(i) =>
      if s.workers[i].EnteringPause? then SetWorker(s, i, AtBarrier(ViaPause))
      else if s.maintProc.NoProc? then SetWorker(s, i, LoopTop)
      else SetWorker(s, i, AtBarrier(ViaMaintenance))
    case TripBarrier(m) =>
      s.(workers := seq(|s.workers|,
           i requires 0 <= i < |s.workers| => PastBarrier(s.workers[i].entry, i == m)))
    case TakeLock(i) => LockTaken(s, i)
    case WakeUp(i) =>
      if s.workers[i].WaitingResume? then
        (if s.pauseRequested then s else SetWorker(s, i, LoopTop))
      else
        (if s.status != Started then s else SetWorker(s, i, LoopTop))
    case FinishMaintenance(i) =>
      SetWorker(s, i, LoopTop).(maintProc := NoProc, pauseRequested := false, status := Started, lockHolder := None)
    case PauseCall => if s.status == Started then s.(controller := PauseEntered) else s
    case PauseSet => s.(pauseRequested := true, controller := PauseWait)
    case PauseReturn => s.(controller := NoCall)
    case PauseTimeout => s.(controller := NoCall)
    case ResumeCall => if s.status == Paused then s.(controller := ResumeEntered) else s
    case ResumeClear => s.(pauseRequested := false, controller := ResumeCleared)
    case ResumeFinish => s.(status := Started, controller := NoCall)
    case MaintCall(isNull) =>
      if s.status == Started then
        s.(controller := MaintEntered(s.nextCall, if isNull then NoProc else Proc(s.nextCall)),
           nextCall := s.nextCall + 1)
      else s
    case MaintSet =>
      s.(status := MaintenanceRequested, maintProc := s.controller.proc, pauseRequested := true,
         controller := MaintWait(s.controller.call))
    case MaintReturn =>
      if s.status == Started then s.(controller := NoCall) else s.(controller := MaintFailing(s.controller.call))
    case MaintFail => s.(pauseRequested := false, maintProc := NoProc, controller := NoCall)
  }

  // A worker that has passed the barrier enters the critical section after it.
  function LockTaken(s: Stage, i: nat): Stage
    requires i < |s.workers| && s.workers[i].PastBarrier?
  {
    match s.workers[i]
    case PastBarrier(ViaPause, isMaster) =>
      var s1 := if isMaster then s.(status := Paused) else s;
      SetWorker(s1, i, if s.pauseRequested then WaitingResume else LoopTop)
    case PastBarrier(ViaMaintenance, isMaster) =>
      if isMaster then
        SetWorker(s, i, RunningMaintenance)
          .(lockHolder := Some(i),
            runs := if s.maintProc.Proc? then s.runs + [FuncRun(s.maintProc.call, i)] else s.runs)
      else
        SetWorker(s, i, if s.status != Started then WaitingMaintenance else LoopTop)
  }

  // ---------------------------------------------------------------- runs

  predicate IsRun(s: Stage, actions: seq<Action>)
    decreases |actions|
  {
    actions == [] || (Enabled(s, actions[0]) && IsRun(Apply(s, actions[0]), actions[1..]))
  }

  function After(s: Stage, actions: seq<Action>): Stage
    requires IsRun(s, actions)
    decreases |actions|
  {
    if actions == [] then s else After(Apply(s, actions[0]), actions[1..])
  }

  // What a caller has to respect: a maintenance function is not NULL, and maintenance is not
  // scheduled while an earlier pause that timed out still has its request flag up.
  predicate Proper(s: Stage, a: Action) {
    a.MaintCall? && s.status == Started ==> !a.isNull && !s.pauseRequested
  }

  predicate ProperRun(s: Stage, actions: seq<Action>)
    requires IsRun(s, actions)
    decreases |actions|
  {
    actions == [] || (Proper(s, actions[0]) && ProperRun(Apply(s, actions[0]), actions[1..]))
  }

  // gallus_pipeline_stage_pause() returns GALLUS_RESULT_OK by taking action a in state s.
  predicate PauseReturnsOk(s: Stage, a: Action) {
    a.PauseReturn? || (a.PauseCall? && s.status == Paused)
  }

  // gallus_pipeline_stage_schedule_maintenance() call c returns GALLUS_RESULT_OK by action a.
  predicate MaintenanceReturnsOk(s: Stage, a: Action, c: nat) {
    a.MaintReturn? && s.status == Started && s.controller == MaintWait(c)
  }

  // Past the barrier and inside s_worker_pause.
  predicate InPause(w: Worker) {
    w.WaitingResume? || (w.PastBarrier? && w.entry == ViaPause)
  }

  // Past the barrier of a maintenance round, and neither operating nor back in the loop.
  predicate InMaintenance(w: Worker) {
    w.WaitingMaintenance? || (w.PastBarrier? && w.entry == ViaMaintenance)
  }

  predicate AllPaused(s: Stage) {
    forall i :: 0 <= i < |s.workers| ==> InPause(s.workers[i])
  }

  // ---------------------------------------------------------------- the invariant

  // The stage fields against the phase of the controller.
  ghost predicate FieldsOk(s: Stage) {
    && (s.status == MaintenanceRequested <==> s.maintProc.Proc?)
    && (s.status == MaintenanceRequested ==> s.pauseRequested && s.controller == MaintWait(s.maintProc.call))
    && (s.controller.MaintEntered? ==>
          s.status == Started && !s.pauseRequested && s.controller.proc == Proc(s.controller.call))
    && (s.controller.MaintWait? ==> s.status != Paused && (s.status == Started ==> !s.pauseRequested))
    && !s.controller.MaintFailing?
    && (s.controller.PauseWait? ==> s.pauseRequested)
    && (s.status == Paused ==> (s.pauseRequested <==> !s.controller.ResumeCleared?))
    && (s.controller.ResumeEntered? || s.controller.ResumeCleared? ==> s.status == Paused)
  }

  predicate IsMaintenanceMaster(w: Worker) {
    w == PastBarrier(ViaMaintenance, true) || w.RunningMaintenance?
  }

  // One worker against the stage fields.
  ghost predicate WorkerOk(s: Stage, i: nat)
    requires i < |s.workers|
  {
    var w := s.workers[i];
    && (w.FlagSeen? ==> s.pauseRequested && s.status != Paused)
    && (w.EnteringPause? || w == AtBarrier(ViaPause) ==> s.pauseRequested && s.status == Started)
    && (w.EnteringMaintenance? || w == AtBarrier(ViaMaintenance) ==> s.status == MaintenanceRequested)
    && (w == PastBarrier(ViaPause, true) ==> s.pauseRequested && s.status == Started)
    && (IsMaintenanceMaster(w) ==> s.status == MaintenanceRequested)
    && (s.status == Paused && s.pauseRequested ==> w == PastBarrier(ViaPause, false) || w.WaitingResume?)
    && (w.RunningMaintenance? <==> s.lockHolder == Some(i))
  }

  // A barrier master against every other worker.
  ghost predicate PairOk(s: Stage, i: nat, j: nat)
    requires i < |s.workers| && j < |s.workers|
  {
    var v, w := s.workers[i], s.workers[j];
    && (v == PastBarrier(ViaPause, true) ==> InPause(w) && w != PastBarrier(ViaPause, true))
    && (IsMaintenanceMaster(v) ==> w == PastBarrier(ViaMaintenance, false) || w.WaitingMaintenance?)
  }

  ghost predicate WorkersOk(s: Stage) {
    && (forall i :: 0 <= i < |s.workers| ==> WorkerOk(s, i))
    && (forall i, j :: 0 <= i < |s.workers| && 0 <= j < |s.workers| && i != j ==> PairOk(s, i, j))
    && (s.lockHolder.Some? ==> s.lockHolder.value < |s.workers|)
  }

  predicate HasRun(runs: seq<FuncRun>, c: nat) {
    exists k :: 0 <= k < |runs| && runs[k].call == c
  }

  // Every function has run at most once; the requested one has run exactly when its master
  // is running it; a call about to return OK has had its function run.
  ghost predicate RunsOk(s: Stage) {
    && (forall k :: 0 <= k < |s.runs| ==> s.runs[k].call < s.nextCall)
    && (forall k, l :: 0 <= k < l < |s.runs| ==> s.runs[k].call != s.runs[l].call)
    && (s.maintProc.Proc? ==> s.maintProc.call < s.nextCall)
    && (s.maintProc.Proc? ==> (HasRun(s.runs, s.maintProc.call) <==> s.lockHolder.Some?))
    && (s.controller.MaintEntered? ==> s.controller.call < s.nextCall && !HasRun(s.runs, s.controller.call))
    && (s.controller.MaintWait? && s.status == Started ==> HasRun(s.runs, s.controller.call))
  }

  ghost predicate Inv(s: Stage) {
    FieldsOk(s) && WorkersOk(s) && RunsOk(s)
  }

  lemma InitInv(n: nat)
    ensures Inv(Init(n))
  {
  }

  // The worker an action is about, if any.
  function Actor(a: Action): Option<nat> {
    match a
    case CheckFlag(i) => Some(i)
    case FinishOps(i, _) => Some(i)
    case Leave(i) => Some(i)
    case CheckProc(i) => Some(i)
    case ArriveAtBarrier(i) => Some(i)
    case TakeLock(i) => Some(i)
    case WakeUp(i) => Some(i)
    case FinishMaintenance(i) => Some(i)
    case _ => None
  }

  lemma FieldsKept(s: Stage, a: Action)
    requires FieldsOk(s) && WorkersOk(s) && Enabled(s, a) && Proper(s, a)
    ensures FieldsOk(Apply(s, a))
  {
    if Actor(a).Some? {
      assert WorkerOk(s, Actor(a).value);
    }
  }

  lemma WorkerKept(s: Stage, a: Action, j: nat)
    requires FieldsOk(s) && WorkersOk(s) && Enabled(s, a) && Proper(s, a)
    requires j < |s.workers|
    ensures WorkerOk(Apply(s, a), j)
  {
    assert WorkerOk(s, j);
    if Actor(a).Some? {
      var i := Actor(a).value;
      assert WorkerOk(s, i);
      if i != j {
        assert PairOk(s, i, j) && PairOk(s, j, i);
      }
    }
  }

  lemma TripPairKept(s: Stage, a: Action, j: nat, k: nat)
    requires FieldsOk(s) && WorkersOk(s) && Enabled(s, a) && a.TripBarrier?
    requires j < |s.workers| && k < |s.workers| && j != k
    ensures PairOk(Apply(s, a), j, k)
  {
    assert WorkerOk(s, j) && WorkerOk(s, k);
    assert s.workers[j].entry == s.workers[k].entry;
    assert Apply(s, a).workers[k] == PastBarrier(s.workers[k].entry, k == a.master);
    assert Apply(s, a).workers[j] == PastBarrier(s.workers[j].entry, j == a.master);
  }

  lemma TakeLockPairKept(s: Stage, a: Action, j: nat, k: nat)
    requires FieldsOk(s) && WorkersOk(s) && Enabled(s, a) && a.TakeLock?
    requires j < |s.workers| && k < |s.workers| && j != k
    ensures PairOk(Apply(s, a), j, k)
  {
    assert WorkerOk(s, j) && WorkerOk(s, k);
    assert PairOk(s, j, k) && PairOk(s, k, j);
    if a.i != j { assert PairOk(s, a.i, j); }
  }

  lemma PairKept(s: Stage, a: Action, j: nat, k: nat)
    requires FieldsOk(s) && WorkersOk(s) && Enabled(s, a) && Proper(s, a)
    requires j < |s.workers| && k < |s.workers| && j != k
    ensures PairOk(Apply(s, a), j, k)
  {
    if a.TripBarrier? {
      TripPairKept(s, a, j, k);
    } else if a.TakeLock? {
      TakeLockPairKept(s, a, j, k);
    } else {
      assert WorkerOk(s, j) && WorkerOk(s, k);
      assert PairOk(s, j, k) && PairOk(s, k, j);
      if Actor(a).Some? && Actor(a).value != j {
        assert PairOk(s, Actor(a).value, j);
      }
    }
  }

  lemma LockHolderKept(s: Stage, a: Action)
    requires FieldsOk(s) && WorkersOk(s) && Enabled(s, a) && Proper(s, a)
    ensures WorkersOk(Apply(s, a))
  {
    var s' := Apply(s, a);
    forall j | 0 <= j < |s'.workers| ensures WorkerOk(s', j) { WorkerKept(s, a, j); }
    forall j, k | 0 <= j < |s'.workers| && 0 <= k < |s'.workers| && j != k ensures PairOk(s', j, k) {
      PairKept(s, a, j, k);
    }
  }

  lemma HasRunAppend(runs: seq<FuncRun>, r: FuncRun, c: nat)
    ensures HasRun(runs + [r], c) <==> HasRun(runs, c) || r.call == c
  {
    var after := runs + [r];
    if HasRun(runs, c) {
      var k :| 0 <= k < |runs| && runs[k].call == c;
      assert after[k].call == c;
    }
    assert after[|runs|] == r;
  }

  lemma RunsKept(s: Stage, a: Action)
    requires Inv(s) && Enabled(s, a) && Proper(s, a)
    ensures RunsOk(Apply(s, a))
  {
    if Actor(a).Some? {
      var i := Actor(a).value;
      assert WorkerOk(s, i);
      if a.TakeLock? && s.workers[i] == PastBarrier(ViaMaintenance, true) {
        var r := FuncRun(s.maintProc.call, i);
        HasRunAppend(s.runs, r, s.maintProc.call);
      }
    }
  }

  lemma InvKept(s: Stage, a: Action)
    requires Inv(s) && Enabled(s, a) && Proper(s, a)
    ensures Inv(Apply(s, a))
  {
    FieldsKept(s, a);
    LockHolderKept(s, a);
    RunsKept(s, a);
  }

  lemma {:induction false} RunKeepsInv(s: Stage, actions: seq<Action>)
    requires Inv(s) && IsRun(s, actions) && ProperRun(s, actions)
    ensures Inv(After(s, actions))
    decreases |actions|
  {
    if actions != [] {
      InvKept(s, actions[0]);
      RunKeepsInv(Apply(s, actions[0]), actions[1..]);
    }
  }

  // ---------------------------------------------------------------- the main results

  // While a stage is paused, no action but the resume lets a worker out of s_worker_pause.
  lemma {:induction false} PausedUntilResume(s: Stage, actions: seq<Action>)
    requires Inv(s) && IsRun(s, actions) && ProperRun(s, actions)
    requires s.status == Paused && s.pauseRequested
    requires ResumeClear !in actions
    ensures AllPaused(After(s, actions))
    ensures After(s, actions).status == Paused && After(s, actions).pauseRequested
    decreases |actions|
  {
    forall i | 0 <= i < |s.workers| ensures InPause(s.workers[i]) { assert WorkerOk(s, i); }
    if actions != [] {
      var a := actions[0];
      if Actor(a).Some? { assert WorkerOk(s, Actor(a).value); }
      if a.TripBarrier? { assert WorkerOk(s, a.master); }
      InvKept(s, a);
      PausedUntilResume(Apply(s, a), actions[1..]);
    }
  }

  // Whenever gallus_pipeline_stage_pause() returns OK, in any proper run of N workers, all
  // workers have passed the barrier and are inside s_worker_pause, and they stay there until
  // a resume clears the request flag.
  lemma PauseHolds(n: nat, before: seq<Action>, a: Action, later: seq<Action>)
    requires IsRun(Init(n), before) && ProperRun(Init(n), before)
    requires var s := After(Init(n), before); Enabled(s, a) && PauseReturnsOk(s, a)
    requires var t := Apply(After(Init(n), before), a); IsRun(t, later) && ProperRun(t, later)
    requires ResumeClear !in later
    ensures var t := Apply(After(Init(n), before), a);
            |After(t, later).workers| == n && AllPaused(After(t, later))
  {
    var s := After(Init(n), before);
    InitInv(n);
    RunKeepsInv(Init(n), before);
    InvKept(s, a);
    PausedUntilResume(Apply(s, a), later);
    RunKeepsWorkers(Init(n), before);
    RunKeepsWorkers(Apply(s, a), later);
  }

  lemma {:induction false} RunKeepsWorkers(s: Stage, actions: seq<Action>)
    requires IsRun(s, actions)
    ensures |After(s, actions).workers| == |s.workers|
    decreases |actions|
  {
    if actions != [] {
      RunKeepsWorkers(Apply(s, actions[0]), actions[1..]);
    }
  }

  // The number of times the function of call c was invoked.
  function TimesRun(runs: seq<FuncRun>, c: nat): nat {
    if runs == [] then 0 else TimesRun(runs[..|runs| - 1], c) + (if runs[|runs| - 1].call == c then 1 else 0)
  }

  lemma {:induction false} TimesRunOnce(runs: seq<FuncRun>, c: nat)
    requires forall k, l :: 0 <= k < l < |runs| ==> runs[k].call != runs[l].call
    ensures TimesRun(runs, c) == if HasRun(runs, c) then 1 else 0
  {
    if runs != [] {
      var front := runs[..|runs| - 1];
      TimesRunOnce(front, c);
      assert runs == front + [runs[|runs| - 1]];
      HasRunAppend(front, runs[|runs| - 1], c);
      if HasRun(front, c) {
        var k :| 0 <= k < |front| && front[k].call == c;
        assert runs[k].call == c;
      }
    }
  }

  // A schedule_maintenance call that returns OK has had its function run exactly once.
  lemma MaintenanceRunsOnce(n: nat, before: seq<Action>, a: Action, c: nat)
    requires IsRun(Init(n), before) && ProperRun(Init(n), before)
    requires var s := After(Init(n), before); Enabled(s, a) && MaintenanceReturnsOk(s, a, c)
    ensures TimesRun(After(Init(n), before).runs, c) == 1
  {
    InitInv(n);
    RunKeepsInv(Init(n), before);
    TimesRunOnce(After(Init(n), before).runs, c);
  }

  // No function ever runs twice, and while one runs every other worker is past the barrier
  // and out of fetch / main / throw.
  lemma MaintenanceIsExclusive(n: nat, before: seq<Action>, m: nat)
    requires IsRun(Init(n), before) && ProperRun(Init(n), before)
    requires m < n && |After(Init(n), before).workers| == n
    requires After(Init(n), before).workers[m].RunningMaintenance?
    ensures forall i :: 0 <= i < n && i != m ==> InMaintenance(After(Init(n), before).workers[i])
    ensures forall c :: TimesRun(After(Init(n), before).runs, c) <= 1
  {
    InitInv(n);
    RunKeepsInv(Init(n), before);
    var s := After(Init(n), before);
    forall i | 0 <= i < n && i != m ensures InMaintenance(s.workers[i]) { assert PairOk(s, m, i); }
    forall c ensures TimesRun(s.runs, c) <= 1 { TimesRunOnce(s.runs, c); }
  }

  // ---------------------------------------------------------------- what the guard excludes

  lemma {:induction false} RunAppend(s: Stage, xs: seq<Action>, ys: seq<Action>)
    requires IsRun(s, xs) && IsRun(After(s, xs), ys)
    ensures IsRun(s, xs + ys) && After(s, xs + ys) == After(After(s, xs), ys)
    decreases |xs|
  {
    if xs == [] {
      assert xs + ys == ys;
    } else {
      RunAppend(Apply(s, xs[0]), xs[1..], ys);
      assert (xs + ys)[0] == xs[0] && (xs + ys)[1..] == xs[1..] + ys;
    }
  }

  lemma Cons(s: Stage, a: Action, rest: seq<Action>)
    requires Enabled(s, a) && IsRun(Apply(s, a), rest)
    ensures IsRun(s, [a] + rest) && After(s, [a] + rest) == After(Apply(s, a), rest)
  {
    assert ([a] + rest)[0] == a && ([a] + rest)[1..] == rest;
  }

  // Workers i.. come to the barrier through the pause branch, one after the other.
  function Arrivals(i: nat, n: nat): seq<Action>
    requires i <= n
    decreases n - i
  {
    if i == n then []
    else [CheckFlag(i)] + ([CheckProc(i)] + ([ArriveAtBarrier(i)] + Arrivals(i + 1, n)))
  }

  lemma {:induction false} AllArrive(s: Stage, i: nat)
    requires i <= |s.workers| && s.pauseRequested && s.maintProc.NoProc?
    requires forall j :: 0 <= j < |s.workers| ==> s.workers[j] == if j < i then AtBarrier(ViaPause) else LoopTop
    ensures IsRun(s, Arrivals(i, |s.workers|))
    ensures After(s, Arrivals(i, |s.workers|)) == s.(workers := seq(|s.workers|, _ => AtBarrier(ViaPause)))
    decreases |s.workers| - i
  {
    var n := |s.workers|;
    if i == n {
      assert s.workers == seq(n, _ => AtBarrier(ViaPause));
    } else {
      var s1 := Apply(s, CheckFlag(i));
      var s2 := Apply(s1, CheckProc(i));
      var s3 := Apply(s2, ArriveAtBarrier(i));
      AllArrive(s3, i + 1);
      assert s3.(workers := seq(n, _ => AtBarrier(ViaPause))) == s.(workers := seq(n, _ => AtBarrier(ViaPause)));
      var rest := Arrivals(i + 1, n);
      Cons(s2, ArriveAtBarrier(i), rest);
      Cons(s1, CheckProc(i), [ArriveAtBarrier(i)] + rest);
      Cons(s, CheckFlag(i), [CheckProc(i)] + ([ArriveAtBarrier(i)] + rest));
    }
  }

  // Once every worker is at the barrier through the pause branch while a schedule_maintenance
  // call waits, the call fails, leaves the stage PAUSED with the flag down, and worker 0 is
  // back at work when the next pause returns OK at once.
  function Escape(): seq<Action> {
    [TripBarrier(0)] + ([TakeLock(0)] + ([MaintReturn] + ([MaintFail] + ([WakeUp(0)] + ([CheckFlag(0)] + [])))))
  }

  // Worker 0 wakes up when the flag is down already.
  lemma EscapeEnds(s: Stage)
    requires |s.workers| >= 1 && s.workers[0].WaitingResume? && !s.pauseRequested && s.status == Paused
    requires s.controller.NoCall? && s.lockHolder.None?
    ensures Enabled(s, WakeUp(0)) && Enabled(Apply(s, WakeUp(0)), CheckFlag(0))
    ensures var t := Apply(Apply(s, WakeUp(0)), CheckFlag(0));
            Enabled(t, PauseCall) && PauseReturnsOk(t, PauseCall) &&
            |t.workers| == |s.workers| && t.workers[0].Operating?
  {
  }

  lemma EscapeBegins(s: Stage)
    requires |s.workers| >= 1 && s.pauseRequested && s.status == MaintenanceRequested
    requires s.controller.MaintWait? && s.lockHolder.None?
    requires forall j :: 0 <= j < |s.workers| ==> s.workers[j] == AtBarrier(ViaPause)
    ensures Enabled(s, TripBarrier(0))
    ensures var s1 := Apply(s, TripBarrier(0));
            && Enabled(s1, TakeLock(0)) && Enabled(Apply(s1, TakeLock(0)), MaintReturn)
            && Enabled(Apply(Apply(s1, TakeLock(0)), MaintReturn), MaintFail)
    ensures var t := Apply(Apply(Apply(Apply(s, TripBarrier(0)), TakeLock(0)), MaintReturn), MaintFail);
            && |t.workers| == |s.workers| && t.workers[0].WaitingResume? && !t.pauseRequested && t.status == Paused
            && t.controller.NoCall? && t.lockHolder.None?
  {
  }

  lemma EscapeRuns(s: Stage)
    requires |s.workers| >= 1 && s.pauseRequested && s.status == MaintenanceRequested
    requires s.controller.MaintWait? && s.lockHolder.None?
    requires forall j :: 0 <= j < |s.workers| ==> s.workers[j] == AtBarrier(ViaPause)
    ensures IsRun(s, Escape())
    ensures var t := After(s, Escape());
            Enabled(t, PauseCall) && PauseReturnsOk(t, PauseCall) &&
            |t.workers| == |s.workers| && t.workers[0].Operating?
  {
    EscapeBegins(s);
    var s1 := Apply(s, TripBarrier(0));
    var s2 := Apply(s1, TakeLock(0));
    var s3 := Apply(s2, MaintReturn);
    var s4 := Apply(s3, MaintFail);
    EscapeEnds(s4);
    var s5 := Apply(s4, WakeUp(0));
    var s6 := Apply(s5, CheckFlag(0));
    Cons(s5, CheckFlag(0), []);
    Cons(s4, WakeUp(0), [CheckFlag(0)] + []);
    Cons(s3, MaintFail, [WakeUp(0)] + ([CheckFlag(0)] + []));
    Cons(s2, MaintReturn, [MaintFail] + ([WakeUp(0)] + ([CheckFlag(0)] + [])));
    Cons(s1, TakeLock(0), [MaintReturn] + ([MaintFail] + ([WakeUp(0)] + ([CheckFlag(0)] + []))));
    Cons(s, TripBarrier(0), [TakeLock(0)] + ([MaintReturn] + ([MaintFail] + ([WakeUp(0)] + ([CheckFlag(0)] + [])))));
    assert After(s6, []) == s6;
  }

  // schedule_maintenance with the pause lock free and no other call in progress.
  lemma MaintStarts(s: Stage, isNull: bool)
    requires s.status == Started && s.controller.NoCall? && s.lockHolder.None?
    ensures IsRun(s, [MaintCall(isNull)] + ([MaintSet] + []))
    ensures var c := s.nextCall;
            After(s, [MaintCall(isNull)] + ([MaintSet] + [])) ==
            s.(status := MaintenanceRequested, maintProc := if isNull then NoProc else Proc(c),
               pauseRequested := true, controller := MaintWait(c), nextCall := c + 1)
  {
    var s1 := Apply(s, MaintCall(isNull));
    Cons(s1, MaintSet, []);
    Cons(s, MaintCall(isNull), [MaintSet] + []);
  }

  // pause() that times out before the workers have come together.
  lemma PauseTimesOut(s: Stage)
    requires s.status == Started && s.controller.NoCall? && s.lockHolder.None?
    ensures IsRun(s, [PauseCall] + ([PauseSet] + ([PauseTimeout] + [])))
    ensures After(s, [PauseCall] + ([PauseSet] + ([PauseTimeout] + []))) == s.(pauseRequested := true)
  {
    var s1 := Apply(s, PauseCall);
    var s2 := Apply(s1, PauseSet);
    Cons(s2, PauseTimeout, []);
    Cons(s1, PauseSet, [PauseTimeout] + []);
    Cons(s, PauseCall, [PauseSet] + ([PauseTimeout] + []));
  }

  function NullMaintenanceRun(n: nat): seq<Action> {
    ([MaintCall(true)] + ([MaintSet] + [])) + Arrivals(0, n) + Escape()
  }

  // Scheduling a NULL maintenance function breaks the promise of pause, for every N.
  lemma NullMaintenanceBreaksPause(n: nat)
    requires n >= 1
    ensures IsRun(Init(n), NullMaintenanceRun(n))
    ensures var t := After(Init(n), NullMaintenanceRun(n));
            Enabled(t, PauseCall) && PauseReturnsOk(t, PauseCall) && !AllPaused(Apply(t, PauseCall))
  {
    var start := [MaintCall(true)] + ([MaintSet] + []);
    MaintStarts(Init(n), true);
    var s := After(Init(n), start);
    AllArrive(s, 0);
    RunAppend(Init(n), start, Arrivals(0, n));
    var s1 := After(s, Arrivals(0, n));
    EscapeRuns(s1);
    RunAppend(Init(n), start + Arrivals(0, n), Escape());
    StillWorking(After(s1, Escape()));
  }

  lemma StillWorking(t: Stage)
    requires |t.workers| >= 1 && t.workers[0].Operating? && Enabled(t, PauseCall)
    ensures !AllPaused(Apply(t, PauseCall))
  {
    assert !InPause(Apply(t, PauseCall).workers[0]);
  }

  function PendingPauseRun(n: nat): seq<Action> {
    ([PauseCall] + ([PauseSet] + ([PauseTimeout] + []))) + Arrivals(0, n)
    + ([MaintCall(false)] + ([MaintSet] + [])) + Escape()
  }

  // So does scheduling a proper function while a pause that timed out is still pending.
  lemma PendingPauseBreaksPause(n: nat)
    requires n >= 1
    ensures IsRun(Init(n), PendingPauseRun(n))
    ensures var t := After(Init(n), PendingPauseRun(n));
            Enabled(t, PauseCall) && PauseReturnsOk(t, PauseCall) && !AllPaused(Apply(t, PauseCall))
  {
    var start := [PauseCall] + ([PauseSet] + ([PauseTimeout] + []));
    PauseTimesOut(Init(n));
    var s := After(Init(n), start);
    AllArrive(s, 0);
    RunAppend(Init(n), start, Arrivals(0, n));
    var s1 := After(s, Arrivals(0, n));
    var sched := [MaintCall(false)] + ([MaintSet] + []);
    MaintStarts(s1, false);
    RunAppend(Init(n), start + Arrivals(0, n), sched);
    var s2 := After(s1, sched);
    EscapeRuns(s2);
    RunAppend(Init(n), start + Arrivals(0, n) + sched, Escape());
    StillWorking(After(s2, Escape()));
  }

  // ---------------------------------------------------------------- exactly when the promise is kept

  // Whatever proper run follows, a pause that returns OK has all workers paused.
  ghost predicate PauseSafe(s: Stage) {
    forall later, a :: PauseReturns(s, later, a) ==> AllPaused(Apply(After(s, later), a))
  }

  // After a proper run from s, a pause returns OK by the action a.
  ghost predicate PauseReturns(s: Stage, later: seq<Action>, a: Action) {
    IsRun(s, later) && ProperRun(s, later) && Enabled(After(s, later), a) && PauseReturnsOk(After(s, later), a)
  }

  // Every worker is at work or between two rounds, and no call is in progress.
  predicate AtWork(s: Stage) {
    && s.status == Started && s.controller.NoCall?
    && forall i :: 0 <= i < |s.workers| ==> s.workers[i].LoopTop? || s.workers[i].Operating?
  }

  // Workers i.. finish their round, one after the other.
  function Finishing(ws: seq<Worker>, i: nat): seq<Action>
    requires i <= |ws|
    decreases |ws| - i
  {
    if i == |ws| then []
    else if ws[i].Operating? then [FinishOps(i, false)] + Finishing(ws, i + 1)
    else Finishing(ws, i + 1)
  }

  lemma {:induction false} AllFinish(s: Stage, ws: seq<Worker>, i: nat)
    requires i <= |ws| == |s.workers|
    requires forall j :: 0 <= j < |ws| ==> ws[j].LoopTop? || ws[j].Operating?
    requires forall j :: 0 <= j < |ws| ==> s.workers[j] == if j < i then LoopTop else ws[j]
    ensures IsRun(s, Finishing(ws, i))
    ensures After(s, Finishing(ws, i)) == s.(workers := seq(|ws|, _ => LoopTop))
    ensures forall a :: a in Finishing(ws, i) ==> !a.MaintCall?
    decreases |ws| - i
  {
    if i == |ws| {
      assert s.workers == seq(|ws|, _ => LoopTop);
    } else if ws[i].Operating? {
      var s1 := Apply(s, FinishOps(i, false));
      AllFinish(s1, ws, i + 1);
      Cons(s, FinishOps(i, false), Finishing(ws, i + 1));
    } else {
      AllFinish(s, ws, i + 1);
    }
  }

  lemma {:induction false} ArrivalsQuiet(i: nat, n: nat)
    requires i <= n
    ensures forall a :: a in Arrivals(i, n) ==> !a.MaintCall?
    decreases n - i
  {
    if i < n { ArrivalsQuiet(i + 1, n); }
  }

  lemma {:induction false} QuietIsProper(s: Stage, actions: seq<Action>)
    requires IsRun(s, actions) && forall a :: a in actions ==> !a.MaintCall?
    ensures ProperRun(s, actions)
    decreases |actions|
  {
    if actions != [] {
      assert actions[0] in actions;
      QuietIsProper(Apply(s, actions[0]), actions[1..]);
    }
  }

  // Workers at work come together at the barrier through the pause branch.
  function ToBarrier(ws: seq<Worker>): seq<Action> {
    Finishing(ws, 0) + Arrivals(0, |ws|)
  }

  lemma AllToBarrier(s: Stage)
    requires s.pauseRequested && s.maintProc.NoProc?
    requires forall i :: 0 <= i < |s.workers| ==> s.workers[i].LoopTop? || s.workers[i].Operating?
    ensures IsRun(s, ToBarrier(s.workers))
    ensures After(s, ToBarrier(s.workers)) == s.(workers := seq(|s.workers|, _ => AtBarrier(ViaPause)))
    ensures forall a :: a in ToBarrier(s.workers) ==> !a.MaintCall?
  {
    var n := |s.workers|;
    AllFinish(s, s.workers, 0);
    var s1 := After(s, Finishing(s.workers, 0));
    AllArrive(s1, 0);
    RunAppend(s, Finishing(s.workers, 0), Arrivals(0, n));
    ArrivalsQuiet(0, n);
  }

  // The way from the call to the barrier: a NULL function is in place when the workers see the
  // flag, or they have seen the flag of the pending pause before the function is.
  function Approach(ws: seq<Worker>, isNull: bool): seq<Action> {
    if isNull then [MaintSet] + ToBarrier(ws) else ToBarrier(ws) + [MaintSet]
  }

  lemma AllApproach(s: Stage, isNull: bool)
    requires AtWork(s) && s.maintProc.NoProc? && s.lockHolder.None? && (isNull || s.pauseRequested)
    ensures var s1, run := Apply(s, MaintCall(isNull)), Approach(s.workers, isNull);
            && IsRun(s1, run) && (forall a :: a in run ==> !a.MaintCall?)
            && After(s1, run) == s1.(status := MaintenanceRequested, maintProc := s1.controller.proc, pauseRequested := true,
                                     controller := MaintWait(s.nextCall),
                                     workers := seq(|s.workers|, _ => AtBarrier(ViaPause)))
  {
    var s1, b := Apply(s, MaintCall(isNull)), ToBarrier(s.workers);
    if isNull {
      var s2 := Apply(s1, MaintSet);
      AllToBarrier(s2);
      Cons(s1, MaintSet, b);
    } else {
      AllToBarrier(s1);
      var s2 := After(s1, b);
      assert IsRun(s2, [MaintSet]) && After(s2, [MaintSet]) == Apply(s2, MaintSet) by {
        Cons(s2, MaintSet, []);
        assert [MaintSet] + [] == [MaintSet];
      }
      RunAppend(s1, b, [MaintSet]);
    }
  }

  lemma MaintenanceBreaksPause(s: Stage, isNull: bool)
    requires AtWork(s) && |s.workers| >= 1 && s.maintProc.NoProc? && s.lockHolder.None?
    requires isNull || s.pauseRequested
    ensures !PauseSafe(Apply(s, MaintCall(isNull)))
  {
    var s1, run := Apply(s, MaintCall(isNull)), Approach(s.workers, isNull);
    AllApproach(s, isNull);
    var s2 := After(s1, run);
    EscapeRuns(s2);
    RunAppend(s1, run, Escape());
    QuietIsProper(s1, run + Escape());
    StillWorking(After(s2, Escape()));
    assert PauseReturns(s1, run + Escape(), PauseCall);
  }

  lemma InvPauseSafe(s: Stage)
    requires Inv(s)
    ensures PauseSafe(s)
  {
    forall later, a | PauseReturns(s, later, a) ensures AllPaused(Apply(After(s, later), a)) {
      var t := After(s, later);
      RunKeepsInv(s, later);
      InvKept(t, a);
      PausedUntilResume(Apply(t, a), []);
    }
  }

  // The guard is exact.  In every state that a proper run reaches with the workers at work and no
  // call in progress, a schedule_maintenance call keeps the promise of every later pause if and
  // only if its function is not NULL and no pause is pending.
  lemma PauseHoldsIff(n: nat, before: seq<Action>, isNull: bool)
    requires n >= 1 && IsRun(Init(n), before) && ProperRun(Init(n), before) && AtWork(After(Init(n), before))
    ensures var s := After(Init(n), before);
            PauseSafe(Apply(s, MaintCall(isNull))) <==> Proper(s, MaintCall(isNull))
  {
    var s := After(Init(n), before);
    InitInv(n);
    RunKeepsInv(Init(n), before);
    RunKeepsWorkers(Init(n), before);
    if Proper(s, MaintCall(isNull)) {
      InvKept(s, MaintCall(isNull));
      InvPauseSafe(Apply(s, MaintCall(isNull)));
    } else {
      assert s.lockHolder.Some? ==> WorkerOk(s, s.lockHolder.value);
      MaintenanceBreaksPause(s, isNull);
    }
  }

  // ---------------------------------------------------------------- workers that have left

  predicate Leaves(a: Action, i: nat) {
    a == Leave(i) || a == FinishOps(i, true)
  }

  lemma {:induction false} GoneForGood(s: Stage, actions: seq<Action>, i: nat)
    requires IsRun(s, actions) && i < |s.workers| && s.workers[i].Exited?
    ensures i < |After(s, actions).workers| && After(s, actions).workers[i].Exited?
    decreases |actions|
  {
    if actions != [] { GoneForGood(Apply(s, actions[0]), actions[1..], i); }
  }

  // Once a worker has left its loop, no pause returns OK in a proper run.
  lemma NoPauseWithout(n: nat, before: seq<Action>, a: Action, i: nat, later: seq<Action>, b: Action)
    requires IsRun(Init(n), before) && ProperRun(Init(n), before)
    requires Enabled(After(Init(n), before), a) && Leaves(a, i)
    requires var t := Apply(After(Init(n), before), a); IsRun(t, later) && ProperRun(t, later)
    ensures var u := After(Apply(After(Init(n), before), a), later); !(Enabled(u, b) && PauseReturnsOk(u, b))
  {
    var s := After(Init(n), before);
    InitInv(n);
    RunKeepsInv(Init(n), before);
    var t := Apply(s, a);
    InvKept(s, a);
    RunKeepsInv(t, later);
    GoneForGood(t, later, i);
    assert WorkerOk(After(t, later), i);
    var u := After(t, later);
    if Enabled(u, b) && PauseReturnsOk(u, b) {
      PauseNow(u, b, i);
    }
  }

  lemma PauseNow(s: Stage, a: Action, i: nat)
    requires Inv(s) && Enabled(s, a) && PauseReturnsOk(s, a) && i < |s.workers|
    ensures InPause(Apply(s, a).workers[i])
  {
    InvKept(s, a);
    PausedUntilResume(Apply(s, a), []);
  }

  // ---------------------------------------------------------------- pause and resume, all the way

  // All but worker m take the pause lock after the barrier, in order; at the end worker m.
  function Takes(i: nat, n: nat, m: nat): seq<Action>
    requires i <= n
    decreases n - i
  {
    if i == n then [TakeLock(m)] else if i == m then Takes(i + 1, n, m) else [TakeLock(i)] + Takes(i + 1, n, m)
  }

  // All but worker m, or all of them if m is n, wake up in order.
  function Wakes(i: nat, n: nat, m: nat): seq<Action>
    requires i <= n
    decreases n - i
  {
    if i == n then [] else if i == m then Wakes(i + 1, n, m) else [WakeUp(i)] + Wakes(i + 1, n, m)
  }

  // Worker m and all the others.
  function Split(n: nat, m: nat, master: Worker, other: Worker): seq<Worker> {
    seq(n, i => if i == m then master else other)
  }

  lemma {:induction false} PauseTakes(s: Stage, i: nat, m: nat)
    requires i <= |s.workers| && m < |s.workers| && s.pauseRequested && s.lockHolder.None?
    requires forall j :: 0 <= j < |s.workers| ==>
               s.workers[j] == if j < i && j != m then WaitingResume else PastBarrier(ViaPause, j == m)
    ensures IsRun(s, Takes(i, |s.workers|, m))
    ensures After(s, Takes(i, |s.workers|, m))
         == s.(status := Paused, workers := Split(|s.workers|, m, WaitingResume, WaitingResume))
    decreases |s.workers| - i
  {
    var n := |s.workers|;
    var end := s.(status := Paused, workers := Split(n, m, WaitingResume, WaitingResume));
    if i == n {
      var s1 := Apply(s, TakeLock(m));
      assert s1.workers == end.workers;
      Cons(s, TakeLock(m), []);
      assert [TakeLock(m)] + [] == [TakeLock(m)];
    } else if i == m {
      PauseTakes(s, i + 1, m);
    } else {
      var s1 := Apply(s, TakeLock(i));
      PauseTakes(s1, i + 1, m);
      Cons(s, TakeLock(i), Takes(i + 1, n, m));
    }
  }

  // Workers that are let go come back to the top of the loop, but for a master that is there.
  lemma {:induction false} AllWake(s: Stage, i: nat, m: nat, w: Worker)
    requires i <= |s.workers| && m <= |s.workers| && s.lockHolder.None?
    requires (w.WaitingResume? && !s.pauseRequested) || (w.WaitingMaintenance? && s.status == Started)
    requires forall j :: 0 <= j < |s.workers| ==> s.workers[j] == if j < i || j == m then LoopTop else w
    ensures IsRun(s, Wakes(i, |s.workers|, m))
    ensures After(s, Wakes(i, |s.workers|, m)) == s.(workers := seq(|s.workers|, _ => LoopTop))
    decreases |s.workers| - i
  {
    var n := |s.workers|;
    if i == n {
      assert s.workers == seq(n, _ => LoopTop);
    } else if i == m {
      AllWake(s, i + 1, m, w);
    } else {
      AllWake(Apply(s, WakeUp(i)), i + 1, m, w);
      Cons(s, WakeUp(i), Wakes(i + 1, n, m));
    }
  }

  // Worker m trips the barrier for all.
  lemma Trips(s: Stage, m: nat, e: Entry)
    requires m < |s.workers| && s.workers == seq(|s.workers|, _ => AtBarrier(e))
    ensures Enabled(s, TripBarrier(m))
    ensures Apply(s, TripBarrier(m))
         == s.(workers := Split(|s.workers|, m, PastBarrier(e, true), PastBarrier(e, false)))
  {
    assert Apply(s, TripBarrier(m)).workers == Split(|s.workers|, m, PastBarrier(e, true), PastBarrier(e, false));
  }

  function PauseRun(ws: seq<Worker>, m: nat): seq<Action> {
    [PauseCall] + ([PauseSet] + (ToBarrier(ws) + ([TripBarrier(m)] + (Takes(0, |ws|, m) + [PauseReturn]))))
  }

  lemma One(s: Stage, a: Action)
    requires Enabled(s, a)
    ensures IsRun(s, [a]) && After(s, [a]) == Apply(s, a)
  {
    Cons(s, a, []);
    assert [a] + [] == [a];
  }

  // gallus_pipeline_stage_pause() on workers at work: whichever of them trips the barrier, it
  // returns OK with all of them in the resume wait.
  lemma PauseWorks(s: Stage, m: nat)
    requires AtWork(s) && m < |s.workers| && s.maintProc.NoProc? && s.lockHolder.None?
    ensures IsRun(s, PauseRun(s.workers, m))
    ensures After(s, PauseRun(s.workers, m))
         == s.(status := Paused, pauseRequested := true, workers := Split(|s.workers|, m, WaitingResume, WaitingResume))
  {
    var n, ws := |s.workers|, s.workers;
    var s1 := Apply(s, PauseCall);
    var s2 := Apply(s1, PauseSet);
    AllToBarrier(s2);
    var s3 := After(s2, ToBarrier(ws));
    Trips(s3, m, ViaPause);
    var s4 := Apply(s3, TripBarrier(m));
    PauseTakes(s4, 0, m);
    var s5 := After(s4, Takes(0, n, m));
    One(s5, PauseReturn);
    RunAppend(s4, Takes(0, n, m), [PauseReturn]);
    Cons(s3, TripBarrier(m), Takes(0, n, m) + [PauseReturn]);
    RunAppend(s2, ToBarrier(ws), [TripBarrier(m)] + (Takes(0, n, m) + [PauseReturn]));
    Cons(s1, PauseSet, ToBarrier(ws) + ([TripBarrier(m)] + (Takes(0, n, m) + [PauseReturn])));
    Cons(s, PauseCall, [PauseSet] + (ToBarrier(ws) + ([TripBarrier(m)] + (Takes(0, n, m) + [PauseReturn]))));
  }

  function ResumeRun(n: nat): seq<Action> {
    [ResumeCall] + ([ResumeClear] + ([ResumeFinish] + Wakes(0, n, n)))
  }

  // gallus_pipeline_stage_resume() undoes that: all workers come back to the top of their loop.
  lemma ResumeUndoesPause(s: Stage, m: nat)
    requires AtWork(s) && m < |s.workers| && s.maintProc.NoProc? && s.lockHolder.None?
    ensures IsRun(s, PauseRun(s.workers, m) + ResumeRun(|s.workers|))
    ensures After(s, PauseRun(s.workers, m) + ResumeRun(|s.workers|))
         == s.(pauseRequested := false, workers := seq(|s.workers|, _ => LoopTop))
  {
    var n := |s.workers|;
    PauseWorks(s, m);
    var p := After(s, PauseRun(s.workers, m));
    var s1 := Apply(p, ResumeCall);
    var s2 := Apply(s1, ResumeClear);
    var s3 := Apply(s2, ResumeFinish);
    AllWake(s3, 0, n, WaitingResume);
    Cons(s2, ResumeFinish, Wakes(0, n, n));
    Cons(s1, ResumeClear, [ResumeFinish] + Wakes(0, n, n));
    Cons(p, ResumeCall, [ResumeClear] + ([ResumeFinish] + Wakes(0, n, n)));
    RunAppend(s, PauseRun(s.workers, m), ResumeRun(n));
  }

  // ---------------------------------------------------------------- maintenance, all the way

  lemma {:induction false} AllArriveMaint(s: Stage, i: nat)
    requires i <= |s.workers| && s.pauseRequested && s.maintProc.Proc?
    requires forall j :: 0 <= j < |s.workers| ==> s.workers[j] == if j < i then AtBarrier(ViaMaintenance) else LoopTop
    ensures IsRun(s, Arrivals(i, |s.workers|))
    ensures After(s, Arrivals(i, |s.workers|)) == s.(workers := seq(|s.workers|, _ => AtBarrier(ViaMaintenance)))
    decreases |s.workers| - i
  {
    var n := |s.workers|;
    if i == n {
      assert s.workers == seq(n, _ => AtBarrier(ViaMaintenance));
    } else {
      var s1 := Apply(s, CheckFlag(i));
      var s2 := Apply(s1, CheckProc(i));
      var s3 := Apply(s2, ArriveAtBarrier(i));
      AllArriveMaint(s3, i + 1);
      var rest := Arrivals(i + 1, n);
      Cons(s2, ArriveAtBarrier(i), rest);
      Cons(s1, CheckProc(i), [ArriveAtBarrier(i)] + rest);
      Cons(s, CheckFlag(i), [CheckProc(i)] + ([ArriveAtBarrier(i)] + rest));
    }
  }

  lemma {:induction false} MaintTakes(s: Stage, i: nat, m: nat)
    requires i <= |s.workers| && m < |s.workers| && s.lockHolder.None? && s.status == MaintenanceRequested
    requires s.maintProc.Proc?
    requires forall j :: 0 <= j < |s.workers| ==>
               s.workers[j] == if j < i && j != m then WaitingMaintenance else PastBarrier(ViaMaintenance, j == m)
    ensures IsRun(s, Takes(i, |s.workers|, m))
    ensures After(s, Takes(i, |s.workers|, m))
         == s.(lockHolder := Some(m), runs := s.runs + [FuncRun(s.maintProc.call, m)],
               workers := Split(|s.workers|, m, RunningMaintenance, WaitingMaintenance))
    decreases |s.workers| - i
  {
    var n := |s.workers|;
    if i == n {
      var s1 := Apply(s, TakeLock(m));
      assert s1.workers == Split(n, m, RunningMaintenance, WaitingMaintenance);
      Cons(s, TakeLock(m), []);
      assert [TakeLock(m)] + [] == [TakeLock(m)];
    } else if i == m {
      MaintTakes(s, i + 1, m);
    } else {
      MaintTakes(Apply(s, TakeLock(i)), i + 1, m);
      Cons(s, TakeLock(i), Takes(i + 1, n, m));
    }
  }

  // From the barrier to the top of the loop.
  function RoundRun(n: nat, m: nat): seq<Action> {
    [TripBarrier(m)] + (Takes(0, n, m) + ([FinishMaintenance(m)] + (Wakes(0, n, m) + [MaintReturn])))
  }

  lemma RoundWorks(s: Stage, m: nat)
    requires m < |s.workers| && s.workers == seq(|s.workers|, _ => AtBarrier(ViaMaintenance))
    requires s.lockHolder.None? && s.status == MaintenanceRequested && s.maintProc.Proc? && s.controller.MaintWait?
    ensures IsRun(s, RoundRun(|s.workers|, m))
    ensures After(s, RoundRun(|s.workers|, m))
         == s.(status := Started, pauseRequested := false, maintProc := NoProc, controller := NoCall,
               workers := seq(|s.workers|, _ => LoopTop), runs := s.runs + [FuncRun(s.maintProc.call, m)])
  {
    var n := |s.workers|;
    Trips(s, m, ViaMaintenance);
    var s1 := Apply(s, TripBarrier(m));
    MaintTakes(s1, 0, m);
    var s2 := After(s1, Takes(0, n, m));
    var s3 := Apply(s2, FinishMaintenance(m));
    AllWake(s3, 0, m, WaitingMaintenance);
    var s4 := After(s3, Wakes(0, n, m));
    One(s4, MaintReturn);
    RunAppend(s3, Wakes(0, n, m), [MaintReturn]);
    Cons(s2, FinishMaintenance(m), Wakes(0, n, m) + [MaintReturn]);
    RunAppend(s1, Takes(0, n, m), [FinishMaintenance(m)] + (Wakes(0, n, m) + [MaintReturn]));
    Cons(s, TripBarrier(m), Takes(0, n, m) + ([FinishMaintenance(m)] + (Wakes(0, n, m) + [MaintReturn])));
  }

  function MaintenanceRun(ws: seq<Worker>, m: nat): seq<Action> {
    ([MaintCall(false)] + ([MaintSet] + [])) + (Finishing(ws, 0) + (Arrivals(0, |ws|) + RoundRun(|ws|, m)))
  }

  // gallus_pipeline_stage_schedule_maintenance() on workers at work: whichever of them trips the
  // barrier runs the function once, the call returns OK and all workers are back in their loop.
  lemma MaintenanceWorks(s: Stage, m: nat)
    requires AtWork(s) && m < |s.workers| && s.lockHolder.None?
    ensures IsRun(s, MaintenanceRun(s.workers, m))
    ensures After(s, MaintenanceRun(s.workers, m))
         == s.(pauseRequested := false, maintProc := NoProc, workers := seq(|s.workers|, _ => LoopTop),
               nextCall := s.nextCall + 1, runs := s.runs + [FuncRun(s.nextCall, m)])
  {
    var n, ws := |s.workers|, s.workers;
    var start := [MaintCall(false)] + ([MaintSet] + []);
    MaintStarts(s, false);
    var s1 := After(s, start);
    AllFinish(s1, ws, 0);
    var s2 := After(s1, Finishing(ws, 0));
    AllArriveMaint(s2, 0);
    var s3 := After(s2, Arrivals(0, n));
    RoundWorks(s3, m);
    RunAppend(s2, Arrivals(0, n), RoundRun(n, m));
    RunAppend(s1, Finishing(ws, 0), Arrivals(0, n) + RoundRun(n, m));
    RunAppend(s, start, Finishing(ws, 0) + (Arrivals(0, n) + RoundRun(n, m)));
  }

  // The branch back to the loop in front of the barrier is never taken: in a proper run the function
  // is still set when a worker that has seen it gets there.
  lemma FunctionStillSet(n: nat, before: seq<Action>, i: nat)
    requires IsRun(Init(n), before) && ProperRun(Init(n), before) && i < |After(Init(n), before).workers|
    requires After(Init(n), before).workers[i].EnteringMaintenance?
    ensures After(Init(n), before).maintProc.Proc?
  {
    InitInv(n);
    RunKeepsInv(Init(n), before);
    assert WorkerOk(After(Init(n), before), i);
  }

  // ---------------------------------------------------------------- back to work

  // Out of a pause or of maintenance, or at work.
  predicate InLoop(w: Worker) {
    w.LoopTop? || w.Operating? || w.Exited?
  }

  // Once a pause has been resumed or maintenance is done, a worker is in its loop or gets there by one
  // step of its own; and one that does not wait yet does not begin to.
  lemma BackToWork(n: nat, before: seq<Action>, i: nat)
    requires IsRun(Init(n), before) && ProperRun(Init(n), before) && i < |After(Init(n), before).workers|
    requires var s := After(Init(n), before); s.status == Started && !s.pauseRequested
    ensures var s := After(Init(n), before);
            var step := if s.workers[i].PastBarrier? then TakeLock(i) else WakeUp(i);
            && s.lockHolder.None?
            && (InLoop(s.workers[i]) || (Enabled(s, step) && Apply(s, step) == SetWorker(s, i, LoopTop)))
  {
    InitInv(n);
    RunKeepsInv(Init(n), before);
    var s := After(Init(n), before);
    NobodyHolds(s);
    assert WorkerOk(s, i);
    assert s.workers[i].AtBarrier? || s.workers[i].PastBarrier? ==>
             s.workers[i].entry.ViaPause? || s.workers[i].entry.ViaMaintenance?;
  }

  lemma NobodyHolds(s: Stage)
    requires WorkersOk(s) && s.status != MaintenanceRequested
    ensures s.lockHolder.None?
  {
    assert s.lockHolder.Some? ==> WorkerOk(s, s.lockHolder.value);
  }

  function RecoverRun(n: nat, m: nat): seq<Action> {
    [TripBarrier(m)] + (Takes(0, n, m) + ([MaintReturn] + ([MaintFail] + (Wakes(0, n, n)
    + ([ResumeCall] + ([ResumeClear] + [ResumeFinish]))))))
  }

  // When all workers have come to the barrier through the pause branch, a schedule_maintenance call
  // fails and takes its request back: the workers go back to their loop on their own, and a resume
  // brings the stage back.
  lemma Recovers(s: Stage, m: nat)
    requires m < |s.workers| && s.workers == seq(|s.workers|, _ => AtBarrier(ViaPause)) && s.pauseRequested
    requires s.lockHolder.None? && s.status == MaintenanceRequested && s.controller.MaintWait?
    ensures IsRun(s, RecoverRun(|s.workers|, m))
    ensures After(s, RecoverRun(|s.workers|, m))
         == s.(status := Started, pauseRequested := false, maintProc := NoProc, controller := NoCall,
               workers := seq(|s.workers|, _ => LoopTop))
  {
    var n := |s.workers|;
    Trips(s, m, ViaPause);
    var s1 := Apply(s, TripBarrier(m));
    PauseTakes(s1, 0, m);
    var s2 := After(s1, Takes(0, n, m));
    var s3 := Apply(s2, MaintReturn);
    var s4 := Apply(s3, MaintFail);
    AllWake(s4, 0, n, WaitingResume);
    var s5 := After(s4, Wakes(0, n, n));
    var s6 := Apply(s5, ResumeCall);
    var s7 := Apply(s6, ResumeClear);
    One(s7, ResumeFinish);
    Cons(s6, ResumeClear, [ResumeFinish]);
    var last := [ResumeCall] + ([ResumeClear] + [ResumeFinish]);
    Cons(s5, ResumeCall, [ResumeClear] + [ResumeFinish]);
    RunAppend(s4, Wakes(0, n, n), last);
    Cons(s3, MaintFail, Wakes(0, n, n) + last);
    Cons(s2, MaintReturn, [MaintFail] + (Wakes(0, n, n) + last));
    RunAppend(s1, Takes(0, n, m), [MaintReturn] + ([MaintFail] + (Wakes(0, n, n) + last)));
    Cons(s, TripBarrier(m), Takes(0, n, m) + ([MaintReturn] + ([MaintFail] + (Wakes(0, n, n) + last))));
  }
}
