/**
 Spreading a batch of runnable callout tasks over the queues of several workers
 (framework/lib/callout_stage.c).

 A worker's queue is bounded and blocking: a put of several tasks may be interrupted by a wakeup
 after some of them are in the queue, or fail there, because a wait of it fails.  (A queue that
 is shut down fails a put too, but empties itself; no queue is shut down here.)  How each put
 ends is a parameter; TryPossible() shows that the queues allow it.
 */
module CalloutStage {
  import opened Arith
  import opened Wrappers
  import Queue = CBufferProtocol

  // How the puts of one try go: the numbers put before each wakeup, and, if the last put fails,
  // the number it has put.
  datatype Try = Try(wakeups: seq<nat>, failure: Option<nat>)

  // ---------------------------------------------------------------- dealing

  // The queue after q of w queues.
  function NextQueue(q: nat, w: nat): (n: nat)
    requires q < w
    ensures n < w
  {
    if q + 1 == w then 0 else q + 1
  }

  // What the queue i receives when tasks are dealt out in chunks of s to w queues in turn,
  // beginning with the queue q.
  function Dealt<T>(tasks: seq<T>, s: nat, w: nat, q: nat, i: nat): seq<T>
    requires s > 0 && q < w
    decreases |tasks|
  {
    if tasks == [] then []
    else
      var k := Min(s, |tasks|);
      (if q == i then tasks[..k] else []) + Dealt(tasks[k..], s, w, NextQueue(q, w), i)
  }

  // The chunks in front of the first one for queue i.
  function Offset(q: nat, w: nat, i: nat): (d: nat)
    requires q < w && i < w
    ensures d < w && (q == i <==> d == 0)
  {
    if q <= i then i - q else i + w - q
  }

  // m_last_q++ goes on to the next queue.
  lemma ModNext(q: nat, w: nat)
    requires w > 0
    ensures (q + 1) % w == NextQueue(q % w, w)
  {
    var k := q / w;
    assert q == w * k + q % w;
    if q % w + 1 == w {
      assert q + 1 == w * (k + 1);
      DivModIs(q + 1, w, k + 1, 0);
    } else {
      DivModIs(q + 1, w, k, q % w + 1);
    }
  }

  // The load of the queue whose first chunk is d chunks away, when n tasks are dealt.
  function Load(n: nat, s: nat, w: nat, d: nat): nat
    requires s > 0 && d < w
    decreases n
  {
    if n == 0 then 0
    else if d == 0 then Min(s, n) + Load(n - Min(s, n), s, w, w - 1)
    else Load(n - Min(s, n), s, w, d - 1)
  }

  lemma {:induction false} DealtLoad<T>(tasks: seq<T>, s: nat, w: nat, q: nat, i: nat)
    requires s > 0 && i < w && q < w
    ensures |Dealt(tasks, s, w, q, i)| == Load(|tasks|, s, w, Offset(q, w, i))
    decreases |tasks|
  {
    if tasks != [] {
      DealtLoad(tasks[Min(s, |tasks|)..], s, w, NextQueue(q, w), i);
    }
  }

  lemma {:induction false} LoadNone(n: nat, s: nat, w: nat, d: nat)
    requires s > 0 && d < w && n <= d * s
    ensures Load(n, s, w, d) == 0
    decreases n
  {
    if n > 0 {
      assert (d - 1) * s == d * s - s;
      LoadNone(n - Min(s, n), s, w, d - 1);
    }
  }

  // The first chunk is a full one.
  lemma {:induction false} LoadAtLeast(n: nat, s: nat, w: nat, d: nat)
    requires s > 0 && d < w && n >= (d + 1) * s
    ensures Load(n, s, w, d) >= s
    decreases n
  {
    assert (d + 1) * s == d * s + s;
    if d > 0 { LoadAtLeast(n - s, s, w, d - 1); }
  }

  // There are too few tasks for a second chunk.
  lemma {:induction false} LoadOnce(n: nat, s: nat, w: nat, d: nat)
    requires s > 0 && d < w && n <= (d + w) * s
    ensures Load(n, s, w, d) <= s
    decreases n
  {
    if n > 0 {
      assert (d + w - 1) * s == (d + w) * s - s;
      if d == 0 { LoadNone(n - Min(s, n), s, w, w - 1); } else { LoadOnce(n - Min(s, n), s, w, d - 1); }
    }
  }

  // There are too few tasks for a third chunk.
  lemma {:induction false} LoadTwice(n: nat, s: nat, w: nat, d: nat)
    requires s > 0 && d < w && n <= (d + w + w) * s
    ensures Load(n, s, w, d) <= s + s
    decreases n
  {
    if n > 0 {
      assert (d + w + w - 1) * s == (d + w + w) * s - s;
      if d == 0 { LoadOnce(n - Min(s, n), s, w, w - 1); } else { LoadTwice(n - Min(s, n), s, w, d - 1); }
    }
  }

  // The stride of s_submit_callout_stage().
  function Stride(n: nat, w: nat): (s: nat)
    requires w > 0
    ensures s > 0
  {
    if n / w == 0 then 1 else n / w
  }

  // The loads of any two queues differ by one chunk at most.
  lemma LoadsBalanced<T>(tasks: seq<T>, w: nat, q: nat, i: nat, j: nat)
    requires i < w && j < w && q < w
    ensures var s := Stride(|tasks|, w);
            |Dealt(tasks, s, w, q, i)| <= |Dealt(tasks, s, w, q, j)| + Max(1, |tasks| / w)
  {
    var s := Stride(|tasks|, w);
    DealtLoad(tasks, s, w, q, i);
    DealtLoad(tasks, s, w, q, j);
    if |tasks| / w == 0 {
      FewerThanWorkers(|tasks|, w, Offset(q, w, i));
      LoadOnce(|tasks|, s, w, Offset(q, w, i));
    } else {
      AtMostTwoRounds(|tasks|, w, Offset(q, w, i));
      LoadTwice(|tasks|, s, w, Offset(q, w, i));
      OneRound(|tasks|, w, Offset(q, w, j));
      LoadAtLeast(|tasks|, s, w, Offset(q, w, j));
    }
  }

  lemma FewerThanWorkers(n: nat, w: nat, d: nat)
    requires w > 0 && n / w == 0
    ensures n <= (d + w) * 1
  {
    assert n == w * (n / w) + n % w;
  }

  lemma AtMostTwoRounds(n: nat, w: nat, d: nat)
    requires w > 0 && n / w > 0
    ensures n <= (d + w + w) * (n / w)
  {
    var s := n / w;
    assert n == w * s + n % w;
    assert w <= w * s;
    assert (d + w + w) * s == d * s + w * s + w * s;
  }

  lemma OneRound(n: nat, w: nat, d: nat)
    requires d < w && n / w > 0
    ensures n >= (d + 1) * (n / w)
  {
    var s := n / w;
    assert n == w * s + n % w;
    assert (w - d - 1) * s >= 0;
    assert w * s == (d + 1) * s + (w - d - 1) * s;
  }

  // What each queue receives.
  function Deals<T>(tasks: seq<T>, s: nat, w: nat, q: nat): seq<seq<T>>
    requires s > 0 && q < w
  {
    seq(w, i requires 0 <= i < w => Dealt(tasks, s, w, q, i))
  }

  // The copies of x in all parts together.
  function Copies<T(==)>(parts: seq<seq<T>>, x: T): nat {
    if parts == [] then 0 else multiset(parts[0])[x] + Copies(parts[1..], x)
  }

  lemma {:induction false} NoCopies<T>(parts: seq<seq<T>>, x: T)
    requires forall i :: 0 <= i < |parts| ==> parts[i] == []
    ensures Copies(parts, x) == 0
    decreases |parts|
  {
    if parts != [] { NoCopies(parts[1..], x); }
  }

  // One part has the tasks of front more.
  lemma {:induction false} CopiesMore<T>(more: seq<seq<T>>, less: seq<seq<T>>, q: nat, front: seq<T>, x: T)
    requires q < |more| == |less|
    requires forall i :: 0 <= i < |more| ==> more[i] == (if i == q then front else []) + less[i]
    ensures Copies(more, x) == Copies(less, x) + multiset(front)[x]
    decreases |more|
  {
    if q == 0 {
      assert more[1..] == less[1..] by { forall i | 0 < i < |more| ensures more[i] == less[i] {} }
    } else {
      assert more[0] == less[0];
      CopiesMore(more[1..], less[1..], q - 1, front, x);
    }
  }

  lemma CopiesSplit<T>(tasks: seq<T>, k: nat, x: T)
    requires k <= |tasks|
    ensures multiset(tasks)[x] == multiset(tasks[..k])[x] + multiset(tasks[k..])[x]
  {
    assert tasks == tasks[..k] + tasks[k..];
  }

  // The order of the batch is kept within a queue: idx tells where in the batch each task of
  // the queue i comes from.
  lemma {:induction false} DealtInOrder<T>(tasks: seq<T>, s: nat, w: nat, q: nat, i: nat) returns (idx: seq<nat>)
    requires s > 0 && q < w
    ensures |idx| == |Dealt(tasks, s, w, q, i)|
    ensures forall a :: 0 <= a < |idx| ==> idx[a] < |tasks| && tasks[idx[a]] == Dealt(tasks, s, w, q, i)[a]
    ensures forall a, b :: 0 <= a < b < |idx| ==> idx[a] < idx[b]
    decreases |tasks|
  {
    if tasks == [] {
      idx := [];
    } else {
      var k := Min(s, |tasks|);
      var rest := DealtInOrder(tasks[k..], s, w, NextQueue(q, w), i);
      var front := if q == i then seq(k, a => a) else [];
      idx := front + seq(|rest|, a requires 0 <= a < |rest| => rest[a] + k);
    }
  }

  // ---------------------------------------------------------------- deliveries

  predicate NoneFails(tries: seq<Try>) {
    forall k :: 0 <= k < |tries| ==> tries[k].failure.None?
  }

  // How many of n tasks are in the queue after the wakeups.
  function Woken(wakeups: seq<nat>, n: nat): (d: nat)
    requires n > 0
    ensures d < n
  {
    if wakeups == [] then 0
    else
      var d := Woken(wakeups[..|wakeups| - 1], n);
      d + Min(wakeups[|wakeups| - 1], n - d - 1)
  }

  function Sum(xs: seq<nat>): nat {
    if xs == [] then 0 else Sum(xs[..|xs| - 1]) + xs[|xs| - 1]
  }

  // The puts before the wakeups add up, and leave one task at least for the last put.
  lemma {:induction false} WokenIs(wakeups: seq<nat>, n: nat)
    requires n > 0
    ensures Woken(wakeups, n) == Min(Sum(wakeups), n - 1)
  {
    if wakeups != [] { WokenIs(wakeups[..|wakeups| - 1], n); }
  }

  // How many of n tasks one try puts.
  function PutCount(t: Try, n: nat): (c: nat)
    requires n > 0
    ensures c <= n && (c == n <==> t.failure.None?)
  {
    var d := Woken(t.wakeups, n);
    if t.failure.None? then n else d + Min(t.failure.value, n - d - 1)
  }

  // The put before the i-th wakeup ends as a queue of this capacity allows.
  ghost predicate WakeupAllowed<T(!new)>(capacity: nat, tasks: seq<T>, t: Try, i: nat)
    requires tasks != [] && i < |t.wakeups|
  {
    var d := Woken(t.wakeups[..i], |tasks|);
    Queue.PutEnds(capacity, tasks[d..], Min(t.wakeups[i], |tasks| - d - 1), Queue.WakeupRequested)
  }

  // So does the last put.
  ghost predicate EndAllowed<T(!new)>(capacity: nat, tasks: seq<T>, t: Try)
    requires tasks != []
  {
    var d := Woken(t.wakeups, |tasks|);
    var n := PutCount(t, |tasks|) - d;
    Queue.PutEnds(capacity, tasks[d..], n, if t.failure.None? then Queue.Count(n) else Queue.Failed)
  }

  lemma WakeupPossible<T(!new)>(capacity: nat, tasks: seq<T>, t: Try, i: nat)
    requires capacity > 0 && tasks != [] && i < |t.wakeups|
    ensures WakeupAllowed(capacity, tasks, t, i)
  {
    var d := Woken(t.wakeups[..i], |tasks|);
    Queue.PutMayEnd(capacity, tasks[d..], Min(t.wakeups[i], |tasks| - d - 1), Queue.WakeupRequested);
  }

  // Every put of every try ends as the queue allows, whatever its capacity: a wakeup or a failing
  // wait after any proper prefix, or all tasks put.
  lemma TryPossible<T(!new)>(capacity: nat, tasks: seq<T>, t: Try)
    requires capacity > 0 && tasks != []
    ensures forall i :: 0 <= i < |t.wakeups| ==> WakeupAllowed(capacity, tasks, t, i)
    ensures EndAllowed(capacity, tasks, t)
  {
    forall i | 0 <= i < |t.wakeups| ensures WakeupAllowed(capacity, tasks, t, i) { WakeupPossible(capacity, tasks, t, i); }
    var d := Woken(t.wakeups, |tasks|);
    var n := PutCount(t, |tasks|) - d;
    Queue.PutMayEnd(capacity, tasks[d..], n, if t.failure.None? then Queue.Count(n) else Queue.Failed);
  }

  // What is left to do after a try.
  function AfterTry<T>(tasks: seq<T>, s: nat, t: Try): seq<T> {
    if t.failure.None? then tasks[Min(s, |tasks|)..] else tasks
  }

  // What the queue i receives when the tries begin with the queue q.
  function Delivered<T>(tasks: seq<T>, s: nat, w: nat, q: nat, tries: seq<Try>, i: nat): seq<T>
    requires s > 0 && q < w
    decreases |tries|
  {
    if tasks == [] || tries == [] then []
    else
      (if q == i then tasks[..PutCount(tries[0], Min(s, |tasks|))] else [])
      + Delivered(AfterTry(tasks, s, tries[0]), s, w, NextQueue(q, w), tries[1..], i)
  }

  // What comes of a submission: the tasks that no try delivered, what failed tries had put, the
  // tries that were made, and whether the last one failed.
  datatype Progress<T> = Progress(rest: seq<T>, inVain: seq<T>, used: nat, failed: bool)

  function Submission<T>(tasks: seq<T>, s: nat, tries: seq<Try>): (p: Progress<T>)
    requires s > 0
    ensures |p.rest| <= |tasks|
    decreases |tries|
  {
    if tasks == [] || tries == [] then Progress(tasks, [], 0, false)
    else
      var p := Submission(AfterTry(tasks, s, tries[0]), s, tries[1..]);
      var put := tasks[..PutCount(tries[0], Min(s, |tasks|))];
      if tries[0].failure.None? then p.(used := p.used + 1)
      else Progress(p.rest, put + p.inVain, p.used + 1, |tries| == 1 || p.failed)
  }

  // What s_submit_callout_stage() returns: None is the error of the last try.
  function ResultOf<T>(tasks: seq<T>, p: Progress<T>): Option<nat>
    requires |p.rest| <= |tasks|
  {
    if p.failed then None else Some(|tasks| - |p.rest|)
  }

  // The tasks not delivered are the end of the batch.
  lemma {:induction false} RestIsEnd<T>(tasks: seq<T>, s: nat, tries: seq<Try>)
    requires s > 0
    ensures var rest := Submission(tasks, s, tries).rest; rest == tasks[|tasks| - |rest|..]
    decreases |tries|
  {
    if tasks != [] && tries != [] {
      RestIsEnd(AfterTry(tasks, s, tries[0]), s, tries[1..]);
    }
  }

  lemma Append<T>(x: seq<T>, y: seq<T>, z: seq<T>)
    ensures (x + y) + z == x + (y + z)
  {
  }

  // One try more, for the queue i, which had have and is to have goal.
  lemma DeliveredNext<T>(have: seq<T>, have': seq<T>, goal: seq<T>, tasks: seq<T>, s: nat, w: nat, q: nat, tries: seq<Try>,
                         i: nat)
    requires s > 0 && q < w && tasks != [] && tries != []
    requires have + Delivered(tasks, s, w, q, tries, i) == goal
    requires have' == have + if q == i then tasks[..PutCount(tries[0], Min(s, |tasks|))] else []
    ensures have' + Delivered(AfterTry(tasks, s, tries[0]), s, w, NextQueue(q, w), tries[1..], i) == goal
  {
    var put := if q == i then tasks[..PutCount(tries[0], Min(s, |tasks|))] else [];
    var later := Delivered(AfterTry(tasks, s, tries[0]), s, w, NextQueue(q, w), tries[1..], i);
    assert Delivered(tasks, s, w, q, tries, i) == put + later;
    Append(have, put, later);
  }

  lemma SubmissionNext<T>(tasks: seq<T>, s: nat, tries: seq<Try>)
    requires s > 0 && tasks != [] && tries != []
    ensures var t, rest := tries[0], AfterTry(tasks, s, tries[0]);
            Submission(tasks, s, tries)
            == Adding(t.failure.Some?, tasks[..PutCount(t, Min(s, |tasks|))], Submission(rest, s, tries[1..]), |tries| == 1)
  {
  }

  lemma SubmissionOver<T>(tasks: seq<T>, s: nat, tries: seq<Try>)
    requires s > 0 && (tasks == [] || tries == [])
    ensures Submission(tasks, s, tries) == Progress(tasks, [], 0, false)
  {
  }

  // When no try fails the batch is dealt out, and the tries suffice.
  lemma {:induction false} DeliveredIsDealt<T>(tasks: seq<T>, s: nat, w: nat, q: nat, tries: seq<Try>, i: nat)
    requires s > 0 && q < w && NoneFails(tries) && |tries| >= |tasks|
    ensures Delivered(tasks, s, w, q, tries, i) == Dealt(tasks, s, w, q, i)
    ensures var p := Submission(tasks, s, tries); p.rest == [] && p.inVain == [] && !p.failed
    decreases |tries|
  {
    if tasks != [] {
      DeliveredIsDealt(tasks[Min(s, |tasks|)..], s, w, NextQueue(q, w), tries[1..], i);
    }
  }

  function Deliveries<T>(tasks: seq<T>, s: nat, w: nat, q: nat, tries: seq<Try>): seq<seq<T>>
    requires s > 0 && q < w
  {
    seq(w, i requires 0 <= i < w => Delivered(tasks, s, w, q, tries, i))
  }

  // The copies of a task in the queues, together with what is left, are the task itself and what
  // failed tries had put of it: that is queued again by a later try.
  lemma {:induction false} DeliveredCopies<T>(tasks: seq<T>, s: nat, w: nat, q: nat, tries: seq<Try>, x: T)
    requires s > 0 && q < w
    ensures var p := Submission(tasks, s, tries);
            Copies(Deliveries(tasks, s, w, q, tries), x) + multiset(p.rest)[x]
            == multiset(tasks)[x] + multiset(p.inVain)[x]
    decreases |tries|
  {
    var parts := Deliveries(tasks, s, w, q, tries);
    if tasks == [] || tries == [] {
      NoCopies(parts, x);
    } else {
      var k := Min(s, |tasks|);
      var c, rest, q' := PutCount(tries[0], k), AfterTry(tasks, s, tries[0]), NextQueue(q, w);
      CopiesMore(parts, Deliveries(rest, s, w, q', tries[1..]), q, tasks[..c], x);
      DeliveredCopies(rest, s, w, q', tries[1..], x);
      CopiesSplit(tasks, k, x);
    }
  }

  // Without failures every task is dealt to exactly one queue: no copy is made, and none is lost.
  lemma DealtOnce<T>(tasks: seq<T>, s: nat, w: nat, q: nat, x: T)
    requires s > 0 && q < w
    ensures Copies(Deals(tasks, s, w, q), x) == multiset(tasks)[x]
  {
    var tries := seq(|tasks|, _ => Try([], None));
    forall i | 0 <= i < w ensures Delivered(tasks, s, w, q, tries, i) == Dealt(tasks, s, w, q, i) {
      DeliveredIsDealt(tasks, s, w, q, tries, i);
    }
    assert Deals(tasks, s, w, q) == Deliveries(tasks, s, w, q, tries);
    DeliveredIsDealt(tasks, s, w, q, tries, q);
    DeliveredCopies(tasks, s, w, q, tries, x);
  }

  // A failed try has never put the last task of the batch.
  lemma {:induction false} InVainBeforeLast<T>(tasks: seq<T>, s: nat, tries: seq<Try>, x: T)
    requires s > 0 && x in Submission(tasks, s, tries).inVain
    ensures tasks != [] && x in tasks[..|tasks| - 1]
    decreases |tries|
  {
    var put := tasks[..PutCount(tries[0], Min(s, |tasks|))];
    var rest := AfterTry(tasks, s, tries[0]);
    if tries[0].failure.Some? && x in put {
      assert put <= tasks[..|tasks| - 1];
    } else {
      InVainBeforeLast(rest, s, tries[1..], x);
      InLaterTasks(tasks, |tasks| - |rest|, x);
    }
  }

  lemma InLaterTasks<T>(tasks: seq<T>, m: nat, x: T)
    requires m < |tasks| && x in tasks[m..][..|tasks| - m - 1]
    ensures x in tasks[..|tasks| - 1]
  {
    var later := tasks[m..][..|tasks| - m - 1];
    var i :| 0 <= i < |later| && later[i] == x;
    assert tasks[..|tasks| - 1][m + i] == x;
  }

  predicate Distinct<T(==)>(tasks: seq<T>) {
    forall i, j :: 0 <= i < j < |tasks| ==> tasks[i] != tasks[j]
  }

  lemma DistinctOnce<T>(tasks: seq<T>, i: nat)
    requires Distinct(tasks) && i < |tasks|
    ensures multiset(tasks)[tasks[i]] == 1
  {
    var x := tasks[i];
    CopiesSplit(tasks, i, x);
    CopiesSplit(tasks[i..], 1, x);
    assert tasks[i..][..1] == [x];
    assert x !in tasks[..i] && x !in tasks[i..][1..];
  }

  ghost predicate EachInOneQueue<T(!new)>(tasks: seq<T>, parts: seq<seq<T>>) {
    forall x :: x in tasks ==> Copies(parts, x) == 1
  }

  lemma CopiesOfTask<T>(tasks: seq<T>, s: nat, w: nat, q: nat, tries: seq<Try>, i: nat)
    requires s > 0 && q < w && Distinct(tasks) && i < |tasks|
    ensures var p := Submission(tasks, s, tries);
            Copies(Deliveries(tasks, s, w, q, tries), tasks[i]) + multiset(p.rest)[tasks[i]]
            == 1 + multiset(p.inVain)[tasks[i]]
  {
    DeliveredCopies(tasks, s, w, q, tries, tasks[i]);
    DistinctOnce(tasks, i);
  }

  // What is not delivered includes the last task, which is in no queue then.
  lemma LastMissing<T>(tasks: seq<T>, s: nat, w: nat, q: nat, tries: seq<Try>)
    requires s > 0 && q < w && Distinct(tasks) && Submission(tasks, s, tries).rest != []
    ensures Copies(Deliveries(tasks, s, w, q, tries), tasks[|tasks| - 1]) == 0
  {
    var p, x := Submission(tasks, s, tries), tasks[|tasks| - 1];
    CopiesOfTask(tasks, s, w, q, tries, |tasks| - 1);
    assert x in p.rest by {
      RestIsEnd(tasks, s, tries);
      assert p.rest[|p.rest| - 1] == x;
    }
    if x in p.inVain {
      InVainBeforeLast(tasks, s, tries, x);
      assert false;
    }
    assert multiset(p.inVain)[x] == 0;
  }

  // What a failed try had put, and a later one has put again.
  lemma FirstTwice<T>(tasks: seq<T>, s: nat, w: nat, q: nat, tries: seq<Try>)
    requires s > 0 && q < w && Distinct(tasks)
    requires Submission(tasks, s, tries).rest == [] && Submission(tasks, s, tries).inVain != []
    ensures var x := Submission(tasks, s, tries).inVain[0];
            x in tasks && Copies(Deliveries(tasks, s, w, q, tries), x) >= 2
  {
    var p := Submission(tasks, s, tries);
    InVainBeforeLast(tasks, s, tries, p.inVain[0]);
    var i :| 0 <= i < |tasks| - 1 && tasks[i] == p.inVain[0];
    CopiesOfTask(tasks, s, w, q, tries, i);
  }

  // The tasks of a batch are in one queue each, once, exactly if all of them are delivered and no
  // failed try had put anything.
  lemma EachOnceIff<T(!new)>(tasks: seq<T>, s: nat, w: nat, q: nat, tries: seq<Try>)
    requires s > 0 && q < w && Distinct(tasks)
    ensures var p := Submission(tasks, s, tries);
            EachInOneQueue(tasks, Deliveries(tasks, s, w, q, tries)) <==> p.rest == [] && p.inVain == []
  {
    var p := Submission(tasks, s, tries);
    if p.rest != [] {
      LastMissing(tasks, s, w, q, tries);
    } else if p.inVain != [] {
      FirstTwice(tasks, s, w, q, tries);
    } else {
      forall x | x in tasks ensures Copies(Deliveries(tasks, s, w, q, tries), x) == 1 {
        var i :| 0 <= i < |tasks| && tasks[i] == x;
        CopiesOfTask(tasks, s, w, q, tries, i);
      }
    }
  }

  // ---------------------------------------------------------------- the stage

  // The number of tasks in all queues together.
  function Total<T>(qs: seq<seq<T>>): nat {
    if qs == [] then 0 else |qs[0]| + Total(qs[1..])
  }

  lemma {:induction false} TotalGrows<T>(was: seq<seq<T>>, now: seq<seq<T>>, idx: nat, n: nat)
    requires |was| == |now| && idx < |was| && |now[idx]| == |was[idx]| + n
    requires forall i :: 0 <= i < |was| && i != idx ==> now[i] == was[i]
    ensures Total(now) == Total(was) + n
    decreases |was|
  {
    if idx > 0 { TotalGrows(was[1..], now[1..], idx - 1, n); } else { assert now[1..] == was[1..]; }
  }

  // The queue idx has got vals, and no other queue anything.
  ghost predicate Got<T>(was: seq<seq<T>>, now: seq<seq<T>>, idx: nat, vals: seq<T>) {
    && |was| == |now| && idx < |was| && now[idx] == was[idx] + vals
    && forall i :: 0 <= i < |was| && i != idx ==> now[i] == was[i]
  }

  // What has come of the tries so far, together with what comes of the rest, if there is one.
  function Together<T>(inVain: seq<T>, tried: nat, failed: bool, p: Progress<T>, over: bool): Progress<T> {
    Progress(p.rest, inVain + p.inVain, tried + p.used, if over then failed else p.failed)
  }

  // What a try that fails, or not, and puts put adds to what comes of the rest.
  function Adding<T>(fails: bool, put: seq<T>, p: Progress<T>, last: bool): Progress<T> {
    if fails then Progress(p.rest, put + p.inVain, p.used + 1, last || p.failed)
    else Progress(p.rest, p.inVain, p.used + 1, p.failed)
  }

  lemma TogetherNext<T>(inVain: seq<T>, tried: nat, failed: bool, fails: bool, put: seq<T>, p: Progress<T>, last: bool,
                        over: bool)
    requires (over ==> !p.failed) && (fails ==> last == over)
    ensures Together(inVain, tried, failed, Adding(fails, put, p, last), false)
         == Together(inVain + (if fails then put else []), tried + 1, fails, p, over)
  {
    Append(inVain, put, p.inVain);
  }

  // A submission in chunks of s under way: what the queues are to hold in the end, what is to come
  // of it, and the number of tasks in the queues at first.
  datatype Batch<T> = Batch(tasks: seq<T>, s: nat, tries: seq<Try>, goal: seq<seq<T>>, whole: Progress<T>, had: nat) {

    // The tasks that the next try sends.
    function Chunk(nTotal: nat): (k: nat)
      requires nTotal <= |tasks|
      ensures k <= |tasks| - nTotal
    {
      Min(s, |tasks| - nTotal)
    }

    // The number of tasks delivered after it, and the tasks it puts.
    function NextTotal(nTotal: nat, t: Try): (n: nat)
      requires nTotal <= |tasks|
      ensures nTotal <= n <= |tasks|
    {
      if t.failure.None? then nTotal + Chunk(nTotal) else nTotal
    }

    function NextPut(nTotal: nat, t: Try): seq<T>
      requires s > 0 && nTotal < |tasks|
    {
      tasks[nTotal..nTotal + PutCount(t, Chunk(nTotal))]
    }

    // With nTotal tasks delivered, so many tries made and the queue q next, the queue i has its
    // part, up to what is left.
    ghost predicate PartDelivered(qs: seq<seq<T>>, q: nat, nTotal: nat, tried: nat, i: nat)
      requires s > 0 && i < |qs| == |goal| && nTotal <= |tasks| && tried <= |tries| && q < |qs|
    {
      qs[i] + Delivered(tasks[nTotal..], s, |qs|, q, tries[tried..], i) == goal[i]
    }

    ghost predicate Delivering(qs: seq<seq<T>>, q: nat, nTotal: nat, tried: nat) {
      && s > 0 && |qs| == |goal| && nTotal <= |tasks| && tried <= |tries| && q < |qs|
      && forall i :: 0 <= i < |qs| ==> PartDelivered(qs, q, nTotal, tried, i)
    }

    // What has come of the submission so far, and what the rest will add.
    ghost predicate Reached(nTotal: nat, tried: nat, inVain: seq<T>, failed: bool) {
      && s > 0 && nTotal <= |tasks| && tried <= |tries|
      && whole == Together(inVain, tried, failed, Submission(tasks[nTotal..], s, tries[tried..]), Over(nTotal, tried))
    }

    // The loop ends.
    predicate Over(nTotal: nat, tried: nat) {
      nTotal == |tasks| || tried == |tries|
    }

    // The state of the loop.
    ghost predicate Going(qs: seq<seq<T>>, q: nat, nTotal: nat, tried: nat, inVain: seq<T>, ret: Option<nat>) {
      && Delivering(qs, q, nTotal, tried) && Reached(nTotal, tried, inVain, ret.None?)
      && Total(qs) == had + nTotal + |inVain| && (ret.Some? ==> ret == Some(nTotal))
    }

    lemma NextTry(nTotal: nat, tried: nat)
      requires s > 0 && nTotal < |tasks| && tried < |tries|
      ensures AfterTry(tasks[nTotal..], s, tries[tried]) == tasks[NextTotal(nTotal, tries[tried])..]
      ensures tasks[nTotal..][..PutCount(tries[tried], Chunk(nTotal))] == NextPut(nTotal, tries[tried])
      ensures tries[tried..][0] == tries[tried] && tries[tried..][1..] == tries[tried + 1..]
    {
    }

    lemma PartNext(qs: seq<seq<T>>, qs': seq<seq<T>>, q: nat, nTotal: nat, tried: nat, i: nat)
      requires Delivering(qs, q, nTotal, tried) && nTotal < |tasks| && tried < |tries| && i < |qs|
      requires Got(qs, qs', q, NextPut(nTotal, tries[tried]))
      ensures PartDelivered(qs', NextQueue(q, |qs|), NextTotal(nTotal, tries[tried]), tried + 1, i)
    {
      assert PartDelivered(qs, q, nTotal, tried, i);
      NextTry(nTotal, tried);
      DeliveredNext(qs[i], qs'[i], goal[i], tasks[nTotal..], s, |qs|, q, tries[tried..], i);
    }

    lemma DeliveringNext(qs: seq<seq<T>>, qs': seq<seq<T>>, q: nat, nTotal: nat, tried: nat)
      requires Delivering(qs, q, nTotal, tried) && nTotal < |tasks| && tried < |tries|
      requires Got(qs, qs', q, NextPut(nTotal, tries[tried]))
      ensures Delivering(qs', NextQueue(q, |qs|), NextTotal(nTotal, tries[tried]), tried + 1)
    {
      var m, t', q' := NextTotal(nTotal, tries[tried]), tried + 1, NextQueue(q, |qs|);
      forall i | 0 <= i < |qs'| ensures PartDelivered(qs', q', m, t', i) { PartNext(qs, qs', q, nTotal, tried, i); }
    }

    lemma ReachedNext(nTotal: nat, tried: nat, inVain: seq<T>, failed: bool)
      requires Reached(nTotal, tried, inVain, failed) && nTotal < |tasks| && tried < |tries|
      ensures var t := tries[tried];
              Reached(NextTotal(nTotal, t), tried + 1, inVain + (if t.failure.Some? then NextPut(nTotal, t) else []),
                      t.failure.Some?)
    {
      var t, m := tries[tried], NextTotal(nTotal, tries[tried]);
      var next := Submission(tasks[m..], s, tries[tried + 1..]);
      NextTry(nTotal, tried);
      SubmissionNext(tasks[nTotal..], s, tries[tried..]);
      if Over(m, tried + 1) { SubmissionOver(tasks[m..], s, tries[tried + 1..]); }
      TogetherNext(inVain, tried, failed, t.failure.Some?, NextPut(nTotal, t), next, |tries[tried..]| == 1, Over(m, tried + 1));
    }

    lemma GoingNext(qs: seq<seq<T>>, qs': seq<seq<T>>, q: nat, nTotal: nat, tried: nat, inVain: seq<T>, ret: Option<nat>)
      requires Going(qs, q, nTotal, tried, inVain, ret) && nTotal < |tasks| && tried < |tries|
      requires Got(qs, qs', q, NextPut(nTotal, tries[tried]))
      ensures var t := tries[tried];
              var m := NextTotal(nTotal, t);
              Going(qs', NextQueue(q, |qs|), m, tried + 1, inVain + (if t.failure.Some? then NextPut(nTotal, t) else []),
                    if t.failure.None? then Some(m) else None)
    {
      DeliveringNext(qs, qs', q, nTotal, tried);
      ReachedNext(nTotal, tried, inVain, ret.None?);
      TotalGrows(qs, qs', q, |NextPut(nTotal, tries[tried])|);
    }

    lemma ReachedEnd(nTotal: nat, tried: nat, inVain: seq<T>, failed: bool)
      requires Reached(nTotal, tried, inVain, failed) && Over(nTotal, tried)
      ensures whole == Progress(tasks[nTotal..], inVain, tried, failed)
    {
      SubmissionOver(tasks[nTotal..], s, tries[tried..]);
    }

    // What Going() says at the end of the loop.
    lemma Gone(qs: seq<seq<T>>, q: nat, nTotal: nat, tried: nat, inVain: seq<T>, ret: Option<nat>)
      requires Going(qs, q, nTotal, tried, inVain, ret) && Over(nTotal, tried)
      ensures forall i :: 0 <= i < |qs| ==> qs[i] == goal[i]
      ensures |whole.rest| <= |tasks| && ret == ResultOf(tasks, whole) && tried == whole.used
      ensures Total(qs) == had + |tasks| - |whole.rest| + |whole.inVain|
    {
      forall i | 0 <= i < |qs| ensures qs[i] == goal[i] { assert PartDelivered(qs, q, nTotal, tried, i); }
      ReachedEnd(nTotal, tried, inVain, ret.None?);
    }
  }

  // The submission of tasks to queues that hold qs, beginning with the queue q.
  ghost function NewBatch<T>(qs: seq<seq<T>>, q: nat, tasks: seq<T>, s: nat, tries: seq<Try>): (b: Batch<T>)
    requires s > 0 && q < |qs|
    ensures |b.goal| == |qs|
    ensures forall i :: 0 <= i < |qs| ==> b.goal[i] == qs[i] + Delivered(tasks, s, |qs|, q, tries, i)
  {
    Batch(tasks, s, tries, seq(|qs|, i requires 0 <= i < |qs| => qs[i] + Delivered(tasks, s, |qs|, q, tries, i)),
          Submission(tasks, s, tries), Total(qs))
  }

  lemma NothingYet<T>(qs: seq<seq<T>>, q: nat, tasks: seq<T>, s: nat, tries: seq<Try>)
    requires s > 0 && q < |qs| && tasks != [] && tries != []
    ensures NewBatch(qs, q, tasks, s, tries).Going(qs, q, 0, 0, [], None)
  {
    var b, n: nat := NewBatch(qs, q, tasks, s, tries), 0;
    assert tasks[n..] == tasks && tries[n..] == tries;
    forall i | 0 <= i < |qs| ensures b.PartDelivered(qs, q, n, n, i) {}
    assert [] + b.whole.inVain == b.whole.inVain;
  }

  class CalloutStage<T> {
    const nWorkers: nat
    var lastQ: nat               // m_last_q
    var qs: seq<seq<T>>          // all that was put into each of m_qs

    ghost predicate Valid()
      reads this
    {
      |qs| == nWorkers > 0
    }

    constructor (nWorkers: nat)
      requires nWorkers > 0
      ensures Valid() && this.nWorkers == nWorkers && lastQ == 0 && forall i :: 0 <= i < nWorkers ==> qs[i] == []
    {
      this.nWorkers := nWorkers;
      lastQ := 0;
      qs := seq(nWorkers, i => []);
    }

    // gallus_bbq_put_n(), having put the first n of the values
    method Put(idx: nat, vals: seq<T>, n: nat)
      requires Valid() && idx < nWorkers && n <= |vals|
      modifies this`qs
      ensures Valid() && Got(old(qs), qs, idx, vals[..n])
    {
      qs := qs[idx := qs[idx] + vals[..n]];
    }

    // s_callout_worker_sched(): None is a failure.
    method WorkerSched(tasks: seq<T>, idx: nat, t: Try) returns (ret: Option<nat>)
      requires Valid() && idx < nWorkers && tasks != []
      modifies this`qs
      ensures Valid() && Got(old(qs), qs, idx, tasks[..PutCount(t, |tasks|)])
      ensures ret == if t.failure.None? then Some(|tasks|) else None
    {
      var nTotalPuts, i := 0, 0;
      while i < |t.wakeups|
        invariant i <= |t.wakeups| && nTotalPuts == Woken(t.wakeups[..i], |tasks|)
        invariant Valid() && Got(old(qs), qs, idx, tasks[..nTotalPuts])
      {
        // A put that ends in GALLUS_RESULT_WAKEUP_REQUESTED.
        assert t.wakeups[..i + 1][..i] == t.wakeups[..i];
        var n := Min(t.wakeups[i], |tasks| - nTotalPuts - 1);
        Put(idx, tasks[nTotalPuts..], n);
        assert tasks[..nTotalPuts + n] == tasks[..nTotalPuts] + tasks[nTotalPuts..][..n];
        nTotalPuts := nTotalPuts + n;
        i := i + 1;
      }
      assert t.wakeups[..i] == t.wakeups;
      var n := if t.failure.None? then |tasks| - nTotalPuts else Min(t.failure.value, |tasks| - nTotalPuts - 1);
      Put(idx, tasks[nTotalPuts..], n);
      assert tasks[..nTotalPuts + n] == tasks[..nTotalPuts] + tasks[nTotalPuts..][..n];
      ret := if t.failure.None? then Some(nTotalPuts + n) else None;
    }

    // One round of the loop of s_submit_callout_stage(): the next chunk goes to the next queue, as
    // far as the try gets.
    method SubmitChunk(tasks: seq<T>, s: nat, nTotal: nat, t: Try) returns (r: Option<nat>)
      requires Valid() && s > 0 && nTotal < |tasks|
      modifies this
      ensures Valid() && lastQ == old(lastQ) + 1
      ensures r == if t.failure.None? then Some(Min(s, |tasks| - nTotal)) else None
      ensures Got(old(qs), qs, old(lastQ) % nWorkers, tasks[nTotal..nTotal + PutCount(t, Min(s, |tasks| - nTotal))])
    {
      var nRemains := |tasks| - nTotal;
      var n := if s < nRemains then s else nRemains;
      var q := lastQ % nWorkers;
      var chunk := tasks[nTotal..nTotal + n];
      r := WorkerSched(chunk, q, t);
      assert chunk[..PutCount(t, n)] == tasks[nTotal..nTotal + PutCount(t, n)];
      lastQ := lastQ + 1;
    }

    method ComputeStride(n: nat) returns (stride: nat)
      requires Valid()
      ensures stride == Stride(n, nWorkers)
    {
      stride := n / nWorkers;
      if stride == 0 {
        stride := 1;
      }
    }

    // s_submit_callout_stage(), for several workers: None if the last try failed.  A failed try is
    // repeated on the next queue, so that what it had put is queued twice.
    method SubmitMany(tasks: seq<T>, tries: seq<Try>) returns (ret: Option<nat>)
      requires Valid() && nWorkers > 1 && tasks != [] && |tries| == |tasks|
      modifies this
      ensures Valid() && Submitted(old(qs), old(lastQ), qs, lastQ, tasks, Stride(|tasks|, nWorkers), tries, ret)
    {
      var stride := ComputeStride(|tasks|);
      ret := SubmitChunks(tasks, stride, tries);
    }

    // s_submit_callout_stage(), the loop
    method SubmitChunks(tasks: seq<T>, stride: nat, tries: seq<Try>) returns (ret: Option<nat>)
      requires Valid() && stride > 0 && tasks != [] && |tries| == |tasks|
      modifies this
      ensures Valid() && Submitted(old(qs), old(lastQ), qs, lastQ, tasks, stride, tries, ret)
    {
      var n := |tasks|;
      var tried: nat, total: nat := 0, 0;
      ghost var b := NewBatch(qs, lastQ % nWorkers, tasks, stride, tries);
      ghost var inVain: seq<T> := [];
      NothingYet(qs, lastQ % nWorkers, tasks, stride, tries);
      ret := None;
      while total < n && tried < n
        invariant tried <= n && total <= n && Valid() && lastQ == old(lastQ) + tried
        invariant b.Going(qs, lastQ % nWorkers, total, tried, inVain, ret)
        decreases n - tried
      {
        total, ret, inVain := SubmitNext(tasks, stride, tries, total, tried, ret, b, inVain);
        tried := tried + 1;
      }
      b.Gone(qs, lastQ % nWorkers, total, tried, inVain, ret);
    }

    // One round, and what it adds to the total.
    method SubmitNext(tasks: seq<T>, s: nat, tries: seq<Try>, nTotal: nat, tried: nat, ghost ret: Option<nat>,
                      ghost b: Batch<T>, ghost inVain: seq<T>)
      returns (nTotal': nat, ret': Option<nat>, ghost inVain': seq<T>)
      requires Valid() && b.Going(qs, lastQ % nWorkers, nTotal, tried, inVain, ret)
      requires b.tasks == tasks && b.s == s && b.tries == tries && nTotal < |tasks| && tried < |tries|
      modifies this
      ensures Valid() && lastQ == old(lastQ) + 1 && nTotal' <= |tasks|
      ensures b.Going(qs, lastQ % nWorkers, nTotal', tried + 1, inVain', ret')
    {
      ModNext(lastQ, nWorkers);
      var r := SubmitChunk(tasks, s, nTotal, tries[tried]);
      b.GoingNext(old(qs), qs, old(lastQ) % nWorkers, nTotal, tried, inVain, ret);
      nTotal', ret', inVain' := nTotal, None, inVain + [];
      if r.Some? {
        nTotal' := nTotal + r.value;
        ret' := Some(nTotal');
      } else {
        inVain' := inVain + b.NextPut(nTotal, tries[tried]);
      }
    }

    // s_submit_callout_stage()
    method Submit(tasks: seq<T>, tries: seq<Try>) returns (ret: Option<nat>)
      requires Valid() && tasks != [] && |tries| == |tasks|
      modifies this
      ensures Valid()
      ensures nWorkers == 1 ==> qs[0] == old(qs)[0] + tasks[..PutCount(tries[0], |tasks|)]
      ensures nWorkers == 1 ==> ret == if tries[0].failure.None? then Some(|tasks|) else None
      ensures nWorkers > 1 ==> Submitted(old(qs), old(lastQ), qs, lastQ, tasks, Stride(|tasks|, nWorkers), tries, ret)
      ensures NoneFails(tries) ==> ret == Some(|tasks|)
      ensures NoneFails(tries) && nWorkers > 1 ==> forall i :: 0 <= i < nWorkers ==>
                qs[i] == old(qs)[i] + Dealt(tasks, Stride(|tasks|, nWorkers), nWorkers, old(lastQ) % nWorkers, i)
    {
      if nWorkers == 1 {
        ret := WorkerSched(tasks, 0, tries[0]);
      } else {
        ret := SubmitMany(tasks, tries);
        if NoneFails(tries) { SubmittedDealt(old(qs), old(lastQ), qs, lastQ, tasks, Stride(|tasks|, nWorkers), tries, ret); }
      }
    }
  }

  // The queues, m_last_q and the value returned after a submission in chunks of s.
  ghost predicate Submitted<T>(was: seq<seq<T>>, wasQ: nat, now: seq<seq<T>>, nowQ: nat, tasks: seq<T>, s: nat,
                               tries: seq<Try>, ret: Option<nat>) {
    && s > 0 && |now| == |was| > 0
    && (forall i :: 0 <= i < |now| ==> now[i] == was[i] + Delivered(tasks, s, |was|, wasQ % |was|, tries, i))
    && var p := Submission(tasks, s, tries);
       && ret == ResultOf(tasks, p) && nowQ == wasQ + p.used
       && Total(now) == Total(was) + |tasks| - |p.rest| + |p.inVain|
  }

  lemma SubmittedDealt<T>(was: seq<seq<T>>, wasQ: nat, now: seq<seq<T>>, nowQ: nat, tasks: seq<T>, s: nat,
                          tries: seq<Try>, ret: Option<nat>)
    requires Submitted(was, wasQ, now, nowQ, tasks, s, tries, ret) && NoneFails(tries) && |tries| == |tasks|
    ensures ret == Some(|tasks|)
    ensures forall i :: 0 <= i < |now| ==> now[i] == was[i] + Dealt(tasks, s, |was|, wasQ % |was|, i)
  {
    forall i | 0 <= i < |now| ensures now[i] == was[i] + Dealt(tasks, s, |was|, wasQ % |was|, i) {
      DeliveredIsDealt(tasks, s, |was|, wasQ % |was|, tries, i);
    }
    DeliveredIsDealt(tasks, s, |was|, wasQ % |was|, tries, 0);
  }

  // Four tasks and two workers.  A wait of the first put fails after one task; the submission goes
  // on with the other worker, succeeds, and leaves that task in both queues.
  method QueuedTwice() returns (stage: CalloutStage<nat>, ret: Option<nat>)
    ensures ret == Some(4) && |stage.qs| == 2 && stage.qs[0] == [1, 3, 4] && stage.qs[1] == [1, 2]
  {
    stage := new CalloutStage<nat>(2);
    assert stage.qs == [[], []];
    var good := Try([], None);
    var tasks: seq<nat>, tries := [1, 2, 3, 4], [Try([], Some(1)), good, good, good];
    FirstPutFails();
    ret := stage.Submit(tasks, tries);
    assert Submitted([[], []], 0, stage.qs, stage.lastQ, tasks, 2, tries, ret);
    assert Submission(tasks, 2, tries) == Progress([], [1], 3, false);
    assert |stage.qs| == 2 && stage.qs[0] == [] + [1, 3, 4] && stage.qs[1] == [] + [1, 2];
  }

  lemma FirstPutFails()
    ensures var good := Try([], None);
            var tasks: seq<nat>, tries := [1, 2, 3, 4], [Try([], Some(1)), good, good, good];
            && Stride(|tasks|, 2) == 2
            && Delivered(tasks, 2, 2, 0, tries, 0) == [1, 3, 4] && Delivered(tasks, 2, 2, 0, tries, 1) == [1, 2]
            && Submission(tasks, 2, tries) == Progress([], [1], 3, false)
  {
    var good := Try([], None);
    var tasks: seq<nat>, tries := [1, 2, 3, 4], [Try([], Some(1)), good, good, good];
    assert tries[1..] == [good, good, good] && tries[1..][1..] == [good, good];
    var last: seq<nat> := [3, 4];
    assert tasks[2..] == last && last[2..] == [];
    assert Delivered(last, 2, 2, 0, [good, good], 0) == [3, 4] && Delivered(last, 2, 2, 0, [good, good], 1) == [];
    assert Delivered(tasks, 2, 2, 1, [good, good, good], 0) == [3, 4];
    assert Delivered(tasks, 2, 2, 1, [good, good, good], 1) == [1, 2];
    assert Submission(last, 2, [good, good]) == Progress([], [], 1, false);
    assert Submission(tasks, 2, [good, good, good]) == Progress([], [], 2, false);
  }
}
