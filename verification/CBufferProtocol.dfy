/**
 The bounded blocking queue of framework/lib/cbuffer.c as a protocol: what each stretch of code
 between two waits does to the buffer, and what holds over every interleaving of the calls.

 A call of the API runs under the buffer's lock, which it releases only in gallus_cond_wait().
 A wait may end at any time and with any result: notified or spuriously (WaitOk), timed out, or
 failed.  Module CBuffer proves the ring array against the functions of this module.
 */
module CBufferProtocol {
  import opened Arith
  import opened Wrappers

  datatype Buffer<T> = Buffer(
    contents: seq<T>,     // oldest first
    capacity: nat,        // m_n_max_elements
    operational: bool,
    awakened: bool,
    waiters: nat)

  datatype WaitResult = WaitOk | WaitTimedOut | WaitFailed

  // MustNotHappen is the branch that logs a fatal error of that name.
  datatype Code = Count(n: nat) | NotOperational | TimedOut | WakeupRequested | Failed | MustNotHappen

  // The sign of the nsec parameter: zero, positive or negative.
  datatype Mode = Poll | Timed | Forever

  datatype Next = Return(code: Code) | Wait

  // ---------------------------------------------------------------- stretches of code

  // s_copyin(): as much of the input as there is room for.
  function CopyInCount<T>(b: Buffer<T>, n: nat): nat
    requires |b.contents| <= b.capacity
  {
    Min(b.capacity - |b.contents|, n)
  }

  // One pass of s_put_n() over its loop, after which done of the values are in the buffer.
  function PutPass<T>(b: Buffer<T>, vals: seq<T>, done: nat, mode: Mode): (r: (Buffer<T>, nat, Next))
    requires |b.contents| <= b.capacity && done <= |vals|
    ensures done <= r.1 <= |vals| && r.0.contents == b.contents + vals[done..r.1]
  {
    if !b.operational then (b, done, Return(NotOperational))
    else
      var k := CopyInCount(b, |vals| - done);
      var b' := b.(contents := b.contents + vals[done..done + k]);
      (b', done + k,
       if mode == Poll then Return(Count(k))
       else if done + k == |vals| then Return(Count(done + k))
       else if |b'.contents| >= b.capacity then Wait
       else Return(MustNotHappen))
  }

  // One pass of s_get_n() over its loop; got is what it has copied out so far.
  function GetPass<T>(b: Buffer<T>, max: nat, atLeast: nat, mode: Mode, incr: bool, got: seq<T>)
    : (r: (Buffer<T>, seq<T>, Next))
    requires |got| <= max
    ensures got <= r.1 && |r.1| <= max && r.1[|got|..] <= b.contents
    ensures r.0 == b.(contents := if incr then b.contents[|r.1| - |got|..] else b.contents)
  {
    if !b.operational then (b, got, Return(NotOperational))
    else
      var k := Min(|b.contents|, max - |got|);
      var b' := if incr then b.(contents := b.contents[k..]) else b;
      var need := if mode == Forever then max else atLeast;
      (b', got + b.contents[..k],
       if mode == Poll then Return(Count(k))
       else if |got| + k >= need then Return(Count(|got| + k))
       else if b'.contents == [] then Wait
       else Return(MustNotHappen))
  }

  // s_wait_io_ready(), from the end of the wait on.  None is GALLUS_RESULT_OK.
  function LeaveWait<T>(b: Buffer<T>, r: WaitResult): (Buffer<T>, Option<Code>)
    requires b.waiters > 0
  {
    var b' := b.(waiters := b.waiters - 1);
    match r
    case WaitTimedOut => (b', Some(TimedOut))
    case WaitFailed => (b', Some(Failed))
    case WaitOk =>
      if !b'.awakened then (b', None)
      else if !b'.operational then (b'.(awakened := false), Some(NotOperational))
      else (if b'.waiters == 0 then b'.(awakened := false) else b', Some(WakeupRequested))
  }

  // gallus_cbuffer_wakeup(), up to its wait.  The flag says whether this call raised m_is_awakened.
  function WakeStart<T>(b: Buffer<T>, mode: Mode): (Buffer<T>, bool, Next) {
    if b.waiters == 0 then (b, false, Return(Count(0)))
    else if !b.operational then (b, false, Return(NotOperational))
    else if b.awakened then (b, false, Return(Count(0)))
    else (b.(awakened := true), true, if mode == Poll then Return(Count(0)) else Wait)
  }

  // gallus_cbuffer_wakeup(), from the end of its wait on.
  function WakeRecheck<T>(b: Buffer<T>, r: WaitResult): Next {
    match r
    case WaitTimedOut => Return(TimedOut)
    case WaitFailed => Return(Failed)
    case WaitOk =>
      if !b.operational then Return(NotOperational)
      else if b.awakened then Wait
      else Return(Count(0))
  }

  // ---------------------------------------------------------------- calls and states

  datatype Op<T> =
    | Put(vals: seq<T>, mode: Mode)
    | Get(max: nat, atLeast: nat, mode: Mode, incr: bool)   // without incr: peek
    | WaitReady(forPut: bool, mode: Mode)
    | Wakeup(mode: Mode)

  datatype Phase = Waiting | Returned(code: Code)

  datatype Call<T> = Call(
    op: Op<T>,
    done: nat,            // n_copyin, the *n_actual_put handed back
    got: seq<T>,          // what is in the caller's buffer; its length is *n_actual_get
    raised: bool,         // a wakeup call that raised the flag
    found: set<nat>,      // the calls that were waiting then
    phase: Phase)

  datatype Entry<T> = Entry(call: nat, value: T)

  // puts is everything ever put, in order; takers tells, for the elements that have left the
  // buffer, which call took each (None: a clear or a shutdown did).
  datatype State<T> = State(
    buf: Buffer<T>,
    calls: map<nat, Call<T>>,
    puts: seq<Entry<T>>,
    takers: seq<Option<nat>>)

  datatype Action<T> =
    | Begin(id: nat, op: Op<T>)
    | Resume(id: nat, result: WaitResult, timeLeft: bool)
    | Clear
    | Shutdown

  function Block<T>(id: nat, vals: seq<T>): seq<Entry<T>> {
    seq(|vals|, i requires 0 <= i < |vals| => Entry(id, vals[i]))
  }

  function Values<T>(es: seq<Entry<T>>): (v: seq<T>)
    ensures |v| == |es|
  {
    seq(|es|, i requires 0 <= i < |es| => es[i].value)
  }

  function Same(taker: Option<nat>, n: nat): seq<Option<nat>> {
    seq(n, _ => taker)
  }

  // What the call id has put.
  function Sent<T>(puts: seq<Entry<T>>, id: nat): seq<T> {
    if puts == [] then []
    else
      var n := |puts| - 1;
      Sent(puts[..n], id) + if puts[n].call == id then [puts[n].value] else []
  }

  // What has left the buffer into the hands of the call id.
  function Received<T>(puts: seq<Entry<T>>, takers: seq<Option<nat>>, id: nat): seq<T>
    requires |takers| <= |puts|
  {
    if takers == [] then []
    else
      var n := |takers| - 1;
      Received(puts, takers[..n], id) + if takers[n] == Some(id) then [puts[n].value] else []
  }

  function Init<T>(capacity: nat): State<T> {
    State(Buffer([], capacity, true, false, 0), map[], [], [])
  }

  // ---------------------------------------------------------------- steps

  function InitialCall<T>(op: Op<T>): Call<T> {
    Call(op, 0, [], false, {}, Waiting)
  }

  function PhaseOf(n: Next): Phase {
    if n.Wait? then Waiting else Returned(n.code)
  }

  function Enter<T>(b: Buffer<T>, n: Next): Buffer<T> {
    if n.Wait? then b.(waiters := b.waiters + 1) else b
  }

  // The call id, with record c, does one pass over its loop.
  function Pass<T>(s: State<T>, id: nat, c: Call<T>): State<T>
    requires |s.buf.contents| <= s.buf.capacity && |s.takers| <= |s.puts|
    requires c.op.Put? ==> c.done <= |c.op.vals|
    requires c.op.Get? ==> |c.got| <= c.op.max
  {
    match c.op
    case Put(vals, mode) =>
      var p := PutPass(s.buf, vals, c.done, mode);
      s.(buf := Enter(p.0, p.2),
         calls := s.calls[id := c.(done := p.1, phase := PhaseOf(p.2))],
         puts := s.puts + Block(id, vals[c.done..p.1]))
    case Get(max, atLeast, mode, incr) =>
      var p := GetPass(s.buf, max, atLeast, mode, incr, c.got);
      s.(buf := Enter(p.0, p.2),
         calls := s.calls[id := c.(got := p.1, phase := PhaseOf(p.2))],
         takers := if incr then s.takers + Same(Some(id), |p.1| - |c.got|) else s.takers)
    case WaitReady(forPut, mode) =>
      s.(calls := s.calls[id := c.(phase := Returned(Count(Level(s.buf, forPut))))])
    case Wakeup(_) => s
  }

  // The room, or the number of elements.
  function Level<T>(b: Buffer<T>, forPut: bool): nat
    requires |b.contents| <= b.capacity
  {
    if forPut then b.capacity - |b.contents| else |b.contents|
  }

  predicate InWait<T>(c: Call<T>) {
    !c.op.Wakeup? && c.phase == Waiting
  }

  function WaitingCalls<T>(s: State<T>): set<nat> {
    set id | id in s.calls && InWait(s.calls[id])
  }

  function BeginCall<T>(s: State<T>, id: nat, op: Op<T>): State<T>
    requires |s.buf.contents| <= s.buf.capacity && |s.takers| <= |s.puts|
  {
    var c := InitialCall(op);
    match op
    case Put(vals, _) =>
      if vals == [] then s.(calls := s.calls[id := c.(phase := Returned(Count(0)))]) else Pass(s, id, c)
    case Get(max, _, _, _) =>
      if max == 0 then s.(calls := s.calls[id := c.(phase := Returned(Count(0)))]) else Pass(s, id, c)
    case WaitReady(forPut, mode) =>
      if Level(s.buf, forPut) > 0 || mode == Poll then Pass(s, id, c)
      else s.(buf := Enter(s.buf, Wait), calls := s.calls[id := c])
    case Wakeup(mode) =>
      var w := WakeStart(s.buf, mode);
      s.(buf := w.0,
         calls := s.calls[id := c.(raised := w.1, found := WaitingCalls(s), phase := PhaseOf(w.2))])
  }

  function ResumeCall<T>(s: State<T>, id: nat, r: WaitResult, timeLeft: bool): State<T>
    requires |s.buf.contents| <= s.buf.capacity && |s.takers| <= |s.puts|
    requires id in s.calls && s.calls[id].phase == Waiting
    requires InWait(s.calls[id]) ==> s.buf.waiters > 0
    requires s.calls[id].op.Put? ==> s.calls[id].done <= |s.calls[id].op.vals|
    requires s.calls[id].op.Get? ==> |s.calls[id].got| <= s.calls[id].op.max
  {
    var c := s.calls[id];
    if c.op.Wakeup? then s.(calls := s.calls[id := c.(phase := PhaseOf(WakeRecheck(s.buf, r)))])
    else
      var l := LeaveWait(s.buf, r);
      var s1 := s.(buf := l.0);
      if l.1.Some? then s1.(calls := s.calls[id := c.(phase := Returned(l.1.value))])
      else if !c.op.WaitReady? && c.op.mode == Timed && !timeLeft then
        s1.(calls := s.calls[id := c.(phase := Returned(TimedOut))])
      else Pass(s1, id, c)
  }

  // s_clean()
  function Clean<T>(s: State<T>): State<T> {
    s.(buf := s.buf.(contents := []), takers := s.takers + Same(None, |s.buf.contents|))
  }

  predicate Enabled<T>(s: State<T>, a: Action<T>) {
    match a
    case Begin(id, _) => id !in s.calls
    case Resume(id, _, _) => id in s.calls && s.calls[id].phase == Waiting
    case Clear => true
    case Shutdown => true
  }

  // ---------------------------------------------------------------- the invariant

  ghost predicate BufferOk<T>(s: State<T>) {
    && |s.buf.contents| <= s.buf.capacity
    && |s.takers| <= |s.puts|
    && s.buf.contents == Values(s.puts[|s.takers|..])
  }

  ghost predicate WaitersOk<T>(s: State<T>) {
    s.buf.waiters == |WaitingCalls(s)|
  }

  // What one call has moved is a prefix of what it was asked to move, in order.
  ghost predicate MovedAs<T>(c: Call<T>, sent: seq<T>, received: seq<T>) {
    && sent == (if c.op.Put? then c.op.vals[..Min(c.done, |c.op.vals|)] else [])
    && received == (if c.op.Get? && c.op.incr then c.got else [])
    && (c.op.Put? ==> c.done <= |c.op.vals|)
    && (c.op.Get? ==> |c.got| <= c.op.max)
  }

  // Nothing else was moved in its name.
  ghost predicate MovedOk<T>(s: State<T>, id: nat)
    requires |s.takers| <= |s.puts|
  {
    var sent, received := Sent(s.puts, id), Received(s.puts, s.takers, id);
    if id in s.calls then MovedAs(s.calls[id], sent, received) else sent == [] && received == []
  }

  // What a call has returned.
  ghost predicate CodeOk<T>(c: Call<T>) {
    match c.op
    case Put(vals, mode) =>
      && (c.phase == Waiting ==> mode != Poll && c.done < |vals|)
      && (c.phase.Returned? ==>
            match c.phase.code
            case Count(n) => n == c.done && (mode != Poll ==> c.done == |vals|)
            case MustNotHappen => false
            case NotOperational => c.done < |vals|
            case _ => mode != Poll && c.done < |vals|)
    case Get(max, atLeast, mode, incr) =>
      var need := if mode == Forever then max else atLeast;
      && (c.phase == Waiting ==> mode != Poll && max > 0 && |c.got| < need)
      && (c.phase.Returned? ==>
            match c.phase.code
            case Count(n) => n == |c.got| && (mode != Poll && max > 0 ==> |c.got| >= need)
            case MustNotHappen => mode != Poll && |c.got| < need && (incr ==> |c.got| == max)
            case NotOperational => max > 0 && (|c.got| < need || c.got == [])
            case _ => mode != Poll && |c.got| < need)
    case WaitReady(_, _) => true
    case Wakeup(_) => c.phase.Returned? ==> c.phase.code != MustNotHappen
  }

  // A wakeup call that raised the flag, and waits or has returned successfully: either the flag
  // is still up, or all the calls it found waiting have returned.
  ghost predicate WakeOk<T>(s: State<T>, id: nat)
    requires id in s.calls
  {
    var c := s.calls[id];
    c.op.Wakeup? && c.raised ==>
      && (forall w :: w in c.found ==> w in s.calls && !s.calls[w].op.Wakeup?)
      && ((exists w :: w in c.found && InWait(s.calls[w])) && s.buf.operational ==> s.buf.awakened)
      && (c.phase == Returned(Count(0)) && c.op.mode != Poll ==>
            forall w :: w in c.found ==> s.calls[w].phase.Returned?)
  }

  ghost predicate Inv<T>(s: State<T>) {
    && BufferOk(s) && WaitersOk(s)
    && (forall id :: MovedOk(s, id))
    && (forall id :: id in s.calls ==> CodeOk(s.calls[id]))
    && (forall id :: id in s.calls ==> WakeOk(s, id))
  }

  // ---------------------------------------------------------------- the logs

  lemma {:induction false} SentBlock<T>(puts: seq<Entry<T>>, vals: seq<T>, id: nat, x: nat)
    ensures Sent(puts + Block(id, vals), x) == Sent(puts, x) + if x == id then vals else []
    decreases |vals|
  {
    var es := puts + Block(id, vals);
    if vals == [] {
      assert es == puts;
    } else {
      var n := |vals| - 1;
      SentBlock(puts, vals[..n], id, x);
      assert es[..|es| - 1] == puts + Block(id, vals[..n]);
      assert vals == vals[..n] + [vals[n]];
    }
  }

  lemma {:induction false} ReceivedPuts<T>(puts: seq<Entry<T>>, more: seq<Entry<T>>, takers: seq<Option<nat>>, x: nat)
    requires |takers| <= |puts|
    ensures Received(puts + more, takers, x) == Received(puts, takers, x)
    decreases |takers|
  {
    if takers != [] { ReceivedPuts(puts, more, takers[..|takers| - 1], x); }
  }

  lemma {:induction false} ReceivedMore<T>(puts: seq<Entry<T>>, takers: seq<Option<nat>>, taker: Option<nat>,
                                            n: nat, x: nat)
    requires |takers| + n <= |puts|
    ensures Received(puts, takers + Same(taker, n), x)
         == Received(puts, takers, x) + if taker == Some(x) then Values(puts[|takers|..|takers| + n]) else []
    decreases n
  {
    var ts := takers + Same(taker, n);
    if n == 0 {
      assert ts == takers;
    } else {
      ReceivedMore(puts, takers, taker, n - 1, x);
      assert ts[..|ts| - 1] == takers + Same(taker, n - 1);
      assert Values(puts[|takers|..|takers| + n])
          == Values(puts[|takers|..|takers| + n - 1]) + [puts[|takers| + n - 1].value];
    }
  }

  // ---------------------------------------------------------------- one pass

  // What a pass of the call id, whose record is c, needs of the state and of its record.
  ghost predicate Ready<T>(s: State<T>, id: nat, c: Call<T>) {
    BufferOk(s) && MovedAs(c, Sent(s.puts, id), Received(s.puts, s.takers, id))
  }

  lemma PutLogs<T>(puts: seq<Entry<T>>, takers: seq<Option<nat>>, id: nat, vals: seq<T>, x: nat)
    requires |takers| <= |puts|
    ensures var puts' := puts + Block(id, vals);
            && Values(puts'[|takers|..]) == Values(puts[|takers|..]) + vals
            && Sent(puts', x) == Sent(puts, x) + (if x == id then vals else [])
            && Received(puts', takers, x) == Received(puts, takers, x)
  {
    SentBlock(puts, vals, id, x);
    ReceivedPuts(puts, Block(id, vals), takers, x);
    ValuesAppend(puts, |takers|, id, vals);
  }

  lemma ValuesAppend<T>(puts: seq<Entry<T>>, n: nat, id: nat, vals: seq<T>)
    requires n <= |puts|
    ensures Values((puts + Block(id, vals))[n..]) == Values(puts[n..]) + vals
  {
    assert (puts + Block(id, vals))[n..] == puts[n..] + Block(id, vals);
  }

  lemma ValuesFront<T>(puts: seq<Entry<T>>, n: nat, k: nat)
    requires n + k <= |puts|
    ensures Values(puts[n..n + k]) == Values(puts[n..])[..k]
  {
  }

  // k elements leave the buffer.
  lemma BufferLess<T>(puts: seq<Entry<T>>, takers: seq<Option<nat>>, taker: Option<nat>, k: nat)
    requires |takers| + k <= |puts|
    ensures |takers + Same(taker, k)| == |takers| + k
    ensures Values(puts[|takers + Same(taker, k)|..]) == Values(puts[|takers|..])[k..]
  {
  }

  lemma GetLogs<T>(puts: seq<Entry<T>>, takers: seq<Option<nat>>, taker: Option<nat>, k: nat, x: nat)
    requires |takers| + k <= |puts|
    ensures var contents, takers' := Values(puts[|takers|..]), takers + Same(taker, k);
            && Values(puts[|takers'|..]) == contents[k..]
            && Received(puts, takers', x) == Received(puts, takers, x) + (if taker == Some(x) then contents[..k] else [])
  {
    ReceivedMore(puts, takers, taker, k, x);
    ValuesFront(puts, |takers|, k);
    BufferLess(puts, takers, taker, k);
  }

  // What a pass of a put does to the state.
  lemma PutFields<T>(s: State<T>, id: nat, c: Call<T>)
    requires |s.buf.contents| <= s.buf.capacity && |s.takers| <= |s.puts| && c.op.Put? && c.done <= |c.op.vals|
    ensures var s' := Pass(s, id, c);
            var c' := s'.calls[id];
            && s'.calls == s.calls[id := c'] && c' == c.(done := c'.done, phase := c'.phase)
            && c.done <= c'.done <= |c.op.vals| && s'.takers == s.takers && s'.buf.capacity == s.buf.capacity
            && s'.puts == s.puts + Block(id, c.op.vals[c.done..c'.done])
            && s'.buf.contents == s.buf.contents + c.op.vals[c.done..c'.done]
            && |s'.buf.contents| <= s.buf.capacity
  {
  }

  // The values that it adds.
  lemma PutAdded<T>(s: State<T>, id: nat, c: Call<T>, x: nat)
    requires BufferOk(s) && c.op.Put? && c.done <= |c.op.vals|
    ensures var s' := Pass(s, id, c);
            var c' := s'.calls[id];
            && BufferOk(s') && s'.calls == s.calls[id := c'] && c' == c.(done := c'.done, phase := c'.phase)
            && c.done <= c'.done <= |c.op.vals|
            && Sent(s'.puts, x) == Sent(s.puts, x) + (if x == id then c.op.vals[c.done..c'.done] else [])
            && Received(s'.puts, s'.takers, x) == Received(s.puts, s.takers, x)
  {
    PutFields(s, id, c);
    PutLogs(s.puts, s.takers, id, c.op.vals[c.done..Pass(s, id, c).calls[id].done], x);
  }

  lemma PutMovedAs<T>(c: Call<T>, c': Call<T>, sent: seq<T>, received: seq<T>)
    requires MovedAs(c, sent, received) && c.op.Put? && c' == c.(done := c'.done, phase := c'.phase)
    requires c.done <= c'.done <= |c.op.vals|
    ensures MovedAs(c', sent + c.op.vals[c.done..c'.done], received)
  {
  }

  lemma PutMoved<T>(s: State<T>, id: nat, c: Call<T>, x: nat)
    requires Ready(s, id, c) && c.op.Put?
    requires x != id ==> MovedOk(s, x)
    ensures BufferOk(Pass(s, id, c)) && MovedOk(Pass(s, id, c), x)
  {
    PutAdded(s, id, c, x);
    if x == id {
      PutMovedAs(c, Pass(s, id, c).calls[id], Sent(s.puts, id), Received(s.puts, s.takers, id));
    } else {
      Unmoved(Sent(s.puts, x));
    }
  }

  lemma Unmoved<T>(moved: seq<T>)
    ensures moved + [] == moved
  {
  }

  // What a pass of a get does to the state.
  lemma GetFields<T>(s: State<T>, id: nat, c: Call<T>)
    requires |s.buf.contents| <= s.buf.capacity && |s.takers| <= |s.puts| && c.op.Get? && |c.got| <= c.op.max
    ensures var s' := Pass(s, id, c);
            var c' := s'.calls[id];
            && s'.calls == s.calls[id := c'] && c' == c.(got := c'.got, phase := c'.phase)
            && c.got <= c'.got && |c'.got| <= c.op.max && s'.puts == s.puts && s'.buf.capacity == s.buf.capacity
            && var k := |c'.got| - |c.got|;
               && k <= |s.buf.contents| && c'.got[|c.got|..] == s.buf.contents[..k]
               && s'.takers == (if c.op.incr then s.takers + Same(Some(id), k) else s.takers)
               && s'.buf.contents == (if c.op.incr then s.buf.contents[k..] else s.buf.contents)
  {
  }

  lemma GetBuffer<T>(s: State<T>, id: nat, c: Call<T>)
    requires BufferOk(s) && c.op.Get? && |c.got| <= c.op.max
    ensures BufferOk(Pass(s, id, c))
  {
    GetFields(s, id, c);
    if c.op.incr { BufferLess(s.puts, s.takers, Some(id), |Pass(s, id, c).calls[id].got| - |c.got|); }
  }

  // The elements that a pass of a get takes.
  lemma GetTaken<T>(s: State<T>, id: nat, c: Call<T>, x: nat)
    requires BufferOk(s) && c.op.Get? && |c.got| <= c.op.max
    ensures var s' := Pass(s, id, c);
            |s'.takers| <= |s'.puts| &&
            Received(s'.puts, s'.takers, x)
            == Received(s.puts, s.takers, x) + if c.op.incr && x == id then s'.calls[id].got[|c.got|..] else []
  {
    GetFields(s, id, c);
    var s' := Pass(s, id, c);
    ReceivedTaken(s.puts, s.takers, s'.takers, id, s'.calls[id].got[|c.got|..], c.op.incr, x);
  }

  // The elements moved are those taken from the front, if they are taken.
  lemma ReceivedTaken<T>(puts: seq<Entry<T>>, takers: seq<Option<nat>>, takers': seq<Option<nat>>, id: nat, moved: seq<T>,
                         incr: bool, x: nat)
    requires |takers| + |moved| <= |puts| && takers' == if incr then takers + Same(Some(id), |moved|) else takers
    requires moved == Values(puts[|takers|..])[..|moved|]
    ensures |takers'| <= |puts|
    ensures Received(puts, takers', x) == Received(puts, takers, x) + if incr && x == id then moved else []
  {
    if incr {
      ReceivedMore(puts, takers, Some(id), |moved|, x);
      ValuesFront(puts, |takers|, |moved|);
    } else {
      Unmoved(Received(puts, takers, x));
    }
  }

  lemma GetMovedAs<T>(c: Call<T>, c': Call<T>, sent: seq<T>, received: seq<T>)
    requires MovedAs(c, sent, received) && c.op.Get? && c' == c.(got := c'.got, phase := c'.phase)
    requires c.got <= c'.got && |c'.got| <= c.op.max
    ensures MovedAs(c', sent, received + if c.op.incr then c'.got[|c.got|..] else [])
  {
  }

  lemma GetMoved<T>(s: State<T>, id: nat, c: Call<T>, x: nat)
    requires Ready(s, id, c) && c.op.Get?
    requires x != id ==> MovedOk(s, x)
    ensures BufferOk(Pass(s, id, c)) && MovedOk(Pass(s, id, c), x)
  {
    GetBuffer(s, id, c);
    GetFields(s, id, c);
    GetTaken(s, id, c, x);
    if x == id {
      GetMovedAs(c, Pass(s, id, c).calls[id], Sent(s.puts, id), Received(s.puts, s.takers, id));
    } else {
      Unmoved(Received(s.puts, s.takers, x));
    }
  }

  lemma PassMoved<T>(s: State<T>, id: nat, c: Call<T>, x: nat)
    requires Ready(s, id, c)
    requires x != id ==> MovedOk(s, x)
    ensures BufferOk(Pass(s, id, c)) && (c.op.Wakeup? || MovedOk(Pass(s, id, c), x))
  {
    if c.op.Put? { PutMoved(s, id, c, x); }
    else if c.op.Get? { GetMoved(s, id, c, x); }
  }

  lemma PassCode<T>(s: State<T>, id: nat, c: Call<T>)
    requires Ready(s, id, c) && !c.op.Wakeup?
    requires c.op.Put? ==> c.done < |c.op.vals| && (c.op.mode == Poll ==> c.done == 0)
    requires c.op.Get? ==> c.op.max > 0 && (c.op.mode == Poll ==> c.got == [])
    requires c.op.Get? ==> c.got == [] || |c.got| < if c.op.mode == Forever then c.op.max else c.op.atLeast
    ensures CodeOk(Pass(s, id, c).calls[id])
  {
    if c.op.Put? { PutCode(s, id, c); }
    else if c.op.Get? { GetCode(s, id, c); }
  }

  lemma PutPassCode<T>(b: Buffer<T>, c: Call<T>)
    requires |b.contents| <= b.capacity && c.op.Put? && c.done < |c.op.vals| && (c.op.mode == Poll ==> c.done == 0)
    ensures var p := PutPass(b, c.op.vals, c.done, c.op.mode);
            CodeOk(c.(done := p.1, phase := PhaseOf(p.2)))
  {
  }

  lemma PutCode<T>(s: State<T>, id: nat, c: Call<T>)
    requires Ready(s, id, c) && c.op.Put? && c.done < |c.op.vals| && (c.op.mode == Poll ==> c.done == 0)
    ensures CodeOk(Pass(s, id, c).calls[id])
  {
    PutPassCode(s.buf, c);
  }

  lemma GetPassCode<T>(b: Buffer<T>, c: Call<T>)
    requires |b.contents| <= b.capacity && c.op.Get? && c.op.max > 0 && |c.got| <= c.op.max
    requires c.op.mode == Poll ==> c.got == []
    requires c.got == [] || |c.got| < if c.op.mode == Forever then c.op.max else c.op.atLeast
    ensures var p := GetPass(b, c.op.max, c.op.atLeast, c.op.mode, c.op.incr, c.got);
            CodeOk(c.(got := p.1, phase := PhaseOf(p.2)))
  {
  }

  lemma GetCode<T>(s: State<T>, id: nat, c: Call<T>)
    requires Ready(s, id, c) && c.op.Get? && c.op.max > 0 && (c.op.mode == Poll ==> c.got == [])
    requires c.got == [] || |c.got| < if c.op.mode == Forever then c.op.max else c.op.atLeast
    ensures CodeOk(Pass(s, id, c).calls[id])
  {
    GetPassCode(s.buf, c);
  }

  // ---------------------------------------------------------------- waiting and waking

  // In going from s to s' only the call id has moved, and it is not a wakeup.
  ghost predicate OnlyCall<T>(s: State<T>, s': State<T>, id: nat) {
    && id in s'.calls && !s'.calls[id].op.Wakeup?
    && s'.calls.Keys == s.calls.Keys + {id}
    && (forall x :: x in s.calls && x != id ==> s'.calls[x] == s.calls[x])
    && (id in s.calls ==> !s.calls[id].op.Wakeup?)
    && s'.buf.operational == s.buf.operational
  }

  lemma WaitersMoved<T>(s: State<T>, s': State<T>, id: nat)
    requires OnlyCall(s, s', id) && WaitersOk(s)
    requires s'.buf.waiters == s.buf.waiters - (if id in s.calls && InWait(s.calls[id]) then 1 else 0)
                                             + (if InWait(s'.calls[id]) then 1 else 0)
    ensures WaitersOk(s')
  {
    forall x ensures x in WaitingCalls(s') - {id} <==> x in WaitingCalls(s) - {id} {}
    OneApart(WaitingCalls(s), WaitingCalls(s'), id);
  }

  lemma OneApart(a: set<nat>, b: set<nat>, x: nat)
    requires a - {x} == b - {x}
    ensures |a| - (if x in a then 1 else 0) == |b| - (if x in b then 1 else 0)
  {
    assert |a| == |a - {x}| + if x in a then 1 else 0;
    assert |b| == |b - {x}| + if x in b then 1 else 0;
  }

  // A lowered flag means that nobody waits, or that the buffer is shut down; and a call that
  // waits again, or anew, was not found waiting by a wakeup call whose flag is still up.
  lemma WakeMoved<T>(s: State<T>, s': State<T>, id: nat, w: nat)
    requires OnlyCall(s, s', id) && WaitersOk(s') && w in s.calls && WakeOk(s, w)
    requires s.buf.awakened && !s'.buf.awakened && s.buf.operational ==> s'.buf.waiters == 0
    requires id in s.calls ==> InWait(s.calls[id])
    requires id in s.calls && InWait(s'.calls[id]) ==> !s.buf.awakened && s.buf.operational
    ensures WakeOk(s', w)
  {
    var c := s.calls[w];
    if c.op.Wakeup? && c.raised {
      assert s'.calls[w] == c;
      forall x | x in c.found && InWait(s'.calls[x]) ensures s.buf.operational ==> s'.buf.awakened {
        assert x in WaitingCalls(s');
      }
    }
  }

  // ---------------------------------------------------------------- every step

  ghost function Apply<T>(s: State<T>, a: Action<T>): State<T>
    requires Inv(s) && Enabled(s, a)
  {
    match a
    case Begin(id, op) => BeginCall(s, id, op)
    case Resume(id, r, timeLeft) =>
      WaiterCounted(s, id);
      assert MovedOk(s, id);
      ResumeCall(s, id, r, timeLeft)
    case Clear => Clean(s)
    case Shutdown => if s.buf.operational then var s' := Clean(s); s'.(buf := s'.buf.(operational := false)) else s
  }

  lemma WaiterCounted<T>(s: State<T>, id: nat)
    requires WaitersOk(s)
    ensures id in s.calls && InWait(s.calls[id]) ==> s.buf.waiters > 0
  {
    if id in s.calls && InWait(s.calls[id]) { assert id in WaitingCalls(s); }
  }

  // What a step about the call id must show.
  lemma StepKept<T>(s: State<T>, s': State<T>, id: nat)
    requires Inv(s) && OnlyCall(s, s', id)
    requires BufferOk(s') && forall x :: MovedOk(s', x)
    requires CodeOk(s'.calls[id])
    requires s'.buf.waiters == s.buf.waiters - (if id in s.calls && InWait(s.calls[id]) then 1 else 0)
                                             + (if InWait(s'.calls[id]) then 1 else 0)
    requires s.buf.awakened && !s'.buf.awakened && s.buf.operational ==> s'.buf.waiters == 0
    requires id in s.calls ==> InWait(s.calls[id])
    requires id in s.calls && InWait(s'.calls[id]) ==> !s.buf.awakened && s.buf.operational
    ensures Inv(s')
  {
    WaitersMoved(s, s', id);
    forall w | w in s'.calls ensures WakeOk(s', w) {
      if w != id { WakeMoved(s, s', id, w); }
    }
  }

  // The state in which the call id, which did wait or is new, does a pass.
  ghost predicate Passing<T>(s: State<T>, s1: State<T>, id: nat, c: Call<T>) {
    && s1 == s.(buf := s.buf.(waiters := s1.buf.waiters))
    && s1.buf.waiters == s.buf.waiters - (if id in s.calls then 1 else 0)
    && (id in s.calls ==> c == s.calls[id] && InWait(c) && !s.buf.awakened)
    && (id !in s.calls ==> c == InitialCall(c.op))
    && Ready(s1, id, c) && !c.op.Wakeup?
    && (c.op.Put? ==> c.done < |c.op.vals| && (c.op.mode == Poll ==> c.done == 0))
    && (c.op.Get? ==> c.op.max > 0 && (c.op.mode == Poll ==> c.got == []))
    && (c.op.Get? ==> c.got == [] || |c.got| < if c.op.mode == Forever then c.op.max else c.op.atLeast)
  }

  lemma PassWaiters<T>(s: State<T>, id: nat, c: Call<T>)
    requires |s.buf.contents| <= s.buf.capacity && |s.takers| <= |s.puts| && !c.op.Wakeup?
    requires (c.op.Put? ==> c.done <= |c.op.vals|) && (c.op.Get? ==> |c.got| <= c.op.max)
    ensures var s' := Pass(s, id, c);
            && s'.calls == s.calls[id := s'.calls[id]] && s'.calls[id].op == c.op
            && s'.buf.operational == s.buf.operational && s'.buf.awakened == s.buf.awakened
            && s'.buf.waiters == s.buf.waiters + (if InWait(s'.calls[id]) then 1 else 0)
            && (InWait(s'.calls[id]) ==> s.buf.operational)
  {
  }

  lemma PassingMoved<T>(s: State<T>, s1: State<T>, id: nat, c: Call<T>, x: nat)
    requires Passing(s, s1, id, c) && |s.takers| <= |s.puts| && MovedOk(s, x)
    ensures BufferOk(Pass(s1, id, c)) && MovedOk(Pass(s1, id, c), x)
  {
    PassMoved(s1, id, c, x);
  }

  lemma PassKept<T>(s: State<T>, s1: State<T>, id: nat, c: Call<T>)
    requires Inv(s) && Passing(s, s1, id, c)
    ensures Inv(Pass(s1, id, c))
  {
    AllPassingMoved(s, s1, id, c);
    PassFrame(s, s1, id, c);
    PassCode(s1, id, c);
    StepKept(s, Pass(s1, id, c), id);
  }

  lemma AllPassingMoved<T>(s: State<T>, s1: State<T>, id: nat, c: Call<T>)
    requires BufferOk(s) && (forall x :: MovedOk(s, x)) && Passing(s, s1, id, c)
    ensures var s' := Pass(s1, id, c); BufferOk(s') && forall x :: MovedOk(s', x)
  {
    var s' := Pass(s1, id, c);
    forall x ensures BufferOk(s') && MovedOk(s', x) { assert MovedOk(s, x); PassingMoved(s, s1, id, c, x); }
    assert MovedOk(s', id);
  }

  lemma PassFrame<T>(s: State<T>, s1: State<T>, id: nat, c: Call<T>)
    requires Passing(s, s1, id, c)
    ensures var s' := Pass(s1, id, c);
            && OnlyCall(s, s', id)
            && s'.buf.waiters == s.buf.waiters - (if id in s.calls then 1 else 0)
                                               + (if InWait(s'.calls[id]) then 1 else 0)
            && s'.buf.awakened == s.buf.awakened
            && (InWait(s'.calls[id]) ==> s.buf.operational)
  {
    PassWaiters(s1, id, c);
  }

  // A step that moves no element: the call id, which is not a wakeup, changes its phase.
  lemma PhaseKept<T>(s: State<T>, b: Buffer<T>, id: nat, c: Call<T>)
    requires Inv(s) && !c.op.Wakeup? && CodeOk(c)
    requires b.contents == s.buf.contents && b.capacity == s.buf.capacity && b.operational == s.buf.operational
    requires if id in s.calls then InWait(s.calls[id]) && c == s.calls[id].(phase := c.phase) else c == InitialCall(c.op).(phase := c.phase)
    requires b.waiters == s.buf.waiters - (if id in s.calls then 1 else 0) + (if InWait(c) then 1 else 0)
    requires s.buf.awakened && !b.awakened && s.buf.operational ==> b.waiters == 0
    requires id in s.calls ==> c.phase.Returned?
    ensures Inv(s.(buf := b, calls := s.calls[id := c]))
  {
    var s' := s.(buf := b, calls := s.calls[id := c]);
    forall x ensures MovedOk(s', x) { assert MovedOk(s, x); assert MovedOk(s, id); }
    StepKept(s, s', id);
  }

  lemma BeginKept<T>(s: State<T>, id: nat, op: Op<T>)
    requires Inv(s) && id !in s.calls && !op.Wakeup?
    ensures Inv(BeginCall(s, id, op))
  {
    var c := InitialCall(op);
    assert MovedOk(s, id);
    if (op.Put? && op.vals == []) || (op.Get? && op.max == 0) {
      PhaseKept(s, s.buf, id, c.(phase := Returned(Count(0))));
    } else if op.WaitReady? && Level(s.buf, op.forPut) == 0 && op.mode != Poll {
      PhaseKept(s, Enter(s.buf, Wait), id, c);
    } else {
      PassKept(s, s, id, c);
    }
  }

  lemma ResumeKept<T>(s: State<T>, id: nat, r: WaitResult, timeLeft: bool)
    requires Inv(s) && id in s.calls && InWait(s.calls[id])
    ensures s.buf.waiters > 0 && MovedOk(s, id)
    ensures Inv(ResumeCall(s, id, r, timeLeft))
  {
    var c := s.calls[id];
    WaiterCounted(s, id);
    assert MovedOk(s, id);
    assert CodeOk(c);
    var l := LeaveWait(s.buf, r);
    if l.1.Some? {
      PhaseKept(s, l.0, id, c.(phase := Returned(l.1.value)));
    } else if !c.op.WaitReady? && c.op.mode == Timed && !timeLeft {
      PhaseKept(s, l.0, id, c.(phase := Returned(TimedOut)));
    } else {
      PassKept(s, s.(buf := l.0), id, c);
    }
  }

  // A step of a wakeup call: nothing moves but its own record and the flag.
  lemma WakerKept<T>(s: State<T>, awakened: bool, id: nat, c: Call<T>)
    requires Inv(s) && c.op.Wakeup? && (id in s.calls ==> s.calls[id].op.Wakeup?)
    requires s.buf.awakened ==> awakened
    requires CodeOk(c)
    ensures var s' := s.(buf := s.buf.(awakened := awakened), calls := s.calls[id := c]);
            WakeOk(s', id) ==> Inv(s')
  {
    var s' := s.(buf := s.buf.(awakened := awakened), calls := s.calls[id := c]);
    forall x ensures MovedOk(s', x) { assert MovedOk(s, x); assert MovedOk(s, id); }
    assert WaitersOk(s') by {
      forall x ensures x in WaitingCalls(s') <==> x in WaitingCalls(s) {}
      assert WaitingCalls(s') == WaitingCalls(s);
    }
    forall w | w in s'.calls && w != id ensures WakeOk(s', w) { WakeFrame(s, s', id, w); }
  }

  lemma WakeFrame<T>(s: State<T>, s': State<T>, id: nat, w: nat)
    requires w in s.calls && w != id && WakeOk(s, w)
    requires id in s'.calls && s'.calls[id].op.Wakeup? && (id in s.calls ==> s.calls[id].op.Wakeup?)
    requires forall x :: x in s.calls ==> x in s'.calls && (x != id ==> s'.calls[x] == s.calls[x])
    requires s'.buf.operational == s.buf.operational && (s.buf.awakened ==> s'.buf.awakened)
    ensures WakeOk(s', w)
  {
  }

  lemma InvKept<T>(s: State<T>, a: Action<T>)
    requires Inv(s) && Enabled(s, a)
    ensures Inv(Apply(s, a))
  {
    match a
    case Begin(id, op) =>
      if op.Wakeup? { WakeupKept(s, id, op); } else { BeginKept(s, id, op); }
    case Resume(id, r, timeLeft) =>
      if s.calls[id].op.Wakeup? { RecheckKept(s, id, r, timeLeft); } else { ResumeKept(s, id, r, timeLeft); }
    case Clear => CleanKept(s, s.buf.operational);
    case Shutdown =>
      if s.buf.operational { CleanKept(s, false); }
  }

  lemma WakeupKept<T>(s: State<T>, id: nat, op: Op<T>)
    requires Inv(s) && id !in s.calls && op.Wakeup?
    ensures Inv(BeginCall(s, id, op))
  {
    var w := WakeStart(s.buf, op.mode);
    var c := InitialCall(op).(raised := w.1, found := WaitingCalls(s), phase := PhaseOf(w.2));
    WakerKept(s, w.0.awakened, id, c);
  }

  lemma RecheckKept<T>(s: State<T>, id: nat, r: WaitResult, timeLeft: bool)
    requires Inv(s) && id in s.calls && s.calls[id].op.Wakeup? && s.calls[id].phase == Waiting
    ensures Inv(ResumeCall(s, id, r, timeLeft))
  {
    var c := s.calls[id].(phase := PhaseOf(WakeRecheck(s.buf, r)));
    assert WakeOk(s, id);
    WakerKept(s, s.buf.awakened, id, c);
  }

  lemma CleanKept<T>(s: State<T>, operational: bool)
    requires Inv(s) && (operational ==> s.buf.operational)
    ensures var s' := Clean(s); Inv(s'.(buf := s'.buf.(operational := operational)))
  {
    var s1 := Clean(s);
    var s' := s1.(buf := s1.buf.(operational := operational));
    forall x ensures MovedOk(s', x) {
      assert MovedOk(s, x);
      GetLogs(s.puts, s.takers, None, |s.buf.contents|, x);
    }
    assert WaitingCalls(s') == WaitingCalls(s);
    forall w | w in s'.calls ensures WakeOk(s', w) { assert WakeOk(s, w); }
  }

  // ---------------------------------------------------------------- the main results

  ghost predicate IsRun<T>(s: State<T>, actions: seq<Action<T>>)
    requires Inv(s)
    decreases |actions|
  {
    actions == [] || (Enabled(s, actions[0]) && (InvKept(s, actions[0]); IsRun(Apply(s, actions[0]), actions[1..])))
  }

  ghost function After<T>(s: State<T>, actions: seq<Action<T>>): (s': State<T>)
    requires Inv(s) && IsRun(s, actions)
    ensures Inv(s')
    decreases |actions|
  {
    if actions == [] then s
    else
      InvKept(s, actions[0]);
      After(Apply(s, actions[0]), actions[1..])
  }

  // gallus_cbuffer_create_with_size()
  ghost function Created<T>(capacity: nat): (s: State<T>)
    ensures Inv(s)
  {
    Init(capacity)
  }

  // Over every interleaving: the contents are what was put and has not left, oldest first, and
  // never exceed the capacity; every call has moved exactly the elements it accounts for, once
  // each and in order; and m_n_waiters is the number of calls inside a wait.
  lemma FifoOverRuns<T>(capacity: nat, actions: seq<Action<T>>, id: nat)
    requires IsRun(Created<T>(capacity), actions)
    ensures var s := After(Created<T>(capacity), actions);
            && |s.takers| <= |s.puts|
            && Values(s.puts) == Values(s.puts[..|s.takers|]) + s.buf.contents
            && |s.buf.contents| <= s.buf.capacity
            && MovedOk(s, id)
            && s.buf.waiters == |WaitingCalls(s)|
  {
    var s := After(Created<T>(capacity), actions);
    assert s.puts == s.puts[..|s.takers|] + s.puts[|s.takers|..];
    assert MovedOk(s, id);
  }

  // How a put ends: with everything put if it may wait and succeeds, and otherwise, whether woken
  // up, timed out, failed or shut down, with a proper prefix; never in the fatal branch.
  lemma PutOutcome<T>(capacity: nat, actions: seq<Action<T>>, id: nat)
    requires IsRun(Created<T>(capacity), actions)
    requires var s := After(Created<T>(capacity), actions);
             id in s.calls && s.calls[id].op.Put? && s.calls[id].phase.Returned?
    ensures var s := After(Created<T>(capacity), actions);
            var c := s.calls[id];
            && Sent(s.puts, id) <= c.op.vals && c.phase.code != MustNotHappen
            && (c.phase.code.Count? ==> c.phase.code.n == |Sent(s.puts, id)|)
            && (c.phase.code.Count? && c.op.mode != Poll ==> Sent(s.puts, id) == c.op.vals)
            && (!c.phase.code.Count? ==> Sent(s.puts, id) < c.op.vals)
  {
    var s := After(Created<T>(capacity), actions);
    assert MovedOk(s, id) && CodeOk(s.calls[id]);
  }

  // How a destructive get ends: with as much as it must have if it may wait and succeeds; and in
  // the fatal branch only if it asks for at least more than the most it accepts.
  lemma GetOutcome<T>(capacity: nat, actions: seq<Action<T>>, id: nat)
    requires IsRun(Created<T>(capacity), actions)
    requires var s := After(Created<T>(capacity), actions);
             id in s.calls && s.calls[id].op.Get? && s.calls[id].op.incr && s.calls[id].phase.Returned?
    ensures var s := After(Created<T>(capacity), actions);
            var c := s.calls[id];
            var need := if c.op.mode == Forever then c.op.max else c.op.atLeast;
            && |s.takers| <= |s.puts| && Received(s.puts, s.takers, id) == c.got && |c.got| <= c.op.max
            && (c.phase.code.Count? ==> c.phase.code.n == |c.got|)
            && (c.phase.code.Count? && c.op.mode != Poll && c.op.max > 0 ==> |c.got| >= need)
            && (c.phase.code == MustNotHappen ==> c.op.mode == Timed && c.op.atLeast > c.op.max == |c.got|)
  {
    var s := After(Created<T>(capacity), actions);
    assert MovedOk(s, id) && CodeOk(s.calls[id]);
  }

  // A pass of a get ends in the fatal branch exactly if the get may wait, has its fill and still
  // lacks what it must have, and the buffer is not left empty.  For a destructive get that takes
  // n_at_least > n_vals_max; for a peek, fewer elements in the buffer than it must have.
  lemma StuckIff<T>(b: Buffer<T>, max: nat, atLeast: nat, mode: Mode, incr: bool, got: seq<T>)
    requires |got| <= max && b.operational
    ensures GetPass(b, max, atLeast, mode, true, got).2 == Return(MustNotHappen) <==>
            mode == Timed && max < atLeast && max < |got| + |b.contents|
    ensures got == [] && mode != Poll ==>
            (GetPass(b, max, atLeast, mode, false, got).2 == Return(MustNotHappen) <==>
             && b.contents != []
             && (|b.contents| < (if mode == Forever then max else atLeast) || (mode == Timed && max < atLeast)))
  {
    assert |b.contents[Min(|b.contents|, max - |got|)..]| == |b.contents| - Min(|b.contents|, max - |got|);
  }

  // The fatal branch is reachable: two elements, and a get of at least two and at most one.
  lemma StuckGet<T>(t: T, capacity: nat) returns (actions: seq<Action<T>>)
    requires capacity >= 2
    ensures IsRun(Created<T>(capacity), actions)
    ensures var s := After(Created<T>(capacity), actions);
            1 in s.calls && s.calls[1].op == Get(1, 2, Timed, true) && s.calls[1].phase == Returned(MustNotHappen)
  {
    var a0, a1 := Begin(0, Put([t, t], Poll)), Begin(1, Get(1, 2, Timed, true));
    actions := [a0, a1];
    var s0 := Created<T>(capacity);
    InvKept(s0, a0);
    var s1 := Apply(s0, a0);
    InvKept(s1, a1);
    var s2 := Apply(s1, a1);
    assert actions[1..] == [a1] && actions[1..][1..] == [];
    assert IsRun(s2, []) && After(s2, []) == s2;
    assert IsRun(s1, [a1]) && After(s1, [a1]) == s2;
  }

  // ---------------------------------------------------------------- what each step moves and returns

  // How much a get must have before it returns.
  function Needs(max: nat, atLeast: nat, mode: Mode): nat {
    if mode == Poll then 0 else if mode == Forever then max else atLeast
  }

  // The call c goes on as c': it has taken all that the buffer b holds and it still accepts; b' is
  // what that leaves.  It returns with what it has if that is enough, and waits if b' is empty.
  ghost predicate TakesAll<T>(b: Buffer<T>, c: Call<T>, b': Buffer<T>, c': Call<T>)
    requires c.op.Get? && |c.got| <= c.op.max
  {
    var k := Min(c.op.max - |c.got|, |b.contents|);
    && c'.got == c.got + b.contents[..k] && b'.contents == (if c.op.incr then b.contents[k..] else b.contents)
    && c'.phase ==
       if |c'.got| >= Needs(c.op.max, c.op.atLeast, c.op.mode) then Returned(Count(|c'.got|))
       else if b'.contents == [] then Waiting
       else Returned(MustNotHappen)
  }

  // It has put all that there is room for and it still has.
  ghost predicate PutsAll<T>(b: Buffer<T>, c: Call<T>, b': Buffer<T>, c': Call<T>)
    requires c.op.Put? && c.done <= |c.op.vals| && |b.contents| <= b.capacity
  {
    var k := Min(b.capacity - |b.contents|, |c.op.vals| - c.done);
    && c'.done == c.done + k && b'.contents == b.contents + c.op.vals[c.done..c.done + k]
    && c'.phase ==
       if c'.done == |c.op.vals| || c.op.mode == Poll then Returned(Count(c'.done)) else Waiting
  }

  lemma PassTakes<T>(s: State<T>, id: nat, c: Call<T>)
    requires |s.buf.contents| <= s.buf.capacity && |s.takers| <= |s.puts| && s.buf.operational
    requires c.op.Get? && |c.got| <= c.op.max && (c.op.mode == Poll ==> c.got == [])
    ensures TakesAll(s.buf, c, Pass(s, id, c).buf, Pass(s, id, c).calls[id])
  {
    GetPassTakes(s.buf, c);
    GetFields(s, id, c);
  }

  lemma GetPassTakes<T>(b: Buffer<T>, c: Call<T>)
    requires b.operational && c.op.Get? && |c.got| <= c.op.max && (c.op.mode == Poll ==> c.got == [])
    ensures var p := GetPass(b, c.op.max, c.op.atLeast, c.op.mode, c.op.incr, c.got);
            TakesAll(b, c, p.0, c.(got := p.1, phase := PhaseOf(p.2)))
  {
  }

  lemma PassPuts<T>(s: State<T>, id: nat, c: Call<T>)
    requires |s.buf.contents| <= s.buf.capacity && |s.takers| <= |s.puts| && s.buf.operational
    requires c.op.Put? && c.done <= |c.op.vals| && (c.op.mode == Poll ==> c.done == 0)
    ensures PutsAll(s.buf, c, Pass(s, id, c).buf, Pass(s, id, c).calls[id])
  {
  }

  // A get or a peek on an operational buffer: what it takes at once, whatever its mode.  Closed, the
  // buffer hands out nothing.
  lemma BeginGet<T>(s: State<T>, id: nat, op: Op<T>)
    requires Inv(s) && id !in s.calls && op.Get?
    ensures var s' := BeginCall(s, id, op);
            if op.max == 0 then s'.calls[id] == InitialCall(op).(phase := Returned(Count(0))) && s'.buf == s.buf
            else if s.buf.operational then TakesAll(s.buf, InitialCall(op), s'.buf, s'.calls[id])
            else s'.calls[id] == InitialCall(op).(phase := Returned(NotOperational)) && s'.buf == s.buf
  {
    if s.buf.operational && op.max > 0 { PassTakes(s, id, InitialCall(op)); }
  }

  // A get or a peek that does not wait hands out the front of the buffer, as much as there is and
  // the caller accepts, and returns how much that is.
  lemma PolledGet<T>(s: State<T>, id: nat, max: nat, atLeast: nat, incr: bool)
    requires Inv(s) && id !in s.calls && s.buf.operational
    ensures var s', k := BeginCall(s, id, Get(max, atLeast, Poll, incr)), Min(max, |s.buf.contents|);
            && s'.calls[id].got == s.buf.contents[..k] && s'.calls[id].phase == Returned(Count(k))
            && s'.buf == s.buf.(contents := if incr then s.buf.contents[k..] else s.buf.contents)
  {
    BeginGet(s, id, Get(max, atLeast, Poll, incr));
  }

  lemma BeginPut<T>(s: State<T>, id: nat, op: Op<T>)
    requires Inv(s) && id !in s.calls && op.Put?
    ensures var s' := BeginCall(s, id, op);
            if s.buf.operational || op.vals == [] then PutsAll(s.buf, InitialCall(op), s'.buf, s'.calls[id])
            else s'.calls[id] == InitialCall(op).(phase := Returned(NotOperational)) && s'.buf == s.buf
  {
    if s.buf.operational && op.vals != [] { PassPuts(s, id, InitialCall(op)); }
  }

  // A put that does not wait appends as much as there is room for, and returns how much that is.
  lemma PolledPut<T>(s: State<T>, id: nat, vals: seq<T>)
    requires Inv(s) && id !in s.calls && s.buf.operational
    ensures var s', k := BeginCall(s, id, Put(vals, Poll)), Min(s.buf.capacity - |s.buf.contents|, |vals|);
            && s'.calls[id].done == k && s'.calls[id].phase == Returned(Count(k))
            && s'.buf == s.buf.(contents := s.buf.contents + vals[..k])
  {
    BeginPut(s, id, Put(vals, Poll));
  }

  // The code with which a wait ends a call, if it does.
  function EndOfWait<T>(b: Buffer<T>, c: Call<T>, r: WaitResult, timeLeft: bool): Option<Code> {
    match r
    case WaitTimedOut => Some(TimedOut)
    case WaitFailed => Some(Failed)
    case WaitOk =>
      if b.awakened then Some(if b.operational then WakeupRequested else NotOperational)
      else if (c.op.Put? || c.op.Get?) && c.op.mode == Timed && !timeLeft then Some(TimedOut)
      else if (c.op.Put? || c.op.Get?) && !b.operational then Some(NotOperational)
      else None
  }

  // What a call does when its wait is over: it returns with the code of the wait and what it has
  // moved so far; or else it goes on from there, and a call that waits for the buffer to be ready
  // returns the room, or the number of elements.
  ghost predicate ResumedAs<T>(s: State<T>, s': State<T>, id: nat, r: WaitResult, timeLeft: bool)
    requires |s.buf.contents| <= s.buf.capacity && id in s.calls
    requires s.calls[id].op.Put? ==> s.calls[id].done <= |s.calls[id].op.vals|
    requires s.calls[id].op.Get? ==> |s.calls[id].got| <= s.calls[id].op.max
  {
    var c, code := s.calls[id], EndOfWait(s.buf, s.calls[id], r, timeLeft);
    id in s'.calls &&
    if code.Some? then s'.calls[id] == c.(phase := Returned(code.value)) && s'.buf.contents == s.buf.contents
    else match c.op
      case Put(_, _) => PutsAll(s.buf, c, s'.buf, s'.calls[id])
      case Get(_, _, _, _) => TakesAll(s.buf, c, s'.buf, s'.calls[id])
      case WaitReady(forPut, _) =>
        s'.calls[id].phase == Returned(Count(Level(s.buf, forPut))) && s'.buf.contents == s.buf.contents
      case Wakeup(_) => true
  }

  lemma ResumeEffect<T>(s: State<T>, id: nat, r: WaitResult, timeLeft: bool)
    requires Inv(s) && id in s.calls && InWait(s.calls[id])
    ensures s.buf.waiters > 0 && MovedOk(s, id) && ResumedAs(s, ResumeCall(s, id, r, timeLeft), id, r, timeLeft)
  {
    WaiterCounted(s, id);
    assert MovedOk(s, id) && CodeOk(s.calls[id]);
    ResumePass(s, id, r, timeLeft);
  }

  // A pass over a closed buffer moves nothing.
  lemma ClosedPass<T>(s: State<T>, id: nat, c: Call<T>)
    requires |s.buf.contents| <= s.buf.capacity && |s.takers| <= |s.puts| && !s.buf.operational
    requires (c.op.Put? && c.done <= |c.op.vals|) || (c.op.Get? && |c.got| <= c.op.max)
    ensures Pass(s, id, c).calls[id] == c.(phase := Returned(NotOperational))
    ensures Pass(s, id, c).buf.contents == s.buf.contents
  {
  }

  // Leaving the wait changes the flag and the number of waiters only.
  lemma LeavesBuffer<T>(b: Buffer<T>, r: WaitResult)
    requires b.waiters > 0
    ensures var b' := LeaveWait(b, r).0;
            b'.contents == b.contents && b'.capacity == b.capacity && b'.operational == b.operational
  {
  }

  // Whether a call goes on when its wait is over.
  predicate GoesOn<T>(b: Buffer<T>, c: Call<T>, r: WaitResult, timeLeft: bool) {
    r == WaitOk && !b.awakened && !((c.op.Put? || c.op.Get?) && c.op.mode == Timed && !timeLeft)
  }

  lemma ResumeGoesOn<T>(s: State<T>, id: nat, r: WaitResult, timeLeft: bool)
    requires |s.buf.contents| <= s.buf.capacity && |s.takers| <= |s.puts| && s.buf.waiters > 0
    requires id in s.calls && InWait(s.calls[id])
    requires s.calls[id].op.Put? ==> s.calls[id].done <= |s.calls[id].op.vals|
    requires s.calls[id].op.Get? ==> |s.calls[id].got| <= s.calls[id].op.max
    ensures var c, b := s.calls[id], LeaveWait(s.buf, r).0;
            |b.contents| <= b.capacity &&
            if GoesOn(s.buf, c, r, timeLeft) then ResumeCall(s, id, r, timeLeft) == Pass(s.(buf := b), id, c)
            else
              var code := EndOfWait(s.buf, c, r, timeLeft);
              code.Some? && ResumeCall(s, id, r, timeLeft)
                         == s.(buf := b, calls := s.calls[id := c.(phase := Returned(code.value))])
  {
    LeavesBuffer(s.buf, r);
  }

  lemma ResumePass<T>(s: State<T>, id: nat, r: WaitResult, timeLeft: bool)
    requires |s.buf.contents| <= s.buf.capacity && |s.takers| <= |s.puts| && s.buf.waiters > 0
    requires id in s.calls && InWait(s.calls[id]) && CodeOk(s.calls[id])
    requires s.calls[id].op.Put? ==> s.calls[id].done <= |s.calls[id].op.vals|
    requires s.calls[id].op.Get? ==> |s.calls[id].got| <= s.calls[id].op.max
    ensures ResumedAs(s, ResumeCall(s, id, r, timeLeft), id, r, timeLeft)
  {
    var c, b := s.calls[id], LeaveWait(s.buf, r).0;
    ResumeGoesOn(s, id, r, timeLeft);
    LeavesBuffer(s.buf, r);
    if GoesOn(s.buf, c, r, timeLeft) && !c.op.WaitReady? {
      if !s.buf.operational {
        ClosedPass(s.(buf := b), id, c);
      } else if c.op.Put? {
        PassPuts(s.(buf := b), id, c);
      } else {
        PassTakes(s.(buf := b), id, c);
      }
    }
  }

  // A call that waits for room, or for elements, returns how much there is as soon as there is any,
  // or at once if it does not wait; a closed buffer is no obstacle.
  lemma BeginReady<T>(s: State<T>, id: nat, forPut: bool, mode: Mode)
    requires Inv(s) && id !in s.calls
    ensures var s', n := BeginCall(s, id, WaitReady(forPut, mode)), if forPut then s.buf.capacity - |s.buf.contents| else |s.buf.contents|;
            && s'.buf.contents == s.buf.contents
            && s'.calls[id].phase == if n > 0 || mode == Poll then Returned(Count(n)) else Waiting
  {
  }

  // A wakeup call wakes the waiters of an operational buffer, unless another one is doing so; it
  // waits for them if it may, until the flag is down.
  lemma WakeupSteps<T>(s: State<T>, id: nat, mode: Mode)
    requires Inv(s) && id !in s.calls
    ensures var s', wakes := BeginCall(s, id, Wakeup(mode)), WaitingCalls(s) != {} && s.buf.operational && !s.buf.awakened;
            && (s'.buf.awakened <==> s.buf.awakened || wakes)
            && s'.calls[id].phase == if wakes && mode != Poll then Waiting
                                     else Returned(if WaitingCalls(s) == {} || s.buf.operational then Count(0) else NotOperational)
  {
    if WaitingCalls(s) == {} { assert s.buf.waiters == 0; } else { NotNone(WaitingCalls(s)); }
  }

  lemma NotNone(c: set<nat>)
    requires c != {}
    ensures |c| > 0
  {
  }

  lemma WakeupRechecks<T>(s: State<T>, id: nat, r: WaitResult, timeLeft: bool)
    requires Inv(s) && id in s.calls && s.calls[id].op.Wakeup? && s.calls[id].phase == Waiting
    ensures var s' := ResumeCall(s, id, r, timeLeft);
            && s'.buf == s.buf
            && s'.calls[id].phase ==
               match r
               case WaitTimedOut => Returned(TimedOut)
               case WaitFailed => Returned(Failed)
               case WaitOk => if !s.buf.operational then Returned(NotOperational)
                              else if s.buf.awakened then Waiting else Returned(Count(0))
  {
  }

  // A clear empties the buffer; a shutdown closes it as well.  No call notices before it goes on.
  lemma Emptied<T>(s: State<T>)
    requires Inv(s)
    ensures Apply(s, Clear).buf == s.buf.(contents := []) && Apply(s, Clear).calls == s.calls
    ensures s.buf.operational ==> Apply(s, Shutdown).buf == s.buf.(contents := [], operational := false)
    ensures !s.buf.operational ==> Apply(s, Shutdown) == s
    ensures Apply(s, Shutdown).calls == s.calls
  {
  }

  // The buffer is shut down and holds nothing.
  predicate Closed<T>(b: Buffer<T>) {
    !b.operational && b.contents == []
  }

  lemma ClosedKept<T>(s: State<T>, a: Action<T>)
    requires Inv(s) && Enabled(s, a) && Closed(s.buf)
    ensures Closed(Apply(s, a).buf)
  {
    match a
    case Begin(id, op) => BeginClosed(s, id, op);
    case Resume(id, r, timeLeft) =>
      WaiterCounted(s, id);
      assert MovedOk(s, id);
      ResumeClosed(s, id, r, timeLeft);
    case Clear =>
    case Shutdown =>
  }

  lemma BeginClosed<T>(s: State<T>, id: nat, op: Op<T>)
    requires |s.buf.contents| <= s.buf.capacity && |s.takers| <= |s.puts| && Closed(s.buf)
    ensures Closed(BeginCall(s, id, op).buf)
  {
  }

  lemma ResumeClosed<T>(s: State<T>, id: nat, r: WaitResult, timeLeft: bool)
    requires |s.buf.contents| <= s.buf.capacity && |s.takers| <= |s.puts| && Closed(s.buf)
    requires id in s.calls && s.calls[id].phase == Waiting && (InWait(s.calls[id]) ==> s.buf.waiters > 0)
    requires s.calls[id].op.Put? ==> s.calls[id].done <= |s.calls[id].op.vals|
    requires s.calls[id].op.Get? ==> |s.calls[id].got| <= s.calls[id].op.max
    ensures Closed(ResumeCall(s, id, r, timeLeft).buf)
  {
  }

  // A buffer that is shut down stays so, and empty, whatever is called.
  lemma {:induction false} ClosedForGood<T>(s: State<T>, actions: seq<Action<T>>)
    requires Inv(s) && IsRun(s, actions) && Closed(s.buf)
    ensures Closed(After(s, actions).buf)
    decreases |actions|
  {
    if actions != [] {
      InvKept(s, actions[0]);
      ClosedKept(s, actions[0]);
      ClosedForGood(Apply(s, actions[0]), actions[1..]);
    }
  }

  // ---------------------------------------------------------------- what a put may come to

  // In some run over a queue of the given capacity a put of vals that waits as long as it must
  // ends with the given code after the first n of them.
  ghost predicate PutEnds<T(!new)>(capacity: nat, vals: seq<T>, n: nat, code: Code) {
    exists actions, id :: IsRun(Created<T>(capacity), actions) && EndsWith(After(Created<T>(capacity), actions), id, vals, n, code)
  }

  ghost predicate EndsWith<T>(s: State<T>, id: nat, vals: seq<T>, n: nat, code: Code) {
    && id in s.calls && s.calls[id].op == Put(vals, Forever) && s.calls[id].phase == Returned(code)
    && n <= |vals| && Sent(s.puts, id) == vals[..n]
  }

  // The put id waits at a full buffer, alone, done of its values being in the buffer; calls from
  // next on are not made yet.
  ghost predicate Blocked<T>(s: State<T>, id: nat, vals: seq<T>, done: nat, next: nat) {
    && s.buf.operational && !s.buf.awakened && s.buf.waiters == 1
    && |s.buf.contents| == s.buf.capacity > 0
    && id in s.calls && s.calls[id] == InitialCall(Put(vals, Forever)).(done := done) && done < |vals|
    && forall x :: x in s.calls ==> x < next
  }

  lemma RunBefore<T>(s: State<T>, a: Action<T>, rest: seq<Action<T>>) returns (actions: seq<Action<T>>)
    requires Inv(s) && Enabled(s, a) && Inv(Apply(s, a)) && IsRun(Apply(s, a), rest)
    ensures IsRun(s, actions) && After(s, actions) == After(Apply(s, a), rest)
  {
    actions := [a] + rest;
    assert actions[1..] == rest;
  }

  // Room is made for m values more, which the put takes up.
  lemma Unblock<T>(s: State<T>, id: nat, vals: seq<T>, done: nat, next: nat, m: nat)
    requires Inv(s) && Blocked(s, id, vals, done, next) && 0 < m <= s.buf.capacity && done + m <= |vals|
    ensures var a := Begin(next, Get(m, m, Poll, true));
            Enabled(s, a) && Inv(Apply(s, a)) && Enabled(Apply(s, a), Resume(id, WaitOk, true))
    ensures var s' := Apply(Apply(s, Begin(next, Get(m, m, Poll, true))), Resume(id, WaitOk, true));
            && Inv(s')
            && if done + m < |vals| then Blocked(s', id, vals, done + m, next + 1)
               else EndsWith(s', id, vals, |vals|, Count(|vals|))
  {
    var a, r := Begin(next, Get(m, m, Poll, true)), Resume(id, WaitOk, true);
    InvKept(s, a);
    Drained(s, next, m);
    var s1 := Apply(s, a);
    InvKept(s1, r);
    Resumed(s1, id, vals, done, m);
    if done + m == |vals| { EndsAs(Apply(s1, r), id, vals, |vals|, Count(|vals|)); }
  }

  lemma Drained<T>(s: State<T>, next: nat, m: nat)
    requires Inv(s) && s.buf.operational && next !in s.calls && 0 < m <= |s.buf.contents|
    ensures var s1 := Apply(s, Begin(next, Get(m, m, Poll, true)));
            && s1.buf == s.buf.(contents := s.buf.contents[m..]) && s1.calls == s.calls[next := s1.calls[next]]
            && s1.calls[next].phase.Returned?
  {
  }

  lemma Resumed<T>(s: State<T>, id: nat, vals: seq<T>, done: nat, m: nat)
    requires Inv(s) && s.buf.operational && !s.buf.awakened && s.buf.waiters == 1
    requires s.buf.capacity - |s.buf.contents| == m > 0 && done + m <= |vals|
    requires id in s.calls && s.calls[id] == InitialCall(Put(vals, Forever)).(done := done)
    ensures var s' := Apply(s, Resume(id, WaitOk, true));
            && s'.buf.operational && !s'.buf.awakened && s'.buf.capacity == s.buf.capacity
            && |s'.buf.contents| == s.buf.capacity && s'.calls == s.calls[id := s'.calls[id]]
            && s'.calls[id] == s.calls[id].(done := done + m, phase := s'.calls[id].phase)
            && (done + m < |vals| ==> s'.calls[id].phase == Waiting && s'.buf.waiters == 1)
            && (done + m == |vals| ==> s'.calls[id].phase == Returned(Count(|vals|)))
  {
    assert MovedOk(s, id);
  }

  // How a call whose record is known has ended.
  lemma EndsAs<T>(s: State<T>, id: nat, vals: seq<T>, n: nat, code: Code)
    requires Inv(s) && id in s.calls && n <= |vals|
    requires s.calls[id] == InitialCall(Put(vals, Forever)).(done := n, phase := Returned(code))
    ensures EndsWith(s, id, vals, n, code)
  {
    assert MovedOk(s, id);
  }

  lemma EndFailed<T>(s: State<T>, id: nat, vals: seq<T>, n: nat, next: nat)
    requires Inv(s) && Blocked(s, id, vals, n, next)
    ensures var r := Resume(id, WaitFailed, true);
            Enabled(s, r) && Inv(Apply(s, r)) && EndsWith(Apply(s, r), id, vals, n, Failed)
  {
    var r := Resume(id, WaitFailed, true);
    InvKept(s, r);
    LeavesFailed(s, id);
    EndsAs(Apply(s, r), id, vals, n, Failed);
  }

  lemma LeavesFailed<T>(s: State<T>, id: nat)
    requires Inv(s) && id in s.calls && InWait(s.calls[id])
    ensures Apply(s, Resume(id, WaitFailed, true)).calls[id] == s.calls[id].(phase := Returned(Failed))
  {
  }

  // A wakeup raises the flag for the one that waits.
  lemma FlagRaised<T>(s: State<T>, id: nat, vals: seq<T>, n: nat, next: nat)
    requires Inv(s) && Blocked(s, id, vals, n, next)
    ensures var w := Begin(next, Wakeup(Poll));
            && Enabled(s, w) && Inv(Apply(s, w))
            && var s1 := Apply(s, w);
               s1.buf == s.buf.(awakened := true) && id in s1.calls && s1.calls[id] == s.calls[id]
  {
    InvKept(s, Begin(next, Wakeup(Poll)));
  }

  lemma EndWoken<T>(s: State<T>, id: nat, vals: seq<T>, n: nat)
    requires Inv(s) && s.buf.operational && s.buf.awakened && s.buf.waiters == 1
    requires id in s.calls && s.calls[id] == InitialCall(Put(vals, Forever)).(done := n) && n < |vals|
    ensures var r := Resume(id, WaitOk, true);
            Enabled(s, r) && Inv(Apply(s, r)) && EndsWith(Apply(s, r), id, vals, n, WakeupRequested)
  {
    var r := Resume(id, WaitOk, true);
    InvKept(s, r);
    LeavesWoken(s, id);
    EndsAs(Apply(s, r), id, vals, n, WakeupRequested);
  }

  lemma LeavesWoken<T>(s: State<T>, id: nat)
    requires Inv(s) && id in s.calls && InWait(s.calls[id]) && s.buf.awakened && s.buf.operational
    ensures Apply(s, Resume(id, WaitOk, true)).calls[id] == s.calls[id].(phase := Returned(WakeupRequested))
  {
  }

  lemma EndNow<T(!new)>(s: State<T>, id: nat, vals: seq<T>, n: nat, next: nat, code: Code) returns (actions: seq<Action<T>>)
    requires Inv(s) && Blocked(s, id, vals, n, next) && code in {WakeupRequested, Failed}
    ensures IsRun(s, actions) && EndsWith(After(s, actions), id, vals, n, code)
  {
    if code == Failed {
      EndFailed(s, id, vals, n, next);
      actions := RunBefore(s, Resume(id, WaitFailed, true), []);
    } else {
      var w := Begin(next, Wakeup(Poll));
      FlagRaised(s, id, vals, n, next);
      EndWoken(Apply(s, w), id, vals, n);
      actions := RunBefore(Apply(s, w), Resume(id, WaitOk, true), []);
      actions := RunBefore(s, w, actions);
    }
  }

  lemma {:induction false} EndLater<T(!new)>(s: State<T>, id: nat, vals: seq<T>, done: nat, n: nat, next: nat, code: Code)
    returns (actions: seq<Action<T>>)
    requires Inv(s) && Blocked(s, id, vals, done, next) && done <= n
    requires if n == |vals| then code == Count(n) else n < |vals| && code in {WakeupRequested, Failed}
    ensures IsRun(s, actions) && EndsWith(After(s, actions), id, vals, n, code)
    decreases n - done
  {
    if done == n {
      actions := EndNow(s, id, vals, n, next, code);
    } else {
      var m := Min(s.buf.capacity, n - done);
      var a, r := Begin(next, Get(m, m, Poll, true)), Resume(id, WaitOk, true);
      Unblock(s, id, vals, done, next, m);
      var s1 := Apply(s, a);
      var s2 := Apply(s1, r);
      if done + m < |vals| {
        actions := EndLater(s2, id, vals, done + m, n, next + 1, code);
      } else {
        actions := [];
      }
      actions := RunBefore(s1, r, actions);
      actions := RunBefore(s, a, actions);
    }
  }

  // A new buffer is filled with n values.
  lemma Filled<T>(capacity: nat, vals: seq<T>)
    requires |vals| <= capacity
    ensures var s0, a := Created<T>(capacity), Begin(0, Put(vals, Poll));
            && Enabled(s0, a) && Inv(Apply(s0, a))
            && Apply(s0, a).buf == s0.buf.(contents := vals) && Apply(s0, a).calls.Keys == {0}
  {
    InvKept(Created<T>(capacity), Begin(0, Put(vals, Poll)));
  }

  // The first pass of a put that finds room for k values.
  lemma FirstPass<T>(s: State<T>, vals: seq<T>, k: nat)
    requires Inv(s) && s.buf.operational && !s.buf.awakened && s.buf.waiters == 0 && s.calls.Keys == {0}
    requires s.buf.capacity - |s.buf.contents| == k <= |vals| && s.buf.capacity > 0 && vals != []
    ensures var b := Begin(1, Put(vals, Forever));
            && Enabled(s, b) && Inv(Apply(s, b))
            && if k < |vals| then Blocked(Apply(s, b), 1, vals, k, 2)
               else EndsWith(Apply(s, b), 1, vals, |vals|, Count(|vals|))
  {
    var b := Begin(1, Put(vals, Forever));
    InvKept(s, b);
    assert MovedOk(Apply(s, b), 1);
  }

  // Every way to end that PutOutcome() leaves a waiting put does occur, on a queue of any
  // capacity: after any proper prefix by a wakeup or by a failing wait, and after all values.
  lemma PutMayEnd<T(!new)>(capacity: nat, vals: seq<T>, n: nat, code: Code)
    requires capacity > 0 && vals != []
    requires if n == |vals| then code == Count(n) else n < |vals| && code in {WakeupRequested, Failed}
    ensures PutEnds(capacity, vals, n, code)
  {
    var k := Min(capacity, n);
    var filler := seq(capacity - k, _ => vals[0]);
    var a, b := Begin(0, Put(filler, Poll)), Begin(1, Put(vals, Forever));
    var s0 := Created<T>(capacity);
    Filled(capacity, filler);
    var s1 := Apply(s0, a);
    FirstPass(s1, vals, k);
    var s2 := Apply(s1, b);
    var actions: seq<Action<T>> := [];
    if k < |vals| { actions := EndLater(s2, 1, vals, k, n, 2, code); }
    actions := RunBefore(s1, b, actions);
    actions := RunBefore(s0, a, actions);
    assert EndsWith(After(s0, actions), 1, vals, n, code);
  }

  // ---------------------------------------------------------------- the wakeup handshake

  lemma FoundKept<T>(s: State<T>, a: Action<T>, id: nat)
    requires Inv(s) && Enabled(s, a) && id in s.calls && s.calls[id].op.Wakeup?
    ensures id in Apply(s, a).calls && Apply(s, a).calls[id] == s.calls[id].(phase := Apply(s, a).calls[id].phase)
  {
  }

  lemma {:induction false} FoundForever<T>(s: State<T>, actions: seq<Action<T>>, id: nat)
    requires Inv(s) && IsRun(s, actions) && id in s.calls && s.calls[id].op.Wakeup?
    ensures id in After(s, actions).calls
    ensures After(s, actions).calls[id] == s.calls[id].(phase := After(s, actions).calls[id].phase)
    decreases |actions|
  {
    if actions != [] {
      InvKept(s, actions[0]);
      FoundKept(s, actions[0], id);
      FoundForever(Apply(s, actions[0]), actions[1..], id);
    }
  }

  // A wakeup call that finds calls waiting and the flag down, and waits for them, returns
  // GALLUS_RESULT_OK only after every one of those calls has returned to its caller.
  lemma WakeupComplete<T>(s: State<T>, id: nat, mode: Mode, actions: seq<Action<T>>, w: nat)
    requires Inv(s) && id !in s.calls && mode != Poll
    requires s.buf.operational && !s.buf.awakened && w in WaitingCalls(s)
    requires Inv(BeginCall(s, id, Wakeup(mode))) && IsRun(BeginCall(s, id, Wakeup(mode)), actions)
    ensures var s' := After(BeginCall(s, id, Wakeup(mode)), actions);
            && id in s'.calls
            && (s'.calls[id].phase == Returned(Count(0)) ==> w in s'.calls && s'.calls[w].phase.Returned?)
  {
    WaiterCounted(s, w);
    var s1 := BeginCall(s, id, Wakeup(mode));
    FoundForever(s1, actions, id);
    assert WakeOk(After(s1, actions), id);
  }

  // The flag is up only while somebody waits.
  predicate FlagSound<T>(b: Buffer<T>) {
    b.awakened ==> b.waiters > 0
  }

  // The last waiter leaves, timed out or failed, while the flag is up.
  predicate LosesFlag<T>(s: State<T>, a: Action<T>) {
    && a.Resume? && a.id in s.calls && InWait(s.calls[a.id])
    && a.result != WaitOk && s.buf.waiters == 1 && s.buf.awakened
  }

  lemma FlagStep<T>(s: State<T>, a: Action<T>)
    requires Inv(s) && Enabled(s, a) && FlagSound(s.buf)
    ensures FlagSound(Apply(s, a).buf) <==> !LosesFlag(s, a)
  {
    match a
    case Begin(id, op) => BeginFlag(s, id, op);
    case Resume(id, r, timeLeft) =>
      WaiterCounted(s, id);
      assert MovedOk(s, id);
      ResumeFlag(s, id, r, timeLeft);
    case Clear =>
    case Shutdown =>
  }

  lemma PassFlag<T>(s: State<T>, id: nat, c: Call<T>)
    requires |s.buf.contents| <= s.buf.capacity && |s.takers| <= |s.puts|
    requires (c.op.Put? ==> c.done <= |c.op.vals|) && (c.op.Get? ==> |c.got| <= c.op.max)
    ensures Pass(s, id, c).buf.awakened == s.buf.awakened && Pass(s, id, c).buf.waiters >= s.buf.waiters
  {
  }

  lemma BeginFlag<T>(s: State<T>, id: nat, op: Op<T>)
    requires |s.buf.contents| <= s.buf.capacity && |s.takers| <= |s.puts| && FlagSound(s.buf)
    ensures FlagSound(BeginCall(s, id, op).buf)
  {
    PassFlag(s, id, InitialCall(op));
  }

  lemma ResumeFlag<T>(s: State<T>, id: nat, r: WaitResult, timeLeft: bool)
    requires |s.buf.contents| <= s.buf.capacity && |s.takers| <= |s.puts| && FlagSound(s.buf)
    requires id in s.calls && s.calls[id].phase == Waiting && (InWait(s.calls[id]) ==> s.buf.waiters > 0)
    requires s.calls[id].op.Put? ==> s.calls[id].done <= |s.calls[id].op.vals|
    requires s.calls[id].op.Get? ==> |s.calls[id].got| <= s.calls[id].op.max
    ensures FlagSound(ResumeCall(s, id, r, timeLeft).buf) <==> !LosesFlag(s, Resume(id, r, timeLeft))
  {
    if InWait(s.calls[id]) { PassFlag(s.(buf := LeaveWait(s.buf, r).0), id, s.calls[id]); }
  }

  predicate NoneFails<T>(actions: seq<Action<T>>) {
    forall k :: 0 <= k < |actions| ==> actions[k].Resume? ==> actions[k].result == WaitOk
  }

  // In runs without timeouts and failures the flag is up only while somebody waits.
  lemma {:induction false} FlagOverRuns<T>(s: State<T>, actions: seq<Action<T>>)
    requires Inv(s) && IsRun(s, actions) && FlagSound(s.buf) && NoneFails(actions)
    ensures FlagSound(After(s, actions).buf)
    decreases |actions|
  {
    if actions != [] {
      InvKept(s, actions[0]);
      FlagStep(s, actions[0]);
      FlagOverRuns(Apply(s, actions[0]), actions[1..]);
    }
  }

  // A timeout breaks it: a get waits, a wakeup raises the flag, the get times out.
  lemma LostFlag<T>(capacity: nat) returns (actions: seq<Action<T>>)
    ensures IsRun(Created<T>(capacity), actions)
    ensures var b := After(Created<T>(capacity), actions).buf; b.operational && b.awakened && b.waiters == 0
  {
    var a0, a1, a2 := Begin(0, Get(1, 1, Timed, true)), Begin(1, Wakeup(Poll)), Resume(0, WaitTimedOut, false);
    actions := [a0, a1, a2];
    var s0 := Created<T>(capacity);
    InvKept(s0, a0);
    var s1 := Apply(s0, a0);
    InvKept(s1, a1);
    var s2 := Apply(s1, a1);
    InvKept(s2, a2);
    var s3 := Apply(s2, a2);
    assert actions[1..] == [a1, a2] && [a1, a2][1..] == [a2] && [a2][1..] == [];
    assert IsRun(s3, []) && After(s3, []) == s3;
    assert IsRun(s2, [a2]) && After(s2, [a2]) == s3;
    assert IsRun(s1, [a1, a2]) && After(s1, [a1, a2]) == s3;
  }

  // What a lost flag does: the next call that waits is told of a wakeup as soon as it is
  // notified, although none was requested while it waited.
  lemma StaleWakeup<T>(s: State<T>, id: nat, op: Op<T>, timeLeft: bool)
    requires Inv(s) && s.buf.awakened && s.buf.waiters == 0 && s.buf.operational
    requires id !in s.calls && !op.Wakeup?
    requires InWait(BeginCall(s, id, op).calls[id])
    ensures var s1 := BeginCall(s, id, op);
            && Inv(s1) && Enabled(s1, Resume(id, WaitOk, timeLeft))
            && Apply(s1, Resume(id, WaitOk, timeLeft)).calls[id].phase == Returned(WakeupRequested)
            && !Apply(s1, Resume(id, WaitOk, timeLeft)).buf.awakened
  {
    BeginKept(s, id, op);
    var s1 := BeginCall(s, id, op);
    WaiterCounted(s1, id);
    assert MovedOk(s1, id);
  }
}
