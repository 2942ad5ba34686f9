/**
 The ring array of framework/lib/cbuffer.c, proved against the buffer of module CBufferProtocol:
 copies that may wrap around the end of the array, and the stretches of code of the blocking calls.

 The element counters are unbounded here: the recovery from their overflow is left out.
 */
module CBuffer {
  import opened Arith
  import opened Wrappers
  import opened CBufferProtocol

  // ---------------------------------------------------------------- ring arithmetic

  // The slot k places after the slot base of a ring of m slots.
  function Slot(base: nat, k: nat, m: nat): nat {
    if base + k < m then base + k else base + k - m
  }

  lemma SlotIs(a: nat, k: nat, m: nat)
    requires m > 0 && k <= m
    ensures (a + k) % m == Slot(a % m, k, m)
  {
    var q := a / m;
    assert a == m * q + a % m;
    if a % m + k < m {
      DivModIs(a + k, m, q, a % m + k);
    } else {
      assert m * (q + 1) == m * q + m;
      DivModIs(a + k, m, q + 1, a % m + k - m);
    }
  }

  // The n elements from the index r on, in an array whose indices wrap around.
  ghost function Ring<T>(d: seq<T>, r: nat, n: nat): (c: seq<T>)
    requires |d| > 0
    ensures |c| == n
  {
    seq(n, i requires 0 <= i < n => d[(r + i) % |d|])
  }

  lemma RingAt<T>(d: seq<T>, r: nat, n: nat, i: nat)
    requires i < n <= |d|
    ensures r % |d| < |d| && Ring(d, r, n)[i] == d[Slot(r % |d|, i, |d|)]
  {
    SlotIs(r, i, |d|);
  }

  // now is was with vals written from the slot idx on, wrapping around.
  ghost predicate Written<T>(was: seq<T>, now: seq<T>, idx: nat, vals: seq<T>) {
    && |now| == |was| && idx < |was| && |vals| <= |was|
    && forall p :: 0 <= p < |was| ==>
         now[p] == if idx <= p < idx + |vals| then vals[p - idx]
                   else if p < idx + |vals| - |was| then vals[|was| - idx + p] else was[p]
  }

  lemma RingAppend<T>(was: seq<T>, now: seq<T>, r: nat, n: nat, vals: seq<T>)
    requires n + |vals| < |was| && Written(was, now, (r + n) % |was|, vals)
    ensures Ring(now, r, n + |vals|) == Ring(was, r, n) + vals
  {
    var c := Ring(now, r, n + |vals|);
    SlotIs(r, n, |was|);
    forall i | 0 <= i < |c| ensures c[i] == (Ring(was, r, n) + vals)[i] {
      RingAt(now, r, n + |vals|, i);
      if i < n { RingAt(was, r, n, i); }
    }
  }

  lemma RingDrop<T>(d: seq<T>, r: nat, n: nat, k: nat)
    requires k <= n <= |d| && |d| > 0
    ensures Ring(d, r + k, n - k) == Ring(d, r, n)[k..]
  {
    forall i | 0 <= i < n - k ensures Ring(d, r + k, n - k)[i] == Ring(d, r, n)[k..][i] {
      assert r + k + i == r + (k + i);
    }
  }

  // A front of the ring is one run of slots, or two.
  lemma RingFront<T>(d: seq<T>, r: nat, n: nat, k: nat)
    requires k <= n <= |d| && |d| > 0
    ensures var idx := r % |d|;
            Ring(d, r, n)[..k] == if idx + k <= |d| then d[idx..idx + k] else d[idx..] + d[..k - (|d| - idx)]
  {
    forall i | 0 <= i < k ensures Ring(d, r, n)[..k][i] == d[Slot(r % |d|, i, |d|)] { RingAt(d, r, n, i); }
  }

  // memcpy()
  method CopyRange<T>(src: array<T>, s: nat, dst: array<T>, d: nat, n: nat)
    requires src != dst && s + n <= src.Length && d + n <= dst.Length
    modifies dst
    ensures forall p :: 0 <= p < dst.Length ==> dst[p] == if d <= p < d + n then src[s + p - d] else old(dst[p])
  {
    var i := 0;
    while i < n
      invariant i <= n
      invariant forall p :: 0 <= p < dst.Length ==> dst[p] == if d <= p < d + i then src[s + p - d] else old(dst[p])
    {
      dst[d + i] := src[s + i];
      i := i + 1;
    }
  }

  class CBuffer<T> {
    var rIdx: nat              // m_r_idx
    var wIdx: nat              // m_w_idx
    var nElements: nat
    var nWaiters: nat
    var isOperational: bool
    var isAwakened: bool
    const nMax: nat            // m_n_max_elements
    const nAllocd: nat         // m_n_max_allocd_elements
    const zero: T              // what memset() leaves in a slot
    const hasDelProc: bool     // m_del_proc is set
    const data: array<T>

    ghost predicate Valid()
      reads this, data
    {
      && 0 < nMax && nAllocd == nMax + 1 == data.Length
      && wIdx - rIdx == nElements <= nMax
    }

    ghost function Contents(): (c: seq<T>)
      requires Valid()
      reads this, data
      ensures |c| == nElements
    {
      Ring(data[..], rIdx, nElements)
    }

    ghost function Abs(): Buffer<T>
      requires Valid()
      reads this, data
    {
      Buffer(Contents(), nMax, isOperational, isAwakened, nWaiters)
    }

    // gallus_cbuffer_create_with_size()
    constructor (maxElems: nat, hasDelProc: bool, zero: T)
      requires maxElems > 0
      ensures Valid() && Abs() == Init<T>(maxElems).buf && fresh(data)
    {
      rIdx, wIdx, nElements, nWaiters := 0, 0, 0, 0;
      isOperational, isAwakened := true, false;
      nMax, nAllocd := maxElems, maxElems + 1;
      this.hasDelProc, this.zero := hasDelProc, zero;
      data := new T[maxElems + 1](_ => zero);
    }

    // s_copyin(), the copy: n elements of buf go into the array at idx, wrapping around.
    method CopyWrapped(buf: array<T>, off: nat, n: nat, idx: nat)
      requires Valid() && buf != data && off + n <= buf.Length && n <= nMax && idx < nAllocd
      modifies data
      ensures Written(old(data[..]), data[..], idx, buf[off..off + n])
    {
      if idx + n <= nAllocd {
        CopyRange(buf, off, data, idx, n);
      } else {
        var n0 := nAllocd - idx;
        CopyRange(buf, off, data, idx, n0);
        CopyRange(buf, off + n0, data, 0, n - n0);
      }
    }

    // s_copyin(): valptr is buf[off..off + n].
    method CopyIn(buf: array<T>, off: nat, n: nat) returns (maxN: nat)
      requires Valid() && buf != data && off + n <= buf.Length
      modifies this`nElements, this`wIdx, data
      ensures Valid() && maxN == CopyInCount(old(Abs()), n)
      ensures Abs() == old(Abs()).(contents := old(Contents()) + buf[off..off + maxN])
    {
      var maxRooms := nMax - nElements;
      maxN := if maxRooms < n then maxRooms else n;
      assert buf[off..off] == [];
      if maxN > 0 {
        CopyWrapped(buf, off, maxN, wIdx % nAllocd);
        RingAppend(old(data[..]), data[..], rIdx, nElements, buf[off..off + maxN]);
        nElements := nElements + maxN;
        wIdx := wIdx + maxN;
      }
    }

    // s_copyout(): the elements go to buf[off..].
    method CopyOut(buf: array<T>, off: nat, n: nat, doIncr: bool) returns (maxN: nat)
      requires Valid() && buf != data && off + n <= buf.Length
      modifies this`nElements, this`rIdx, buf
      ensures Valid() && maxN == Min(old(nElements), n)
      ensures buf[..] == old(buf[..off]) + old(Contents())[..maxN] + old(buf[off + maxN..])
      ensures Abs() == old(Abs()).(contents := if doIncr then old(Contents())[maxN..] else old(Contents()))
    {
      maxN := if n < nElements then n else nElements;
      if maxN > 0 {
        CopyFrom(buf, off, maxN, rIdx % nAllocd);
        if doIncr {
          RingDrop(data[..], rIdx, nElements, maxN);
          nElements := nElements - maxN;
          rIdx := rIdx + maxN;
        }
      }
    }

    // s_copyout(), the copy: n elements from idx on, wrapping around.
    method CopyFrom(buf: array<T>, off: nat, n: nat, idx: nat)
      requires Valid() && buf != data && off + n <= buf.Length && n <= nElements && idx == rIdx % nAllocd
      modifies buf
      ensures buf[..] == old(buf[..off]) + Contents()[..n] + old(buf[off + n..])
    {
      RingFront(data[..], rIdx, nElements, n);
      if idx + n <= nAllocd {
        CopyRange(data, idx, buf, off, n);
        assert data[..][idx..idx + n] == data[idx..idx + n];
      } else {
        var n0 := nAllocd - idx;
        CopyRange(data, idx, buf, off, n0);
        CopyRange(data, 0, buf, off + n0, n - n0);
      }
    }

    // ---------------------------------------------------------------- the blocking calls

    // s_put_n(), one pass over its loop: buf[..n] is to be put, done of it has been.
    method PutOnce(buf: array<T>, n: nat, done: nat, mode: Mode) returns (done': nat, next: Next)
      requires Valid() && buf != data && done < n <= buf.Length && (mode == Poll ==> done == 0)
      modifies this`nElements, this`wIdx, data
      ensures Valid() && (Abs(), done', next) == PutPass(old(Abs()), buf[..n], done, mode)
      ensures next != Return(MustNotHappen)
      ensures done' == done + if isOperational then Min(nMax - old(nElements), n - done) else 0
    {
      done' := done;
      if isOperational {
        var k := CopyIn(buf, done, n - done);
        assert buf[..n][done..done + k] == buf[done..done + k];
        done' := done + k;
        if mode == Poll {
          next := Return(Count(k));
        } else if done' < n {
          if nElements >= nMax {
            next := Wait;
          } else {
            next := Return(MustNotHappen);
          }
        } else {
          next := Return(Count(done'));
        }
      } else {
        next := Return(NotOperational);
      }
    }

    // s_get_n(), one pass over its loop: buf[..done] has been got, of at most max elements.
    method GetOnce(buf: array<T>, max: nat, atLeast: nat, done: nat, mode: Mode, doIncr: bool)
      returns (done': nat, next: Next)
      requires Valid() && buf != data && done <= max <= buf.Length && 0 < max && (mode == Poll ==> done == 0)
      modifies this`nElements, this`rIdx, buf
      ensures Valid() && done <= done' <= max && buf[done'..] == old(buf[done'..])
      ensures (Abs(), buf[..done'], next) == GetPass(old(Abs()), max, atLeast, mode, doIncr, old(buf[..done]))
      ensures done' == done + if isOperational then Min(max - done, old(nElements)) else 0
      ensures buf[done..done'] == old(Contents())[..done' - done]
    {
      done' := done;
      if isOperational {
        var k := CopyOut(buf, done, max - done, doIncr);
        done' := done + k;
        assert buf[..done'] == old(buf[..done]) + old(Contents())[..k];
        if mode == Poll {
          next := Return(Count(k));
        } else if done' < if mode == Forever then max else atLeast {
          if nElements < 1 {
            next := Wait;
          } else {
            next := Return(MustNotHappen);
          }
        } else {
          next := Return(Count(done'));
        }
      } else {
        next := Return(NotOperational);
      }
    }

    // s_wait_io_ready(), up to the wait
    method BeginWait()
      requires Valid()
      modifies this`nWaiters
      ensures Valid() && Abs() == Enter(old(Abs()), Wait)
    {
      nWaiters := nWaiters + 1;
    }

    // s_wait_io_ready(), from the end of the wait on
    method EndWait(result: WaitResult) returns (code: Option<Code>)
      requires Valid() && nWaiters > 0
      modifies this`nWaiters, this`isAwakened
      ensures Valid() && (Abs(), code) == LeaveWait(old(Abs()), result)
    {
      nWaiters := nWaiters - 1;
      if result == WaitOk && isAwakened {
        if isOperational {
          if nWaiters == 0 {
            isAwakened := false;
          }
          code := Some(WakeupRequested);
        } else {
          isAwakened := false;
          code := Some(NotOperational);
        }
      } else {
        code := match result
          case WaitOk => None
          case WaitTimedOut => Some(TimedOut)
          case WaitFailed => Some(Failed);
      }
    }

    // gallus_cbuffer_wakeup(), up to its wait
    method BeginWakeup(mode: Mode) returns (raised: bool, next: Next)
      requires Valid()
      modifies this`isAwakened
      ensures Valid() && (Abs(), raised, next) == WakeStart(old(Abs()), mode)
    {
      raised, next := false, Return(Count(0));
      if nWaiters > 0 {
        if isOperational {
          if !isAwakened {
            isAwakened, raised := true, true;
            next := if mode != Poll then Wait else Return(Count(0));
          }
        } else {
          next := Return(NotOperational);
        }
      }
    }

    // s_freeup_all_values(): freed is what the free-up procedure is called with, in order.
    method FreeupAllValues() returns (freed: seq<T>)
      requires Valid()
      ensures freed == if hasDelProc then Contents() else []
    {
      freed := [];
      if hasDelProc {
        var i := rIdx;
        while i < wIdx
          invariant rIdx <= i <= wIdx && freed == Contents()[..i - rIdx]
        {
          freed := freed + [data[i % nAllocd]];
          i := i + 1;
        }
      }
    }

    // s_clean()
    method Clean(freeValues: bool) returns (freed: seq<T>)
      requires Valid()
      modifies this`rIdx, this`wIdx, this`nElements, data
      ensures Valid() && Abs() == old(Abs()).(contents := [])
      ensures freed == if freeValues && hasDelProc then old(Contents()) else []
    {
      freed := [];
      if freeValues {
        freed := FreeupAllValues();
      }
      rIdx, wIdx := 0, 0;
      forall i | 0 <= i < data.Length { data[i] := zero; }
      nElements := 0;
    }

    // s_shutdown()
    method Shutdown(freeValues: bool) returns (freed: seq<T>)
      requires Valid()
      modifies this`rIdx, this`wIdx, this`nElements, this`isOperational, data
      ensures Valid() && !isOperational
      ensures Abs() == if old(isOperational) then old(Abs()).(contents := [], operational := false) else old(Abs())
      ensures freed == if old(isOperational) && freeValues && hasDelProc then old(Contents()) else []
    {
      freed := [];
      if isOperational {
        isOperational := false;
        freed := Clean(freeValues);
      }
    }
  }
}
