/**
 The lock-free statistics of framework/lib/statistic.c: any number of threads record values at
 the same time, each by three atomic additions and two compare-and-swap loops
 (gallus_atomic_update_cmp in framework/include/gallus_macros.h).

 Additions wrap around at 64 bits, also in C's undefined case of the square of a large value.
 */
module Statistic {

  const LLONG_MAX: int := 0x7fff_ffff_ffff_ffff
  const LLONG_MIN: int := -0x8000_0000_0000_0000
  const W64: int := 0x1_0000_0000_0000_0000

  // An int64_t that holds x modulo 2^64.
  function Wrap(x: int): (w: int)
    ensures LLONG_MIN <= w <= LLONG_MAX
    ensures LLONG_MIN <= x <= LLONG_MAX ==> w == x
  {
    (x - LLONG_MIN) % W64 + LLONG_MIN
  }

  lemma WrapSame(x: int, y: int, k: int)
    requires x == y + k * W64
    ensures Wrap(x) == Wrap(y)
  {
  }

  lemma WrapAdd(x: int, y: int)
    ensures Wrap(Wrap(x) + y) == Wrap(x + y)
    ensures Wrap(x + Wrap(y)) == Wrap(x + y)
  {
    WrapSame(Wrap(x) + y, x + y, (Wrap(x) - x) / W64);
    WrapSame(x + Wrap(y), x + y, (Wrap(y) - y) / W64);
  }

  datatype Fields = Fields(n: nat, min: int, max: int, sum: int, sum2: int)

  // s_reset_stat()
  const RESET: Fields := Fields(0, LLONG_MAX, LLONG_MIN, 0, 0)

  // What a recorder does next.  A loop holds the value it last saw, __tmp__.
  datatype Next =
    | AddCount | AddSum | AddSum2
    | LoadMin | LoopMin(seen: int)
    | LoadMax | LoopMax(seen: int)
    | Finished

  datatype Recorder = Recorder(val: int, next: Next)

  // Every s_record_stat() call so far, in the order of their beginning.
  datatype State = State(f: Fields, recorders: seq<Recorder>)

  datatype Action = Begin(val: int) | Step(i: nat)

  const INITIAL: State := State(RESET, [])

  // One atomic step of a recorder.
  function StepOf(f: Fields, r: Recorder): (Fields, Next) {
    match r.next
    case AddCount => (f.(n := f.n + 1), AddSum)
    case AddSum => (f.(sum := Wrap(f.sum + r.val)), AddSum2)
    case AddSum2 => (f.(sum2 := Wrap(f.sum2 + Wrap(r.val * r.val))), LoadMin)
    case LoadMin => (f, LoopMin(f.min))
    case LoopMin(seen) =>
      if seen == LLONG_MAX || seen > r.val then
        if f.min == seen then (f.(min := r.val), LoadMax) else (f, LoopMin(f.min))
      else (f, LoadMax)
    case LoadMax => (f, LoopMax(f.max))
    case LoopMax(seen) =>
      if seen == LLONG_MIN || seen < r.val then
        if f.max == seen then (f.(max := r.val), Finished) else (f, LoopMax(f.max))
      else (f, Finished)
    case Finished => (f, Finished)
  }

  predicate Enabled(s: State, a: Action) {
    match a
    case Begin(val) => LLONG_MIN <= val <= LLONG_MAX
    case Step(i) => i < |s.recorders| && s.recorders[i].next != Finished
  }

  function Apply(s: State, a: Action): State
    requires Enabled(s, a)
  {
    match a
    case Begin(val) => s.(recorders := s.recorders + [Recorder(val, AddCount)])
    case Step(i) =>
      var r := s.recorders[i];
      var (f, next) := StepOf(s.f, r);
      State(f, s.recorders[i := r.(next := next)])
  }

  ghost predicate IsRun(s: State, actions: seq<Action>)
    decreases |actions|
  {
    actions == [] || (Enabled(s, actions[0]) && IsRun(Apply(s, actions[0]), actions[1..]))
  }

  ghost function After(s: State, actions: seq<Action>): State
    requires IsRun(s, actions)
    decreases |actions|
  {
    if actions == [] then s else After(Apply(s, actions[0]), actions[1..])
  }

  // ---------------------------------------------------------------- the invariant

  predicate Counted(r: Recorder) { !r.next.AddCount? }

  predicate Summed(r: Recorder) { Counted(r) && !r.next.AddSum? }

  predicate Squared(r: Recorder) { Summed(r) && !r.next.AddSum2? }

  predicate Lowered(r: Recorder) { r.next.LoadMax? || r.next.LoopMax? || r.next.Finished? }

  predicate Raised(r: Recorder) { r.next.Finished? }

  function Count(rs: seq<Recorder>): nat {
    if rs == [] then 0 else Count(rs[..|rs| - 1]) + if Counted(rs[|rs| - 1]) then 1 else 0
  }

  function Sum(rs: seq<Recorder>): int {
    if rs == [] then 0 else Sum(rs[..|rs| - 1]) + if Summed(rs[|rs| - 1]) then rs[|rs| - 1].val else 0
  }

  function Sum2(rs: seq<Recorder>): int {
    if rs == [] then 0
    else Sum2(rs[..|rs| - 1]) + if Squared(rs[|rs| - 1]) then rs[|rs| - 1].val * rs[|rs| - 1].val else 0
  }

  // The minimum is below every value that is through with it, is one of the values, and never
  // above what a loop has seen.
  ghost predicate MinOk(f: Fields, rs: seq<Recorder>) {
    && (forall i :: 0 <= i < |rs| && Lowered(rs[i]) ==> f.min <= rs[i].val)
    && (forall i :: 0 <= i < |rs| && rs[i].next.LoopMin? ==> f.min <= rs[i].next.seen)
    && (f.min == LLONG_MAX || exists i :: 0 <= i < |rs| && rs[i].val == f.min)
  }

  ghost predicate MaxOk(f: Fields, rs: seq<Recorder>) {
    && (forall i :: 0 <= i < |rs| && Raised(rs[i]) ==> f.max >= rs[i].val)
    && (forall i :: 0 <= i < |rs| && rs[i].next.LoopMax? ==> f.max >= rs[i].next.seen)
    && (f.max == LLONG_MIN || exists i :: 0 <= i < |rs| && rs[i].val == f.max)
  }

  ghost predicate InRange(rs: seq<Recorder>) {
    forall i :: 0 <= i < |rs| ==> LLONG_MIN <= rs[i].val <= LLONG_MAX
  }

  ghost predicate Inv(s: State) {
    var f, rs := s.f, s.recorders;
    && InRange(rs) && MinOk(f, rs) && MaxOk(f, rs)
    && f.n == Count(rs) && f.sum == Wrap(Sum(rs)) && f.sum2 == Wrap(Sum2(rs))
  }

  lemma {:induction false} SumsUpdate(rs: seq<Recorder>, i: nat, r: Recorder)
    requires i < |rs|
    ensures Count(rs[i := r]) == Count(rs) - (if Counted(rs[i]) then 1 else 0) + (if Counted(r) then 1 else 0)
    ensures Sum(rs[i := r]) == Sum(rs) - (if Summed(rs[i]) then rs[i].val else 0) + (if Summed(r) then r.val else 0)
    ensures Sum2(rs[i := r]) == Sum2(rs) - (if Squared(rs[i]) then rs[i].val * rs[i].val else 0)
                                         + (if Squared(r) then r.val * r.val else 0)
    decreases |rs|
  {
    var n := |rs| - 1;
    if i == n {
      assert rs[i := r][..n] == rs[..n];
    } else {
      SumsUpdate(rs[..n], i, r);
      assert rs[i := r][..n] == rs[..n][i := r];
    }
  }

  lemma SumsStep(s: State, i: nat)
    requires Inv(s) && Enabled(s, Step(i))
    ensures var s' := Apply(s, Step(i));
            && s'.f.n == Count(s'.recorders)
            && s'.f.sum == Wrap(Sum(s'.recorders)) && s'.f.sum2 == Wrap(Sum2(s'.recorders))
  {
    var r := s.recorders[i];
    SumsUpdate(s.recorders, i, r.(next := StepOf(s.f, r).1));
    SumField(s.f, r, Sum(s.recorders), Sum2(s.recorders));
  }

  // What a step adds to the two sums.
  lemma SumField(f: Fields, r: Recorder, sum: int, sum2: int)
    requires f.sum == Wrap(sum) && f.sum2 == Wrap(sum2)
    ensures StepOf(f, r).0.sum == Wrap(sum + if r.next.AddSum? then r.val else 0)
    ensures StepOf(f, r).0.sum2 == Wrap(sum2 + if r.next.AddSum2? then r.val * r.val else 0)
  {
    WrapAdd(sum, r.val);
    WrapAdd(sum2, r.val * r.val);
    WrapAdd(f.sum2, r.val * r.val);
  }

  lemma MinStep(s: State, i: nat)
    requires Inv(s) && Enabled(s, Step(i))
    ensures var s' := Apply(s, Step(i)); MinOk(s'.f, s'.recorders)
  {
    var rs, s' := s.recorders, Apply(s, Step(i));
    var rs' := s'.recorders;
    forall j | 0 <= j < |rs'| ensures rs'[j].val == rs[j].val {}
    if s'.f.min != LLONG_MAX {
      if s'.f.min == s.f.min {
        var j :| 0 <= j < |rs| && rs[j].val == s.f.min;
        assert rs'[j].val == s'.f.min;
      } else {
        assert rs'[i].val == s'.f.min;
      }
    }
  }

  lemma MaxStep(s: State, i: nat)
    requires Inv(s) && Enabled(s, Step(i))
    ensures var s' := Apply(s, Step(i)); MaxOk(s'.f, s'.recorders)
  {
    var rs, s' := s.recorders, Apply(s, Step(i));
    var rs' := s'.recorders;
    forall j | 0 <= j < |rs'| ensures rs'[j].val == rs[j].val {}
    if s'.f.max != LLONG_MIN {
      if s'.f.max == s.f.max {
        var j :| 0 <= j < |rs| && rs[j].val == s.f.max;
        assert rs'[j].val == s'.f.max;
      } else {
        assert rs'[i].val == s'.f.max;
      }
    }
  }

  lemma BeginKept(s: State, val: int)
    requires Inv(s) && Enabled(s, Begin(val))
    ensures Inv(Apply(s, Begin(val)))
  {
    var rs, rs' := s.recorders, Apply(s, Begin(val)).recorders;
    assert rs'[..|rs|] == rs;
    if s.f.min != LLONG_MAX {
      var j :| 0 <= j < |rs| && rs[j].val == s.f.min;
      assert rs'[j].val == s.f.min;
    }
    if s.f.max != LLONG_MIN {
      var j :| 0 <= j < |rs| && rs[j].val == s.f.max;
      assert rs'[j].val == s.f.max;
    }
  }

  lemma InvKept(s: State, a: Action)
    requires Inv(s) && Enabled(s, a)
    ensures Inv(Apply(s, a))
  {
    match a
    case Begin(val) => BeginKept(s, val);
    case Step(i) =>
      SumsStep(s, i);
      MinStep(s, i);
      MaxStep(s, i);
  }

  lemma {:induction false} RunKeepsInv(s: State, actions: seq<Action>)
    requires Inv(s) && IsRun(s, actions)
    ensures Inv(After(s, actions))
    decreases |actions|
  {
    if actions != [] {
      InvKept(s, actions[0]);
      RunKeepsInv(Apply(s, actions[0]), actions[1..]);
    }
  }

  // ---------------------------------------------------------------- the main results

  function Values(rs: seq<Recorder>): (v: seq<int>)
    ensures |v| == |rs|
  {
    seq(|rs|, i requires 0 <= i < |rs| => rs[i].val)
  }

  function Total(xs: seq<int>): int {
    if xs == [] then 0 else Total(xs[..|xs| - 1]) + xs[|xs| - 1]
  }

  function Squares(xs: seq<int>): int {
    if xs == [] then 0 else Squares(xs[..|xs| - 1]) + xs[|xs| - 1] * xs[|xs| - 1]
  }

  ghost predicate Quiet(s: State) {
    forall i :: 0 <= i < |s.recorders| ==> s.recorders[i].next.Finished?
  }

  lemma {:induction false} SumsQuiet(rs: seq<Recorder>)
    requires forall i :: 0 <= i < |rs| ==> rs[i].next.Finished?
    ensures Count(rs) == |rs| && Sum(rs) == Total(Values(rs)) && Sum2(rs) == Squares(Values(rs))
    decreases |rs|
  {
    if rs != [] {
      SumsQuiet(rs[..|rs| - 1]);
      assert Values(rs)[..|rs| - 1] == Values(rs[..|rs| - 1]);
    }
  }

  // Whatever the interleaving: when no recorder is under way, the fields are those of the values
  // recorded: their number, their sum and the sum of their squares (modulo 2^64), and the least
  // and the greatest of them.
  lemma QuietExact(actions: seq<Action>)
    requires IsRun(INITIAL, actions) && Quiet(After(INITIAL, actions))
    ensures var f, xs := After(INITIAL, actions).f, Values(After(INITIAL, actions).recorders);
            && f.n == |xs| && f.sum == Wrap(Total(xs)) && f.sum2 == Wrap(Squares(xs))
            && (forall x :: x in xs ==> f.min <= x <= f.max)
            && (xs != [] ==> f.min in xs && f.max in xs)
            && (xs == [] ==> f.min == LLONG_MAX && f.max == LLONG_MIN)
  {
    RunKeepsInv(INITIAL, actions);
    var s := After(INITIAL, actions);
    var f, rs, xs := s.f, s.recorders, Values(s.recorders);
    SumsQuiet(rs);
    if xs != [] {
      assert LLONG_MIN <= rs[0].val <= LLONG_MAX && f.min <= rs[0].val <= f.max && rs[0].val == xs[0];
      if f.min != LLONG_MAX {
        var i :| 0 <= i < |rs| && rs[i].val == f.min;
        assert xs[i] == f.min;
      }
      if f.max != LLONG_MIN {
        var i :| 0 <= i < |rs| && rs[i].val == f.max;
        assert xs[i] == f.max;
      }
    }
  }

  // The steps a recorder has left when nobody disturbs it: a loop that has seen another value than
  // the present one goes round once more.
  function StepsLeft(f: Fields, r: Recorder): nat {
    match r.next
    case AddCount => 7
    case AddSum => 6
    case AddSum2 => 5
    case LoadMin => 4
    case LoopMin(seen) => if (seen == LLONG_MAX || seen > r.val) && f.min != seen then 4 else 3
    case LoadMax => 2
    case LoopMax(seen) => if (seen == LLONG_MIN || seen < r.val) && f.max != seen then 2 else 1
    case Finished => 0
  }

  // A recorder needs nobody else: undisturbed it is through in seven steps at most.
  lemma {:induction false} RecorderFinishes(s: State, i: nat) returns (actions: seq<Action>)
    requires i < |s.recorders|
    ensures IsRun(s, actions) && |actions| <= 7 && forall a :: a in actions ==> a == Step(i)
    ensures |actions| == StepsLeft(s.f, s.recorders[i])
    ensures After(s, actions).recorders == s.recorders[i := Recorder(s.recorders[i].val, Finished)]
    decreases StepsLeft(s.f, s.recorders[i])
  {
    if s.recorders[i].next.Finished? {
      actions := [];
    } else {
      var s1 := Apply(s, Step(i));
      var rest := RecorderFinishes(s1, i);
      actions := [Step(i)] + rest;
      assert actions[1..] == rest;
      assert s1.recorders[i := Recorder(s.recorders[i].val, Finished)]
          == s.recorders[i := Recorder(s.recorders[i].val, Finished)];
    }
  }

  // ---------------------------------------------------------------- the standard deviation

  // The sum that s_get_sd_stat() takes the root of, over the reals.
  function Ssum(n: nat, sum: int, sum2: int): real
    requires n > 0
  {
    var avg := sum as real / n as real;
    Spread(sum2 as real, sum as real, n as real, avg)
  }

  // The squared distances from a, summed.
  function Deviations(xs: seq<int>, a: real): (d: real)
    ensures d >= 0.0
  {
    if xs == [] then 0.0
    else
      var e := xs[|xs| - 1] as real - a;
      assert e * e >= 0.0;
      Deviations(xs[..|xs| - 1], a) + e * e
  }

  // The closed form of Deviations().
  function Spread(squares: real, total: real, n: real, a: real): real {
    squares - 2.0 * a * total + a * a * n
  }

  lemma SpreadStep(squares: real, total: real, n: real, a: real, x: real)
    ensures Spread(squares + x * x, total + x, n + 1.0, a) == Spread(squares, total, n, a) + (x - a) * (x - a)
  {
    var u, v := a * total, a * x;
    assert 2.0 * a * (total + x) == 2.0 * u + 2.0 * v by { assert a * (total + x) == u + v; }
    assert a * a * (n + 1.0) == a * a * n + a * a;
    assert (x - a) * (x - a) == x * x - 2.0 * v + a * a;
  }

  lemma {:induction false} DeviationsAre(xs: seq<int>, a: real)
    ensures Deviations(xs, a) == Spread(Squares(xs) as real, Total(xs) as real, |xs| as real, a)
    decreases |xs|
  {
    if xs == [] {
      SpreadNone(a);
    } else {
      DeviationsAre(xs[..|xs| - 1], a);
      DeviationsLast(xs, a);
    }
  }

  lemma SpreadNone(a: real)
    ensures Spread(0.0, 0.0, 0.0, a) == 0.0
  {
  }

  lemma DeviationsLast(xs: seq<int>, a: real)
    requires xs != []
    ensures var front := xs[..|xs| - 1];
            Deviations(xs, a) - Deviations(front, a) ==
            Spread(Squares(xs) as real, Total(xs) as real, |xs| as real, a)
            - Spread(Squares(front) as real, Total(front) as real, |front| as real, a)
  {
    var n := |xs| - 1;
    DeviationsNext(Squares(xs[..n]), Total(xs[..n]), n, a, xs[n]);
  }

  lemma DeviationsNext(squares: int, total: int, n: nat, a: real, x: int)
    ensures Spread((squares + x * x) as real, (total + x) as real, (n + 1) as real, a)
         == Spread(squares as real, total as real, n as real, a) + (x as real - a) * (x as real - a)
  {
    SquareReal(x);
    SpreadStep(squares as real, total as real, n as real, a, x as real);
    assert (squares + x * x) as real == squares as real + x as real * x as real;
    assert (total + x) as real == total as real + x as real;
    assert (n + 1) as real == n as real + 1.0;
  }

  lemma SquareReal(x: int)
    ensures (x * x) as real == x as real * x as real
  {
  }

  // After any run without overflow, what s_get_sd_stat() takes the root of is the sum of the
  // squared deviations from the average, and so not negative.
  lemma SsumExact(actions: seq<Action>)
    requires IsRun(INITIAL, actions) && Quiet(After(INITIAL, actions)) && After(INITIAL, actions).recorders != []
    requires var xs := Values(After(INITIAL, actions).recorders);
             LLONG_MIN <= Total(xs) <= LLONG_MAX && Squares(xs) <= LLONG_MAX
    ensures var f, xs := After(INITIAL, actions).f, Values(After(INITIAL, actions).recorders);
            f.n > 0 && Ssum(f.n, f.sum, f.sum2) == Deviations(xs, Total(xs) as real / |xs| as real) >= 0.0
  {
    QuietExact(actions);
    var f, xs := After(INITIAL, actions).f, Values(After(INITIAL, actions).recorders);
    SquaresPositive(xs);
    DeviationsAre(xs, Total(xs) as real / |xs| as real);
  }

  lemma {:induction false} SquaresPositive(xs: seq<int>)
    ensures Squares(xs) >= 0
    decreases |xs|
  {
    if xs != [] {
      SquaresPositive(xs[..|xs| - 1]);
      assert xs[|xs| - 1] * xs[|xs| - 1] >= 0;
    }
  }
}
