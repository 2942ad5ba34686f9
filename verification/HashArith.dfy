/**
 The index and size arithmetic of framework/lib/hash.c, in the widths of a 64-bit machine:
 unsigned int has 32 bits, a pointer 64.
 */
module HashArith {
  import opened Arith

  const W32: nat := 0x1_0000_0000
  const W64: nat := 0x1_0000_0000_0000_0000
  const MULTIPLIER: nat := 1103515245
  const REBUILD_MULTIPLIER: nat := 3
  const SMALL_HASH_TABLE: nat := 4
  const MAX_LEVEL: nat := 14       // rebuilds after which the arithmetic is still sound

  function Pow2(n: nat): (p: nat)
    ensures p > 0
  {
    if n == 0 then 1 else 2 * Pow2(n - 1)
  }

  // Bitwise and.
  function And(a: nat, b: nat): nat
    decreases a + b
  {
    if a == 0 || b == 0 then 0 else 2 * And(a / 2, b / 2) + (if a % 2 == 1 && b % 2 == 1 then 1 else 0)
  }

  // ---------------------------------------------------------------- division

  lemma Assoc(a: int, b: int, c: int)
    ensures a * (b * c) == a * b * c
  {
  }

  lemma Dist(a: int, b: int, c: int)
    ensures a * (b + c) == a * b + a * c
  {
  }

  // x in the mixed radix (b, a).
  lemma TwoDigits(x: nat, a: nat, b: nat)
    requires a > 0 && b > 0
    ensures var s, t, r := (x / a) / b, (x / a) % b, x % a;
            && a * b > 0 && x == (a * b) * s + (a * t + r) && 0 <= a * t + r < a * b
  {
    var q, r := x / a, x % a;
    var s, t := q / b, q % b;
    assert x == a * q + r;
    assert q == b * s + t;
    Dist(a, b * s, t);
    Assoc(a, b, s);
    Dist(a, b - 1 - t, t);
    Dist(a, b - 1, 1);
    assert a * (b - 1 - t) >= 0 && a * t >= 0;
  }

  // A residue modulo a multiple keeps the residue.
  lemma ModMod(x: nat, m: nat, k: nat)
    requires m > 0 && k > 0
    ensures m * k > 0 && (x % (m * k)) % m == x % m
  {
    TwoDigits(x, m, k);
    var s, t, r := (x / m) / k, (x / m) % k, x % m;
    DivModIs(x, m * k, s, m * t + r);
    DivModIs(m * t + r, m, t, r);
  }

  // Dividing a residue modulo a multiple by the factor.
  lemma ModDiv(x: nat, f: nat, m: nat)
    requires f > 0 && m > 0
    ensures f * m > 0 && (x % (f * m)) / f == (x / f) % m
  {
    TwoDigits(x, f, m);
    var s, t, r := (x / f) / m, (x / f) % m, x % f;
    DivModIs(x, f * m, s, f * t + r);
    DivModIs(f * t + r, f, t, r);
  }

  lemma DivDiv(x: nat, a: nat, b: nat)
    requires a > 0 && b > 0
    ensures a * b > 0 && x / (a * b) == (x / a) / b
  {
    TwoDigits(x, a, b);
    var s, t, r := (x / a) / b, (x / a) % b, x % a;
    DivModIs(x, a * b, s, a * t + r);
  }

  lemma {:induction false} Pow2Add(m: nat, n: nat)
    ensures Pow2(m + n) == Pow2(m) * Pow2(n)
  {
    if m > 0 {
      Pow2Add(m - 1, n);
      assert Pow2(m + n) == 2 * (Pow2(m - 1) * Pow2(n)) == (2 * Pow2(m - 1)) * Pow2(n);
    }
  }

  // Masking with 2^m - 1 is the residue modulo 2^m.
  lemma {:induction false} AndMask(a: nat, m: nat)
    ensures And(a, Pow2(m) - 1) == a % Pow2(m)
  {
    if m > 0 && a > 0 {
      var p := Pow2(m - 1);
      AndMask(a / 2, m - 1);
      assert (2 * p - 1) / 2 == p - 1 && (2 * p - 1) % 2 == 1;
      ModDiv(a, 2, p);
      ModMod(a, 2, p);
    } else if a == 0 {
      DivModIs(0, Pow2(m), 0, 0);
    }
  }

  // ---------------------------------------------------------------- sizes

  // The size fields of a table.
  datatype Sizing = Sizing(numBuckets: nat, rebuildSize: nat, downShift: nat, mask: nat)

  // InitHashTable()
  const INITIAL: Sizing := Sizing(SMALL_HASH_TABLE, SMALL_HASH_TABLE * REBUILD_MULTIPLIER, 28, 3)

  // RebuildTable(), in 32-bit arithmetic
  function Enlarged(z: Sizing): Sizing {
    Sizing((z.numBuckets * 4) % W32, (z.rebuildSize * 4) % W32, (z.downShift - 2) % W32, (z.mask * 4 + 3) % W32)
  }

  function After(rebuilds: nat): Sizing {
    if rebuilds == 0 then INITIAL else Enlarged(After(rebuilds - 1))
  }

  // What the rest of the code expects of the fields after so many rebuilds.
  ghost predicate Sound(z: Sizing, rebuilds: nat) {
    && rebuilds <= MAX_LEVEL
    && z.numBuckets == Pow2(2 * rebuilds + 2)
    && z.mask == z.numBuckets - 1
    && z.rebuildSize == REBUILD_MULTIPLIER * z.numBuckets < W32
    && z.downShift == 28 - 2 * rebuilds
  }

  lemma {:induction false} Pow2Grows(m: nat, n: nat)
    requires m <= n
    ensures Pow2(m) <= Pow2(n)
    decreases n - m
  {
    if m < n { Pow2Grows(m, n - 1); }
  }

  lemma Pow2Of30()
    ensures Pow2(30) == 0x4000_0000 && Pow2(32) == W32
  {
    Pow2Add(15, 15);
    Pow2Add(7, 8);
    Pow2Add(4, 4);
    Pow2Add(4, 3);
    assert Pow2(4) == 16 && Pow2(3) == 8;
    assert Pow2(32) == 4 * Pow2(30);
  }

  lemma BucketsBound(rebuilds: nat)
    requires rebuilds <= MAX_LEVEL
    ensures Pow2(2 * rebuilds + 2) <= 0x4000_0000
  {
    Pow2Grows(2 * rebuilds + 2, 30);
    Pow2Of30();
  }

  lemma Quadruple(n: nat)
    ensures Pow2(n + 2) == 4 * Pow2(n)
  {
    assert Pow2(n + 1) == 2 * Pow2(n);
  }

  lemma EnlargedSound(z: Sizing, rebuilds: nat)
    requires Sound(z, rebuilds) && rebuilds < MAX_LEVEL
    ensures Sound(Enlarged(z), rebuilds + 1)
    ensures Enlarged(z).numBuckets == 4 * z.numBuckets
  {
    BucketsBound(rebuilds + 1);
    Quadruple(2 * rebuilds + 2);
  }

  lemma InitialSound()
    ensures Sound(INITIAL, 0)
  {
    assert Pow2(2) == 4;
  }

  lemma {:induction false} SizesReached(rebuilds: nat)
    requires rebuilds <= MAX_LEVEL
    ensures Sound(After(rebuilds), rebuilds)
  {
    if rebuilds == 0 {
      InitialSound();
    } else {
      SizesReached(rebuilds - 1);
      var z := After(rebuilds - 1);
      assert After(rebuilds) == Enlarged(z);
      EnlargedIs(z, After(rebuilds), rebuilds);
    }
  }

  lemma EnlargedIs(z: Sizing, z': Sizing, rebuilds: nat)
    requires 0 < rebuilds <= MAX_LEVEL && Sound(z, rebuilds - 1) && z' == Enlarged(z)
    ensures Sound(z', rebuilds)
  {
    EnlargedSound(z, rebuilds - 1);
  }

  lemma FifteenthEmpty(z: Sizing)
    requires Sound(z, MAX_LEVEL)
    ensures Enlarged(z).numBuckets == 0
  {
    assert z.numBuckets == Pow2(30);
    Pow2Of30();
  }

  lemma {:induction false} SizesExhausted(rebuilds: nat)
    requires rebuilds > MAX_LEVEL
    ensures After(rebuilds).numBuckets == 0
  {
    if rebuilds == MAX_LEVEL + 1 {
      SizesReached(rebuilds - 1);
      FifteenthEmpty(After(rebuilds - 1));
    } else {
      SizesExhausted(rebuilds - 1);
    }
  }

  // The closed forms hold through fourteen rebuilds and no longer: the fifteenth leaves the
  // table without a bucket.
  lemma SizesSound(rebuilds: nat)
    ensures Sound(After(rebuilds), rebuilds) <==> rebuilds <= MAX_LEVEL
    ensures After(rebuilds).numBuckets == 0 <==> rebuilds > MAX_LEVEL
  {
    if rebuilds <= MAX_LEVEL { SizesReached(rebuilds); } else { SizesExhausted(rebuilds); }
  }

  // ---------------------------------------------------------------- indices

  // RANDOM_INDEX
  function RandomIndex(i: nat, downShift: nat, mask: nat): nat {
    And(((i * MULTIPLIER) % W64 / Pow2(downShift)) % W32, mask)
  }

  // HashString() or HashArray() & mask
  function MaskedIndex(hash: nat, mask: nat): nat {
    And(hash, mask)
  }

  lemma IndexMod(x: nat, m: nat)
    requires m <= 32
    ensures And(x % W32, Pow2(m) - 1) == x % Pow2(m)
  {
    AndMask(x % W32, m);
    Pow2Of30();
    Pow2Add(m, 32 - m);
    ModMod(x, Pow2(m), Pow2(32 - m));
  }

  // The index is the bits 28 - 2k to 29 of the product, and in range.
  lemma RandomIndexIs(i: nat, z: Sizing, k: nat)
    requires Sound(z, k)
    ensures RandomIndex(i, z.downShift, z.mask) == ((i * MULTIPLIER) % W64 / Pow2(28 - 2 * k)) % z.numBuckets
    ensures RandomIndex(i, z.downShift, z.mask) < z.numBuckets
  {
    IndexMod((i * MULTIPLIER) % W64 / Pow2(28 - 2 * k), 2 * k + 2);
  }

  lemma MaskedIndexIs(hash: nat, z: Sizing, k: nat)
    requires Sound(z, k) && hash < W32
    ensures MaskedIndex(hash, z.mask) == hash % z.numBuckets < z.numBuckets
  {
    AndMask(hash, 2 * k + 2);
  }

  // A rebuild splits each bucket into four: of word and array keys, the four following one
  // another; of string keys, the four that agree in the old index bits.
  lemma RebuildSplits(i: nat, z: Sizing, k: nat)
    requires Sound(z, k) && k < MAX_LEVEL
    ensures var z' := Enlarged(z);
            && RandomIndex(i, z.downShift, z.mask) == RandomIndex(i, z'.downShift, z'.mask) / 4
            && (i < W32 ==> MaskedIndex(i, z.mask) == MaskedIndex(i, z'.mask) % z.numBuckets)
  {
    var z' := Enlarged(z);
    EnlargedSound(z, k);
    assert RandomIndex(i, z.downShift, z.mask) == RandomIndex(i, z'.downShift, z'.mask) / 4 by {
      RandomIndexIs(i, z, k);
      RandomIndexIs(i, z', k + 1);
      BitsSplit((i * MULTIPLIER) % W64, 26 - 2 * k, z.numBuckets);
    }
    if i < W32 {
      MaskedIndexIs(i, z, k);
      MaskedIndexIs(i, z', k + 1);
      ModMod(i, z.numBuckets, 4);
    }
  }

  lemma BitsSplit(x: nat, shift: nat, n: nat)
    requires n > 0
    ensures (x / Pow2(shift + 2)) % n == ((x / Pow2(shift)) % (4 * n)) / 4
  {
    var p := Pow2(shift);
    assert Pow2(shift + 2) == p * 4;
    DivDiv(x, p, 4);
    ModDiv(x / p, 4, n);
  }
}
