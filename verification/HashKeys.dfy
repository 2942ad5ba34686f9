/**
 The keys of framework/lib/hash.c and the words they are reduced to.

 A string is what precedes its terminating zero, as signed chars; an array key is keyLen bytes.
 int is little-endian, of four bytes.
 */
module HashKeys {
  import opened HashArith

  datatype Key =
    | Word(word: nat)          // the 64 bits of a pointer
    | Text(text: seq<int>)
    | Bytes(bytes: seq<nat>)

  datatype Kind = StringKeys | OneWordKeys | ArrayKeys(keyLen: nat)

  const SIZEOF_INT: nat := 4
  const ONE_WORD: nat := 8     // HASH_ONE_WORD_KEYS

  // InitHashTable(): the kind of table for a key length.
  function KindOf(keyLen: nat): Kind {
    if keyLen == 0 then StringKeys
    else if keyLen <= ONE_WORD then OneWordKeys
    else ArrayKeys(keyLen)
  }

  predicate IsKey(kind: Kind, key: Key) {
    match kind
    case StringKeys => key.Text? && forall i :: 0 <= i < |key.text| ==> -128 <= key.text[i] < 128 && key.text[i] != 0
    case OneWordKeys => key.Word? && key.word < W64
    case ArrayKeys(n) => key.Bytes? && |key.bytes| == n && forall i :: 0 <= i < n ==> key.bytes[i] < 256
  }

  // ---------------------------------------------------------------- strings

  // The characters as the digits of a number in base 9.
  function Base9(s: seq<int>): int {
    if s == [] then 0 else 9 * Base9(s[..|s| - 1]) + s[|s| - 1]
  }

  function Unsigned32(x: int): (r: nat)
    ensures r < W32
  {
    x % W32
  }

  function TextHash(s: seq<int>): nat {
    Unsigned32(Base9(s))
  }

  lemma ModCongruent(x: int, y: int, q: int)
    requires x == y + q * W32
    ensures x % W32 == y % W32
  {
  }

  // One character of HashString(): every operation wraps around at 32 bits.
  lemma TextStep(b: int, h: nat, c: int)
    requires h == b % W32
    ensures (h + ((h * 8) % W32 + c % W32) % W32) % W32 == (9 * b + c) % W32
  {
    var x := h + ((h * 8) % W32 + c % W32) % W32;
    var sum := (h * 8) % W32 + c % W32;
    assert b == h + W32 * (b / W32);
    assert h * 8 == (h * 8) % W32 + W32 * (h * 8 / W32);
    assert c == c % W32 + W32 * (c / W32);
    assert sum == sum % W32 + W32 * (sum / W32);
    ModCongruent(9 * b + c, x, 9 * (b / W32) + h * 8 / W32 + c / W32 + sum / W32);
  }

  // HashString()
  method HashString(s: seq<int>) returns (ret: nat)
    ensures ret == TextHash(s)
  {
    ret := 0;
    var i := 0;
    while i < |s|
      invariant i <= |s| && ret == TextHash(s[..i])
    {
      TextStep(Base9(s[..i]), ret, s[i]);
      assert s[..i + 1][..i] == s[..i];
      ret := (ret + ((ret * 8) % W32 + s[i] % W32) % W32) % W32;
      i := i + 1;
    }
    assert s[..i] == s;
  }

  // ---------------------------------------------------------------- byte arrays

  // Up to four bytes as a little-endian number.
  function Little(b: seq<nat>): nat {
    if b == [] then 0 else b[0] + 256 * Little(b[1..])
  }

  // What an int of four bytes holds, and what the bytes left over add.
  lemma LittleIs(a: nat, b: nat, c: nat, d: nat)
    ensures Little([a]) == a && Little([a, b]) == a + 0x100 * b
    ensures Little([a, b, c]) == a + 0x100 * b + 0x1_0000 * c
    ensures Little([a, b, c, d]) == a + 0x100 * b + 0x1_0000 * c + 0x100_0000 * d
  {
    assert [a][1..] == [] && [a, b][1..] == [b] && [b][1..] == [];
    assert [a, b, c][1..] == [b, c] && [b, c][1..] == [c] && [c][1..] == [];
    assert [a, b, c, d][1..] == [b, c, d] && [b, c, d][1..] == [c, d] && [c, d][1..] == [d] && [d][1..] == [];
    assert Little([c]) == c && Little([d]) == d;
    assert Little([b, c]) == b + 0x100 * c && Little([c, d]) == c + 0x100 * d;
    assert Little([b, c, d]) == b + 0x100 * Little([c, d]);
  }

  // The sum of the whole words, and of what is left over.
  function WordSum(b: seq<nat>): nat {
    if |b| < SIZEOF_INT then Little(b) else Little(b[..SIZEOF_INT]) + WordSum(b[SIZEOF_INT..])
  }

  function BytesHash(b: seq<nat>): nat {
    Unsigned32(WordSum(b))
  }

  lemma {:induction false} LittleBound(b: seq<nat>)
    requires |b| <= 4 && forall i :: 0 <= i < |b| ==> b[i] < 256
    ensures Little(b) < W32 && (|b| < 4 ==> Little(b) < 0x100_0000) && (|b| < 3 ==> Little(b) < 0x1_0000)
    ensures |b| < 2 ==> Little(b) < 0x100
    decreases |b|
  {
    if b != [] { LittleBound(b[1..]); }
  }

  lemma {:induction false} WordSumSplit(b: seq<nat>, n: nat)
    requires n * SIZEOF_INT <= |b|
    ensures WordSum(b) == WordSum(b[..n * SIZEOF_INT]) + WordSum(b[n * SIZEOF_INT..])
    decreases n
  {
    if n == 0 {
      assert b[0..] == b;
    } else {
      var m := n * SIZEOF_INT;
      var rest := b[SIZEOF_INT..];
      WordSumSplit(rest, n - 1);
      assert rest[..m - SIZEOF_INT] == b[..m][SIZEOF_INT..] && rest[m - SIZEOF_INT..] == b[m..];
      assert b[..m][..SIZEOF_INT] == b[..SIZEOF_INT];
    }
  }

  // The i-th word of a key.
  function WordAt(key: seq<nat>, i: nat): nat
    requires i * SIZEOF_INT + SIZEOF_INT <= |key|
  {
    Little(key[i * SIZEOF_INT..i * SIZEOF_INT + SIZEOF_INT])
  }

  lemma NextWord(key: seq<nat>, i: nat)
    requires i * SIZEOF_INT + SIZEOF_INT <= |key|
    ensures WordSum(key[..i * SIZEOF_INT + SIZEOF_INT]) == WordSum(key[..i * SIZEOF_INT]) + WordAt(key, i)
  {
    var m := i * SIZEOF_INT;
    var b := key[..m + SIZEOF_INT];
    WordSumSplit(b, i);
    var w := b[m..];
    assert b[..m] == key[..m] && w == key[m..m + SIZEOF_INT];
    assert w[..SIZEOF_INT] == w && w[SIZEOF_INT..] == [];
  }

  lemma SumStep(ret: nat, sum: nat, word: nat)
    requires ret == sum % W32
    ensures (ret + word) % W32 == (sum + word) % W32
  {
  }

  // HashArray(): the bytes left over first, then the words from the front.
  method HashArray(key: seq<nat>) returns (ret: nat)
    requires forall i :: 0 <= i < |key| ==> key[i] < 256
    ensures ret == BytesHash(key)
  {
    var keyIntLen, keyModLen := |key| / SIZEOF_INT, |key| % SIZEOF_INT;
    var tail := key[keyIntLen * SIZEOF_INT..];
    ret := 0;
    LittleBound(tail);
    if keyModLen > 0 {
      ret := Little(tail);
    }
    var i := 0;
    ghost var sum: nat := Little(tail);
    while i < keyIntLen
      invariant i <= keyIntLen && sum == Little(tail) + WordSum(key[..i * SIZEOF_INT]) && ret == sum % W32
    {
      NextWord(key, i);
      SumStep(ret, sum, WordAt(key, i));
      ret := (ret + WordAt(key, i)) % W32;
      sum := sum + WordAt(key, i);
      i := i + 1;
    }
    WordSumSplit(key, keyIntLen);
  }

  // ---------------------------------------------------------------- bucket indices

  // The bucket of a key, in a table of the given sizes.
  function Index(key: Key, z: Sizing): nat {
    match key
    case Word(w) => RandomIndex(w, z.downShift, z.mask)
    case Text(s) => MaskedIndex(TextHash(s), z.mask)
    case Bytes(b) => RandomIndex(BytesHash(b), z.downShift, z.mask)
  }

  lemma IndexInRange(key: Key, z: Sizing, k: nat)
    requires Sound(z, k)
    ensures Index(key, z) < z.numBuckets
  {
    match key
    case Word(w) => RandomIndexIs(w, z, k);
    case Text(s) => MaskedIndexIs(TextHash(s), z, k);
    case Bytes(b) => RandomIndexIs(BytesHash(b), z, k);
  }

  // After k rebuilds, the bucket of a pointer or an array is the product with the multiplier in 64
  // bits, less its low 28 - 2 * k bits, modulo the number of buckets; that of a string is the residue
  // of its number in base 9.
  lemma IndexIs(key: Key, z: Sizing, k: nat)
    requires Sound(z, k)
    ensures key.Word? ==> Index(key, z) == ((key.word * MULTIPLIER) % W64 / Pow2(28 - 2 * k)) % z.numBuckets
    ensures key.Bytes? ==> Index(key, z) == ((WordSum(key.bytes) % W32 * MULTIPLIER) % W64 / Pow2(28 - 2 * k)) % z.numBuckets
    ensures key.Text? ==> Index(key, z) == Base9(key.text) % W32 % z.numBuckets
  {
    match key
    case Word(w) => RandomIndexIs(w, z, k);
    case Text(s) => MaskedIndexIs(TextHash(s), z, k);
    case Bytes(b) => RandomIndexIs(BytesHash(b), z, k);
  }
}
