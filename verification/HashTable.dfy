/**
 The chained hash table of framework/lib/hash.c: an array of linked chains that is rebuilt with
 four times the buckets when it gets crowded, proved against a finite map.

 Memory is never exhausted.
 */
module HashTable {
  import opened HashArith
  import opened HashKeys

  // What is said of a table: the rebuilds so far, the entries of each bucket in the order of their
  // links, the entry of each key, all the entries, and the map that the table stands for.
  datatype Model<V> = Model(
    rebuilds: nat,
    chains: seq<seq<HashEntry<V>>>,
    nodeOf: map<Key, HashEntry<V>>,
    repr: set<HashEntry<V>>,
    contents: map<Key, V>) {

    // No value is written.
    twostate lemma ValuesKept()
      requires old(Agrees(contents, nodeOf, repr)) && forall e :: e in repr ==> e.value == old(e.value)
      ensures Agrees(contents, nodeOf, repr)
    {
    }

    // One value is written.
    twostate lemma ValueSet(e: HashEntry<V>)
      requires old(Agrees(contents, nodeOf, repr)) && e in repr && e.key in nodeOf && nodeOf[e.key] == e
      requires forall k :: k in nodeOf ==> nodeOf[k].key == k
      requires forall x :: x in repr && x != e ==> x.value == old(x.value)
      ensures Agrees(contents[e.key := e.value], nodeOf, repr)
    {
    }
  }

  class HashEntry<V> {
    const key: Key
    var next: HashEntry?<V>      // nextPtr
    var bucket: nat              // bucketPtr, as an index
    var value: V                 // clientData

    constructor (key: Key, next: HashEntry?<V>, bucket: nat, value: V)
      ensures this.key == key && this.next == next && this.bucket == bucket && this.value == value
    {
      this.key, this.next, this.bucket, this.value := key, next, bucket, value;
    }
  }

  // c is the chain that begins with head.
  ghost predicate Linked<V>(head: HashEntry?<V>, c: seq<HashEntry<V>>)
    reads c
  {
    && head == (if c == [] then null else c[0])
    && (c != [] ==> c[|c| - 1].next == null)
    && forall i, j :: 0 <= i < j == i + 1 < |c| ==> c[i].next == c[j]
  }

  // c is a chain of the bucket b: every entry belongs there, and none occurs twice.
  ghost predicate ChainOk<V>(c: seq<HashEntry<V>>, b: nat, z: Sizing)
    reads c
  {
    && (forall i :: 0 <= i < |c| ==> c[i].bucket == b && Index(c[i].key, z) == b)
    && (forall i, j :: 0 <= i < j < |c| ==> c[i] != c[j])
  }

  // repr is the set of the entries, each the one of its key.
  ghost predicate KnownAs<V>(kind: Kind, nodeOf: map<Key, HashEntry<V>>, repr: set<HashEntry<V>>) {
    && (forall k :: k in nodeOf ==> nodeOf[k] in repr && nodeOf[k].key == k && IsKey(kind, k))
    && (forall e :: e in repr ==> e.key in nodeOf && nodeOf[e.key] == e)
  }

  // The chains consist of entries in repr.
  ghost predicate InChains<V>(chains: seq<seq<HashEntry<V>>>, repr: set<HashEntry<V>>) {
    forall b, e :: 0 <= b < |chains| && e in chains[b] ==> e in repr
  }

  // The bucket b of an array of buckets holds its chain.
  ghost predicate Holds<V>(buckets: array<HashEntry?<V>>, chains: seq<seq<HashEntry<V>>>, b: nat, z: Sizing)
    requires b < |chains| == buckets.Length
    reads buckets, chains[b]
  {
    Linked(buckets[b], chains[b]) && ChainOk(chains[b], b, z)
  }

  lemma FrontLinked<V>(head: HashEntry?<V>, c: seq<HashEntry<V>>, e: HashEntry<V>)
    requires Linked(head, c) && e.next == head
    ensures Linked(e, [e] + c)
  {
    var d := [e] + c;
    forall i, j | 0 <= i < j == i + 1 < |d| ensures d[i].next == d[j] {
      assert d[j] == c[i];
      if i > 0 { assert d[i] == c[i - 1]; }
    }
  }

  lemma FrontOk<V>(c: seq<HashEntry<V>>, e: HashEntry<V>, b: nat, z: Sizing)
    requires ChainOk(c, b, z) && e !in c && e.bucket == b && Index(e.key, z) == b
    ensures ChainOk([e] + c, b, z)
  {
  }

  ghost predicate Distinct<V>(c: seq<HashEntry<V>>) {
    forall i, j :: 0 <= i < j < |c| ==> c[i] != c[j]
  }

  // A chain and its bucket: what writing to entries leaves of it.
  datatype Chain<V> = Chain(head: HashEntry?<V>, links: seq<HashEntry<V>>, bucket: nat, z: Sizing) {

    // Nothing is written.
    twostate lemma Kept()
      requires old(Linked(head, links)) && old(ChainOk(links, bucket, z))
      requires forall i :: 0 <= i < |links| ==>
                 links[i].next == old(links[i].next) && links[i].bucket == old(links[i].bucket)
      ensures Linked(head, links)
      ensures ChainOk(links, bucket, z)
    {
    }

    twostate lemma LinksKept()
      requires old(Linked(head, links)) && forall i :: 0 <= i < |links| ==> links[i].next == old(links[i].next)
      ensures Linked(head, links)
    {
    }

    // Its first entry has left; head is the second.
    twostate lemma TailLinked()
      requires links != [] && old(Linked(links[0], links)) && head == old(links[0].next)
      requires forall i :: 1 <= i < |links| ==> links[i].next == old(links[i].next)
      ensures Linked(head, links[1..])
    {
      var c, d := links, links[1..];
      if |c| > 1 { assert head == c[1]; }
      forall i, j | 0 <= i < j == i + 1 < |d| ensures d[i].next == d[j] {
        assert d[i] == c[i + 1] && d[j] == c[j + 1];
      }
    }

    // The links skip the k-th entry.
    twostate lemma MiddleLinked(k: nat)
      requires 0 < k < |links| && old(Linked(head, links)) && links[k - 1].next == old(links[k].next)
      requires forall i :: 0 <= i < |links| && i != k - 1 ==> links[i].next == old(links[i].next)
      ensures Linked(head, Without(links, k))
    {
      var c, d := links, Without(links, k);
      forall i, j | 0 <= i < j == i + 1 < |d| ensures d[i].next == d[j] {
        assert d[i] == c[if i < k then i else i + 1] && d[j] == c[if j < k then j else j + 1];
        if i == k - 1 { assert old(c[k].next) == c[k + 1]; }
      }
      if k == |c| - 1 { assert d[|d| - 1] == c[k - 1]; } else { assert d[|d| - 1] == c[|c| - 1]; }
    }

    twostate lemma WithoutOk(k: nat)
      requires k < |links| && old(ChainOk(links, bucket, z))
      requires forall i :: 0 <= i < |links| ==> links[i].bucket == old(links[i].bucket)
      ensures ChainOk(Without(links, k), bucket, z)
    {
      WithoutMembers(links, k);
      var d := Without(links, k);
      forall i | 0 <= i < |d| ensures d[i].bucket == bucket && Index(d[i].key, z) == bucket {
        assert d[i] == links[if i < k then i else i + 1];
      }
    }

    // Only entries of the chain of another bucket are written.
    twostate lemma ForeignKept(other: Chain<V>)
      requires old(Linked(head, links)) && old(ChainOk(links, bucket, z))
      requires bucket != other.bucket && old(ChainOk(other.links, other.bucket, other.z))
      requires forall i :: 0 <= i < |links| ==>
                 links[i].bucket == old(links[i].bucket) && (links[i] !in other.links ==> links[i].next == old(links[i].next))
      ensures Linked(head, links)
      ensures ChainOk(links, bucket, z)
    {
      forall i, j | 0 <= i < |links| && 0 <= j < |other.links| ensures links[i] != other.links[j] {
        assert old(links[i].bucket) == bucket && old(other.links[j].bucket) == other.bucket;
      }
      Kept();
    }
  }

  ghost predicate AllHold<V>(buckets: array<HashEntry?<V>>, chains: seq<seq<HashEntry<V>>>, z: Sizing,
                             repr: set<HashEntry<V>>)
    requires InChains(chains, repr)
    reads buckets, repr
  {
    |chains| == buckets.Length && forall b :: 0 <= b < |chains| ==> Holds(buckets, chains, b, z)
  }

  // An entry is in the chain of its bucket.
  ghost predicate InBucket<V>(e: HashEntry<V>, chains: seq<seq<HashEntry<V>>>)
    reads e
  {
    e.bucket < |chains| && e in chains[e.bucket]
  }

  ghost predicate AllInBuckets<V>(chains: seq<seq<HashEntry<V>>>, repr: set<HashEntry<V>>)
    reads repr
  {
    forall e :: e in repr ==> InBucket(e, chains)
  }

  // contents is what the entries say.
  ghost predicate Agrees<V>(contents: map<Key, V>, nodeOf: map<Key, HashEntry<V>>, repr: set<HashEntry<V>>)
    reads repr
  {
    && contents.Keys == nodeOf.Keys
    && forall k :: k in nodeOf ==> nodeOf[k] in repr && contents[k] == nodeOf[k].value
  }

  lemma UpdateTwice<K, V>(m: map<K, V>, k: K, v: V, w: V)
    ensures m[k := v][k := w] == m[k := w]
  {
  }

  lemma AgreesMore<V>(contents: map<Key, V>, nodeOf: map<Key, HashEntry<V>>, repr: set<HashEntry<V>>, e: HashEntry<V>)
    requires Agrees(contents, nodeOf, repr) && e.key !in nodeOf
    ensures Agrees(contents[e.key := e.value], nodeOf[e.key := e], repr + {e})
  {
  }

  lemma AgreesLess<V>(kind: Kind, contents: map<Key, V>, nodeOf: map<Key, HashEntry<V>>, repr: set<HashEntry<V>>,
                      e: HashEntry<V>)
    requires Agrees(contents, nodeOf, repr) && KnownAs(kind, nodeOf, repr) && e in repr
    ensures Agrees(contents - {e.key}, nodeOf - {e.key}, repr - {e})
  {
  }

  // The fields of a table are consistent.
  ghost predicate OkAs<V>(kind: Kind, buckets: array<HashEntry?<V>>, z: Sizing, rebuilds: nat, numEntries: nat,
                          chains: seq<seq<HashEntry<V>>>, nodeOf: map<Key, HashEntry<V>>, repr: set<HashEntry<V>>)
    reads buckets, repr
  {
    && KnownAs(kind, nodeOf, repr) && InChains(chains, repr)
    && Sound(z, rebuilds) && buckets.Length == |chains| == z.numBuckets
    && AllHold(buckets, chains, z, repr) && AllInBuckets(chains, repr)
    && numEntries == |nodeOf|
  }

  ghost predicate Fits<V>(kind: Kind, buckets: array<HashEntry?<V>>, z: Sizing, numEntries: nat, g: Model<V>)
    reads buckets, g.repr
  {
    && OkAs(kind, buckets, z, g.rebuilds, numEntries, g.chains, g.nodeOf, g.repr)
    && Agrees(g.contents, g.nodeOf, g.repr)
  }

  // An entry becomes the first of the bucket idx.
  method PushFront<V>(buckets: array<HashEntry?<V>>, ghost chains: seq<seq<HashEntry<V>>>, e: HashEntry<V>, idx: nat,
                      ghost z: Sizing, ghost repr: set<HashEntry<V>>)
    returns (ghost chains': seq<seq<HashEntry<V>>>)
    requires InChains(chains, repr) && AllHold(buckets, chains, z, repr) && e !in repr
    requires idx < |chains| && idx == Index(e.key, z)
    modifies buckets, e`next, e`bucket
    ensures e.bucket == idx && chains' == chains[idx := [e] + chains[idx]]
    ensures InChains(chains', repr + {e}) && AllHold(buckets, chains', z, repr + {e})
  {
    e.bucket := idx;
    e.next := buckets[idx];
    buckets[idx] := e;
    chains' := chains[idx := [e] + chains[idx]];
    Buckets(buckets, chains, z, repr).PushedOk(e);
  }

  // An array of buckets and the entries in it: what writing to them leaves of it.
  datatype Buckets<V> = Buckets(slots: array<HashEntry?<V>>, chains: seq<seq<HashEntry<V>>>, z: Sizing,
                                repr: set<HashEntry<V>>) {

    // No entry is written; b's chain stays linked from what its slot held.
    twostate lemma ChainKept(b: nat)
      requires InChains(chains, repr) && old(AllHold(slots, chains, z, repr)) && b < |chains|
      requires forall x :: x in repr ==> x.next == old(x.next) && x.bucket == old(x.bucket)
      ensures Linked(old(slots[b]), chains[b])
      ensures ChainOk(chains[b], b, z)
    {
      assert old(Holds(slots, chains, b, z));
      forall i | 0 <= i < |chains[b]| ensures chains[b][i] in repr { assert chains[b][i] in chains[b]; }
      Chain(old(slots[b]), chains[b], b, z).Kept();
    }

    // The new entry e is put in front of its bucket.
    twostate lemma PushedOk(e: HashEntry<V>)
      requires InChains(chains, repr) && old(AllHold(slots, chains, z, repr)) && e !in repr
      requires e.bucket < |chains| && e.bucket == Index(e.key, z) && slots[e.bucket] == e
      requires forall b :: 0 <= b < |chains| ==> old(slots[b]) == if b == e.bucket then e.next else slots[b]
      requires forall x :: x in repr ==> x.next == old(x.next) && x.bucket == old(x.bucket)
      ensures InChains(chains[e.bucket := [e] + chains[e.bucket]], repr + {e})
      ensures AllHold(slots, chains[e.bucket := [e] + chains[e.bucket]], z, repr + {e})
    {
      var idx := e.bucket;
      var chains' := chains[idx := [e] + chains[idx]];
      FrontInChains(chains, repr, e);
      forall b | 0 <= b < |chains| ensures Holds(slots, chains', b, z) {
        ChainKept(b);
        if b == idx {
          FrontLinked(e.next, chains[idx], e);
          FrontOk(chains[idx], e, idx, z);
        }
      }
    }

    // Only entries of the bucket pair.1 are written: the bucket pair.0 stays.
    twostate lemma OtherKept(pair: (nat, nat))
      requires InChains(chains, repr) && old(AllHold(slots, chains, z, repr))
      requires pair.0 < |chains| && pair.1 < |chains| && pair.0 != pair.1 && slots[pair.0] == old(slots[pair.0])
      requires forall x :: x in repr ==> x.bucket == old(x.bucket)
      requires forall x :: x in repr && x !in chains[pair.1] ==> x.next == old(x.next)
      ensures Holds(slots, chains, pair.0, z)
    {
      var (b, w) := pair;
      assert old(Holds(slots, chains, b, z));
      assert old(Holds(slots, chains, w, z));
      var c, d := chains[b], chains[w];
      forall i | 0 <= i < |c|
        ensures c[i].bucket == old(c[i].bucket) && (c[i] !in d ==> c[i].next == old(c[i].next))
      {
        assert c[i] in chains[b];
      }
      Chain(slots[b], c, b, z).ForeignKept(Chain(slots[b], d, w, z));
    }

    // The entry at u leaves its chain: all others are in theirs.
    twostate lemma UnlinkedIn(u: Place<V>)
      requires InChains(chains, repr) && old(AllHold(slots, chains, z, repr)) && old(AllInBuckets(chains, repr))
      requires u.In(chains) && u.e in repr && Distinct(chains[u.e.bucket])
      requires forall x :: x in repr ==> x.bucket == old(x.bucket)
      ensures InChains(u.Left(chains), repr - {u.e})
      ensures AllInBuckets(u.Left(chains), repr - {u.e})
    {
      forall b, x | 0 <= b < |chains| && x in chains[b] ensures x.bucket == b { assert old(Holds(slots, chains, b, z)); }
      forall x | x in repr ensures InBucket(x, chains) { assert old(InBucket(x, chains)); }
      UnlinkedMembers(chains, repr, u.e, u.k);
    }
  }

  // ---------------------------------------------------------------- rebuilding

  // What is left in the old buckets: each entry in the chain it was in at first, and in no other.
  ghost predicate LeftOk<V>(old': array<HashEntry?<V>>, chains: seq<seq<HashEntry<V>>>, left: set<HashEntry<V>>,
                            home: map<HashEntry<V>, nat>)
    reads old', left
  {
    && |chains| == old'.Length && InChains(chains, left)
    && (forall b :: 0 <= b < |chains| ==> Linked(old'[b], chains[b]) && Distinct(chains[b]))
    && (forall b, e :: 0 <= b < |chains| && e in chains[b] ==> e in home && home[e] == b)
    && (forall e :: e in left ==> e in home && home[e] < |chains| && e in chains[home[e]])
  }

  // What has arrived in the new buckets.
  ghost predicate MovedOk<V>(buckets: array<HashEntry?<V>>, chains: seq<seq<HashEntry<V>>>, z: Sizing,
                             moved: set<HashEntry<V>>)
    reads buckets, moved
  {
    InChains(chains, moved) && AllHold(buckets, chains, z, moved) && AllInBuckets(chains, moved)
  }

  // The first entry of the old bucket o moves to its new bucket.
  method MoveHead<V>(old': array<HashEntry?<V>>, o: nat, buckets: array<HashEntry?<V>>, z: Sizing, ghost rebuilds: nat,
                     ghost chains: seq<seq<HashEntry<V>>>, ghost left: set<HashEntry<V>>,
                     ghost home: map<HashEntry<V>, nat>,
                     ghost chains': seq<seq<HashEntry<V>>>, ghost moved: set<HashEntry<V>>)
    returns (ghost e: HashEntry<V>, ghost chains'': seq<seq<HashEntry<V>>>)
    requires old' != buckets && o < old'.Length && Sound(z, rebuilds) && buckets.Length == z.numBuckets
    requires LeftOk(old', chains, left, home) && chains[o] != []
    requires MovedOk(buckets, chains', z, moved) && left !! moved
    modifies old', buckets, left`next, left`bucket
    ensures e == chains[o][0] && e in left
    ensures LeftOk(old', chains[o := chains[o][1..]], left - {e}, home)
    ensures MovedOk(buckets, chains'', z, moved + {e})
  {
    var h := old'[o];
    e := h;
    assert Linked(old'[o], chains[o]);
    old'[o] := h.next;
    IndexInRange(h.key, z, rebuilds);
    chains'' := PushFront(buckets, chains', h, Index(h.key, z), z, moved);
    Remains(old', chains, left, home).Popped(o);
    FrontInBuckets(chains', moved, h);
  }

  datatype Remains<V> = Remains(slots: array<HashEntry?<V>>, chains: seq<seq<HashEntry<V>>>, left: set<HashEntry<V>>,
                                home: map<HashEntry<V>, nat>) {

    // The first entry of the bucket o is taken away, and written.
    twostate lemma Popped(o: nat)
      requires o < slots.Length && old(LeftOk(slots, chains, left, home)) && chains[o] != []
      requires slots[o] == old(chains[o][0].next)
      requires forall b :: 0 <= b < slots.Length && b != o ==> slots[b] == old(slots[b])
      requires forall x :: x in left && x != chains[o][0] ==> x.next == old(x.next)
      ensures LeftOk(slots, chains[o := chains[o][1..]], left - {chains[o][0]}, home)
    {
      var c, h := chains[o], chains[o][0];
      var c' := c[1..];
      forall x ensures x in c' <==> x in c && x != h { InTail(c, x); }
      forall i | 1 <= i < |c| ensures c[i].next == old(c[i].next) { assert c[i] in c' && c[i] in left; }
      Chain(slots[o], c, o, INITIAL).TailLinked();
      forall b | 0 <= b < |chains| && b != o ensures Linked(slots[b], chains[b]) { OthersKept((b, o)); }
      LeftShrinks(chains, left, home, o);
    }

    // Only the first entry of the bucket pair.1 is written: the bucket pair.0 stays.
    twostate lemma OthersKept(pair: (nat, nat))
      requires pair.1 < slots.Length && old(LeftOk(slots, chains, left, home)) && chains[pair.1] != []
      requires forall x :: x in left && x != chains[pair.1][0] ==> x.next == old(x.next)
      requires pair.0 < |chains| && pair.0 != pair.1 && slots[pair.0] == old(slots[pair.0])
      ensures Linked(slots[pair.0], chains[pair.0])
    {
      var (b, o) := pair;
      var h := chains[o][0];
      forall i | 0 <= i < |chains[b]| ensures chains[b][i].next == old(chains[b][i].next) {
        var x := chains[b][i];
        assert x in chains[b] && h in chains[o];
        assert x in left && home[x] == b && home[h] == o;
      }
      Chain(slots[b], chains[b], b, INITIAL).LinksKept();
    }
  }

  lemma LeftShrinks<V>(chains: seq<seq<HashEntry<V>>>, left: set<HashEntry<V>>, home: map<HashEntry<V>, nat>, o: nat)
    requires o < |chains| && chains[o] != [] && Distinct(chains[o]) && InChains(chains, left)
    requires forall b, e :: 0 <= b < |chains| && e in chains[b] ==> e in home && home[e] == b
    requires forall e :: e in left ==> e in home && home[e] < |chains| && e in chains[home[e]]
    ensures var h, chains' := chains[o][0], chains[o := chains[o][1..]];
            var left' := left - {h};
            && InChains(chains', left') && Distinct(chains'[o])
            && (forall b, e :: 0 <= b < |chains'| && e in chains'[b] ==> e in home && home[e] == b)
            && (forall e :: e in left' ==> e in home && home[e] < |chains'| && e in chains'[home[e]])
  {
    var h, chains' := chains[o][0], chains[o := chains[o][1..]];
    assert h in chains[o];
    forall x ensures x in chains'[o] <==> x in chains[o] && x != h { InTail(chains[o], x); }
    forall b, e | 0 <= b < |chains'| && e in chains'[b] ensures e in left - {h} && home[e] == b {
      assert e in chains[b] && home[h] == o;
    }
  }

  lemma InTail<V>(c: seq<HashEntry<V>>, x: HashEntry<V>)
    requires c != [] && Distinct(c)
    ensures x in c[1..] <==> x in c && x != c[0]
  {
    if x in c && x != c[0] {
      var i :| 0 <= i < |c| && c[i] == x;
      assert c[1..][i - 1] == x;
    }
  }

  // RebuildTable(), one old bucket
  method MoveChain<V>(old': array<HashEntry?<V>>, o: nat, buckets: array<HashEntry?<V>>, z: Sizing, ghost rebuilds: nat,
                      ghost chains: seq<seq<HashEntry<V>>>, ghost left: set<HashEntry<V>>,
                      ghost home: map<HashEntry<V>, nat>,
                      ghost chains': seq<seq<HashEntry<V>>>, ghost moved: set<HashEntry<V>>)
    returns (ghost left': set<HashEntry<V>>, ghost chains'': seq<seq<HashEntry<V>>>, ghost moved': set<HashEntry<V>>)
    requires old' != buckets && o < old'.Length && Sound(z, rebuilds) && buckets.Length == z.numBuckets
    requires LeftOk(old', chains, left, home) && MovedOk(buckets, chains', z, moved) && left !! moved
    modifies old', buckets, left`next, left`bucket
    ensures LeftOk(old', chains[o := []], left', home) && MovedOk(buckets, chains'', z, moved')
    ensures left' !! moved' && left' + moved' == left + moved && left' <= left
  {
    left', chains'', moved' := left, chains', moved;
    ghost var c := chains[o];
    assert chains[o := c] == chains;
    while old'[o] != null
      invariant LeftOk(old', chains[o := c], left', home) && MovedOk(buckets, chains'', z, moved')
      invariant left' !! moved' && left' + moved' == left + moved && left' <= left
      decreases |c|
    {
      assert Linked(old'[o], chains[o := c][o]);
      ghost var e;
      e, chains'' := MoveHead(old', o, buckets, z, rebuilds, chains[o := c], left', home, chains'', moved');
      assert chains[o := c][o := c[1..]] == chains[o := c[1..]];
      left', moved', c := left' - {e}, moved' + {e}, c[1..];
    }
    assert Linked(old'[o], chains[o := c][o]);
  }

  // RebuildTable(), moving all entries from the old buckets to the new ones
  method Rehash<V>(old': array<HashEntry?<V>>, buckets: array<HashEntry?<V>>, z: Sizing, ghost rebuilds: nat,
                   ghost chains: seq<seq<HashEntry<V>>>, ghost repr: set<HashEntry<V>>,
                   ghost home: map<HashEntry<V>, nat>)
    returns (ghost chains': seq<seq<HashEntry<V>>>)
    requires old' != buckets && Sound(z, rebuilds) && buckets.Length == z.numBuckets
    requires LeftOk(old', chains, repr, home) && forall b :: 0 <= b < buckets.Length ==> buckets[b] == null
    modifies old', buckets, repr`next, repr`bucket
    ensures |chains'| == buckets.Length && MovedOk(buckets, chains', z, repr)
  {
    ghost var left, moved := repr, {};
    ghost var rest := chains;
    chains' := seq(buckets.Length, i => []);
    var o := 0;
    while o < old'.Length
      invariant o <= old'.Length && LeftOk(old', rest, left, home) && MovedOk(buckets, chains', z, moved)
      invariant left !! moved && left + moved == repr
      invariant forall b :: 0 <= b < o ==> rest[b] == []
    {
      left, chains', moved := MoveChain(old', o, buckets, z, rebuilds, rest, left, home, chains', moved);
      rest := rest[o := []];
      o := o + 1;
    }
    NothingLeft(rest, left, home);
    assert moved == repr;
  }

  lemma NothingLeft<V>(chains: seq<seq<HashEntry<V>>>, left: set<HashEntry<V>>, home: map<HashEntry<V>, nat>)
    requires forall b :: 0 <= b < |chains| ==> chains[b] == []
    requires forall e :: e in left ==> e in home && home[e] < |chains| && e in chains[home[e]]
    ensures left == {}
  {
  }

  // RebuildTable(), on the buckets
  method Rebuilt<V>(ghost kind: Kind, old': array<HashEntry?<V>>, z': Sizing, ghost z: Sizing, ghost rebuilds: nat,
                    ghost n: nat, ghost chains: seq<seq<HashEntry<V>>>, ghost nodeOf: map<Key, HashEntry<V>>,
                    ghost repr: set<HashEntry<V>>)
    returns (buckets: array<HashEntry?<V>>, ghost chains': seq<seq<HashEntry<V>>>)
    requires OkAs(kind, old', z, rebuilds, n, chains, nodeOf, repr) && rebuilds < MAX_LEVEL && z' == Enlarged(z)
    modifies old', repr`next, repr`bucket
    ensures fresh(buckets) && OkAs(kind, buckets, z', rebuilds + 1, n, chains', nodeOf, repr)
  {
    EnlargedSound(z, rebuilds);
    ghost var home := map e | e in repr :: e.bucket;
    AllLeft(old', chains, z, repr, home);
    buckets := new HashEntry?<V>[z'.numBuckets](_ => null);
    chains' := Rehash(old', buckets, z', rebuilds + 1, chains, repr, home);
  }

  // The search of one bucket.
  method SearchChain<V>(head: HashEntry?<V>, key: Key, ghost c: seq<HashEntry<V>>) returns (r: HashEntry?<V>)
    requires Linked(head, c)
    ensures r == null ==> forall e :: e in c ==> e.key != key
    ensures r != null ==> r in c && r.key == key
  {
    r := head;
    ghost var i := 0;
    while r != null && r.key != key
      invariant i <= |c| && r == if i < |c| then c[i] else null
      invariant forall j :: 0 <= j < i ==> c[j].key != key
      decreases |c| - i
    {
      r := r.next;
      i := i + 1;
    }
  }

  class HashTable<V> {
    const kind: Kind
    const zero: V                           // the value of a new entry
    var buckets: array<HashEntry?<V>>
    var sizes: Sizing                       // numBuckets, rebuildSize, downShift, mask
    var numEntries: nat
    var isLive: bool                        // findProc and createProc are set
    ghost var g: Model<V>

    ghost predicate Ok()
      reads this, buckets, g.repr
    {
      isLive && Fits(kind, buckets, sizes, numEntries, g)
    }

    // The table is not due for a rebuild.
    ghost predicate Valid()
      reads this, buckets, g.repr
    {
      Ok() && numEntries < sizes.rebuildSize
    }

    // InitHashTable()
    constructor (keyLen: nat, zero: V)
      ensures Valid() && g.contents == map[] && fresh(buckets) && g.repr == {} && kind == KindOf(keyLen)
      ensures numEntries == 0
      ensures this.zero == zero
    {
      kind, this.zero := KindOf(keyLen), zero;
      buckets := new HashEntry?<V>[SMALL_HASH_TABLE](_ => null);
      sizes, numEntries, isLive := INITIAL, 0, true;
      g := Model(0, seq(SMALL_HASH_TABLE, i => []), map[], {}, map[]);
      InitialSound();
    }

    // The record of a table being zeroed, after DeleteHashTable().
    method Zero()
      modifies this`isLive, this`numEntries
      ensures !isLive && numEntries == 0
    {
      isLive, numEntries := false, 0;
    }

    // ---------------------------------------------------------------- find

    // FindHashEntry(): OneWordFind(), StringFind() and ArrayFind()
    method Find(key: Key) returns (r: HashEntry?<V>)
      requires Valid() && IsKey(kind, key)
      ensures r == if key in g.nodeOf then g.nodeOf[key] else null
      ensures r != null <==> key in g.contents
      ensures r != null ==> r in g.repr && r.key == key && r.value == g.contents[key]
    {
      IndexInRange(key, sizes, g.rebuilds);
      var idx := Index(key, sizes);
      assert Holds(buckets, g.chains, idx, sizes);
      r := SearchChain(buckets[idx], key, g.chains[idx]);
      FoundInChain(key, idx);
    }

    // A key of the table is found in its own chain, and nowhere else.
    lemma FoundInChain(key: Key, idx: nat)
      requires Ok() && idx == Index(key, sizes) && idx < |g.chains|
      ensures key in g.nodeOf ==> g.nodeOf[key] in g.chains[idx]
      ensures forall e :: e in g.chains[idx] && e.key == key ==> key in g.nodeOf && g.nodeOf[key] == e
    {
      if key in g.nodeOf {
        var e := g.nodeOf[key];
        assert InBucket(e, g.chains) && Holds(buckets, g.chains, e.bucket, sizes);
        var i :| 0 <= i < |g.chains[e.bucket]| && g.chains[e.bucket][i] == e;
      }
    }

    // ---------------------------------------------------------------- create

    // A new entry at the front of its bucket.
    method AddEntry(key: Key) returns (e: HashEntry<V>)
      requires Valid() && IsKey(kind, key) && key !in g.nodeOf
      modifies this`g, this`numEntries, buckets
      ensures Ok()
      ensures fresh(e) && g.nodeOf == old(g.nodeOf)[key := e] && g.repr == old(g.repr) + {e}
      ensures g.contents == old(g.contents)[key := zero] && numEntries == old(numEntries) + 1
    {
      ghost var chains';
      e, chains' := PushNew(key);
      Adopt(numEntries + 1, Model(g.rebuilds, chains', g.nodeOf[key := e], g.repr + {e}, g.contents[key := zero]));
    }

    method PushNew(key: Key) returns (e: HashEntry<V>, ghost chains': seq<seq<HashEntry<V>>>)
      requires Ok() && IsKey(kind, key) && key !in g.nodeOf
      modifies buckets
      ensures fresh(e)
      ensures Fits(kind, buckets, sizes, numEntries + 1,
                   Model(g.rebuilds, chains', g.nodeOf[key := e], g.repr + {e}, g.contents[key := zero]))
    {
      IndexInRange(key, sizes, g.rebuilds);
      var idx := Index(key, sizes);
      e := new HashEntry(key, null, 0, zero);
      chains' := PushFront(buckets, g.chains, e, idx, sizes, g.repr);
      AddedOk(kind, buckets, sizes, g.rebuilds, numEntries, g.chains, g.nodeOf, g.repr, e, chains');
      AgreesMore(g.contents, g.nodeOf, g.repr, e);
    }

    method Adopt(n: nat, ghost g': Model<V>)
      requires isLive && Fits(kind, buckets, sizes, n, g')
      modifies this`g, this`numEntries
      ensures Ok() && numEntries == n && g == g'
    {
      g, numEntries := g', n;
    }

    // RebuildTable()
    method Rebuild()
      requires Ok() && g.rebuilds < MAX_LEVEL
      modifies this`buckets, this`sizes, this`g, buckets, g.repr`next, g.repr`bucket
      ensures Ok() && sizes == Enlarged(old(sizes)) && fresh(buckets)
      ensures g == old(g).(rebuilds := old(g.rebuilds) + 1, chains := g.chains)
    {
      var z := Enlarged(sizes);
      var newBuckets, chains' := Rebuilt(kind, buckets, z, sizes, g.rebuilds, numEntries, g.chains, g.nodeOf, g.repr);
      g.ValuesKept();
      Install(newBuckets, z, g.(rebuilds := g.rebuilds + 1, chains := chains'));
    }

    method Install(newBuckets: array<HashEntry?<V>>, z: Sizing, ghost g': Model<V>)
      requires isLive && Fits(kind, newBuckets, z, numEntries, g')
      modifies this`buckets, this`sizes, this`g
      ensures Ok() && buckets == newBuckets && sizes == z && g == g'
    {
      buckets, sizes, g := newBuckets, z, g';
    }

    // CreateHashEntry(): OneWordCreate(), StringCreate() and ArrayCreate().  The table is rebuilt
    // when it gets crowded, at most fourteen times.
    method Create(key: Key) returns (e: HashEntry<V>, isNew: bool)
      requires Valid() && IsKey(kind, key) && numEntries + 1 < REBUILD_MULTIPLIER * 0x4000_0000
      modifies this, buckets, g.repr`next, g.repr`bucket
      ensures Valid() && (fresh(buckets) || buckets == old(buckets))
      ensures (isNew <==> key !in old(g.contents)) && (isNew ==> fresh(e))
      ensures g.repr == old(g.repr) + {e} && key in g.nodeOf && e == g.nodeOf[key]
      ensures g.contents == if isNew then old(g.contents)[key := zero] else old(g.contents)
      ensures numEntries == if isNew then old(numEntries) + 1 else old(numEntries)
    {
      var r := Find(key);
      isNew := r == null;
      if r != null {
        e := r;
      } else {
        e := CreateNew(key);
      }
    }

    method CreateNew(key: Key) returns (e: HashEntry<V>)
      requires Valid() && IsKey(kind, key) && key !in g.nodeOf
      requires numEntries + 1 < REBUILD_MULTIPLIER * 0x4000_0000
      modifies this, buckets, g.repr`next, g.repr`bucket
      ensures Valid() && fresh(e) && (fresh(buckets) || buckets == old(buckets))
      ensures g.nodeOf == old(g.nodeOf)[key := e] && g.repr == old(g.repr) + {e}
      ensures g.contents == old(g.contents)[key := zero] && numEntries == old(numEntries) + 1
    {
      e := AddEntry(key);
      RebuildIfCrowded();
    }

    method RebuildIfCrowded()
      requires Ok()
      requires numEntries <= sizes.rebuildSize && numEntries < REBUILD_MULTIPLIER * 0x4000_0000
      modifies this`buckets, this`sizes, this`g, buckets, g.repr`next, g.repr`bucket
      ensures g == old(g).(rebuilds := g.rebuilds, chains := g.chains)
      ensures Valid() && (fresh(buckets) || buckets == old(buckets))
    {
      if numEntries >= sizes.rebuildSize {
        RoomToGrow(sizes, g.rebuilds, numEntries);
        Rebuild();
      }
    }

    // CreateHashEntry() and SetHashValue() for a new key
    method Insert(key: Key, value: V)
      requires Valid() && IsKey(kind, key) && key !in g.contents
      requires numEntries + 1 < REBUILD_MULTIPLIER * 0x4000_0000
      modifies this, buckets, g.repr`next, g.repr`bucket
      ensures Valid() && (fresh(buckets) || buckets == old(buckets))
      ensures g.contents == old(g.contents)[key := value] && numEntries == old(numEntries) + 1
    {
      var e := CreateFor(key);
      UpdateTwice(old(g.contents), key, zero, value);
      SetValue(e, value);
    }

    // CreateHashEntry() for a new key
    method CreateFor(key: Key) returns (e: HashEntry<V>)
      requires Valid() && IsKey(kind, key) && key !in g.contents
      requires numEntries + 1 < REBUILD_MULTIPLIER * 0x4000_0000
      modifies this, buckets, g.repr`next, g.repr`bucket
      ensures Valid() && (fresh(buckets) || buckets == old(buckets))
      ensures fresh(e) && e in g.repr && e.key == key
      ensures g.contents == old(g.contents)[key := zero] && numEntries == old(numEntries) + 1
    {
      var isNew;
      e, isNew := Create(key);
    }

    // SetHashValue()
    method SetValue(e: HashEntry<V>, value: V)
      requires Valid() && e in g.repr
      modifies e`value, this`g
      ensures Valid() && g.contents == old(g.contents)[e.key := value]
    {
      e.value := value;
      Parts(kind, buckets, sizes, numEntries, g).OkKept();
      g.ValueSet(e);
      SetModel(g.(contents := g.contents[e.key := value]));
    }

    ghost method SetModel(g': Model<V>)
      requires isLive && Fits(kind, buckets, sizes, numEntries, g')
      modifies this`g
      ensures Ok() && g == g'
    {
      g := g';
    }

    // ---------------------------------------------------------------- delete

    // DeleteHashEntry()
    method Delete(e: HashEntry<V>)
      requires Valid() && e in g.repr
      modifies this`g, this`numEntries, buckets, g.repr`next
      ensures Valid() && g.repr == old(g.repr) - {e}
      ensures g.contents == old(g.contents) - {e.key} && numEntries == old(numEntries) - 1
    {
      ghost var chains' := Unlink(kind, buckets, sizes, numEntries, g, e);
      g.ValuesKept();
      AgreesLess(kind, g.contents, g.nodeOf, g.repr, e);
      Adopt(numEntries - 1, Model(g.rebuilds, chains', g.nodeOf - {e.key}, g.repr - {e}, g.contents - {e.key}));
    }
  }

  // The fields of a table.
  datatype Parts<V> = Parts(kind: Kind, slots: array<HashEntry?<V>>, z: Sizing, n: nat, g: Model<V>) {

    // The values do not matter to the consistency of a table.
    twostate lemma OkKept()
      requires old(OkAs(kind, slots, z, g.rebuilds, n, g.chains, g.nodeOf, g.repr)) && slots[..] == old(slots[..])
      requires forall x :: x in g.repr ==> x.next == old(x.next) && x.bucket == old(x.bucket)
      ensures OkAs(kind, slots, z, g.rebuilds, n, g.chains, g.nodeOf, g.repr)
    {
      forall b | 0 <= b < |g.chains| ensures Holds(slots, g.chains, b, z) {
        assert slots[b] == slots[..][b] == old(slots[..])[b];
        Buckets(slots, g.chains, z, g.repr).ChainKept(b);
      }
      forall x | x in g.repr ensures InBucket(x, g.chains) { assert old(InBucket(x, g.chains)); }
    }

    // What DeleteHashEntry() leaves.
    twostate lemma UnlinkedOk(u: Place<V>)
      requires old(OkAs(kind, slots, z, g.rebuilds, n, g.chains, g.nodeOf, g.repr)) && u.e in g.repr && u.In(g.chains)
      requires Distinct(g.chains[u.e.bucket]) && Linked(slots[u.e.bucket], Without(g.chains[u.e.bucket], u.k))
      requires forall b :: 0 <= b < slots.Length && b != u.e.bucket ==> slots[b] == old(slots[b])
      requires forall x :: x in g.repr ==> x.bucket == old(x.bucket)
      requires forall x :: x in g.repr && x !in g.chains[u.e.bucket] ==> x.next == old(x.next)
      ensures n > 0
      ensures OkAs(kind, slots, z, g.rebuilds, n - 1, u.Left(g.chains), g.nodeOf - {u.e.key}, g.repr - {u.e})
    {
      var chains := g.chains;
      Buckets(slots, chains, z, g.repr).UnlinkedIn(u);
      KnownLess(kind, g.nodeOf, g.repr, u.e);
      forall b | 0 <= b < |chains| ensures Holds(slots, u.Left(chains), b, z) {
        if b == u.e.bucket {
          assert old(Holds(slots, chains, b, z));
          Chain(slots[b], chains[b], b, z).WithoutOk(u.k);
        } else {
          Buckets(slots, chains, z, g.repr).OtherKept((b, u.e.bucket));
        }
      }
    }
  }

  // An entry and its index in its chain.
  datatype Place<V> = Place(e: HashEntry<V>, k: nat) {

    ghost predicate In(chains: seq<seq<HashEntry<V>>>)
      reads e
    {
      e.bucket < |chains| && k < |chains[e.bucket]| && chains[e.bucket][k] == e
    }

    // The chains without the entry.
    ghost function Left(chains: seq<seq<HashEntry<V>>>): seq<seq<HashEntry<V>>>
      requires In(chains)
      reads e
    {
      chains[e.bucket := Without(chains[e.bucket], k)]
    }
  }

  // c without its element at k.
  function Without<T>(c: seq<T>, k: nat): seq<T>
    requires k < |c|
  {
    c[..k] + c[k + 1..]
  }

  lemma WithoutMembers<V>(c: seq<HashEntry<V>>, k: nat)
    requires k < |c| && Distinct(c)
    ensures Distinct(Without(c, k)) && forall x :: x in Without(c, k) <==> x in c && x != c[k]
  {
    var d := Without(c, k);
    forall x | x in c && x != c[k] ensures x in d {
      var i :| 0 <= i < |c| && c[i] == x;
      assert d[if i < k then i else i - 1] == x;
    }
    forall i, j | 0 <= i < j < |d| ensures d[i] != d[j] {
      assert d[i] == c[if i < k then i else i + 1] && d[j] == c[if j < k then j else j + 1];
    }
    forall x | x in d ensures x in c && x != c[k] {
      var i :| 0 <= i < |d| && d[i] == x;
      assert x == c[if i < k then i else i + 1];
    }
  }

  // DeleteHashEntry(): the entry leaves its chain.  The search for its predecessor succeeds.
  method UnlinkFrom<V>(buckets: array<HashEntry?<V>>, e: HashEntry<V>, ghost c: seq<HashEntry<V>>, ghost k: nat)
    requires e.bucket < buckets.Length && k < |c| && c[k] == e && Linked(buckets[e.bucket], c) && Distinct(c)
    modifies buckets, (set x | x in c)`next
    ensures Linked(buckets[e.bucket], Without(c, k))
    ensures forall b :: 0 <= b < buckets.Length && b != e.bucket ==> buckets[b] == old(buckets[b])
  {
    if buckets[e.bucket] == e {
      assert k == 0 by { assert c[0] == c[k]; }
      buckets[e.bucket] := e.next;
      Chain(buckets[e.bucket], c, e.bucket, INITIAL).TailLinked();
      assert Without(c, 0) == c[1..];
    } else {
      var prev := FindPrevious(buckets[e.bucket], e, c, k);
      prev.next := e.next;
      Chain(buckets[e.bucket], c, e.bucket, INITIAL).MiddleLinked(k);
    }
  }

  // What DeleteHashEntry() leaves: the entry is in no chain, all others are in theirs.
  method Unlink<V>(ghost kind: Kind, buckets: array<HashEntry?<V>>, ghost z: Sizing, ghost n: nat, ghost g: Model<V>,
                   e: HashEntry<V>)
    returns (ghost chains': seq<seq<HashEntry<V>>>)
    requires OkAs(kind, buckets, z, g.rebuilds, n, g.chains, g.nodeOf, g.repr) && e in g.repr
    modifies buckets, g.repr`next
    ensures n > 0 && OkAs(kind, buckets, z, g.rebuilds, n - 1, chains', g.nodeOf - {e.key}, g.repr - {e})
  {
    ghost var k := PlaceOf(kind, buckets, z, n, g, e);
    chains' := g.chains[e.bucket := Without(g.chains[e.bucket], k)];
    UnlinkFrom(buckets, e, g.chains[e.bucket], k);
    Parts(kind, buckets, z, n, g).UnlinkedOk(Place(e, k));
  }

  // An entry stands in the chain of its bucket, once.
  lemma PlaceOf<V>(kind: Kind, buckets: array<HashEntry?<V>>, z: Sizing, n: nat, g: Model<V>, e: HashEntry<V>)
    returns (k: nat)
    requires OkAs(kind, buckets, z, g.rebuilds, n, g.chains, g.nodeOf, g.repr) && e in g.repr
    ensures Place(e, k).In(g.chains) && e.bucket < buckets.Length
    ensures Linked(buckets[e.bucket], g.chains[e.bucket]) && Distinct(g.chains[e.bucket])
    ensures forall x :: x in g.chains[e.bucket] ==> x in g.repr
  {
    assert InBucket(e, g.chains) && Holds(buckets, g.chains, e.bucket, z);
    k :| 0 <= k < |g.chains[e.bucket]| && g.chains[e.bucket][k] == e;
  }

  lemma KnownLess<V>(kind: Kind, nodeOf: map<Key, HashEntry<V>>, repr: set<HashEntry<V>>, e: HashEntry<V>)
    requires KnownAs(kind, nodeOf, repr) && e in repr
    ensures KnownAs(kind, nodeOf - {e.key}, repr - {e}) && |nodeOf| == |nodeOf - {e.key}| + 1
  {
    assert nodeOf == (nodeOf - {e.key})[e.key := e];
  }

  lemma UnlinkedMembers<V>(chains: seq<seq<HashEntry<V>>>, repr: set<HashEntry<V>>, e: HashEntry<V>, k: nat)
    requires InChains(chains, repr) && AllInBuckets(chains, repr) && e in repr
    requires forall b, x :: 0 <= b < |chains| && x in chains[b] ==> x.bucket == b
    requires e.bucket < |chains| && k < |chains[e.bucket]| && chains[e.bucket][k] == e && Distinct(chains[e.bucket])
    ensures var chains' := chains[e.bucket := Without(chains[e.bucket], k)];
            InChains(chains', repr - {e}) && AllInBuckets(chains', repr - {e})
  {
    var chains' := chains[e.bucket := Without(chains[e.bucket], k)];
    WithoutMembers(chains[e.bucket], k);
    forall b, x | 0 <= b < |chains'| && x in chains'[b] ensures x in repr - {e} { assert x in chains[b]; }
    forall x | x in repr - {e} ensures InBucket(x, chains') { assert InBucket(x, chains); }
  }

  method FindPrevious<V>(head: HashEntry?<V>, e: HashEntry<V>, ghost c: seq<HashEntry<V>>, ghost k: nat)
    returns (prev: HashEntry<V>)
    requires Linked(head, c) && Distinct(c) && 0 < k < |c| && c[k] == e
    ensures prev == c[k - 1]
  {
    var p := head;
    ghost var i := 0;
    while p.next != e
      invariant 0 <= i < k && p == c[i]
      decreases k - i
    {
      p := p.next;
      i := i + 1;
    }
    assert p.next == c[i + 1];
    prev := p;
  }

  // Before a rebuild all entries are left where they were.
  lemma AllLeft<V>(buckets: array<HashEntry?<V>>, chains: seq<seq<HashEntry<V>>>, z: Sizing, repr: set<HashEntry<V>>,
                   home: map<HashEntry<V>, nat>)
    requires InChains(chains, repr) && AllHold(buckets, chains, z, repr) && AllInBuckets(chains, repr)
    requires home == map e | e in repr :: e.bucket
    ensures LeftOk(buckets, chains, repr, home)
  {
    forall b | 0 <= b < |chains| ensures Linked(buckets[b], chains[b]) && Distinct(chains[b]) {
      assert Holds(buckets, chains, b, z);
    }
    forall b, e | 0 <= b < |chains| && e in chains[b] ensures home[e] == b { assert Holds(buckets, chains, b, z); }
    forall e | e in repr ensures home[e] < |chains| && e in chains[home[e]] { assert InBucket(e, chains); }
  }

  // A table that gets crowded has not been rebuilt fourteen times yet.
  lemma RoomToGrow(z: Sizing, rebuilds: nat, n: nat)
    requires Sound(z, rebuilds) && z.rebuildSize == n < REBUILD_MULTIPLIER * 0x4000_0000
    ensures rebuilds < MAX_LEVEL && n < Enlarged(z).rebuildSize
  {
    Pow2Of30();
    if rebuilds < MAX_LEVEL { EnlargedSound(z, rebuilds); }
  }

  lemma AddedOk<V>(kind: Kind, buckets: array<HashEntry?<V>>, z: Sizing, rebuilds: nat, n: nat,
                   chains: seq<seq<HashEntry<V>>>, nodeOf: map<Key, HashEntry<V>>, repr: set<HashEntry<V>>,
                   e: HashEntry<V>, chains': seq<seq<HashEntry<V>>>)
    requires KnownAs(kind, nodeOf, repr) && AllInBuckets(chains, repr) && n == |nodeOf|
    requires Sound(z, rebuilds) && buckets.Length == |chains| == z.numBuckets
    requires e !in repr && e.key !in nodeOf && IsKey(kind, e.key) && e.bucket < |chains|
    requires chains' == chains[e.bucket := [e] + chains[e.bucket]]
    requires InChains(chains', repr + {e}) && AllHold(buckets, chains', z, repr + {e})
    ensures OkAs(kind, buckets, z, rebuilds, n + 1, chains', nodeOf[e.key := e], repr + {e})
  {
    FrontInBuckets(chains, repr, e);
    KnownMore(kind, nodeOf, repr, e);
  }

  lemma FrontInBuckets<V>(chains: seq<seq<HashEntry<V>>>, repr: set<HashEntry<V>>, e: HashEntry<V>)
    requires AllInBuckets(chains, repr) && e.bucket < |chains|
    ensures AllInBuckets(chains[e.bucket := [e] + chains[e.bucket]], repr + {e})
  {
    var chains' := chains[e.bucket := [e] + chains[e.bucket]];
    forall x | x in repr + {e} ensures InBucket(x, chains') {
      assert x != e ==> InBucket(x, chains);
      MemberFront(chains, e, if x == e then e.bucket else x.bucket, x);
    }
  }

  lemma KnownMore<V>(kind: Kind, nodeOf: map<Key, HashEntry<V>>, repr: set<HashEntry<V>>, e: HashEntry<V>)
    requires KnownAs(kind, nodeOf, repr) && e !in repr && e.key !in nodeOf && IsKey(kind, e.key)
    ensures KnownAs(kind, nodeOf[e.key := e], repr + {e})
  {
  }

  lemma FrontInChains<V>(chains: seq<seq<HashEntry<V>>>, repr: set<HashEntry<V>>, e: HashEntry<V>)
    requires InChains(chains, repr) && e.bucket < |chains|
    ensures InChains(chains[e.bucket := [e] + chains[e.bucket]], repr + {e})
  {
    var chains' := chains[e.bucket := [e] + chains[e.bucket]];
    forall b, x | 0 <= b < |chains'| && x in chains'[b] ensures x in repr + {e} { MemberFront(chains, e, b, x); }
  }

  lemma MemberFront<V>(chains: seq<seq<HashEntry<V>>>, e: HashEntry<V>, b: nat, x: HashEntry<V>)
    requires e.bucket < |chains| && b < |chains|
    ensures x in chains[e.bucket := [e] + chains[e.bucket]][b] <==> x in chains[b] || (b == e.bucket && x == e)
  {
  }

  // ---------------------------------------------------------------- enumeration

  // All entries, bucket after bucket.
  function Flat<T>(chains: seq<seq<T>>): seq<T> {
    if chains == [] then [] else chains[0] + Flat(chains[1..])
  }

  lemma {:induction false} FlatMembers<V>(chains: seq<seq<HashEntry<V>>>, e: HashEntry<V>)
    ensures e in Flat(chains) <==> exists b :: 0 <= b < |chains| && e in chains[b]
    decreases |chains|
  {
    if chains != [] {
      FlatMembers(chains[1..], e);
      if e in Flat(chains[1..]) {
        var b :| 0 <= b < |chains[1..]| && e in chains[1..][b];
        assert e in chains[b + 1];
      }
      if b :| 0 <= b < |chains| && e in chains[b] {
        if b > 0 { assert e in chains[1..][b - 1]; }
      }
    }
  }

  lemma {:induction false} FlatDistinct<V>(chains: seq<seq<HashEntry<V>>>)
    requires forall b :: 0 <= b < |chains| ==> Distinct(chains[b])
    requires forall b, b', e :: 0 <= b < b' < |chains| && e in chains[b] ==> e !in chains[b']
    ensures Distinct(Flat(chains))
    decreases |chains|
  {
    if chains != [] {
      FlatDistinct(chains[1..]);
      forall e | e in chains[0] ensures e !in Flat(chains[1..]) { FlatMembers(chains[1..], e); }
      DistinctConcat(chains[0], Flat(chains[1..]));
    }
  }

  lemma DistinctConcat<V>(c: seq<HashEntry<V>>, d: seq<HashEntry<V>>)
    requires Distinct(c) && Distinct(d) && forall e :: e in c ==> e !in d
    ensures Distinct(c + d)
  {
    var s := c + d;
    forall i, j | 0 <= i < j < |s| ensures s[i] != s[j] {
      if i < |c| <= j { assert s[i] in c && s[j] in d; }
    }
  }

  lemma {:induction false} DistinctSize<V>(c: seq<HashEntry<V>>, m: set<HashEntry<V>>)
    requires Distinct(c) && forall e :: e in c <==> e in m
    ensures |c| == |m|
    decreases |c|
  {
    if c == [] {
      assert m == {};
    } else {
      forall x ensures x in c[1..] <==> x in m - {c[0]} { InTail(c, x); }
      DistinctSize(c[1..], m - {c[0]});
    }
  }

  lemma {:induction false} KeysSize<V>(kind: Kind, nodeOf: map<Key, HashEntry<V>>, repr: set<HashEntry<V>>)
    requires KnownAs(kind, nodeOf, repr)
    ensures |nodeOf| == |repr|
    decreases |repr|
  {
    if repr != {} {
      var e :| e in repr;
      KnownLess(kind, nodeOf, repr, e);
      KeysSize(kind, nodeOf - {e.key}, repr - {e});
    } else {
      assert nodeOf == map[];
    }
  }

  // The enumeration lists every entry of the table exactly once, and numEntries is the sum of
  // the lengths of the chains.
  lemma FlatExact<V>(t: HashTable<V>)
    requires t.Ok()
    ensures Distinct(Flat(t.g.chains)) && (forall e :: e in Flat(t.g.chains) <==> e in t.g.repr)
    ensures forall i :: 0 <= i < |Flat(t.g.chains)| ==> Flat(t.g.chains)[i] in t.g.repr
    ensures |Flat(t.g.chains)| == t.numEntries
  {
    var chains, z := t.g.chains, t.sizes;
    forall b | 0 <= b < |chains| ensures Distinct(chains[b]) { assert Holds(t.buckets, chains, b, z); }
    forall b: int, e: HashEntry<V> | 0 <= b < |chains| && e in chains[b] ensures e.bucket == b { assert Holds(t.buckets, chains, b, z); }
    forall b: int, b': int, e: HashEntry<V> | 0 <= b < b' < |chains| && e in chains[b] ensures e !in chains[b'] {
      assert e.bucket == b;
    }
    FlatDistinct(chains);
    forall e ensures e in Flat(chains) <==> e in t.g.repr {
      FlatMembers(chains, e);
      if e in t.g.repr { assert InBucket(e, chains); }
    }
    forall i | 0 <= i < |Flat(chains)| ensures Flat(chains)[i] in t.g.repr {
      var e := Flat(chains)[i];
      FlatMembers(chains, e);
      var b :| 0 <= b < |chains| && e in chains[b];
    }
    DistinctSize(Flat(chains), t.g.repr);
    KeysSize(t.kind, t.g.nodeOf, t.g.repr);
  }

  // e and its followers c, and the buckets from i on, are what a search has still to visit.
  ghost predicate StandsAt<V>(t: HashTable<V>, i: nat, e: HashEntry?<V>, c: seq<HashEntry<V>>)
    reads t, t.buckets, t.g.repr
  {
    t.Ok() && i <= |t.g.chains| && (forall x :: x in c ==> x in t.g.repr) && Linked(e, c)
  }

  // Where a search stands.
  datatype Standing<V> = Standing(t: HashTable<V>, i: nat, e: HashEntry?<V>, c: seq<HashEntry<V>>) {

    // Nothing of the table is written.
    twostate lemma Kept()
      requires old(StandsAt(t, i, e, c)) && unchanged(t) && unchanged(t.buckets) && unchanged(t.g.repr)
      ensures StandsAt(t, i, e, c)
    {
    }
  }

  class HashSearch<V> {
    const table: HashTable<V>
    var nextIndex: nat
    var nextEntry: HashEntry?<V>
    ghost var pending: seq<HashEntry<V>>     // what is left of the current chain

    // What the search has still to visit.
    ghost function Rest(): seq<HashEntry<V>>
      requires nextIndex <= |table.g.chains|
      reads this, table
    {
      pending + Flat(table.g.chains[nextIndex..])
    }

    ghost predicate Searching()
      reads this, table, table.buckets, table.g.repr
    {
      StandsAt(table, nextIndex, nextEntry, pending)
    }

    // FirstHashEntry(), setting up the search
    constructor (table: HashTable<V>)
      requires table.Ok()
      ensures Searching() && this.table == table && Rest() == Flat(table.g.chains)
    {
      this.table, nextIndex, nextEntry, pending := table, 0, null, [];
      new;
      assert table.g.chains[0..] == table.g.chains;
    }

    // NextHashEntry()
    method Next() returns (e: HashEntry?<V>)
      requires Searching()
      modifies this
      ensures Searching()
      ensures old(Rest()) == [] ==> e == null && Rest() == []
      ensures old(Rest()) != [] ==> e == old(Rest())[0] && Rest() == old(Rest())[1..]
    {
      ghost var rest := Rest();
      while nextEntry == null
        invariant Searching() && Rest() == rest
        decreases |table.g.chains| - nextIndex
      {
        NoMore();
        if nextIndex >= table.sizes.numBuckets {
          return null;
        }
        NextBucket();
      }
      e := TakeEntry();
    }

    // NextHashEntry(), going on to the next bucket
    method NextBucket()
      requires Searching() && nextEntry == null && nextIndex < |table.g.chains|
      modifies this
      ensures Searching() && Rest() == old(Rest()) && nextIndex == old(nextIndex) + 1
    {
      NextChain(table, nextIndex);
      MoveTo(nextIndex + 1, table.buckets[nextIndex], table.g.chains[nextIndex]);
    }

    method MoveTo(i: nat, e: HashEntry?<V>, ghost c: seq<HashEntry<V>>)
      requires StandsAt(table, i, e, c)
      modifies this
      ensures Searching() && nextIndex == i && Rest() == c + Flat(table.g.chains[i..])
    {
      nextIndex, nextEntry, pending := i, e, c;
      Standing(table, i, e, c).Kept();
    }

    // NextHashEntry(), an entry being at hand
    method TakeEntry() returns (e: HashEntry<V>)
      requires Searching() && nextEntry != null
      modifies this
      ensures Searching() && old(Rest()) != [] && e == old(Rest())[0] && Rest() == old(Rest())[1..]
    {
      e := nextEntry;
      LinkedTail(nextEntry, pending);
      HeadOfConcat(pending, Flat(table.g.chains[nextIndex..]));
      MoveTo(nextIndex, e.next, pending[1..]);
    }

    lemma NoMore()
      requires Searching() && nextEntry == null
      ensures pending == [] && |table.g.chains| == table.sizes.numBuckets
      ensures nextIndex == |table.g.chains| ==> Rest() == []
    {
    }
  }

  lemma HeadOfConcat<T>(c: seq<T>, d: seq<T>)
    requires c != []
    ensures (c + d)[0] == c[0] && (c + d)[1..] == c[1..] + d
  {
  }

  lemma NextChain<V>(t: HashTable<V>, i: nat)
    requires t.Ok() && i < |t.g.chains|
    ensures Linked(t.buckets[i], t.g.chains[i]) && forall e :: e in t.g.chains[i] ==> e in t.g.repr
    ensures Flat(t.g.chains[i..]) == t.g.chains[i] + Flat(t.g.chains[i + 1..])
  {
    assert Holds(t.buckets, t.g.chains, i, t.sizes);
    assert t.g.chains[i..][1..] == t.g.chains[i + 1..];
  }

  lemma LinkedTail<V>(head: HashEntry<V>, c: seq<HashEntry<V>>)
    requires Linked(head, c)
    ensures c != [] && Linked(head.next, c[1..])
  {
    var d := c[1..];
    if |c| > 1 { assert c[0].next == c[1] && d[|d| - 1] == c[|c| - 1]; }
    forall i, j | 0 <= i < j == i + 1 < |d| ensures d[i].next == d[j] {
      assert d[i] == c[i + 1] && d[j] == c[j + 1];
    }
  }

  // The entries at the front of es, as they are shown to a procedure.
  ghost predicate Shows<V>(visited: seq<(Key, V)>, es: seq<HashEntry<V>>)
    reads es
  {
    |visited| <= |es| && forall i :: 0 <= i < |visited| ==> visited[i] == (es[i].key, es[i].value)
  }

  // A search stands before left.
  ghost predicate Before<V>(s: HashSearch<V>, he: HashEntry?<V>, left: seq<HashEntry<V>>)
    reads s, s.table, s.table.buckets, s.table.g.repr
  {
    s.Searching() && if he == null then left == [] else left == [he] + s.Rest()
  }

  // FirstHashEntry()
  method First<V>(t: HashTable<V>) returns (s: HashSearch<V>, he: HashEntry?<V>)
    requires t.Ok()
    ensures fresh(s) && s.table == t && Before(s, he, Flat(t.g.chains))
  {
    s := new HashSearch<V>(t);
    he := Advance(s, Flat(t.g.chains));
  }

  method Advance<V>(s: HashSearch<V>, ghost left: seq<HashEntry<V>>) returns (he: HashEntry?<V>)
    requires s.Searching() && s.Rest() == left
    modifies s
    ensures Before(s, he, left)
  {
    he := s.Next();
  }

  // A search stands before left, after the procedure has gone on with everything before.
  ghost predicate UnderWay<V>(s: HashSearch<V>, he: HashEntry?<V>, proc: (Key, V) -> bool, visited: seq<(Key, V)>,
                              all: seq<HashEntry<V>>, left: seq<HashEntry<V>>)
    reads s, s.table, s.table.buckets, s.table.g.repr, all
  {
    Before(s, he, left) && Shows(visited, all) && left == all[|visited|..] && Goes(visited, proc, |visited|)
  }

  // The loop of s_do_iterate() in framework/lib/hashmap.c, on a procedure that tells whether to go on.
  method Enumerate<V>(t: HashTable<V>, proc: (Key, V) -> bool) returns (ret: bool, visited: seq<(Key, V)>)
    requires t.Ok()
    ensures Shows(visited, Flat(t.g.chains))
    ensures ret ==> |visited| == |Flat(t.g.chains)| > 0 && Goes(visited, proc, |visited|)
    ensures !ret && visited != [] ==> !proc(visited[|visited| - 1].0, visited[|visited| - 1].1)
    ensures !ret && visited == [] ==> Flat(t.g.chains) == []
    ensures visited != [] ==> Goes(visited, proc, |visited| - 1)
  {
    ghost var all := Flat(t.g.chains);
    ghost var left := all;
    ret, visited := false, [];
    var s, he := First(t);
    while he != null
      invariant fresh(s) && UnderWay(s, he, proc, visited, all, left) && (ret <==> visited != [])
      decreases |left|
    {
      ret, visited, he, left := Visit(s, he, proc, visited, all, left);
      if !ret {
        break;
      }
    }
  }

  // One round of the loop.
  method Visit<V>(s: HashSearch<V>, he: HashEntry<V>, proc: (Key, V) -> bool, visited: seq<(Key, V)>,
                  ghost all: seq<HashEntry<V>>, ghost left: seq<HashEntry<V>>)
    returns (ret: bool, visited': seq<(Key, V)>, he': HashEntry?<V>, ghost left': seq<HashEntry<V>>)
    requires UnderWay(s, he, proc, visited, all, left)
    modifies s
    ensures visited' == visited + [(he.key, he.value)] && ret == proc(he.key, he.value)
    ensures Shows(visited', all) && |left'| < |left|
    ensures ret ==> UnderWay(s, he', proc, visited', all, left')
    ensures Goes(visited', proc, |visited|)
  {
    assert he == left[0] == all[|visited|];
    ShowsMore(visited, all);
    visited' := visited + [(he.key, he.value)];
    ret := proc(he.key, he.value);
    left' := left[1..];
    he' := null;
    if ret {
      he' := Advance(s, left');
    }
  }

  lemma ShowsMore<V>(visited: seq<(Key, V)>, es: seq<HashEntry<V>>)
    requires Shows(visited, es) && |visited| < |es|
    ensures Shows(visited + [(es[|visited|].key, es[|visited|].value)], es)
  {
  }

  // The procedure went on after each of the first n.
  ghost predicate Goes<V>(visited: seq<(Key, V)>, proc: (Key, V) -> bool, n: nat)
    requires n <= |visited|
  {
    forall i :: 0 <= i < n ==> proc(visited[i].0, visited[i].1)
  }
}
