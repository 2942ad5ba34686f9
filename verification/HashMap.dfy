/**
 The map of framework/lib/hashmap.c over the hash table, proved against a finite map.

 A value is a pointer: None is NULL.  Locks are left out: a method is what runs under one.
 */
module HashMap {
  import opened HashArith
  import opened HashKeys
  import opened HashTable
  import opened Wrappers

  datatype Code = Ok | NotFound | AlreadyExists | NotOperational | IterationHalted

  class HashMap<T(!new)> {
    const keyLen: nat                        // m_type
    const hasDelProc: bool                   // m_del_proc is set
    var table: HashTable<Option<T>>          // m_hashtable
    var nEntries: int                        // m_n_entries
    var isOperational: bool

    // Once the map is shut down, its table is zeroed: nothing can be called on it.
    ghost predicate Valid()
      reads this, table, table.buckets, table.g.repr
    {
      && (isOperational <==> table.isLive)
      && (isOperational ==> table.Valid() && table.kind == KindOf(keyLen) && table.zero == None)
      && nEntries == if isOperational then table.numEntries else 0
    }

    ghost function Contents(): map<Key, Option<T>>
      reads this, table
    {
      if isOperational then table.g.contents else map[]
    }

    // gallus_hashmap_create()
    constructor (keyLen: nat, hasDelProc: bool)
      ensures Valid() && isOperational && Contents() == map[] && this.keyLen == keyLen && this.hasDelProc == hasDelProc
      ensures fresh(table) && fresh(table.buckets) && table.g.repr == {}
    {
      this.keyLen, this.hasDelProc := keyLen, hasDelProc;
      table := new HashTable<Option<T>>(keyLen, None);
      nEntries := 0;
      isOperational := true;
    }

    // s_find(): val is *valptr.
    method Find(key: Key) returns (ret: Code, val: Option<T>)
      requires Valid() && IsKey(KindOf(keyLen), key)
      ensures ret == if !isOperational then NotOperational else if key in Contents() then Ok else NotFound
      ensures val == if key in Contents() then Contents()[key] else None
    {
      val := None;
      if isOperational {
        var he := table.Find(key);
        if he != null {
          val := he.value;
          ret := Ok;
        } else {
          ret := NotFound;
        }
      } else {
        ret := NotOperational;
      }
    }

    // s_add(): val is *valptr on entry, and former *valptr on return.
    method Add(key: Key, val: Option<T>, allowOverwrite: bool) returns (ret: Code, former: Option<T>)
      requires Valid() && IsKey(KindOf(keyLen), key) && nEntries + 1 < REBUILD_MULTIPLIER * 0x4000_0000
      modifies this`nEntries, table, table.buckets, table.g.repr
      ensures Valid() && isOperational == old(isOperational)
      ensures ret == if !isOperational then NotOperational
                     else if key in old(Contents()) && !allowOverwrite then AlreadyExists else Ok
      ensures Contents() == if ret == Ok then old(Contents())[key := val] else old(Contents())
      ensures former == if !isOperational then val
                        else if key in old(Contents()) then old(Contents())[key] else None
    {
      former := val;
      if isOperational {
        var he := table.Find(key);
        if he != null {
          former := he.value;
          if allowOverwrite {
            Overwrite(he, val);
            ret := Ok;
          } else {
            ret := AlreadyExists;
          }
        } else {
          former := None;
          AddNew(key, val);
          ret := Ok;
        }
      } else {
        ret := NotOperational;
      }
    }

    method AddNew(key: Key, val: Option<T>)
      requires Valid() && isOperational && IsKey(KindOf(keyLen), key) && key !in table.g.contents
      requires nEntries + 1 < REBUILD_MULTIPLIER * 0x4000_0000
      modifies this`nEntries, table, table.buckets, table.g.repr
      ensures Valid() && isOperational && table.g.contents == old(table.g.contents)[key := val]
    {
      table.Insert(key, val);
      assert table.kind == KindOf(keyLen) && table.zero == None && table.numEntries == nEntries + 1;
      SetCount(nEntries + 1);
    }

    method SetCount(n: int)
      requires isOperational && table.Valid() && table.kind == KindOf(keyLen) && table.zero == None
      requires n == table.numEntries
      modifies this`nEntries
      ensures Valid()
    {
      nEntries := n;
    }

    method Overwrite(he: HashEntry<Option<T>>, val: Option<T>)
      requires Valid() && isOperational && he in table.g.repr
      modifies he`value, table`g
      ensures Valid() && isOperational && Contents() == old(Contents())[he.key := val]
    {
      table.SetValue(he, val);
    }

    method Drop(he: HashEntry<Option<T>>)
      requires Valid() && isOperational && he in table.g.repr
      modifies this`nEntries, table, table.buckets, table.g.repr
      ensures Valid() && isOperational && table.g.contents == old(table.g.contents) - {he.key}
    {
      table.Delete(he);
      assert table.kind == KindOf(keyLen) && table.zero == None && table.numEntries == nEntries - 1;
      SetCount(nEntries - 1);
    }

    // s_delete(), the entry being found
    method Remove(he: HashEntry<Option<T>>, freeValue: bool) returns (val: Option<T>, freed: bool)
      requires Valid() && isOperational && he in table.g.repr
      modifies this`nEntries, table, table.buckets, table.g.repr
      ensures Valid() && isOperational && table.g.contents == old(table.g.contents) - {he.key}
      ensures val == old(he.value) && (freed <==> val.Some? && freeValue && hasDelProc)
    {
      val, freed := he.value, false;
      if val.Some? && freeValue && hasDelProc {
        freed := true;
      }
      Drop(he);
    }

    // s_delete() on a map that is operational
    method DeleteKey(key: Key, freeValue: bool) returns (val: Option<T>, freed: bool)
      requires Valid() && isOperational && IsKey(KindOf(keyLen), key)
      modifies this`nEntries, table, table.buckets, table.g.repr
      ensures Valid() && isOperational && table.g.contents == old(table.g.contents) - {key}
      ensures val == if key in old(table.g.contents) then old(table.g.contents)[key] else None
      ensures freed <==> val.Some? && freeValue && hasDelProc
    {
      val, freed := None, false;
      var he := table.Find(key);
      if he != null {
        val, freed := Remove(he, freeValue);
      } else {
        NotThere(table.g.contents, key);
      }
    }

    // s_delete(): freed tells whether the free-up procedure was called with the value.
    method Delete(key: Key, freeValue: bool) returns (ret: Code, val: Option<T>, freed: bool)
      requires Valid() && IsKey(KindOf(keyLen), key)
      modifies this`nEntries, table, table.buckets, table.g.repr
      ensures Valid() && isOperational == old(isOperational)
      ensures ret == if isOperational then Ok else NotOperational
      ensures Contents() == old(Contents()) - {key}
      ensures val == if key in old(Contents()) then old(Contents())[key] else None
      ensures freed <==> val.Some? && freeValue && hasDelProc
    {
      val, freed := None, false;
      if isOperational {
        val, freed := DeleteKey(key, freeValue);
        ret := Ok;
      } else {
        ret := NotOperational;
      }
    }

    // ---------------------------------------------------------------- iteration

    // s_do_iterate() on a procedure that tells whether to go on.  visited is what it is called with:
    // every key once, with its value, unless the procedure stops the iteration.
    method DoIterate(proc: (Key, Option<T>) -> bool) returns (ret: bool, visited: seq<(Key, Option<T>)>)
      requires table.Valid()
      ensures ListsSome(visited, table.g.contents)
      ensures ret ==> Lists(visited, table.g.contents) && visited != [] && Goes(visited, proc, |visited|)
      ensures !ret ==> (table.g.contents == map[] && visited == []) || StopsAt(visited, proc)
    {
      ret, visited := Enumerate(table, proc);
      ShownLists(table, visited);
    }

    // s_iterate()
    method Iterate(proc: (Key, Option<T>) -> bool) returns (ret: Code, visited: seq<(Key, Option<T>)>)
      requires Valid()
      ensures !isOperational ==> ret == NotOperational && visited == []
      ensures isOperational ==> ListsSome(visited, Contents())
      ensures ret == Ok ==> Lists(visited, Contents()) && Contents() != map[] && Goes(visited, proc, |visited|)
      ensures ret == IterationHalted ==> (Contents() == map[] && visited == []) || StopsAt(visited, proc)
      ensures isOperational ==> ret == Ok || ret == IterationHalted
    {
      visited := [];
      if isOperational {
        var goes;
        goes, visited := DoIterate(proc);
        ret := if goes then Ok else IterationHalted;
      } else {
        ret := NotOperational;
      }
    }

    // s_freeup_all_values() with s_freeup_proc(): freed is what the free-up procedure is called
    // with.  The flag is down already.
    method FreeupAllValues() returns (freed: seq<T>)
      requires table.Valid()
      ensures FreedBy(table.g.contents, hasDelProc, freed)
    {
      var ret, visited := DoIterate((k, v) => hasDelProc);
      if hasDelProc {
        ListedFreed(table.g.contents, visited);
        freed := NonNull(visited);
      } else {
        freed := [];
      }
    }

    // s_clean(): the table is zeroed.
    method CleanOut(freeValues: bool) returns (freed: seq<T>)
      requires table.Valid()
      modifies table, this`nEntries
      ensures !table.isLive && nEntries == 0
      ensures FreedBy(old(table.g.contents), freeValues && hasDelProc, freed)
    {
      freed := [];
      if freeValues {
        freed := FreeupAllValues();
      }
      table.Zero();
      nEntries := 0;
    }

    // s_reinit()
    method Reinit(freeValues: bool) returns (freed: seq<T>)
      requires table.Valid()
      modifies table, this`table, this`nEntries
      ensures table.Valid() && table.kind == KindOf(keyLen) && table.zero == None
      ensures table.g.contents == map[] && nEntries == table.numEntries
      ensures FreedBy(old(table.g.contents), freeValues && hasDelProc, freed)
    {
      freed := CleanOut(freeValues);
      table := new HashTable<Option<T>>(keyLen, None);
    }

    // s_clear()
    method Clear(freeValues: bool) returns (ret: Code, freed: seq<T>)
      requires Valid()
      modifies table, this`table, this`nEntries, this`isOperational
      ensures Valid() && isOperational == old(isOperational) && Contents() == map[]
      ensures ret == if isOperational then Ok else NotOperational
      ensures FreedBy(old(Contents()), isOperational && freeValues && hasDelProc, freed)
    {
      freed := [];
      if isOperational {
        isOperational := false;
        freed := Reinit(freeValues);
        isOperational := true;
        ret := Ok;
      } else {
        ret := NotOperational;
      }
    }

    // gallus_hashmap_shutdown()
    method Shutdown(freeValues: bool) returns (freed: seq<T>)
      requires Valid()
      modifies table, this`table, this`nEntries, this`isOperational
      ensures Valid() && !isOperational && Contents() == map[]
      ensures FreedBy(old(Contents()), old(isOperational) && freeValues && hasDelProc, freed)
    {
      freed := [];
      if isOperational {
        isOperational := false;
        freed := CleanOut(freeValues);
      }
    }

    // gallus_hashmap_size()
    method Size() returns (ret: Code, n: int)
      requires Valid()
      ensures ret == if isOperational then Ok else NotOperational
      ensures isOperational ==> n == |Contents()|
    {
      n := nEntries;
      ret := if isOperational then Ok else NotOperational;
      if isOperational { SizeIs(table); }
    }
  }

  lemma NotThere<V>(m: map<Key, V>, key: Key)
    requires key !in m
    ensures m - {key} == m
  {
  }

  lemma SizeIs<V>(t: HashTable<V>)
    requires t.Valid()
    ensures t.numEntries == |t.g.contents|
  {
    assert |t.g.contents.Keys| == |t.g.nodeOf.Keys|;
  }

  // The keys of m whose value is v
  ghost function HoldersOf<T(!new)>(m: map<Key, Option<T>>, v: T): set<Key> {
    set k | k in m && m[k] == Some(v)
  }

  // The free-up procedure has been called with every value once for each key that holds it, and not
  // at all for the keys that hold NULL; or with nothing, if it is not to be called.
  ghost predicate FreedBy<T(!new)>(m: map<Key, Option<T>>, calls: bool, freed: seq<T>) {
    if calls then forall v :: multiset(freed)[v] == |HoldersOf(m, v)| else freed == []
  }

  // The values that are not NULL.
  function NonNull<T>(visited: seq<(Key, Option<T>)>): seq<T> {
    if visited == [] then []
    else (if visited[0].1.Some? then [visited[0].1.value] else []) + NonNull(visited[1..])
  }

  // The keys that are visited with the value v
  ghost function VisitedWith<T(!new)>(visited: seq<(Key, Option<T>)>, v: T): set<Key> {
    set i | 0 <= i < |visited| && visited[i].1 == Some(v) :: visited[i].0
  }

  lemma VisitedHead<T(!new)>(visited: seq<(Key, Option<T>)>, v: T)
    requires visited != []
    ensures VisitedWith(visited, v)
         == (if visited[0].1 == Some(v) then {visited[0].0} else {}) + VisitedWith(visited[1..], v)
  {
    var rest := visited[1..];
    forall k | k in VisitedWith(rest, v) ensures k in VisitedWith(visited, v) {
      var i :| 0 <= i < |rest| && rest[i].1 == Some(v) && rest[i].0 == k;
      assert visited[i + 1] == rest[i];
    }
    forall k | k in VisitedWith(visited, v) && !(visited[0].1 == Some(v) && k == visited[0].0)
      ensures k in VisitedWith(rest, v)
    {
      var i :| 0 <= i < |visited| && visited[i].1 == Some(v) && visited[i].0 == k;
      assert rest[i - 1] == visited[i];
    }
  }

  // A value is as often among the values that are not NULL as keys are visited with it.
  lemma {:induction false} NonNullCounts<T(!new)>(visited: seq<(Key, Option<T>)>, v: T)
    requires forall i, j :: 0 <= i < j < |visited| ==> visited[i].0 != visited[j].0
    ensures multiset(NonNull(visited))[v] == |VisitedWith(visited, v)|
  {
    if visited == [] {
      assert VisitedWith(visited, v) == {};
    } else {
      NonNullCounts(visited[1..], v);
      VisitedHead(visited, v);
      assert visited[0].0 !in VisitedWith(visited[1..], v);
    }
  }

  // What a complete iteration finds is what is to be freed.
  lemma ListedFreed<T(!new)>(m: map<Key, Option<T>>, visited: seq<(Key, Option<T>)>)
    requires Lists(visited, m)
    ensures FreedBy(m, true, NonNull(visited))
  {
    forall v ensures multiset(NonNull(visited))[v] == |HoldersOf(m, v)| {
      NonNullCounts(visited, v);
      forall k | k in HoldersOf(m, v) ensures k in VisitedWith(visited, v) {
        var i :| 0 <= i < |visited| && visited[i].0 == k;
        assert visited[i].1 == Some(v);
      }
      assert VisitedWith(visited, v) == HoldersOf(m, v);
    }
  }

  // The procedure stopped at the last visit, and not before.
  ghost predicate StopsAt<T>(visited: seq<(Key, Option<T>)>, proc: (Key, Option<T>) -> bool) {
    && visited != [] && Goes(visited, proc, |visited| - 1)
    && !proc(visited[|visited| - 1].0, visited[|visited| - 1].1)
  }

  // Different keys of m, with their values.
  ghost predicate ListsSome<V>(visited: seq<(Key, V)>, m: map<Key, V>) {
    && (forall i :: 0 <= i < |visited| ==> visited[i].0 in m && visited[i].1 == m[visited[i].0])
    && (forall i, j :: 0 <= i < j < |visited| ==> visited[i].0 != visited[j].0)
  }

  // All the keys of m, each once, with their values.
  ghost predicate Lists<V>(visited: seq<(Key, V)>, m: map<Key, V>) {
    && ListsSome(visited, m) && |visited| == |m|
    && forall k :: k in m ==> exists i :: 0 <= i < |visited| && visited[i].0 == k
  }

  // Every entry is the one of its key.
  lemma EntryOf<V>(t: HashTable<V>, e: HashEntry<V>)
    requires t.Valid() && e in t.g.repr
    ensures e.key in t.g.nodeOf && t.g.nodeOf[e.key] == e
    ensures e.key in t.g.contents && t.g.contents[e.key] == e.value
  {
  }

  lemma ShownSome<V>(t: HashTable<V>, visited: seq<(Key, V)>)
    requires t.Valid() && Shows(visited, Flat(t.g.chains))
    ensures ListsSome(visited, t.g.contents)
  {
    FlatExact(t);
    var all := Flat(t.g.chains);
    forall i | 0 <= i < |visited|
      ensures visited[i].0 in t.g.contents && visited[i].1 == t.g.contents[visited[i].0]
      ensures visited[i].0 in t.g.nodeOf && t.g.nodeOf[visited[i].0] == all[i]
    {
      EntryOf(t, all[i]);
    }
  }

  lemma ShownAll<V>(t: HashTable<V>, visited: seq<(Key, V)>)
    requires t.Valid() && Shows(visited, Flat(t.g.chains)) && |visited| == |Flat(t.g.chains)|
    ensures |visited| == |t.g.contents|
    ensures forall k :: k in t.g.contents ==> exists i :: 0 <= i < |visited| && visited[i].0 == k
  {
    FlatExact(t);
    var all, m := Flat(t.g.chains), t.g.contents;
    assert |m.Keys| == |t.g.nodeOf.Keys|;
    forall k | k in m ensures exists i :: 0 <= i < |visited| && visited[i].0 == k {
      var e := t.g.nodeOf[k];
      assert e in all;
      var i :| 0 <= i < |all| && all[i] == e;
      assert visited[i].0 == k;
    }
  }

  lemma ShownLists<V>(t: HashTable<V>, visited: seq<(Key, V)>)
    requires t.Valid() && Shows(visited, Flat(t.g.chains))
    ensures ListsSome(visited, t.g.contents)
    ensures |visited| == |Flat(t.g.chains)| ==> Lists(visited, t.g.contents)
    ensures Flat(t.g.chains) == [] ==> t.g.contents == map[]
  {
    ShownSome(t, visited);
    if |visited| == |Flat(t.g.chains)| {
      ShownAll(t, visited);
      if visited == [] { assert |t.g.contents| == 0; }
    }
  }
}
