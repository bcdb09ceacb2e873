/** The insertion-ordered map of the runtime (include/runtime_aux.h, tiq_map_*): an
    open-addressing index over parallel key and value arrays, refined to an
    association list in insertion order. */
module TiqMap {
  import opened Bits
  import opened Leb128
  import opened HashTable

  /** A key as callers pass it; a null pointer stands for the empty string. */
  datatype KeyArg = NullKey | KeyArg(key: Key)

  function Text(k: KeyArg): Key { if k.NullKey? then [] else k.key }

  // ---------- what the map means ----------

  /** Keys in the order they were first set, and their values. */
  datatype Assoc = Assoc(keys: seq<Key>, vals: seq<int>)

  function IndexOf(ks: seq<Key>, k: Key): (i: int)
    ensures -1 <= i < |ks|
    ensures i >= 0 ==> ks[i] == k
    ensures i < 0 ==> k !in ks
    decreases ks
  {
    if ks == [] then -1
    else if ks[0] == k then 0
    else
      var i := IndexOf(ks[1..], k);
      assert ks == [ks[0]] + ks[1..];
      if i < 0 then -1 else i + 1
  }

  function Put(a: Assoc, k: Key, v: int): Assoc
    requires |a.keys| == |a.vals|
  {
    var i := IndexOf(a.keys, k);
    if i >= 0 then Assoc(a.keys, a.vals[i := v]) else Assoc(a.keys + [k], a.vals + [v])
  }

  function Get(a: Assoc, k: Key): int
    requires |a.keys| == |a.vals|
  {
    var i := IndexOf(a.keys, k);
    if i >= 0 then a.vals[i] else -1
  }

  /** The map after a history of assignments, newest last. */
  function After(ops: seq<(Key, int)>): (a: Assoc)
    ensures |a.keys| == |a.vals|
    decreases |ops|
  {
    if ops == [] then Assoc([], [])
    else
      var last := |ops| - 1;
      Put(After(ops[..last]), ops[last].0, ops[last].1)
  }

  /** The value last assigned to `k`, if any. */
  function Latest(ops: seq<(Key, int)>, k: Key): int
    decreases |ops|
  {
    if ops == [] then -1
    else
      var last := |ops| - 1;
      if ops[last].0 == k then ops[last].1 else Latest(ops[..last], k)
  }

  function KeysOf(ops: seq<(Key, int)>): seq<Key> { seq(|ops|, i requires 0 <= i < |ops| => ops[i].0) }

  /** The distinct keys of a history in the order of their first assignment. */
  function FirstSet(ops: seq<(Key, int)>): seq<Key>
    decreases |ops|
  {
    if ops == [] then []
    else
      var last := |ops| - 1;
      var before := FirstSet(ops[..last]);
      if ops[last].0 in KeysOf(ops[..last]) then before else before + [ops[last].0]
  }

  lemma IndexUnique(ks: seq<Key>, k: Key, i: nat)
    requires Distinct(ks) && i < |ks| && ks[i] == k
    ensures IndexOf(ks, k) == i
  {
    assert ks[IndexOf(ks, k)] == ks[i];
  }

  lemma {:induction false} IndexAppend(ks: seq<Key>, x: Key, k: Key)
    ensures IndexOf(ks + [x], k) == (if IndexOf(ks, k) >= 0 then IndexOf(ks, k) else if x == k then |ks| else -1)
    decreases ks
  {
    if ks == [] {
      assert ks + [x] == [x] && [x][1..] == [];
    } else {
      assert (ks + [x])[1..] == ks[1..] + [x];
      IndexAppend(ks[1..], x, k);
    }
  }

  /** Reading after any history gives the value assigned last; keys never assigned
      read as -1; the key order is that of first assignment. */
  lemma {:induction false} HistoryRead(ops: seq<(Key, int)>, k: Key)
    ensures Get(After(ops), k) == Latest(ops, k)
    ensures Distinct(After(ops).keys) && After(ops).keys == FirstSet(ops)
    ensures k in After(ops).keys <==> k in KeysOf(ops)
    decreases |ops|
  {
    if ops != [] {
      var last := |ops| - 1;
      var before, op := ops[..last], ops[last];
      HistoryRead(before, k);
      HistoryRead(before, op.0);
      var a := After(before);
      assert KeysOf(ops) == KeysOf(before) + [op.0];
      if IndexOf(a.keys, op.0) < 0 {
        IndexAppend(a.keys, op.0, k);
      } else if k != op.0 && IndexOf(a.keys, k) >= 0 {
        assert IndexOf(a.keys, k) != IndexOf(a.keys, op.0);
      }
    }
  }

  // ---------- the runtime structure ----------

  const INITIAL_BUCKETS := 8

  class TiqMap {
    var keys: array<Key>
    var vals: array<int>
    var len: nat
    var cap: nat
    var buckets: array<int>
    var nbuckets: nat
    ghost var log: nat

    /** The load factor stays at seven tenths and every entry is reachable. */
    ghost predicate Valid()
      reads this, keys, vals, buckets
    {
      len <= cap == keys.Length == vals.Length && vals != buckets &&
      Indexed() && Distinct(keys[..len]) && len * 10 <= nbuckets * 7
    }

    ghost predicate Indexed()
      reads this, keys, buckets
    {
      nbuckets == buckets.Length == Pow2(log) && nbuckets >= INITIAL_BUCKETS && len <= keys.Length &&
      Table(buckets[..], keys[..len], len)
    }

    ghost function Contents(): (a: Assoc)
      requires Valid()
      reads this, keys, vals, buckets
      ensures |a.keys| == |a.vals|
    {
      Assoc(keys[..len], vals[..len])
    }

    constructor ()
      ensures Valid() && Contents() == Assoc([], []) && fresh(keys) && fresh(vals) && fresh(buckets)
    {
      keys, vals, len, cap := new Key[0], new int[0], 0, 0;
      nbuckets := INITIAL_BUCKETS;
      var bs := new int[INITIAL_BUCKETS](_ => -1);
      buckets := bs;
      log := 3;
      new;
      assert Pow2(3) == 8 by { assert Pow2(0) == 1 && Pow2(1) == 2 && Pow2(2) == 4; }
      EmptyTable(8, []);
      assert buckets[..] == seq(8, _ => -1);
    }

    /** The slot where a search for `k` starts: the hash masked by the bucket count. */
    method Start(k: Key) returns (b: nat)
      requires nbuckets == Pow2(log)
      ensures b == Home(nbuckets, k)
    {
      var h := ComputeHash(k);
      MaskIsMod(h, log);
      b := BitAnd(h, nbuckets - 1);
    }

    /** The next bucket, going around. */
    method NextBucket(b: nat) returns (r: nat)
      requires nbuckets == Pow2(log)
      ensures r == (b + 1) % nbuckets
    {
      MaskIsMod(b + 1, log);
      r := BitAnd(b + 1, nbuckets - 1);
    }

    /** The entry for `k`, or -1. The search ends because some bucket is empty. */
    method Find(k: Key) returns (e: int)
      requires Valid()
      ensures e == IndexOf(keys[..len], k)
    {
      ghost var ks, bs := keys[..len], buckets[..];
      ghost var hole := EmptyBucket(bs, ks, len);
      ghost var stop := Distance(nbuckets, Home(nbuckets, k), hole);
      ghost var d: nat := 0;
      SlotStart(nbuckets, k);
      var b := Start(k);
      hide Slot, Home, IndexOf;
      while true
        invariant d <= stop && b == Slot(nbuckets, Home(nbuckets, k), d) && Searched(bs, ks, k, d)
        decreases stop - d
      {
        e := buckets[b];
        if e < 0 {
          Absent(bs, ks, len, k, d);
          assert ks[..len] == ks;
          return -1;
        }
        if keys[e] == k {
          IndexUnique(ks, k, e);
          return e;
        }
        SearchOn(bs, ks, len, k, d, stop);
        b := NextBucket(b);
        d := d + 1;
      }
    }

    /** Enter entry `e`, the first one not yet in the table, into the first empty
        bucket on its path. */
    method Place(e: nat)
      requires e < keys.Length && e < nbuckets && nbuckets == buckets.Length == Pow2(log)
      requires Table(buckets[..], keys[..], e)
      modifies buckets
      ensures Table(buckets[..], keys[..], e + 1)
    {
      var k := keys[e];
      ghost var bs := buckets[..];
      ghost var hole := EmptyBucket(bs, keys[..], e);
      ghost var stop := Distance(nbuckets, Home(nbuckets, k), hole);
      ghost var d: nat := 0;
      SlotStart(nbuckets, k);
      var b := Start(k);
      assert |bs| == nbuckets && keys[..][e] == k;
      hide Slot, Home, Table, Occupied;
      while buckets[b] >= 0
        invariant d <= stop && buckets[..] == bs && b == Slot(nbuckets, Home(nbuckets, k), d) && Occupied(bs, k, d)
        decreases stop - d
      {
        PassOn(bs, k, d, stop);
        b := NextBucket(b);
        d := d + 1;
      }
      PlaceKeeps(bs, keys[..], e, d);
      buckets[b] := e;
      assert buckets[..] == bs[b := e];
    }

    /** Double the buckets and enter every entry again. */
    method Rehash()
      requires Valid()
      modifies this`buckets, this`nbuckets, this`log
      ensures Valid() && Contents() == old(Contents()) && fresh(buckets) && nbuckets == 2 * old(nbuckets)
    {
      nbuckets := nbuckets * 2;
      log := log + 1;
      buckets := new int[nbuckets](_ => -1);
      EmptyTable(nbuckets, keys[..]);
      assert buckets[..] == seq(nbuckets, _ => -1);
      var e := 0;
      while e < len
        invariant 0 <= e <= len && nbuckets == 2 * old(nbuckets) == buckets.Length == Pow2(log) && fresh(buckets)
        invariant Table(buckets[..], keys[..], e)
        invariant keys == old(keys) && vals == old(vals) && len == old(len) && keys[..] == old(keys[..]) &&
          vals[..] == old(vals[..])
      {
        Place(e);
        e := e + 1;
      }
      SameKeys(buckets[..], keys[..], keys[..len], len);
      assert keys[..len] == old(keys[..len]) && vals[..len] == old(vals[..len]);
    }

    /** Double the key and value arrays. */
    method Grow()
      requires Valid()
      modifies this`keys, this`vals, this`cap
      ensures Valid() && Contents() == old(Contents()) && len < cap
      ensures (keys == old(keys) || fresh(keys)) && (vals == old(vals) || fresh(vals))
    {
      if len == cap {
        var nc := if cap == 0 then 8 else cap * 2;
        var nk, nv := new Key[nc](_ => []), new int[nc];
        var i := 0;
        while i < len
          invariant 0 <= i <= len <= nc && nk.Length == nc == nv.Length && len <= keys.Length == vals.Length
          invariant nk[..i] == keys[..i] && nv[..i] == vals[..i]
          invariant keys[..] == old(keys[..]) && vals[..] == old(vals[..]) && buckets[..] == old(buckets[..])
        {
          nk[i], nv[i] := keys[i], vals[i];
          i := i + 1;
        }
        keys, vals, cap := nk, nv, nc;
      }
    }

    /** Assign `v` to `k`; returns the number of keys. */
    method Set(arg: KeyArg, v: int) returns (n: nat)
      requires Valid()
      modifies this, keys, vals, buckets
      ensures Valid() && Contents() == Put(old(Contents()), Text(arg), v) && n == |Contents().keys|
      ensures (keys == old(keys) || fresh(keys)) && (vals == old(vals) || fresh(vals)) &&
        (buckets == old(buckets) || fresh(buckets))
    {
      var k := Text(arg);
      var e := Find(k);
      if e >= 0 {
        vals[e] := v;
        assert vals[..len] == old(vals[..len])[e := v];
        return len;
      }
      if (len + 1) * 10 > nbuckets * 7 { Rehash(); }
      Grow();
      Append(k, v);
      n := len;
    }

    /** A new key goes behind the others. */
    method Append(k: Key, v: int)
      requires Valid() && len < cap && (len + 1) * 10 <= nbuckets * 7 && k !in keys[..len]
      modifies this`len, keys, vals, buckets
      ensures Valid() && keys[..len] == old(keys[..len]) + [k] && vals[..len] == old(vals[..len]) + [v] &&
        len == old(len) + 1
    {
      ghost var before := keys[..len];
      keys[len] := k;
      vals[len] := v;
      assert keys[..len] == before && before == keys[..][..len] && before == before[..len];
      SameKeys(buckets[..], before, keys[..], len);
      Place(len);
      len := len + 1;
      assert keys[..len] == before + [k];
      SameKeys(buckets[..], keys[..], keys[..len], len);
      assert vals[..len] == old(vals[..len]) + [v];
    }

    method Lookup(arg: KeyArg) returns (v: int)
      requires Valid()
      ensures v == Get(Contents(), Text(arg))
    {
      var e := Find(Text(arg));
      v := if e >= 0 then vals[e] else -1;
    }

    method Has(arg: KeyArg) returns (r: bool)
      requires Valid()
      ensures r <==> Text(arg) in Contents().keys
    {
      var e := Find(Text(arg));
      r := e >= 0;
    }

    /** The i-th key in insertion order; out of range the program reports it and exits. */
    method KeyAt(i: int) returns (k: Bounded<Key>)
      requires Valid()
      ensures k == if 0 <= i < |Contents().keys| then At(Contents().keys[i]) else OutOfBounds
    {
      if i < 0 || i >= len { return OutOfBounds; }
      return At(keys[i]);
    }

    method ValAt(i: int) returns (v: Bounded<int>)
      requires Valid()
      ensures v == if 0 <= i < |Contents().vals| then At(Contents().vals[i]) else OutOfBounds
    {
      if i < 0 || i >= len { return OutOfBounds; }
      return At(vals[i]);
    }
  }

  datatype Bounded<T> = At(value: T) | OutOfBounds

  /** Any history of assignments leaves the map with the latest value of every key, in
      order of first assignment. */
  method Replay(ops: seq<(Key, int)>) returns (m: TiqMap)
    ensures fresh(m) && m.Valid() && m.Contents() == After(ops)
  {
    m := new TiqMap();
    var i := 0;
    while i < |ops|
      invariant 0 <= i <= |ops| && fresh(m) && fresh(m.keys) && fresh(m.vals) && fresh(m.buckets)
      invariant m.Valid() && m.Contents() == After(ops[..i])
    {
      assert ops[..i + 1][..i] == ops[..i];
      var n := m.Set(KeyArg(ops[i].0), ops[i].1);
      i := i + 1;
    }
    assert ops[..i] == ops;
  }
}
