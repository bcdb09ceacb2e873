/** Open addressing with linear probing (include/runtime_aux.h, tiq_map_hash,
    tiq_map_place, tiq_map_find): what a bucket array says about the entries. */
module HashTable {
  import opened Bits
  import opened Leb128

  /** C strings, without their terminator. */
  type Key = seq<Byte>

  // ---------- the hash ----------

  const FNV_OFFSET := 14695981039346656037
  const FNV_PRIME := 1099511628211

  function HashStep(h: nat, c: Byte): (r: nat)
    ensures r < TWO64
  {
    BitXor(h, c) * FNV_PRIME % TWO64
  }

  /** 64-bit FNV-1a of the bytes, from a running value. */
  function HashFrom(h: nat, k: Key): nat
    decreases k
  {
    if k == [] then h else HashFrom(HashStep(h, k[0]), k[1..])
  }

  function Hash(k: Key): nat { HashFrom(FNV_OFFSET, k) }

  method ComputeHash(k: Key) returns (h: nat)
    ensures h == Hash(k)
  {
    h := FNV_OFFSET;
    var i := 0;
    assert k[0..] == k;
    while i < |k|
      invariant 0 <= i <= |k| && HashFrom(h, k[i..]) == Hash(k)
    {
      assert k[i..][1..] == k[i + 1..];
      h := BitXor(h, k[i]) * FNV_PRIME % TWO64;
      i := i + 1;
    }
  }

  // ---------- probing ----------

  /** The bucket `d` steps after `home`, going around. */
  function Slot(n: nat, home: nat, d: nat): (r: nat)
    requires n > 0
    ensures r < n
  {
    (home + d) % n
  }

  function Home(n: nat, k: Key): (r: nat)
    requires n > 0
    ensures r < n
  {
    Hash(k) % n
  }

  /** The first `d` buckets a search for `k` visits are occupied. */
  predicate Occupied(bs: seq<int>, k: Key, d: nat)
    requires |bs| > 0
  {
    forall j: nat {:trigger Slot(|bs|, Home(|bs|, k), j)} :: j < d ==> bs[Slot(|bs|, Home(|bs|, k), j)] >= 0
  }

  /** Entry `e` is found `d` buckets after its home, with no gap before it. */
  predicate ReachedAt(bs: seq<int>, keys: seq<Key>, e: nat, d: nat)
    requires |bs| > 0 && e < |keys|
  {
    d < |bs| && bs[Slot(|bs|, Home(|bs|, keys[e]), d)] == e && Occupied(bs, keys[e], d)
  }

  ghost predicate Reached(bs: seq<int>, keys: seq<Key>, e: nat)
    requires |bs| > 0 && e < |keys|
  {
    exists d: nat :: ReachedAt(bs, keys, e, d)
  }

  /** Every bucket is empty (`-1`) or holds one of the first `n` entries, each entry is
      in at most one bucket, and each is reachable from its hash slot through
      occupied buckets. */
  ghost predicate Table(bs: seq<int>, keys: seq<Key>, n: nat) {
    |bs| > 0 && n <= |keys| &&
    (forall i :: 0 <= i < |bs| ==> -1 <= bs[i] < n) &&
    (forall i, j :: 0 <= i < |bs| && 0 <= j < |bs| && bs[i] == bs[j] && bs[i] >= 0 ==> i == j) &&
    forall e: nat :: e < n ==> Reached(bs, keys, e)
  }

  predicate Distinct(keys: seq<Key>) { forall i, j :: 0 <= i < j < |keys| ==> keys[i] != keys[j] }

  // ---------- there is always an empty bucket ----------

  lemma {:induction false} Pigeonhole(s: seq<int>, n: nat)
    requires forall i :: 0 <= i < |s| ==> 0 <= s[i] < n
    requires forall i, j :: 0 <= i < |s| && 0 <= j < |s| && s[i] == s[j] ==> i == j
    ensures |s| <= n
    decreases n
  {
    if s != [] {
      assert 0 <= s[0] < n;
      if k :| 0 <= k < |s| && s[k] == n - 1 {
        var rest := s[..k] + s[k + 1..];
        forall i | 0 <= i < |rest| ensures 0 <= rest[i] < n - 1 {
          var at := if i < k then i else i + 1;
          assert rest[i] == s[at];
        }
        forall i, j | 0 <= i < |rest| && 0 <= j < |rest| && rest[i] == rest[j] ensures i == j {
          var a, b := if i < k then i else i + 1, if j < k then j else j + 1;
          assert rest[i] == s[a] && rest[j] == s[b];
        }
        Pigeonhole(rest, n - 1);
      } else {
        Pigeonhole(s, n - 1);
      }
    }
  }

  /** A table with fewer entries than buckets has an empty bucket. */
  lemma EmptyBucket(bs: seq<int>, keys: seq<Key>, n: nat) returns (i: nat)
    requires Table(bs, keys, n) && n < |bs|
    ensures i < |bs| && bs[i] < 0
  {
    if forall j :: 0 <= j < |bs| ==> bs[j] >= 0 {
      Pigeonhole(bs, n);
      assert false;
    } else {
      i :| 0 <= i < |bs| && bs[i] < 0;
    }
  }

  /** How far bucket `i` is from `home`. */
  lemma Distance(n: nat, home: nat, i: nat) returns (d: nat)
    requires home < n && i < n
    ensures d < n && Slot(n, home, d) == i
  {
    d := if i >= home then i - home else i + n - home;
    if i < home {
      ModUnique(home + d, n, 1, i);
    }
  }

  /** Quotient and remainder as numbers of their own. */
  lemma Divide(x: nat, n: nat) returns (q: nat, m: nat)
    requires n > 0
    ensures x == q * n + m && m < n && x % n == m
  {
    q, m := x / n, x % n;
  }

  lemma StepMod(x: nat, n: nat, q: nat, m: nat)
    requires x == q * n + m && m < n
    ensures (x + 1) % n == if m + 1 < n then m + 1 else 0
  {
    if m + 1 < n {
      ModUnique(x + 1, n, q, m + 1);
    } else {
      assert (q + 1) * n == q * n + n;
      ModUnique(x + 1, n, q + 1, 0);
    }
  }

  lemma SlotIs(n: nat, home: nat, d: nat)
    requires n > 0
    ensures Slot(n, home, d) == (home + d) % n
  {
  }

  lemma SlotNext(n: nat, home: nat, d: nat)
    requires n > 0
    ensures Slot(n, home, d + 1) == (Slot(n, home, d) + 1) % n
  {
    SlotIs(n, home, d);
    SlotIs(n, home, d + 1);
    hide Slot;
    var q, m := Divide(home + d, n);
    StepMod(home + d, n, q, m);
    StepMod(m, n, 0, m);
  }

  // ---------- searching ----------

  /** The first `d` buckets a search for `k` visits hold entries for other keys. */
  predicate Searched(bs: seq<int>, keys: seq<Key>, k: Key, d: nat)
    requires |bs| > 0 && forall i :: 0 <= i < |bs| ==> bs[i] < |keys|
  {
    forall j: nat {:trigger Slot(|bs|, Home(|bs|, k), j)} :: j < d ==>
      bs[Slot(|bs|, Home(|bs|, k), j)] >= 0 && keys[bs[Slot(|bs|, Home(|bs|, k), j)]] != k
  }

  /** One more bucket with another key in it; the empty bucket lies further on. */
  lemma SearchOn(bs: seq<int>, keys: seq<Key>, n: nat, k: Key, d: nat, stop: nat)
    requires Table(bs, keys, n) && Searched(bs, keys, k, d) && d <= stop && bs[Slot(|bs|, Home(|bs|, k), stop)] < 0
    requires bs[Slot(|bs|, Home(|bs|, k), d)] >= 0 && keys[bs[Slot(|bs|, Home(|bs|, k), d)]] != k
    ensures Searched(bs, keys, k, d + 1) && d < stop
    ensures Slot(|bs|, Home(|bs|, k), d + 1) == (Slot(|bs|, Home(|bs|, k), d) + 1) % |bs|
  {
    SlotNext(|bs|, Home(|bs|, k), d);
  }

  lemma PassOn(bs: seq<int>, k: Key, d: nat, stop: nat)
    requires |bs| > 0 && Occupied(bs, k, d) && d <= stop && bs[Slot(|bs|, Home(|bs|, k), stop)] < 0
    requires bs[Slot(|bs|, Home(|bs|, k), d)] >= 0
    ensures Occupied(bs, k, d + 1) && d < stop
    ensures Slot(|bs|, Home(|bs|, k), d + 1) == (Slot(|bs|, Home(|bs|, k), d) + 1) % |bs|
  {
    SlotNext(|bs|, Home(|bs|, k), d);
  }

  lemma SlotStart(n: nat, k: Key)
    requires n > 0
    ensures Slot(n, Home(n, k), 0) == Home(n, k)
  {
    hide Home;
    ModUnique(Home(n, k), n, 0, Home(n, k));
  }

  /** A search that reaches an empty bucket without having met the key proves the key
      is absent. */
  lemma Absent(bs: seq<int>, keys: seq<Key>, n: nat, k: Key, d: nat)
    requires Table(bs, keys, n) && Searched(bs, keys, k, d)
    requires bs[Slot(|bs|, Home(|bs|, k), d)] < 0
    ensures k !in keys[..n]
  {
    forall e: nat | e < n ensures keys[e] != k {
      assert Reached(bs, keys, e);
      var at: nat :| ReachedAt(bs, keys, e, at);
      var mine, its := Home(|bs|, k), Home(|bs|, keys[e]);
      if at < d {
        assert mine == its ==> keys[bs[Slot(|bs|, mine, at)]] != k;
      } else {
        assert bs[Slot(|bs|, its, d)] >= 0;
        assert mine != its;
      }
    }
  }

  // ---------- placing ----------

  /** Filling the first empty bucket on an entry's path adds the entry to the table. */
  lemma PlaceKeeps(bs: seq<int>, keys: seq<Key>, e: nat, d: nat)
    requires Table(bs, keys, e) && e < |keys| && d < |bs|
    requires bs[Slot(|bs|, Home(|bs|, keys[e]), d)] < 0 && Occupied(bs, keys[e], d)
    ensures Table(bs[Slot(|bs|, Home(|bs|, keys[e]), d) := e], keys, e + 1)
  {
    var b := Slot(|bs|, Home(|bs|, keys[e]), d);
    var cs := bs[b := e];
    forall x: nat | x < e + 1 ensures Reached(cs, keys, x) {
      if x == e {
        assert ReachedAt(cs, keys, e, d);
      } else {
        assert Reached(bs, keys, x);
        var at: nat :| ReachedAt(bs, keys, x, at);
        assert ReachedAt(cs, keys, x, at);
      }
    }
  }

  lemma EmptyTable(n: nat, keys: seq<Key>)
    requires n > 0
    ensures Table(seq(n, _ => -1), keys, 0)
  {
  }

  /** Only the first `n` keys matter. */
  lemma SameKeys(bs: seq<int>, keys: seq<Key>, more: seq<Key>, n: nat)
    requires Table(bs, keys, n) && n <= |more| && keys[..n] == more[..n]
    ensures Table(bs, more, n)
  {
    forall e: nat | e < n ensures Reached(bs, more, e) {
      assert Reached(bs, keys, e);
      var at: nat :| ReachedAt(bs, keys, e, at);
      assert keys[e] == keys[..n][e] == more[..n][e] == more[e];
      assert ReachedAt(bs, more, e, at);
    }
  }
}
