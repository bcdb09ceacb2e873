/** The runtime's arena and pool allocators (include/runtime_prelude.h, tiq_allocator_*).
    Addresses are numbers; 0 is the null pointer. */
module RuntimeAlloc {
  import opened Bits
  import opened Alignment

  const MAX_ALIGN: nat := 16
  const SIZE_MAX: nat := 0xFFFF_FFFF_FFFF_FFFF

  /** `a && !(a & (a - 1))`. */
  predicate PowerOfTwo(a: nat) { a > 0 && BitAnd(a, a - 1) == 0 }

  // ---------- the arena ----------

  /** The offset is rounded, not the address: the pointer is aligned as asked exactly when the
      buffer itself is. */
  lemma AlignedIff(base: nat, pos: nat, align: nat)
    requires align > 0
    ensures (base + AlignUp(pos, align)) % align == 0 <==> base % align == 0
  {
    AlignUpIs(pos, align);
    var off := AlignUp(pos, align);
    var k := off / align;
    assert off == k * align;
    var q, r := base / align, base % align;
    assert base == q * align + r;
    ModUnique(base + off, align, q + k, r) by { assert (q + k) * align == q * align + k * align; }
  }

  class BumpArena {
    const base: nat
    const cap: nat
    var pos: nat
    /** Offset and size of every allocation since the last reset. */
    ghost var live: seq<(nat, nat)>

    ghost predicate Valid()
      reads this
    {
      pos <= cap && base > 0 && InOrder(live, pos)
    }

    constructor (base: nat, cap: nat)
      requires base > 0
      ensures Valid() && this.base == base && this.cap == cap && pos == 0 && live == []
    {
      this.base, this.cap, this.pos, this.live := base, cap, 0, [];
    }

    method Alloc(n: nat, align: nat) returns (p: nat)
      requires Valid()
      modifies this
      ensures Valid()
      ensures p != 0 <==> 0 < n <= 0xFFFF_FFFF_FFFF_FFFF && align <= 0xFFFF_FFFF_FFFF_FFFF && PowerOfTwo(align) &&
                          old(pos) <= 0xFFFF_FFFF_FFFF_FFFF - (align - 1) && AlignUp(old(pos), align) + n <= cap
      ensures p == 0 ==> pos == old(pos) && live == old(live)
      ensures p != 0 ==> var off := AlignUp(old(pos), align);
        p == base + off && pos == off + n && live == old(live) + [(off, n)]
      ensures p != 0 ==>
        p + n <= base + cap && forall k :: 0 <= k < |old(live)| ==> base + old(live)[k].0 + old(live)[k].1 <= p
      ensures p != 0 ==> (p % align == 0 <==> base % align == 0)
    {
      if n == 0 || n > SIZE_MAX || align > SIZE_MAX || !PowerOfTwo(align) || pos > SIZE_MAX - (align - 1) { return 0; }
      var off := AlignUp(pos, align);
      if off > cap || n > cap - off { return 0; }
      pos := off + n;
      live := live + [(off, n)];
      AlignedIff(base, old(pos), align);
      return base + off;
    }

    method Reset()
      requires Valid()
      modifies this
      ensures Valid() && pos == 0 && live == []
    {
      pos, live := 0, [];
    }
  }

  /** Allocations one after another, below `pos`. */
  ghost predicate InOrder(live: seq<(nat, nat)>, pos: nat) {
    (forall i :: 0 <= i < |live| ==> live[i].0 + live[i].1 <= pos) &&
    forall i, k :: 0 <= i < k < |live| ==> live[i].0 + live[i].1 <= live[k].0
  }

  function Power(k: nat): nat { if k == 0 then 1 else 2 * Power(k - 1) }

  lemma {:induction false} PowersOfTwo(k: nat)
    ensures PowerOfTwo(Power(k))
  {
    if k > 0 {
      PowersOfTwo(k - 1);
      var a := Power(k - 1);
      assert 2 * a / 2 == a && (2 * a - 1) / 2 == a - 1;
    }
  }

  /** The caller of an arena whose buffer is aligned for any object, but no more, asks
      for 64-byte alignment, is served, and receives a pointer that is not aligned. */
  method OverAlignedRequest(cap: nat) returns (p: nat)
    requires cap >= 1
    ensures p != 0 && p % 64 == 16
  {
    PowersOfTwo(6);
    assert Power(3) == 8 && Power(6) == 64;
    var arena := new BumpArena(0x1010, cap);
    p := arena.Alloc(1, 64);
  }

  // ---------- the pool ----------

  /** Free blocks of the pool. */
  function FreeCount(used: seq<bool>): (r: nat)
    ensures r <= |used|
  {
    if used == [] then 0 else FreeCount(used[..|used| - 1]) + if used[|used| - 1] then 0 else 1
  }

  lemma {:induction false} FreeUpdate(used: seq<bool>, i: nat, v: bool)
    requires i < |used| && used[i] != v
    ensures FreeCount(used[i := v]) == FreeCount(used) + if v then -1 else 1
  {
    var n := |used| - 1;
    if i < n {
      FreeUpdate(used[..n], i, v);
      assert used[i := v][..n] == used[..n][i := v];
    } else {
      assert used[i := v][..n] == used[..n];
    }
  }

  /** Which block an address starts, if it is one's start. */
  function BlockAt(base: nat, block: nat, count: nat, p: nat): (r: int)
    requires block > 0
    ensures -1 <= r < count
  {
    if p < base || p >= base + block * count || (p - base) % block != 0 then -1
    else
      BlockBound(p - base, block, count);
      (p - base) / block
  }

  lemma BlockBound(d: nat, block: nat, count: nat)
    requires block > 0 && d < block * count
    ensures d / block < count
  {
    assert d == d / block * block + d % block;
    if d / block >= count { MulMono(count, d / block, block); }
  }

  /** Block starts and addresses correspond. */
  lemma BlockAtIff(base: nat, block: nat, count: nat, p: nat, i: nat)
    requires block > 0 && i < count
    ensures BlockAt(base, block, count, p) == i <==> p == base + i * block
  {
    if p == base + i * block {
      ModUnique(i * block, block, i, 0);
      MulMono(i + 1, count, block);
      assert (i + 1) * block == i * block + block;
    }
    assert p - base == (p - base) / block * block + (p - base) % block;
  }

  /** Different blocks do not overlap. */
  lemma BlocksApart(base: nat, block: nat, i: nat, k: nat)
    requires i < k
    ensures base + i * block + block <= base + k * block
  {
    MulMono(i + 1, k, block);
    assert (i + 1) * block == i * block + block;
  }

  lemma {:induction false} AndSelf(c: nat)
    ensures BitAnd(c, c) == c
    decreases c
  {
    if c > 0 { AndSelf(c / 2); }
  }

  lemma HalfPower(a: nat)
    requires PowerOfTwo(a) && a > 1
    ensures a % 2 == 0 && PowerOfTwo(a / 2)
  {
    if a % 2 == 1 {
      AndSelf(a / 2);
    } else {
      assert (a - 1) / 2 == a / 2 - 1;
    }
  }

  /** The requests a pool serves ask for alignments that divide `MAX_ALIGN`. */
  lemma {:induction false} SmallPower(a: nat)
    requires PowerOfTwo(a) && a <= MAX_ALIGN
    ensures a == 1 || a == 2 || a == 4 || a == 8 || a == 16
    decreases a
  {
    if a > 1 {
      HalfPower(a);
      SmallPower(a / 2);
    }
  }

  /** Blocks of an aligned buffer are aligned for every such request. */
  lemma BlockAligned(base: nat, block: nat, i: nat, align: nat)
    requires base % MAX_ALIGN == 0 && block % MAX_ALIGN == 0 && PowerOfTwo(align) && align <= MAX_ALIGN
    ensures (base + i * block) % align == 0
  {
    SmallPower(align);
    var c := MAX_ALIGN / align;
    assert MAX_ALIGN == c * align;
    var q := base / MAX_ALIGN + i * (block / MAX_ALIGN);
    assert base == base / MAX_ALIGN * MAX_ALIGN && block == block / MAX_ALIGN * MAX_ALIGN;
    assert base + i * block == q * MAX_ALIGN by {
      assert i * (block / MAX_ALIGN * MAX_ALIGN) == i * (block / MAX_ALIGN) * MAX_ALIGN;
    }
    ModUnique(q * MAX_ALIGN, align, q * c, 0) by { assert q * c * align == q * (c * align); }
  }

  class Pool {
    const base: nat
    const block: nat
    const used: array<bool>

    ghost predicate Valid() { base > 0 && block > 0 && block % MAX_ALIGN == 0 }

    constructor (base: nat, block: nat, count: nat)
      requires base > 0 && block > 0 && block % MAX_ALIGN == 0
      ensures Valid() && fresh(used) && used.Length == count && this.base == base && this.block == block
      ensures forall i :: 0 <= i < count ==> !used[i]
    {
      this.base, this.block := base, block;
      this.used := new bool[count](_ => false);
    }

    /** The first free block; null exactly when the request does not fit a block or none is free. */
    method Alloc(n: nat, align: nat) returns (p: nat)
      requires Valid()
      modifies used
      ensures p != 0 <==>
        0 < n <= block && n <= 0xFFFF_FFFF_FFFF_FFFF && align <= 16 && PowerOfTwo(align) &&
        exists i :: 0 <= i < used.Length && !old(used[i])
      ensures p == 0 ==> used[..] == old(used[..])
      ensures p != 0 ==> var i := BlockAt(base, block, used.Length, p);
        i >= 0 && !old(used[i]) && p == base + i * block && used[..] == old(used[..])[i := true] &&
        (forall k :: 0 <= k < i ==> old(used[k]))
      ensures p != 0 ==> FreeCount(used[..]) == old(FreeCount(used[..])) - 1
      ensures p != 0 ==> forall k :: 0 <= k < used.Length && old(used[k]) ==>
        p + block <= base + k * block || base + k * block + block <= p
      ensures p != 0 && base % 16 == 0 ==> p % align == 0
    {
      if n == 0 || n > SIZE_MAX || !PowerOfTwo(align) || n > block || align > MAX_ALIGN { return 0; }
      var i := 0;
      while i < used.Length
        invariant 0 <= i <= used.Length && forall k :: 0 <= k < i ==> used[k]
      {
        if !used[i] {
          FreeUpdate(used[..], i, true);
          BlockAtIff(base, block, used.Length, base + i * block, i);
          forall k | 0 <= k < used.Length && used[k]
            ensures base + i * block + block <= base + k * block || base + k * block + block <= base + i * block
          {
            if i < k { BlocksApart(base, block, i, k); } else { BlocksApart(base, block, k, i); }
          }
          if base % MAX_ALIGN == 0 { BlockAligned(base, block, i, align); }
          used[i] := true;
          return base + i * block;
        }
        i := i + 1;
      }
      return 0;
    }

    /** Freeing succeeds exactly for the start of a block in use, which is then free. */
    method Dealloc(p: nat) returns (ok: bool)
      requires Valid()
      modifies used
      ensures var i := BlockAt(base, block, used.Length, p);
        ok <==> p != 0 && i >= 0 && old(used[i])
      ensures !ok ==> used[..] == old(used[..])
      ensures ok ==> used[..] == old(used[..])[BlockAt(base, block, used.Length, p) := false]
      ensures ok ==> FreeCount(used[..]) == old(FreeCount(used[..])) + 1
    {
      if p == 0 || p < base || p >= base + block * used.Length { return false; }
      var d := p - base;
      if d % block != 0 { return false; }
      BlockBound(d, block, used.Length);
      var i := d / block;
      if !used[i] { return false; }
      FreeUpdate(used[..], i, false);
      used[i] := false;
      return true;
    }

    method Reset()
      modifies used
      ensures forall i :: 0 <= i < used.Length ==> !used[i]
    {
      for i := 0 to used.Length
        invariant forall k :: 0 <= k < i ==> !used[k]
      {
        used[i] := false;
      }
    }
  }
}
