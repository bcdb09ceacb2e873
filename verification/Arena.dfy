/** The compiler's bump arena (src/arena.c). A pointer is a block's bytes with an offset. */
module Arena {
  import opened Alignment
  import opened Leb128

  const BLOCK_SIZE: nat := 65536
  const ALIGN: nat := 16

  datatype Block = Block(data: array<Byte>, used: nat)

  datatype Ptr = Null | Ptr(data: array<Byte>, off: nat)

  /** A live allocation, with the size reserved for it. */
  datatype Region = Region(data: array<Byte>, off: nat, size: nat)

  predicate Apart(a: Region, b: Region) { a.data != b.data || a.off + a.size <= b.off || b.off + b.size <= a.off }

  /** The smallest positive multiple of 16 that holds `size` bytes. */
  function Reserved(size: nat): (r: nat)
    ensures r >= size && r > 0 && r % 16 == 0 && r < (if size > 0 then size else 1) + 16
  {
    AlignUpIs(if size > 0 then size else 1, ALIGN);
    AlignUp(if size > 0 then size else 1, ALIGN)
  }

  // ---------- soundness of the bookkeeping ----------

  predicate BlockOk(b: Block) { b.used <= b.data.Length && b.used % ALIGN == 0 }

  predicate RegionOk(r: Region) { r.off % ALIGN == 0 && r.size % ALIGN == 0 && r.size > 0 }

  predicate Holds(b: Block, r: Region) { b.data == r.data && r.off + r.size <= b.used }

  ghost predicate Distinct(blocks: seq<Block>)
      { forall i, k :: 0 <= i < k < |blocks| ==> blocks[i].data != blocks[k].data }

  /** Live regions are aligned, below the used mark of some block, and pairwise apart. */
  ghost predicate Sound(blocks: seq<Block>, live: set<Region>) {
    Distinct(blocks) &&
    (forall i :: 0 <= i < |blocks| ==> BlockOk(blocks[i])) &&
    (forall r :: r in live ==> RegionOk(r) && exists i :: 0 <= i < |blocks| && Holds(blocks[i], r)) &&
    forall a, b :: a in live && b in live && a != b ==> Apart(a, b)
  }

  lemma SumAligned(a: nat, b: nat)
    requires a % ALIGN == 0 && b % ALIGN == 0
    ensures (a + b) % ALIGN == 0
  {
  }

  /** A fresh block in front. */
  lemma PushKeeps(blocks: seq<Block>, live: set<Region>, b: Block)
    requires Sound(blocks, live) && BlockOk(b) && forall i :: 0 <= i < |blocks| ==> blocks[i].data != b.data
    ensures Sound([b] + blocks, live)
  {
    var more := [b] + blocks;
    forall r | r in live ensures exists i :: 0 <= i < |more| && Holds(more[i], r) {
      var i :| 0 <= i < |blocks| && Holds(blocks[i], r);
      assert more[i + 1] == blocks[i];
    }
  }

  /** Bumping the newest block gives a region apart from all live ones. */
  lemma BumpKeeps(blocks: seq<Block>, live: set<Region>, n: nat)
    requires Sound(blocks, live) && blocks != [] && n > 0 && n % ALIGN == 0 &&
      blocks[0].used + n <= blocks[0].data.Length
    ensures var head := blocks[0];
      var r := Region(head.data, head.used, n);
      (forall a :: a in live ==> Apart(a, r)) && r !in live &&
      Sound(blocks[0 := Block(head.data, head.used + n)], live + {r})
  {
    var head := blocks[0];
    var r := Region(head.data, head.used, n);
    var now := blocks[0 := Block(head.data, head.used + n)];
    SumAligned(head.used, n);
    forall a | a in live ensures Apart(a, r) && a != r && exists i :: 0 <= i < |now| && Holds(now[i], a) {
      var i :| 0 <= i < |blocks| && Holds(blocks[i], a);
      assert i > 0 ==> blocks[0].data != blocks[i].data;
      assert Holds(now[i], a);
    }
    assert Holds(now[0], r);
  }

  /** Growing the newest region in place. */
  lemma GrowKeeps(blocks: seq<Block>, live: set<Region>, r: Region, size: nat)
    requires Sound(blocks, live) && blocks != [] && r in live && r.data == blocks[0].data &&
      r.off + r.size == blocks[0].used
    requires size >= r.size && size % ALIGN == 0 && r.off + size <= blocks[0].data.Length
    ensures Sound(blocks[0 := Block(r.data, r.off + size)], live - {r} + {Region(r.data, r.off, size)})
  {
    var now, grown := blocks[0 := Block(r.data, r.off + size)], Region(r.data, r.off, size);
    SumAligned(r.off, size);
    forall a | a in live && a != r ensures Apart(a, grown) && exists i :: 0 <= i < |now| && Holds(now[i], a) {
      var i :| 0 <= i < |blocks| && Holds(blocks[i], a);
      assert Apart(a, r);
      assert i > 0 ==> blocks[0].data != blocks[i].data;
      assert Holds(now[i], a);
    }
    assert Holds(now[0], grown);
  }

  ghost function Arrays(blocks: seq<Block>): set<array<Byte>> { set i | 0 <= i < |blocks| :: blocks[i].data }

  lemma HeldArray(blocks: seq<Block>, live: set<Region>, r: Region)
    requires Sound(blocks, live) && r in live
    ensures r.data in Arrays(blocks) && r.off + r.size <= r.data.Length
  {
    var i :| 0 <= i < |blocks| && Holds(blocks[i], r);
    assert BlockOk(blocks[i]);
  }

  /** The allocation at `p` is the newest, and there is room behind it. */
  predicate Extensible(blocks: seq<Block>, p: Ptr, oldSize: nat, newSize: nat)
    requires p.Ptr?
  {
    blocks != [] && p.data == blocks[0].data && p.off + AlignUp(oldSize, 16) == blocks[0].used &&
    p.off + AlignUp(newSize, 16) <= p.data.Length
  }

  /** If the pointer's rounded end is the used mark, the region is that long and can grow. */
  lemma InPlace(blocks: seq<Block>, live: set<Region>, r: Region, p: Ptr, oldSize: nat, newSize: nat)
    requires Sound(blocks, live) && r in live && oldSize <= r.size && oldSize < newSize
    requires p.Ptr? && r.data == p.data && r.off == p.off && Extensible(blocks, p, oldSize, newSize)
    ensures AlignUp(newSize, 16) == Reserved(newSize)
    ensures Sound(blocks[0 := Block(p.data, p.off + AlignUp(newSize, 16))],
      live - {r} + {Region(p.data, p.off, Reserved(newSize))})
  {
    AlignUpIs(oldSize, ALIGN);
    var i :| 0 <= i < |blocks| && Holds(blocks[i], r);
    assert i > 0 ==> blocks[0].data != blocks[i].data;
    AlignUpMono(oldSize, newSize);
    hide AlignUp, Reserved;
    assert r.size == AlignUp(oldSize, ALIGN);
    GrowKeeps(blocks, live, r, AlignUp(newSize, ALIGN));
  }

  lemma NonEmpty(blocks: seq<Block>, live: set<Region>, r: Region)
    requires Sound(blocks, live) && r in live
    ensures r.size > 0
  {
  }

  lemma NewPlace(r: Region, n: Region)
    requires Apart(r, n) && r.size > 0 && n.size > 0
    ensures r.data != n.data || r.off != n.off
  {
  }

  // ---------- the arena ----------

  class Arena {
    /** Newest block first. */
    var blocks: seq<Block>
    var blockCount: nat
    ghost var live: set<Region>

    ghost predicate Valid()
      reads this
    {
      blockCount == |blocks| && Sound(blocks, live)
    }

    constructor ()
      ensures Valid() && blocks == [] && live == {}
    {
      blocks, blockCount, live := [], 0, {};
    }

    /** Room for `size` bytes apart from everything live, in a new block exactly when the newest is full. */
    method Alloc(size: nat) returns (p: Ptr)
      requires Valid()
      modifies this
      ensures Valid() && p.Ptr? && p.off % 16 == 0 && p.off + size <= p.data.Length
      ensures live == old(live) + {Region(p.data, p.off, Reserved(size))}
      ensures forall r :: r in old(live) ==> Apart(r, Region(p.data, p.off, Reserved(size)))
      ensures if old(blocks != [] && blocks[0].used + Reserved(size) <= blocks[0].data.Length)
              then blocks == old(blocks)[0 := Block(p.data, p.off + Reserved(size))] && p.data == old(blocks)[0].data
              else fresh(p.data) && p.off == 0 && blocks == [Block(p.data, Reserved(size))] + old(blocks)
      ensures fresh(p.data) ==> p.data.Length == if Reserved(size) > 65536 then Reserved(size) else 65536
    {
      var n := Reserved(size);
      if blocks == [] || blocks[0].used + n > blocks[0].data.Length {
        var data := new Byte[if n > BLOCK_SIZE then n else BLOCK_SIZE];
        FreshApart(data);
        PushKeeps(blocks, live, Block(data, 0));
        blocks := [Block(data, 0)] + blocks;
        blockCount := blockCount + 1;
      }
      var head := blocks[0];
      BumpKeeps(blocks, live, n);
      p := Ptr(head.data, head.used);
      blocks := blocks[0 := Block(head.data, head.used + n)];
      live := live + {Region(head.data, head.used, n)};
    }

    /** A new array is none of the blocks'. */
    twostate lemma FreshApart(new data: array<Byte>)
      requires fresh(data)
      ensures forall i :: 0 <= i < |old(blocks)| ==> old(blocks)[i].data != data
    {
    }

    /** Grow the live region `r` at `p`, of which the first `oldSize` bytes matter: in place when it is
        the newest and there is room, else by copying. A null pointer asks for a new region. */
    method Realloc(p: Ptr, oldSize: nat, newSize: nat, ghost r: Region) returns (q: Ptr)
      requires Valid() && (p.Ptr? ==> r in live && r.data == p.data && r.off == p.off && oldSize <= r.size)
      modifies this, Arrays(blocks)
      ensures Valid() && q.Ptr?
      ensures p.Null? ==> live == old(live) + {Region(q.data, q.off,
        Reserved(newSize))} && q.off + newSize <= q.data.Length
      ensures p.Null? ==> forall a :: a in old(live) ==> Apart(a, Region(q.data, q.off, Reserved(newSize)))
      ensures p.Ptr? ==> p.off + oldSize <= p.data.Length && q.off + oldSize <= q.data.Length &&
                         q.data[q.off..q.off + oldSize] == old(p.data[p.off..p.off + oldSize])
      ensures p.Ptr? && newSize <= oldSize ==> q == p && live == old(live)
      ensures p.Ptr? && newSize > oldSize ==>
        (q == p <==> Extensible(old(blocks), p, oldSize, newSize)) &&
        live == old(live) - (if q == p then {r} else {}) + {Region(q.data, q.off, Reserved(newSize))}
      ensures forall a :: a in old(live) && (p.Null? || a != r) ==> a in live && a.off + a.size <= a.data.Length
      ensures forall a :: a in old(live) && (p.Null? || a != r) ==>
        forall k :: a.off <= k < a.off + a.size ==> a.data[k] == old(a.data[k])
    {
      hide Sound, Reserved, AlignUp, Holds, Distinct, BlockOk, RegionOk;
      forall a | a in live ensures a.data in Arrays(blocks) &&
        a.off + a.size <= a.data.Length { HeldArray(blocks, live, a); }
      if p.Null? {
        q := Alloc(newSize);
        return;
      }
      if newSize <= oldSize { return p; }
      var oldAligned, newAligned := AlignUp(oldSize, ALIGN), AlignUp(newSize, ALIGN);
      if blocks != [] && p.data == blocks[0].data && p.off + oldAligned == blocks[0].used &&
         p.off + newAligned <= blocks[0].data.Length {
        InPlace(blocks, live, r, p, oldSize, newSize);
        blocks := blocks[0 := Block(p.data, p.off + newAligned)];
        live := live - {r} + {Region(p.data, p.off, newAligned)};
        return p;
      }
      q := Move(p, oldSize, newSize, r);
    }

    /** A new region with the old bytes; the old region stays as it is. */
    method Move(p: Ptr, oldSize: nat, newSize: nat, ghost r: Region) returns (q: Ptr)
      requires Valid() && p.Ptr? && r in live && r.data == p.data && r.off == p.off && oldSize <= r.size
      requires oldSize <= newSize
      modifies this, Arrays(blocks)
      ensures Valid() && q.Ptr? && q != p && live == old(live) + {Region(q.data, q.off, Reserved(newSize))}
      ensures p.off + oldSize <= p.data.Length && q.off + oldSize <= q.data.Length &&
        q.data[q.off..q.off + oldSize] == old(p.data[p.off..p.off + oldSize])
      ensures forall a :: a in old(live) ==>
        a.off + a.size <= a.data.Length && forall k :: a.off <= k < a.off + a.size ==> a.data[k] == old(a.data[k])
    {
      hide Sound, Reserved, AlignUp, Holds, Distinct, BlockOk, RegionOk;
      forall a | a in live ensures a.data in Arrays(blocks) &&
        a.off + a.size <= a.data.Length { HeldArray(blocks, live, a); }
      NonEmpty(blocks, live, r);
      q := Alloc(newSize);
      NewPlace(r, Region(q.data, q.off, Reserved(newSize)));
      CopyBytes(p, q, oldSize, Reserved(newSize));
    }

    /** Keep the newest block only, empty. */
    method Reset()
      requires Valid()
      modifies this
      ensures Valid() && live == {}
      ensures blocks == if old(blocks) == [] then [] else [Block(old(blocks)[0].data, 0)]
    {
      if blocks != [] {
        blocks := [Block(blocks[0].data, 0)];
        blockCount := 1;
      }
      live := {};
    }
  }

  lemma AlignUpMono(a: nat, b: nat)
    requires a <= b
    ensures AlignUp(a, ALIGN) <= AlignUp(b, ALIGN) && AlignUp(b, ALIGN) % ALIGN == 0 &&
      (b > 0 ==> AlignUp(b, ALIGN) == Reserved(b))
  {
    AlignUpIs(a, ALIGN);
    AlignUpIs(b, ALIGN);
  }

  method CopyBytes(p: Ptr, q: Ptr, n: nat, ghost room: nat)
    requires p.Ptr? && q.Ptr? && p.off + n <= p.data.Length && q.off + n <= q.data.Length && n <= room
    requires p.data != q.data || p.off + n <= q.off || q.off + room <= p.off
    modifies q.data
    ensures q.data[q.off..q.off + n] == old(p.data[p.off..p.off + n])
    ensures forall k :: 0 <= k < q.data.Length && !(q.off <= k < q.off + n) ==> q.data[k] == old(q.data[k])
  {
    ghost var src := p.data[p.off..p.off + n];
    var i := 0;
    while i < n
      invariant 0 <= i <= n
      invariant forall k :: q.off <= k < q.off + i ==> q.data[k] == src[k - q.off]
      invariant forall k :: p.off <= k < p.off + n ==> p.data[k] == src[k - p.off]
      invariant forall k :: 0 <= k < q.data.Length && !(q.off <= k < q.off + i) ==> q.data[k] == old(q.data[k])
    {
      q.data[q.off + i] := p.data[p.off + i];
      i := i + 1;
    }
  }
}
