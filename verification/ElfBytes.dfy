/** Little-endian fields, alignment padding and the two-phase layout shared by the ELF
    writers (src/elf_obj.c and src/elf_link.c, Buf, buf_le16/32/64, buf_pad, align_up). */
module ElfBytes {
  import opened Bits
  import opened Leb128
  import opened Slices
  import opened Alignment

  // ---------- numbers ----------

  function Pow256(n: nat): (r: nat)
    ensures r > 0
  {
    if n == 0 then 1 else 256 * Pow256(n - 1)
  }

  function Le(v: nat, n: nat): (r: seq<Byte>)
    ensures |r| == n
  {
    if n == 0 then [] else [v % 256] + Le(v / 256, n - 1)
  }

  function FromLe(s: seq<Byte>): (r: nat)
    ensures r < Pow256(|s|)
  {
    if s == [] then 0 else s[0] + 256 * FromLe(s[1..])
  }

  /** Writing truncates to the field's width; reading gives the rest back. */
  lemma {:induction false} LeRoundTrip(v: nat, n: nat)
    ensures FromLe(Le(v, n)) == v % Pow256(n)
  {
    if n > 0 {
      LeRoundTrip(v / 256, n - 1);
      assert Le(v, n)[1..] == Le(v / 256, n - 1);
      LowByte(v, Pow256(n - 1));
    }
  }

  /** The remainder of a number, from its lowest byte and the remainder of the rest. */
  lemma LowByte(v: nat, m: nat)
    requires m > 0
    ensures v % (256 * m) == v / 256 % m * 256 + v % 256
  {
    var q, r := v / 256 / m, v / 256 % m;
    assert v == v / 256 * 256 + v % 256 && v / 256 == q * m + r;
    assert v == q * (256 * m) + (r * 256 + v % 256);
    ModUnique(v, 256 * m, q, r * 256 + v % 256);
  }

  lemma Pow256Is()
    ensures Pow256(1) == 256 && Pow256(2) == 0x1_0000 && Pow256(4) == TWO32 && Pow256(8) == TWO64
  {
    assert Pow256(3) == 256 * Pow256(2) && Pow256(4) == 256 * Pow256(3);
    assert Pow256(5) == 256 * Pow256(4) && Pow256(6) == 256 * Pow256(5);
    assert Pow256(7) == 256 * Pow256(6);
  }

  // ---------- records of fields ----------

  datatype Field = Field(width: nat, value: nat)

  predicate Fits(f: Field) { f.value < Pow256(f.width) }

  function Pack(fs: seq<Field>): seq<Byte> { if fs == [] then [] else Le(fs[0].value, fs[0].width) + Pack(fs[1..]) }

  /** Bytes before field `k`. */
  function Before(fs: seq<Field>, k: nat): nat
    requires k <= |fs|
  {
    if k == 0 then 0 else Before(fs, k - 1) + fs[k - 1].width
  }

  function ReadLe(out: seq<Byte>, off: nat, n: nat): (r: nat)
    requires off + n <= |out|
    ensures r < Pow256(n)
  {
    FromLe(out[off..off + n])
  }

  lemma {:induction false} BeforeTail(fs: seq<Field>, k: nat)
    requires fs != [] && 1 <= k <= |fs|
    ensures Before(fs, k) == fs[0].width + Before(fs[1..], k - 1)
  {
    if k > 1 { BeforeTail(fs, k - 1); }
  }

  lemma {:induction false} PackLength(fs: seq<Field>)
    ensures |Pack(fs)| == Before(fs, |fs|)
  {
    if fs != [] {
      PackLength(fs[1..]);
      BeforeTail(fs, |fs|);
    }
  }

  /** A field read back at its place in a packed record. */
  lemma {:induction false} FieldReads(out: seq<Byte>, off: nat, fs: seq<Field>, k: nat)
    requires k < |fs| && At(out, off, Pack(fs)) && Fits(fs[k])
    ensures off + Before(fs, k) + fs[k].width <= |out| && ReadLe(out, off + Before(fs, k), fs[k].width) == fs[k].value
    decreases k
  {
    var first := Le(fs[0].value, fs[0].width);
    AtConcat(out, off, first, Pack(fs[1..]));
    if k == 0 {
      LeRoundTrip(fs[0].value, fs[0].width);
      ModUnique(fs[0].value, Pow256(fs[0].width), 0, fs[0].value);
    } else {
      BeforeTail(fs, k);
      FieldReads(out, off + fs[0].width, fs[1..], k - 1);
    }
  }

  // ---------- two phases: offsets from sizes, then bytes ----------

  /** A part of the file, placed at the next multiple of `align`. */
  datatype Part = Part(align: nat, bytes: seq<Byte>)

  predicate Aligned(parts: seq<Part>) { forall k :: 0 <= k < |parts| ==> parts[k].align > 0 }

  function Zeros(n: nat): (r: seq<Byte>)
    ensures |r| == n
  {
    seq(n, _ => 0)
  }

  function Padded(out: seq<Byte>, a: nat): (r: seq<Byte>)
    requires a > 0
    ensures |r| == AlignUp(|out|, a) && r[..|out|] == out
  {
    out + Zeros(AlignUp(|out|, a) - |out|)
  }

  /** What the emission phase writes after `out`. */
  function Assemble(out: seq<Byte>, parts: seq<Part>): seq<Byte>
    requires Aligned(parts)
    decreases |parts|
  {
    if parts == [] then out else Assemble(Padded(out, parts[0].align) + parts[0].bytes, parts[1..])
  }

  /** What the layout phase computes: where part `k` goes if emission is at `cur`. */
  function PlaceOf(cur: nat, parts: seq<Part>, k: nat): nat
    requires Aligned(parts) && k < |parts|
    decreases k
  {
    if k == 0 then AlignUp(cur, parts[0].align)
    else PlaceOf(AlignUp(cur, parts[0].align) + |parts[0].bytes|, parts[1..], k - 1)
  }

  function EndOf(cur: nat, parts: seq<Part>): nat
    requires Aligned(parts)
    decreases |parts|
  {
    if parts == [] then cur else EndOf(AlignUp(cur, parts[0].align) + |parts[0].bytes|, parts[1..])
  }

  lemma {:induction false} AssembleKeeps(out: seq<Byte>, parts: seq<Part>)
    requires Aligned(parts)
    ensures |out| <= |Assemble(out, parts)| == EndOf(|out|, parts) && Assemble(out, parts)[..|out|] == out
    decreases |parts|
  {
    if parts != [] {
      var next := Padded(out, parts[0].align) + parts[0].bytes;
      AssembleKeeps(next, parts[1..]);
      var all := Assemble(out, parts);
      assert all[..|out|] == all[..|next|][..|out|] == next[..|out|] == out;
    }
  }

  /** Every part is found at the offset computed beforehand. */
  lemma {:induction false} PlacedAt(out: seq<Byte>, parts: seq<Part>, k: nat)
    requires Aligned(parts) && k < |parts|
    ensures At(Assemble(out, parts), PlaceOf(|out|, parts, k), parts[k].bytes)
    decreases k
  {
    var pad := Padded(out, parts[0].align);
    var next := pad + parts[0].bytes;
    if k == 0 {
      AssembleKeeps(next, parts[1..]);
      var all := Assemble(out, parts);
      assert all[|pad|..|next|] == all[..|next|][|pad|..] == parts[0].bytes;
    } else {
      PlacedAt(next, parts[1..], k - 1);
    }
  }

  /** Parts do not overlap and come in order. */
  lemma {:induction false} PlacesApart(cur: nat, parts: seq<Part>, j: nat, k: nat)
    requires Aligned(parts) && j < k < |parts|
    ensures cur <= PlaceOf(cur, parts, j) && PlaceOf(cur, parts, j) + |parts[j].bytes| <= PlaceOf(cur, parts, k)
    decreases k
  {
    var next := AlignUp(cur, parts[0].align) + |parts[0].bytes|;
    if j == 0 {
      PlaceAfter(next, parts[1..], k - 1);
    } else {
      PlacesApart(next, parts[1..], j - 1, k - 1);
    }
  }

  lemma {:induction false} PlaceAfter(cur: nat, parts: seq<Part>, k: nat)
    requires Aligned(parts) && k < |parts|
    ensures cur <= PlaceOf(cur, parts, k)
    decreases k
  {
    if k > 0 { PlaceAfter(AlignUp(cur, parts[0].align) + |parts[0].bytes|, parts[1..], k - 1); }
  }

  /** The next place, from the previous one. */
  lemma {:induction false} PlaceNext(cur: nat, parts: seq<Part>, k: nat)
    requires Aligned(parts) && k + 1 < |parts|
    ensures PlaceOf(cur, parts, k + 1) == AlignUp(PlaceOf(cur, parts, k) + |parts[k].bytes|, parts[k + 1].align)
    decreases k
  {
    if k > 0 { PlaceNext(AlignUp(cur, parts[0].align) + |parts[0].bytes|, parts[1..], k - 1); }
  }

  lemma {:induction false} EndAfterLast(cur: nat, parts: seq<Part>)
    requires Aligned(parts) && parts != []
    ensures EndOf(cur, parts) == PlaceOf(cur, parts, |parts| - 1) + |parts[|parts| - 1].bytes|
    decreases |parts|
  {
    var next := AlignUp(cur, parts[0].align) + |parts[0].bytes|;
    if |parts| > 1 {
      EndAfterLast(next, parts[1..]);
    }
  }

  lemma {:induction false} AssembleOneMore(out: seq<Byte>, parts: seq<Part>, p: Part)
    requires Aligned(parts) && p.align > 0
    ensures Assemble(out, parts + [p]) == Padded(Assemble(out, parts), p.align) + p.bytes
    decreases |parts|
  {
    if parts == [] {
      assert ([p])[1..] == [];
      assert Assemble(out, [p]) == Assemble(Padded(out, p.align) + p.bytes, []);
      assert parts + [p] == [p];
    } else {
      assert (parts + [p])[1..] == parts[1..] + [p];
      AssembleOneMore(Padded(out, parts[0].align) + parts[0].bytes, parts[1..], p);
    }
  }

  // ---------- the output buffer ----------

  class Buf {
    var bytes: seq<Byte>

    constructor ()
      ensures bytes == []
    {
      bytes := [];
    }

    method Put(s: seq<Byte>)
      modifies this
      ensures bytes == old(bytes) + s
    {
      bytes := bytes + s;
    }

    method Pad(a: nat)
      requires a > 0
      modifies this
      ensures bytes == Padded(old(bytes), a)
    {
      ghost var was, n := bytes, 0;
      AlignUpIs(|was|, a);
      while |bytes| % a != 0
        invariant bytes == was + Zeros(n) && |was| + n <= AlignUp(|was|, a)
        decreases AlignUp(|was|, a) - |bytes|
      {
        assert |bytes| != AlignUp(|was|, a);
        assert was + Zeros(n) + [0] == was + Zeros(n + 1);
        bytes := bytes + [0];
        n := n + 1;
      }
      AlignUpUnique(|was|, a, |bytes|);
    }

    /** Pad, then put: the next part. */
    method PutPart(ghost start: seq<Byte>, ghost done: seq<Part>, p: Part)
      requires Aligned(done) && p.align > 0 && bytes == Assemble(start, done)
      modifies this
      ensures Aligned(done + [p]) && bytes == Assemble(start, done + [p])
    {
      AssembleOneMore(start, done, p);
      Pad(p.align);
      Put(p.bytes);
    }
  }
}
