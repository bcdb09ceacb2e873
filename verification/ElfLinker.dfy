/** The linker's loops (src/elf_link.c, link_elf_exec up to relocation). */
module ElfLinker {
  import opened Bits
  import opened Leb128
  import opened Slices
  import opened ElfBytes
  import opened ElfTables
  import opened ElfLink
  import ElfObj
  import ElfRead
  import ElfObjWriter

  /** Where each object's section starts in the combined one, and its total size. */
  method SumSizes(objs: seq<Obj>, which: int) returns (offs: seq<nat>, total: nat)
    ensures |offs| == |objs| && total == Total(objs, which)
    ensures forall o :: 0 <= o < |objs| ==> offs[o] == Base(objs, which, o)
  {
    offs, total := [], 0;
    var o := 0;
    while o < |objs|
      invariant 0 <= o <= |objs| && |offs| == o && total == Base(objs, which, o)
      invariant forall i :: 0 <= i < o ==> offs[i] == Base(objs, which, i)
    {
      offs := offs + [total];
      total := total + SizeIn(objs[o].sections, which);
      o := o + 1;
    }
  }

  method Combine(objs: seq<Obj>, which: int) returns (bytes: seq<Byte>)
    ensures bytes == All(objs, which)
  {
    bytes := [];
    var o := 0;
    while o < |objs|
      invariant 0 <= o <= |objs| && bytes == Combined(objs, which, o)
    {
      bytes := bytes + BytesIn(objs[o].sections, which);
      o := o + 1;
    }
  }

  method BuildStubs(machine: nat, l: Layout, n: nat) returns (bytes: seq<Byte>)
    ensures bytes == Stubs(machine, l, n)
  {
    hide Stub;
    bytes := [];
    var i := 0;
    while i < n
      invariant 0 <= i <= n && bytes == Stubs(machine, l, i)
    {
      bytes := bytes + Stub(machine, l, i);
      i := i + 1;
    }
  }

  /** The dynamic string table and each external's offset in it. */
  method BuildDynstr(ext: seq<seq<Byte>>) returns (bytes: seq<Byte>, offs: seq<nat>)
    ensures bytes == StrTab(DynNames(ext)) && |offs| == |ext|
    ensures forall i :: 0 <= i < |ext| ==> offs[i] == NameOff(DynNames(ext), i + 1)
  {
    hide StrTab;
    ghost var names := DynNames(ext);
    bytes, offs := [0] + Libc + [0], [];
    LibcFirst(ext);
    var i := 0;
    while i < |ext|
      invariant 0 <= i <= |ext| && |offs| == i && bytes == StrTab(names[..i + 1])
      invariant forall k :: 0 <= k < i ==> offs[k] == NameOff(names, k + 1)
    {
      offs := offs + [|bytes|];
      ElfObjWriter.StrTabMore(names[..i + 1], names[i + 1]);
      assert names[..i + 2] == names[..i + 1] + [names[i + 1]];
      bytes := bytes + ext[i] + [0];
      i := i + 1;
    }
    assert names[..i + 1] == names;
  }

  lemma LibcFirst(ext: seq<seq<Byte>>)
    ensures StrTab(DynNames(ext)[..1]) == [0] + Libc + [0]
  {
    assert DynNames(ext)[..1] == [] + [Libc];
    ElfObjWriter.StrTabMore([], Libc);
  }

  method BuildDynSym(ext: seq<seq<Byte>>, offs: seq<nat>) returns (bytes: seq<Byte>)
    requires |offs| == |ext| && forall i :: 0 <= i < |ext| ==> offs[i] == NameOff(DynNames(ext), i + 1)
    ensures bytes == Table(DynSymRows(ext, |ext|))
  {
    hide Table, Pack, SymFields, NameOff;
    bytes := Pack(SymFields(Sym(0, 0, 0, 0)));
    assert DynSymRows(ext, 0) == [] + [SymFields(Sym(0, 0, 0, 0))];
    ElfObjWriter.TableMore([], SymFields(Sym(0, 0, 0, 0)));
    ElfObjWriter.EmptyTable();
    var i := 0;
    while i < |ext|
      invariant 0 <= i <= |ext| && bytes == Table(DynSymRows(ext, i))
    {
      var row := SymFields(Sym(offs[i], 16, 0, 0));
      assert DynSymRows(ext, i + 1) == DynSymRows(ext, i) + [row];
      ElfObjWriter.TableMore(DynSymRows(ext, i), row);
      bytes := bytes + Pack(row);
      i := i + 1;
    }
  }

  method BuildPltRela(machine: nat, gotVm: nat, n: nat) returns (bytes: seq<Byte>)
    ensures bytes == Table(PltRelaRows(machine, gotVm, n))
  {
    hide Table, Pack, RelaFields;
    bytes := [];
    ElfObjWriter.EmptyTable();
    assert PltRelaRows(machine, gotVm, 0) == [];
    var i := 0;
    while i < n
      invariant 0 <= i <= n && bytes == Table(PltRelaRows(machine, gotVm, i))
    {
      var row := RelaFields(Rela(gotVm + 8 * i, i + 1, JumpSlot(machine), 0));
      assert PltRelaRows(machine, gotVm, i + 1) == PltRelaRows(machine, gotVm, i) + [row];
      ElfObjWriter.TableMore(PltRelaRows(machine, gotVm, i), row);
      bytes := bytes + Pack(row);
      i := i + 1;
    }
  }

  method BuildDynamic(ds: seq<Dyn>) returns (bytes: seq<Byte>)
    ensures bytes == Table(DynRows(ds, |ds|))
  {
    hide Table, Pack, DynFields;
    bytes := [];
    ElfObjWriter.EmptyTable();
    assert DynRows(ds, 0) == [];
    var i := 0;
    while i < |ds|
      invariant 0 <= i <= |ds| && bytes == Table(DynRows(ds, i))
    {
      assert DynRows(ds, i + 1) == DynRows(ds, i) + [DynFields(ds[i])];
      ElfObjWriter.TableMore(DynRows(ds, i), DynFields(ds[i]));
      bytes := bytes + Pack(DynFields(ds[i]));
      i := i + 1;
    }
  }

  method BuildPhdrs(ps: seq<Phdr>) returns (bytes: seq<Byte>)
    ensures bytes == Table(PhdrRows(ps, |ps|))
  {
    hide Table, Pack, PhdrFields;
    bytes := [];
    ElfObjWriter.EmptyTable();
    assert PhdrRows(ps, 0) == [];
    var i := 0;
    while i < |ps|
      invariant 0 <= i <= |ps| && bytes == Table(PhdrRows(ps, i))
    {
      assert PhdrRows(ps, i + 1) == PhdrRows(ps, i) + [PhdrFields(ps[i])];
      ElfObjWriter.TableMore(PhdrRows(ps, i), PhdrFields(ps[i]));
      bytes := bytes + Pack(PhdrFields(ps[i]));
      i := i + 1;
    }
  }

  /** Pad to the part's alignment and append it. */
  method EmitPart(b: ElfBytes.Buf, ghost j: Job, ghost k: nat, p: Part)
    requires k < 10 && p == PartAt(j, k) && p.align > 0 && b.bytes == Assemble(Head(j), LinkParts(j, k))
    modifies b
    ensures b.bytes == Assemble(Head(j), LinkParts(j, k + 1))
  {
    hide PartAt, Head, Assemble;
    PartsMore(j, k);
    b.PutPart(Head(j), LinkParts(j, k), p);
  }

  lemma PartsMore(j: Job, k: nat)
    requires k < 10
    ensures LinkParts(j, k + 1) == LinkParts(j, k) + [PartAt(j, k)]
  {
    hide PartAt;
  }

  function Chars(s: string): (r: seq<Byte>)
    ensures |r| == |s|
  {
    seq(|s|, i requires 0 <= i < |s| => s[i] as int % 256)
  }

  function Interp(machine: nat): seq<Byte> {
    Chars(if machine == ElfObj.EM_X86_64 then "/lib64/ld-linux-x86-64.so.2"
          else if machine == ElfObj.EM_RISCV then "/lib/ld-linux-riscv64-lp64d.so.1"
          else "/lib/ld-linux-aarch64.so.1") + [0]
  }

  function Machine(objs: seq<Obj>): nat { if objs == [] then ElfObj.EM_AARCH64 else objs[0].machine }

  datatype Result = Executable(bytes: seq<Byte>, job: Job) | UnresolvedEntry

  /** Lay out, then emit, everything but the relocations. */
  method Emit(j: Job, ext: seq<seq<Byte>>, l: Layout, dynstr: seq<Byte>, offs: seq<nat>) returns (out: seq<Byte>)
    requires ext == Ext(j) && l == LayoutOf(j) && dynstr == StrTab(DynNames(ext)) && |offs| == |ext|
    requires forall i :: 0 <= i < |ext| ==> offs[i] == NameOff(DynNames(ext), i + 1)
    ensures out == Linked(j)
  {
    hide LayoutOf, Ext, Table, StrTab, NameOff, Dynamic, Stubs, All, Zeros, EhdrBytes, Assemble;
    var b := new ElfBytes.Buf();
    var phdrs := BuildPhdrs(Phdrs(l, |j.interp|));
    b.Put(EhdrBytes(Ehdr(2, j.machine, j.entry, 64, 0, 56, 6, 0, 0)));
    b.Put(phdrs);
    NoParts(j);
    EmitPart(b, j, 0, Part(8, j.interp));
    var text := Combine(j.objs, 0);
    EmitPart(b, j, 1, Part(16, text));
    var stubs := BuildStubs(j.machine, l, |ext|);
    EmitPart(b, j, 2, Part(16, stubs));
    var rodata := Combine(j.objs, 3);
    EmitPart(b, j, 3, Part(8, rodata));
    var data := Combine(j.objs, 1);
    EmitPart(b, j, 4, Part(PAGE, data));
    EmitTables(b, j, ext, l, dynstr, offs);
    out := b.bytes;
  }

  lemma NoParts(j: Job)
    ensures Assemble(Head(j), LinkParts(j, 0)) == Head(j)
  {
    hide Head;
  }

  method EmitTables(b: ElfBytes.Buf, j: Job, ext: seq<seq<Byte>>, l: Layout, dynstr: seq<Byte>, offs: seq<nat>)
    requires ext == Ext(j) && l == LayoutOf(j) && dynstr == StrTab(DynNames(ext)) && |offs| == |ext|
    requires forall i :: 0 <= i < |ext| ==> offs[i] == NameOff(DynNames(ext), i + 1)
    requires b.bytes == Assemble(Head(j), LinkParts(j, 5))
    modifies b
    ensures b.bytes == Assemble(Head(j), LinkParts(j, 10))
  {
    hide LayoutOf, Ext, Table, StrTab, NameOff, Dynamic, Stubs, All, Zeros, Head, Assemble;
    EmitPart(b, j, 5, Part(8, Zeros(8 * |ext|)));
    var dynsym := BuildDynSym(ext, offs);
    EmitPart(b, j, 6, Part(8, dynsym));
    EmitPart(b, j, 7, Part(8, dynstr));
    var rela := BuildPltRela(j.machine, DataVm(l) + l.got, |ext|);
    EmitPart(b, j, 8, Part(8, rela));
    var dynamic := BuildDynamic(Dynamic(l, |ext|, |dynstr|));
    EmitPart(b, j, 9, Part(1, dynamic));
  }

  /** Link the objects, entering at `entry`. */
  method Link(objs: seq<Obj>, entry: seq<Byte>) returns (r: Result)
    ensures r.UnresolvedEntry? <==> !Defined(objs, entry)
    ensures r.Executable? ==>
      r.bytes == Linked(r.job) && r.job.objs == objs && r.job.machine == Machine(objs) &&
      r.job.interp == Interp(Machine(objs))
    ensures r.Executable? ==> IsEntry(r.job, entry)
  {
    hide LayoutOf, Linked, Interp, Defined, StrTab;
    var found, oi, si := FindSymbol(objs, entry);
    if !found { return UnresolvedEntry; }
    var interp := Interp(Machine(objs));
    var ext := CollectExternals(objs);
    var textOff, text := SumSizes(objs, 0);
    var _, rodata := SumSizes(objs, 3);
    var _, data := SumSizes(objs, 1);
    var _, bss := SumSizes(objs, 2);
    var dynstr, offs := BuildDynstr(ext);
    var l := Place(|interp|, text, rodata, data, bss, |ext|, |dynstr|);
    var vm := if HasText(objs[oi]) then TEXT_VM + l.text + textOff[oi] + objs[oi].symbols[si].value else 0;
    var j := Job(objs, Machine(objs), interp, vm);
    LayoutOfIs(j);
    assert EntryAt(j, entry, oi, si);
    var out := Emit(j, ext, l, dynstr, offs);
    r := Executable(out, j);
  }

  lemma LayoutOfIs(j: Job)
    ensures LayoutOf(j) ==
      Place(|j.interp|, Total(j.objs, 0), Total(j.objs, 3), Total(j.objs, 1), Total(j.objs, 2), |Ext(j)|,
        |StrTab(DynNames(Ext(j)))|)
  {
  }

  predicate HasText(o: Obj) { exists s :: s in o.sections && s.which == 0 }

  /** The entry address is that of the first definition, or 0 when its object has no text. */
  predicate IsEntry(j: Job, entry: seq<Byte>) {
    exists oi, si :: 0 <= oi < |j.objs| && 0 <= si < |j.objs[oi].symbols| && EntryAt(j, entry, oi, si)
  }

  predicate EntryAt(j: Job, entry: seq<Byte>, oi: nat, si: nat)
    requires oi < |j.objs| && si < |j.objs[oi].symbols|
  {
    Defines(j.objs[oi].symbols[si], entry) && !Defined(j.objs[..oi], entry) &&
    j.entry == if HasText(j.objs[oi])
      then TEXT_VM + LayoutOf(j).text + Base(j.objs, 0, oi) + j.objs[oi].symbols[si].value else 0
  }
}
