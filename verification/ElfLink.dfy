/** Laying out and emitting a linked executable (src/elf_link.c, link_elf_exec). */
module ElfLink {
  import opened Bits
  import opened Leb128
  import opened Slices
  import opened Alignment
  import opened ElfBytes
  import opened ElfTables
  import ElfRead
  import ElfObj

  const PAGE: nat := 0x1000
  const TEXT_VM: nat := 0x40_0000

  type Obj = ElfRead.Object

  // ---------- sections of the inputs ----------

  /** Bytes of the first section numbered `which`, if there is one. */
  function BytesIn(sections: seq<ElfRead.ElfSection>, which: int): seq<Byte> {
    if sections == [] then [] else if sections[0].which == which then sections[0].data
      else BytesIn(sections[1..], which)
  }

  function SizeIn(sections: seq<ElfRead.ElfSection>, which: int): nat {
    if sections == [] then 0 else if sections[0].which == which then sections[0].size else SizeIn(sections[1..], which)
  }

  /** Sections other than .bss carry their bytes. */
  predicate Linkable(objs: seq<Obj>) {
    forall o, s :: o in objs && s in o.sections && s.which != 2 ==> s.size == |s.data|
  }

  lemma {:induction false} SizeIsLength(sections: seq<ElfRead.ElfSection>, which: int)
    requires which != 2 && forall s :: s in sections && s.which != 2 ==> s.size == |s.data|
    ensures |BytesIn(sections, which)| == SizeIn(sections, which)
  {
    if sections != [] {
      assert sections[0] in sections;
      if sections[0].which != which { SizeIsLength(sections[1..], which); }
    }
  }

  /** Total size of a section over the first `n` objects: where object `n`'s contribution starts. */
  function Base(objs: seq<Obj>, which: int, n: nat): nat
    requires n <= |objs|
  {
    if n == 0 then 0 else Base(objs, which, n - 1) + SizeIn(objs[n - 1].sections, which)
  }

  function Combined(objs: seq<Obj>, which: int, n: nat): seq<Byte>
    requires n <= |objs|
  {
    if n == 0 then [] else Combined(objs, which, n - 1) + BytesIn(objs[n - 1].sections, which)
  }

  function All(objs: seq<Obj>, which: int): seq<Byte> { Combined(objs, which, |objs|) }

  function Total(objs: seq<Obj>, which: int): nat { Base(objs, which, |objs|) }

  lemma {:induction false} CombinedLength(objs: seq<Obj>, which: int, n: nat)
    requires n <= |objs| && which != 2 && Linkable(objs)
    ensures |Combined(objs, which, n)| == Base(objs, which, n)
  {
    if n > 0 {
      CombinedLength(objs, which, n - 1);
      assert objs[n - 1] in objs;
      SizeIsLength(objs[n - 1].sections, which);
    }
  }

  /** Each object's bytes sit at its base. */
  lemma {:induction false} CombinedAt(objs: seq<Obj>, which: int, n: nat, o: nat)
    requires o < n <= |objs| && which != 2 && Linkable(objs)
    ensures At(Combined(objs, which, n), Base(objs, which, o), BytesIn(objs[o].sections, which))
  {
    hide At, BytesIn;
    CombinedLength(objs, which, n - 1);
    var front, last := Combined(objs, which, n - 1), BytesIn(objs[n - 1].sections, which);
    if o < n - 1 {
      CombinedAt(objs, which, n - 1, o);
      AtFront(front, last, Base(objs, which, o), BytesIn(objs[o].sections, which));
    } else {
      AtEnd(front, last);
    }
  }

  // ---------- external symbols ----------

  const STB_GLOBAL: nat := 1

  predicate Defines(s: ElfRead.ElfSymbol, name: seq<Byte>) { s.binding == STB_GLOBAL && s.section >= 0 &&
      s.name == name }

  predicate Defined(objs: seq<Obj>, name: seq<Byte>) { exists o, s :: o in objs && s in o.symbols && Defines(s, name) }

  predicate Wanted(objs: seq<Obj>, s: ElfRead.ElfSymbol) {
    s.binding == STB_GLOBAL && s.section < 0 && !s.common && !Defined(objs, s.name)
  }

  /** Undefined globals among the first `n` of `syms`, each name once, after `ext`. */
  function Collect(objs: seq<Obj>, syms: seq<ElfRead.ElfSymbol>, n: nat, ext: seq<seq<Byte>>): seq<seq<Byte>>
    requires n <= |syms|
  {
    if n == 0 then ext
    else
      var before := Collect(objs, syms, n - 1, ext);
      if Wanted(objs, syms[n - 1]) && syms[n - 1].name !in before then before + [syms[n - 1].name] else before
  }

  function Externals(objs: seq<Obj>, n: nat): seq<seq<Byte>>
    requires n <= |objs|
  {
    if n == 0 then [] else Collect(objs, objs[n - 1].symbols, |objs[n - 1].symbols|, Externals(objs, n - 1))
  }

  predicate Distinct(names: seq<seq<Byte>>) { forall i, j :: 0 <= i < j < |names| ==> names[i] != names[j] }

  lemma {:induction false} CollectIs(objs: seq<Obj>, syms: seq<ElfRead.ElfSymbol>, n: nat, ext: seq<seq<Byte>>)
    requires n <= |syms| && Distinct(ext)
    ensures Distinct(Collect(objs, syms, n, ext))
    ensures forall name :: name in Collect(objs, syms, n, ext) <==> name in ext || WantedIn(objs, syms[..n], name)
  {
    hide Wanted;
    if n > 0 {
      CollectIs(objs, syms, n - 1, ext);
      assert syms[..n] == syms[..n - 1] + [syms[n - 1]];
      var before, s := Collect(objs, syms, n - 1, ext), syms[n - 1];
      forall name ensures name in Collect(objs, syms, n, ext) <==> name in ext || WantedIn(objs, syms[..n], name) {
        if WantedIn(objs, syms[..n], name) && !WantedIn(objs, syms[..n - 1], name) {
          var w :| w in syms[..n] && Wanted(objs, w) && w.name == name;
          assert w == s;
        }
        if WantedIn(objs, syms[..n - 1], name) {
          var w :| w in syms[..n - 1] && Wanted(objs, w) && w.name == name;
          assert w in syms[..n];
        }
        if Wanted(objs, s) { assert s in syms[..n]; }
      }
    }
  }

  predicate WantedIn(objs: seq<Obj>, syms: seq<ElfRead.ElfSymbol>, name: seq<Byte>) {
    exists s :: s in syms && Wanted(objs, s) && s.name == name
  }

  /** Externals are exactly the undefined global names, each listed once. */
  lemma {:induction false} ExternalsAre(objs: seq<Obj>, n: nat)
    requires n <= |objs|
    ensures Distinct(Externals(objs, n))
    ensures forall name :: name in Externals(objs, n) <==>
      exists o :: 0 <= o < n && WantedIn(objs, objs[o].symbols, name)
  {
    hide WantedIn;
    if n > 0 {
      ExternalsAre(objs, n - 1);
      var syms := objs[n - 1].symbols;
      CollectIs(objs, syms, |syms|, Externals(objs, n - 1));
      assert syms[..|syms|] == syms;
    }
  }

  /** Some object names the symbol, globally (binding 1), without a section and not as a common one. */
  predicate Refers(objs: seq<Obj>, name: seq<Byte>) {
    exists o, i :: 0 <= o < |objs| && 0 <= i < |objs[o].symbols| && RefersAt(objs[o].symbols[i], name)
  }

  predicate RefersAt(s: ElfRead.ElfSymbol, name: seq<Byte>) {
    s.binding == 1 && s.section < 0 && !s.common && s.name == name
  }

  /** Some object has the symbol in one of its sections, globally. */
  predicate Provides(objs: seq<Obj>, name: seq<Byte>) {
    exists o, i :: 0 <= o < |objs| && 0 <= i < |objs[o].symbols| && ProvidesAt(objs[o].symbols[i], name)
  }

  predicate ProvidesAt(s: ElfRead.ElfSymbol, name: seq<Byte>) { s.binding == 1 && s.section >= 0 && s.name == name }

  /** The externals of a program: what some object refers to and no object provides, each once. */
  lemma ExternalsNeeded(objs: seq<Obj>)
    ensures Distinct(Externals(objs, |objs|))
    ensures forall name :: name in Externals(objs, |objs|) <==> Refers(objs, name) && !Provides(objs, name)
  {
    ExternalsAre(objs, |objs|);
    forall name ensures name in Externals(objs, |objs|) <==> Refers(objs, name) && !Provides(objs, name) {
      DefinedIs(objs, name);
      if name in Externals(objs, |objs|) {
        var o :| 0 <= o < |objs| && WantedIn(objs, objs[o].symbols, name);
        var s :| s in objs[o].symbols && Wanted(objs, s) && s.name == name;
        var i :| 0 <= i < |objs[o].symbols| && objs[o].symbols[i] == s;
        assert RefersAt(objs[o].symbols[i], name);
      }
      if Refers(objs, name) && !Provides(objs, name) {
        var o, i :| 0 <= o < |objs| && 0 <= i < |objs[o].symbols| && RefersAt(objs[o].symbols[i], name);
        assert Wanted(objs, objs[o].symbols[i]);
        assert WantedIn(objs, objs[o].symbols, name);
      }
    }
  }

  lemma DefinedIs(objs: seq<Obj>, name: seq<Byte>)
    ensures Defined(objs, name) <==> Provides(objs, name)
  {
    if Defined(objs, name) {
      var o, s :| o in objs && s in o.symbols && Defines(s, name);
      var k :| 0 <= k < |objs| && objs[k] == o;
      var i :| 0 <= i < |o.symbols| && o.symbols[i] == s;
      assert ProvidesAt(objs[k].symbols[i], name);
    }
    if Provides(objs, name) {
      var o, i :| 0 <= o < |objs| && 0 <= i < |objs[o].symbols| && ProvidesAt(objs[o].symbols[i], name);
      assert objs[o] in objs && objs[o].symbols[i] in objs[o].symbols;
      assert Defines(objs[o].symbols[i], name);
    }
  }

  method CollectExternals(objs: seq<Obj>) returns (ext: seq<seq<Byte>>)
    ensures ext == Externals(objs, |objs|)
  {
    hide Wanted;
    ext := [];
    var o := 0;
    while o < |objs|
      invariant 0 <= o <= |objs| && ext == Externals(objs, o)
    {
      ghost var before := ext;
      var syms := objs[o].symbols;
      var s := 0;
      while s < |syms|
        invariant 0 <= s <= |syms| && ext == Collect(objs, syms, s, before)
      {
        var needed := IsWanted(objs, syms[s]);
        if needed && syms[s].name !in ext { ext := ext + [syms[s].name]; }
        s := s + 1;
      }
      o := o + 1;
    }
  }

  method IsWanted(objs: seq<Obj>, s: ElfRead.ElfSymbol) returns (r: bool)
    ensures r == Wanted(objs, s)
  {
    if s.binding != STB_GLOBAL || s.section >= 0 || s.common { return false; }
    var found, _, _ := FindSymbol(objs, s.name);
    return !found;
  }

  /** The first definition of a global name. */
  method FindSymbol(objs: seq<Obj>, name: seq<Byte>) returns (found: bool, oi: nat, si: nat)
    ensures found == Defined(objs, name)
    ensures found ==> oi < |objs| && si < |objs[oi].symbols| && Defines(objs[oi].symbols[si], name)
    ensures found ==> !Defined(objs[..oi], name) && forall i :: 0 <= i < si ==> !Defines(objs[oi].symbols[i], name)
  {
    var o := 0;
    while o < |objs|
      invariant 0 <= o <= |objs| && !Defined(objs[..o], name)
    {
      var s := 0;
      while s < |objs[o].symbols|
        invariant 0 <= s <= |objs[o].symbols| && forall i :: 0 <= i < s ==> !Defines(objs[o].symbols[i], name)
      {
        if Defines(objs[o].symbols[s], name) { return true, o, s; }
        s := s + 1;
      }
      assert objs[..o + 1] == objs[..o] + [objs[o]];
      o := o + 1;
    }
    assert objs[..o] == objs;
    return false, 0, 0;
  }

  // ---------- layout ----------

  /** Offsets in the file, then offsets in the data segment. */
  datatype Layout = Layout(text: nat, plt: nat, rodata: nat, textSeg: nat,
                           got: nat, dynsym: nat, dynstr: nat, rela: nat, dynamic: nat, bss: nat, memsz: nat)

  const SEG_START: nat := 400
  const DYNAMIC_SIZE: nat := 224

  function Place(interp: nat, text: nat, rodata: nat, data: nat, bss: nat, next: nat, dynstr: nat): Layout {
    var textOff := AlignUp(SEG_START + interp, 16);
    var pltOff := AlignUp(textOff + text, 16);
    var rodataOff := AlignUp(pltOff + 16 * next, 8);
    var textSeg := AlignUp(rodataOff + rodata, PAGE);
    var got := AlignUp(data, 8);
    var dynsym := AlignUp(got + 8 * next, 8);
    var dynstrOff := dynsym + 24 * (1 + next);
    var rela := AlignUp(dynstrOff + dynstr, 8);
    var dynamic := AlignUp(rela + 24 * next, 8);
    var bssOff := AlignUp(dynamic + DYNAMIC_SIZE, 8);
    Layout(textOff, pltOff, rodataOff, textSeg, got, dynsym, dynstrOff, rela, dynamic, bssOff, AlignUp(bssOff + bss, 8))
  }

  function DataVm(l: Layout): nat { AlignUp(TEXT_VM + l.textSeg, PAGE) }

  // ---------- the tables the dynamic loader reads ----------

  /** "libc.so.6" */
  const Libc: seq<Byte> := [108, 105, 98, 99, 46, 115, 111, 46, 54]

  function DynNames(ext: seq<seq<Byte>>): seq<seq<Byte>> { [Libc] + ext }

  function DynSymRows(ext: seq<seq<Byte>>, n: nat): (r: seq<seq<Field>>)
    requires n <= |ext|
    ensures |r| == n + 1
  {
    [SymFields(Sym(0, 0, 0, 0))] + seq(n, i
      requires 0 <= i < n => SymFields(Sym(NameOff(DynNames(ext), i + 1), 16, 0, 0)))
  }

  function JumpSlot(machine: nat): nat {
    if machine == ElfObj.EM_X86_64 then 7 else if machine == ElfObj.EM_RISCV then 5 else 1026
  }

  function PltRelaRows(machine: nat, gotVm: nat, n: nat): (r: seq<seq<Field>>)
    ensures |r| == n
  {
    seq(n, i requires 0 <= i < n => RelaFields(Rela(gotVm + 8 * i, i + 1, JumpSlot(machine), 0)))
  }

  datatype Dyn = Dyn(tag: nat, value: nat)

  function DynFields(d: Dyn): seq<Field> { [Field(8, d.tag), Field(8, d.value)] }

  function Dynamic(l: Layout, next: nat, dynstr: nat): (r: seq<Dyn>)
    ensures |r| == 14
  {
    var vm := DataVm(l);
    [Dyn(1, 1), Dyn(5, vm + l.dynstr), Dyn(6, vm + l.dynsym), Dyn(10, dynstr), Dyn(11, 24), Dyn(3, vm + l.got),
     Dyn(23, vm + l.rela), Dyn(2, 24 * next), Dyn(20, 7), Dyn(8, 24 * next), Dyn(9, 24), Dyn(30, 8),
       Dyn(0x6fff_fffb, 1), Dyn(0, 0)]
  }

  function DynRows(ds: seq<Dyn>, n: nat): (r: seq<seq<Field>>)
    requires n <= |ds|
    ensures |r| == n
  {
    seq(n, i requires 0 <= i < n => DynFields(ds[i]))
  }

  // ---------- program headers ----------

  datatype Phdr = Phdr(ty: nat, flags: nat, off: nat, vaddr: nat, filesz: nat, memsz: nat, align: nat)

  const PT_LOAD: nat := 1

  function PhdrFields(p: Phdr): seq<Field> {
    [Field(4, p.ty), Field(4, p.flags), Field(8, p.off), Field(8, p.vaddr), Field(8, 0), Field(8, p.filesz),
      Field(8, p.memsz), Field(8, p.align)]
  }

  predicate PhdrFits(p: Phdr) {
    p.ty < TWO32 && p.flags < TWO32 && p.off < TWO64 && p.vaddr < TWO64 && p.filesz < TWO64 && p.memsz < TWO64 &&
    p.align < TWO64
  }

  function ReadPhdr(data: seq<Byte>, ph: nat): Phdr
    requires ph + 56 <= |data|
  {
    Phdr(ReadLe(data, ph, 4), ReadLe(data, ph + 4, 4), ReadLe(data, ph + 8, 8), ReadLe(data, ph + 16, 8),
      ReadLe(data, ph + 32, 8),
         ReadLe(data, ph + 40, 8), ReadLe(data, ph + 48, 8))
  }

  lemma PhdrOffsets(p: Phdr)
    ensures var fs := PhdrFields(p);
      Before(fs, 1) == 4 && Before(fs, 2) == 8 && Before(fs, 3) == 16 && Before(fs, 5) == 32 && Before(fs, 6) == 40 &&
      Before(fs, 7) == 48 &&
      |Pack(fs)| == 56
  {
    var fs := PhdrFields(p);
    PackLength(fs);
    assert Before(fs, 2) == Before(fs, 1) + 4;
    assert Before(fs, 4) == Before(fs, 3) + 8;
    assert Before(fs, 6) == Before(fs, 5) + 8;
    assert Before(fs, 8) == Before(fs, 7) + 8;
  }

  lemma PhdrReads(data: seq<Byte>, ph: nat, p: Phdr)
    requires PhdrFits(p) && At(data, ph, Pack(PhdrFields(p)))
    ensures ph + 56 <= |data| && ReadPhdr(data, ph) == p
  {
    var fs := PhdrFields(p);
    Pow256Is();
    PhdrOffsets(p);
    hide Pack, Before, Le, FromLe, Pow256;
    BeforeZero(fs);
    FieldReads(data, ph, fs, 0);
    FieldReads(data, ph, fs, 1);
    FieldReads(data, ph, fs, 2);
    FieldReads(data, ph, fs, 3);
    FieldReads(data, ph, fs, 5);
    FieldReads(data, ph, fs, 6);
    FieldReads(data, ph, fs, 7);
  }

  function Phdrs(l: Layout, interp: nat): (r: seq<Phdr>)
    ensures |r| == 6
  {
    var vm := DataVm(l);
    [Phdr(6, 4, 64, TEXT_VM + 64, 336, 336, 8),
     Phdr(3, 4, SEG_START, TEXT_VM + SEG_START, interp, interp, 1),
     Phdr(PT_LOAD, 5, 0, TEXT_VM, l.textSeg, l.textSeg, PAGE),
     Phdr(PT_LOAD, 6, l.textSeg, vm, l.dynamic + DYNAMIC_SIZE, l.memsz, PAGE),
     Phdr(2, 6, l.textSeg + l.dynamic, vm + l.dynamic, DYNAMIC_SIZE, DYNAMIC_SIZE, 8),
     Phdr(0x6474_e551, 6, 0, 0, 0, 0, 16)]
  }

  function PhdrRows(ps: seq<Phdr>, n: nat): (r: seq<seq<Field>>)
    requires n <= |ps|
    ensures |r| == n
  {
    seq(n, i requires 0 <= i < n => PhdrFields(ps[i]))
  }

  // ---------- the file ----------

  /** What the linker is given: the objects, the interpreter's path with its NUL, and the entry address. */
  datatype Job = Job(objs: seq<Obj>, machine: nat, interp: seq<Byte>, entry: nat)

  function Ext(j: Job): seq<seq<Byte>> { Externals(j.objs, |j.objs|) }

  function LayoutOf(j: Job): Layout {
    Place(|j.interp|, Total(j.objs, 0), Total(j.objs, 3), Total(j.objs, 1), Total(j.objs, 2), |Ext(j)|,
      |StrTab(DynNames(Ext(j)))|)
  }

  function Head(j: Job): seq<Byte> {
    EhdrBytes(Ehdr(2, j.machine, j.entry, 64, 0, 56, 6, 0, 0)) + Table(PhdrRows(Phdrs(LayoutOf(j), |j.interp|), 6))
  }

  /** One stub of the procedure linkage table, before patching. */
  function Stub(machine: nat, l: Layout, i: nat): (r: seq<Byte>)
    ensures |r| == 16
  {
    if machine == ElfObj.EM_X86_64 then
      var rip := (DataVm(l) + l.got + 8 * i) - (TEXT_VM + l.plt + 16 * i + 6);
      [0xFF, 0x25] + Le(rip % TWO32, 4) + [0x0F, 0x1F, 0x44, 0, 0, 0x0F, 0x1F, 0x44, 0, 0]
    else if machine == ElfObj.EM_RISCV then Le(0x297, 4) + Le(0x2b283, 4) + Le(0x28067, 4) + Le(0x13, 4)
    else Le(0xD503201F, 4) + Le(0xD503201F, 4) + Le(0xD503201F, 4) + Le(0xD503201F, 4)
  }

  function Stubs(machine: nat, l: Layout, n: nat): (r: seq<Byte>)
    ensures |r| == 16 * n
  {
    if n == 0 then [] else Stubs(machine, l, n - 1) + Stub(machine, l, n - 1)
  }

  function PartAt(j: Job, k: nat): Part
    requires k < 10
  {
    var l := LayoutOf(j);
    var ext := Ext(j);
    if k == 0 then Part(8, j.interp)
    else if k == 1 then Part(16, All(j.objs, 0))
    else if k == 2 then Part(16, Stubs(j.machine, l, |ext|))
    else if k == 3 then Part(8, All(j.objs, 3))
    else if k == 4 then Part(PAGE, All(j.objs, 1))
    else if k == 5 then Part(8, Zeros(8 * |ext|))
    else if k == 6 then Part(8, Table(DynSymRows(ext, |ext|)))
    else if k == 7 then Part(8, StrTab(DynNames(ext)))
    else if k == 8 then Part(8, Table(PltRelaRows(j.machine, DataVm(l) + l.got, |ext|)))
    else Part(1, Table(DynRows(Dynamic(l, |ext|, |StrTab(DynNames(ext))|), 14)))
  }

  function LinkParts(j: Job, n: nat): (r: seq<Part>)
    requires n <= 10
    ensures |r| == n && Aligned(r)
  {
    seq(n, k requires 0 <= k < n => PartAt(j, k))
  }

  /** The executable before relocation. */
  function Linked(j: Job): seq<Byte> { Assemble(Head(j), LinkParts(j, 10)) }

  // ---------- the layout phase agrees with the emission phase ----------

  /** Where the layout says part `k` is in the file. */
  function FileOff(l: Layout, k: nat): nat
    requires k < 10
  {
    if k == 0 then SEG_START else if k == 1 then l.text else if k == 2 then l.plt else if k == 3 then l.rodata
    else if k == 4 then l.textSeg else if k == 5 then l.textSeg + l.got else if k == 6 then l.textSeg + l.dynsym
    else if k == 7 then l.textSeg + l.dynstr else if k == 8 then l.textSeg + l.rela else l.textSeg + l.dynamic
  }

  lemma HeadLength(j: Job)
    ensures |Head(j)| == SEG_START
  {
    var ps := Phdrs(LayoutOf(j), |j.interp|);
    var rows := PhdrRows(ps, 6);
    EhdrOffsets(Ehdr(2, j.machine, j.entry, 64, 0, 56, 6, 0, 0));
    forall k | 0 <= k < 6 ensures |Pack(rows[k])| == 56 { PhdrOffsets(ps[k]); }
    TableLength(rows, 56);
    hide Table, Pack, EhdrBytes, LayoutOf, Phdrs, PhdrRows;
  }

  lemma DynSymLength(ext: seq<seq<Byte>>)
    ensures Rows(DynSymRows(ext, |ext|), 24) && |Table(DynSymRows(ext, |ext|))| == 24 * (1 + |ext|)
  {
    var rows := DynSymRows(ext, |ext|);
    forall k | 0 <= k < |rows| ensures |Pack(rows[k])| == 24 {
      SymOffsets(if k == 0 then Sym(0, 0, 0, 0) else Sym(NameOff(DynNames(ext), k), 16, 0, 0));
    }
    TableLength(rows, 24);
  }

  lemma PltRelaLength(machine: nat, gotVm: nat, n: nat)
    ensures Rows(PltRelaRows(machine, gotVm, n), 24) && |Table(PltRelaRows(machine, gotVm, n))| == 24 * n
  {
    var rows := PltRelaRows(machine, gotVm, n);
    forall k | 0 <= k < n
      ensures |Pack(rows[k])| == 24 { RelaOffsets(Rela(gotVm + 8 * k, k + 1, JumpSlot(machine), 0)); }
    TableLength(rows, 24);
  }

  lemma DynOffsets(d: Dyn)
    ensures Before(DynFields(d), 1) == 8 && |Pack(DynFields(d))| == 16
  {
    var fs := DynFields(d);
    PackLength(fs);
    assert Before(fs, 2) == Before(fs, 1) + 8;
  }

  lemma DynLength(ds: seq<Dyn>)
    requires |ds| == 14
    ensures Rows(DynRows(ds, 14), 16) && |Table(DynRows(ds, 14))| == DYNAMIC_SIZE
  {
    var rows := DynRows(ds, 14);
    forall k | 0 <= k < 14 ensures |Pack(rows[k])| == 16 { DynOffsets(ds[k]); }
    TableLength(rows, 16);
  }

  /** Sizes of the parts, as the layout phase counts them. */
  lemma PartSizes(j: Job)
    requires Linkable(j.objs)
    ensures |PartAt(j, 0).bytes| == |j.interp| && |PartAt(j, 1).bytes| == Total(j.objs, 0) &&
      |PartAt(j, 2).bytes| == 16 * |Ext(j)|
    ensures |PartAt(j, 3).bytes| == Total(j.objs, 3) && |PartAt(j, 4).bytes| == Total(j.objs, 1) &&
      |PartAt(j, 5).bytes| == 8 * |Ext(j)|
    ensures |PartAt(j, 6).bytes| == 24 * (1 + |Ext(j)|) && |PartAt(j, 7).bytes| == |StrTab(DynNames(Ext(j)))|
    ensures |PartAt(j, 8).bytes| == 24 * |Ext(j)| && |PartAt(j, 9).bytes| == DYNAMIC_SIZE
  {
    hide Linkable, LayoutOf, Ext, Table, StrTab, Dynamic, DynRows, PltRelaRows, DynSymRows, Stubs, Combined, Base, Rows;
    CombinedLength(j.objs, 0, |j.objs|);
    CombinedLength(j.objs, 3, |j.objs|);
    CombinedLength(j.objs, 1, |j.objs|);
    var l := LayoutOf(j);
    DynSymLength(Ext(j));
    PltRelaLength(j.machine, DataVm(l) + l.got, |Ext(j)|);
    DynLength(Dynamic(l, |Ext(j)|, |StrTab(DynNames(Ext(j)))|));
  }

  /** Alignment bookkeeping: the source aligns data-segment offsets, emission aligns file offsets. */
  lemma LayoutAligned(l: Layout, interp: nat, text: nat, rodata: nat, data: nat, bss: nat, next: nat, dynstr: nat)
    requires l == Place(interp, text, rodata, data, bss, next, dynstr)
    ensures l.textSeg % PAGE == 0 && l.textSeg % 8 == 0 && DataVm(l) == TEXT_VM + l.textSeg
    ensures AlignUp(l.textSeg + data, 8) == l.textSeg + l.got
    ensures AlignUp(l.textSeg + l.got + 8 * next, 8) == l.textSeg + l.dynsym
    ensures AlignUp(l.textSeg + l.dynsym + 24 * (1 + next), 8) == l.textSeg + l.dynstr
    ensures AlignUp(l.textSeg + l.dynstr + dynstr, 8) == l.textSeg + l.rela
    ensures l.rela + 24 * next == l.dynamic
    ensures l.text >= SEG_START + interp && l.plt >= l.text + text && l.rodata >= l.plt + 16 * next &&
      l.textSeg >= l.rodata + rodata
    ensures l.got >= data && l.dynsym >= l.got + 8 * next && l.bss >= l.dynamic + DYNAMIC_SIZE && l.memsz >= l.bss + bss
  {
    hide AlignUp;
    AlignUpIs(l.rodata + rodata, PAGE);
    PageIsEight(l.textSeg);
    AlignUpAligned(TEXT_VM + l.textSeg, PAGE) by { AddAligned(TEXT_VM, l.textSeg, PAGE); }
    AlignUpShift(l.textSeg, data, 8);
    AlignUpShift(l.textSeg, l.got + 8 * next, 8);
    AlignUpIs(l.got + 8 * next, 8);
    AlignUpIs(l.dynstr + dynstr, 8);
    RowsAligned(l.dynsym, 1 + next);
    RowsAligned(l.rela, next);
    AlignUpAligned(l.dynsym + 24 * (1 + next), 8);
    AlignUpShift(l.textSeg, l.dynsym + 24 * (1 + next), 8);
    AlignUpShift(l.textSeg, l.dynstr + dynstr, 8);
    AlignUpAligned(l.rela + 24 * next, 8);
  }

  /** Tables of 24-byte rows keep 8-alignment. */
  lemma RowsAligned(n: nat, rows: nat)
    requires n % 8 == 0
    ensures (n + 24 * rows) % 8 == 0
  {
    ModUnique(24 * rows, 8, 3 * rows, 0);
    AddAligned(n, 24 * rows, 8);
  }

  lemma PageIsEight(n: nat)
    requires n % PAGE == 0
    ensures n % 8 == 0
  {
    assert n == n / PAGE * PAGE;
    ModUnique(n, 8, n / PAGE * 512, 0);
  }

  lemma AddAligned(x: nat, y: nat, a: nat)
    requires a > 0 && x % a == 0 && y % a == 0
    ensures (x + y) % a == 0
  {
    assert x == x / a * a && y == y / a * a;
    assert (x / a + y / a) * a == x / a * a + y / a * a;
    ModUnique(x + y, a, x / a + y / a, 0);
  }

  lemma LinkPartIs(j: Job, k: nat)
    requires k < 10
    ensures LinkParts(j, 10)[k] == PartAt(j, k)
  {
    hide PartAt;
  }

  /** One step of the emission position. */
  lemma PlaceStep(j: Job, k: nat)
    requires k < 9
    ensures PlaceOf(SEG_START, LinkParts(j, 10), k + 1) ==
      AlignUp(PlaceOf(SEG_START, LinkParts(j, 10), k) + |PartAt(j, k).bytes|, PartAt(j, k + 1).align)
  {
    hide PartAt, AlignUp;
    LinkPartIs(j, k);
    LinkPartIs(j, k + 1);
    hide LinkParts;
    PlaceNext(SEG_START, LinkParts(j, 10), k);
  }

  lemma FirstPlace(j: Job)
    ensures PlaceOf(SEG_START, LinkParts(j, 10), 0) == SEG_START
  {
    AlignUpAligned(SEG_START, 8);
  }

  /** Every offset computed in the layout phase is where emission writes the part. */
  lemma LayoutIsEmission(j: Job, k: nat)
    requires Linkable(j.objs) && k < 10
    ensures PlaceOf(|Head(j)|, LinkParts(j, 10), k) == FileOff(LayoutOf(j), k)
    ensures At(Linked(j), FileOff(LayoutOf(j), k), PartAt(j, k).bytes)
    decreases k
  {
    hide Linkable, PartAt, Head, LayoutOf, FileOff, LinkParts, PlaceOf, Assemble, At;
    HeadLength(j);
    PlaceIs(j, k);
    LinkPartIs(j, k);
    PlacedAt(Head(j), LinkParts(j, 10), k);
  }

  lemma {:induction false} PlaceIs(j: Job, k: nat)
    requires Linkable(j.objs) && k < 10
    ensures PlaceOf(SEG_START, LinkParts(j, 10), k) == FileOff(LayoutOf(j), k)
  {
    hide Linkable, LinkParts, PlaceOf, AlignUp;
    if k == 0 {
      FirstPlace(j);
    } else {
      PlaceIs(j, k - 1);
      PlaceStep(j, k - 1);
      OffsetStep(j, k);
    }
  }

  lemma OffsetStep(j: Job, k: nat)
    requires Linkable(j.objs) && 1 <= k < 10
    ensures AlignUp(FileOff(LayoutOf(j), k - 1) + |PartAt(j, k - 1).bytes|, PartAt(j, k).align) ==
      FileOff(LayoutOf(j), k)
  {
    hide Linkable, Ext, PartAt, Total, StrTab, AlignUp, DataVm;
    PartSizes(j);
    PartAligns(j);
    var l := LayoutOf(j);
    LayoutAligned(l, |j.interp|, Total(j.objs, 0), Total(j.objs, 3), Total(j.objs, 1), Total(j.objs, 2), |Ext(j)|,
      |StrTab(DynNames(Ext(j)))|);
    if k == 9 { AlignByOne(l.textSeg + l.rela + 24 * |Ext(j)|); }
  }

  lemma AlignByOne(n: nat)
    ensures AlignUp(n, 1) == n
  {
  }

  lemma PartAligns(j: Job)
    ensures PartAt(j, 1).align == 16 && PartAt(j, 2).align == 16 && PartAt(j, 3).align == 8 &&
      PartAt(j, 4).align == PAGE
    ensures forall k :: 5 <= k < 9 ==> PartAt(j, k).align == 8
    ensures PartAt(j, 9).align == 1
  {
    hide LayoutOf, Ext, Table, StrTab, Dynamic, DynRows, PltRelaRows, DynSymRows, Stubs, All, Zeros;
  }

  /** The file ends with the dynamic section. */
  lemma FileLength(j: Job)
    requires Linkable(j.objs)
    ensures |Linked(j)| == LayoutOf(j).textSeg + LayoutOf(j).dynamic + DYNAMIC_SIZE
  {
    hide Linkable, PartAt, Head, LayoutOf, LinkParts, PlaceOf, EndOf, Assemble;
    PartSizes(j);
    HeadLength(j);
    PlaceIs(j, 9);
    LinkPartIs(j, 9);
    AssembleKeeps(Head(j), LinkParts(j, 10));
    EndAfterLast(SEG_START, LinkParts(j, 10));
  }
}
