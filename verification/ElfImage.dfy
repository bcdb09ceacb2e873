/** What loading the linked executable puts in memory (src/elf_link.c, symbol_vm and the program
    headers; chapter 5 of the System V gABI). */
module ElfImage {
  import opened Bits
  import opened Leb128
  import opened Slices
  import opened Alignment
  import opened ElfBytes
  import opened ElfTables
  import opened ElfLink

  /** Numbers fit their fields. */
  predicate Fits(j: Job) {
    Linkable(j.objs) && j.machine < 0x1_0000 && j.entry < TWO64 && |j.interp| < TWO64 &&
    DataVm(LayoutOf(j)) + LayoutOf(j).memsz < TWO64 && |StrTab(DynNames(Ext(j)))| < TWO32 && |Ext(j)| < TWO32 - 1 &&
    forall name :: name in Ext(j) ==> NulFree(name)
  }

  // ---------- the loader ----------

  /** A loadable segment maps byte `b` at `addr`: from the file, or zero beyond its file size. */
  predicate Maps(out: seq<Byte>, p: Phdr, addr: nat, b: Byte) {
    p.ty == PT_LOAD && p.vaddr <= addr < p.vaddr + p.memsz && p.off + p.filesz <= |out| &&
    b == if addr - p.vaddr < p.filesz then out[p.off + addr - p.vaddr] else 0
  }

  predicate HeadersIn(out: seq<Byte>) { |out| >= 64 && ReadEhdr(out).phoff + 56 * ReadEhdr(out).phnum <= |out| }

  function PhdrNo(out: seq<Byte>, i: nat): Phdr
    requires HeadersIn(out) && i < ReadEhdr(out).phnum
  {
    ReadPhdr(out, ReadEhdr(out).phoff + 56 * i)
  }

  /** Loading the file puts `b` at `addr`. */
  predicate Loaded(out: seq<Byte>, addr: nat, b: Byte) {
    HeadersIn(out) && exists i :: 0 <= i < ReadEhdr(out).phnum && Maps(out, PhdrNo(out, i), addr, b)
  }

  // ---------- the headers as written ----------

  lemma LayoutFacts(j: Job)
    requires Linkable(j.objs)
    ensures var l := LayoutOf(j);
      l.textSeg % PAGE == 0 && DataVm(l) == TEXT_VM + l.textSeg && SEG_START + |j.interp| <= l.text &&
      l.text + Total(j.objs, 0) <= l.plt && l.plt + 16 * |Ext(j)| <= l.rodata &&
      l.rodata + Total(j.objs, 3) <= l.textSeg &&
      Total(j.objs, 1) <= l.got && l.got + 8 * |Ext(j)| <= l.dynsym && l.dynstr == l.dynsym + 24 * (1 + |Ext(j)|) &&
      l.dynstr + |StrTab(DynNames(Ext(j)))| <= l.rela && l.rela + 24 * |Ext(j)| == l.dynamic &&
      l.dynamic + DYNAMIC_SIZE <= l.bss && l.bss + Total(j.objs, 2) <= l.memsz &&
      |Linked(j)| == l.textSeg + l.dynamic + DYNAMIC_SIZE
  {
    hide Linkable, Ext, Total, StrTab, AlignUp, Linked, DataVm;
    var l := LayoutOf(j);
    LayoutAligned(l, |j.interp|, Total(j.objs, 0), Total(j.objs, 3), Total(j.objs, 1), Total(j.objs, 2), |Ext(j)|,
      |StrTab(DynNames(Ext(j)))|);
    RelaAfterNames(l.dynstr + |StrTab(DynNames(Ext(j)))|);
    FileLength(j);
  }

  lemma RelaAfterNames(n: nat)
    ensures AlignUp(n, 8) >= n
  {
  }

  lemma PhdrsFit(j: Job, i: nat)
    requires Fits(j) && i < 6
    ensures PhdrFits(Phdrs(LayoutOf(j), |j.interp|)[i])
  {
    hide LayoutOf, Ext, Total, StrTab, Linkable, Linked, DataVm;
    LayoutFacts(j);
  }

  lemma HeadPlaced(j: Job)
    ensures At(Linked(j), 0, EhdrBytes(Ehdr(2, j.machine, j.entry, 64, 0, 56, 6, 0, 0)))
    ensures At(Linked(j), 64, Table(PhdrRows(Phdrs(LayoutOf(j), |j.interp|), 6)))
  {
    hide EhdrBytes, Table, Phdrs, LayoutOf, LinkParts, Assemble;
    AssembleKeeps(Head(j), LinkParts(j, 10));
    EhdrOffsets(Ehdr(2, j.machine, j.entry, 64, 0, 56, 6, 0, 0));
    AtConcat(Linked(j), 0, EhdrBytes(Ehdr(2, j.machine, j.entry, 64, 0, 56, 6, 0, 0)),
      Table(PhdrRows(Phdrs(LayoutOf(j), |j.interp|), 6)));
  }

  lemma PhdrRowsAre(ps: seq<Phdr>)
    requires |ps| == 6
    ensures Rows(PhdrRows(ps, 6), 56) && forall i :: 0 <= i < 6 ==> PhdrRows(ps, 6)[i] == PhdrFields(ps[i])
    ensures |Table(PhdrRows(ps, 6))| == 336
  {
    hide PhdrFields, Pack, Table;
    var rows := PhdrRows(ps, 6);
    forall i | 0 <= i < 6 ensures |Pack(rows[i])| == 56 { PhdrOffsets(ps[i]); }
    TableLength(rows, 56);
  }

  lemma HeaderReads(j: Job)
    requires Fits(j)
    ensures |Linked(j)| >= 400 && ReadEhdr(Linked(j)) == Ehdr(2, j.machine, j.entry, 64, 0, 56, 6, 0, 0) &&
      HeadersIn(Linked(j))
  {
    hide Linked, EhdrBytes, LayoutOf, Linkable, Ext, ReadEhdr, Table, Phdrs;
    HeadPlaced(j);
    EhdrReads(Linked(j), Ehdr(2, j.machine, j.entry, 64, 0, 56, 6, 0, 0));
    PhdrRowsAre(Phdrs(LayoutOf(j), |j.interp|));
  }

  /** Program header `i` reads back as computed by the layout. */
  lemma PhdrReadsBack(j: Job, i: nat)
    requires Fits(j) && i < 6
    ensures HeadersIn(Linked(j)) && ReadEhdr(Linked(j)).phnum == 6 &&
      PhdrNo(Linked(j), i) == Phdrs(LayoutOf(j), |j.interp|)[i]
  {
    hide Linked, EhdrBytes, LayoutOf, ReadEhdr, Table, Phdrs, Fits, HeadersIn, PhdrFields, PhdrFits, ReadPhdr, PhdrRows;
    HeaderReads(j);
    HeadPlaced(j);
    var ps := Phdrs(LayoutOf(j), |j.interp|);
    PhdrRowsAre(ps);
    PhdrsFit(j, i);
    RowAt(Linked(j), 64, PhdrRows(ps, 6), 56, i);
    PhdrReads(Linked(j), 64 + 56 * i, ps[i]);
  }

  /** The two segments: page-congruent, inside the file, one after the other. */
  lemma Segments(j: Job)
    requires Fits(j)
    ensures HeadersIn(Linked(j)) && ReadEhdr(Linked(j)).phnum == 6
    ensures forall i :: 0 <= i < 6 ==> (PhdrNo(Linked(j), i).ty == PT_LOAD <==> i == 2 || i == 3)
    ensures var text, data := PhdrNo(Linked(j), 2), PhdrNo(Linked(j), 3);
      text.vaddr + text.memsz <= data.vaddr &&
      text.vaddr % PAGE == text.off % PAGE && data.vaddr % PAGE == data.off % PAGE &&
      text.filesz == text.memsz && data.filesz <= data.memsz &&
      text.off == 0 && text.filesz == data.off && data.off + data.filesz == |Linked(j)| &&
      text.vaddr == TEXT_VM + text.off && data.vaddr == TEXT_VM + data.off
  {
    hide Linked, LayoutOf, ReadEhdr, Fits, HeadersIn, PhdrNo, DataVm, Total, Ext;
    FitsLinkable(j);
    LayoutFacts(j);
    PhdrReadsBack(j, 0);
    forall i | 0 <= i < 6 ensures PhdrNo(Linked(j), i) == Phdrs(LayoutOf(j), |j.interp|)[i] { PhdrReadsBack(j, i); }
    AddAligned(TEXT_VM, LayoutOf(j).textSeg, PAGE);
  }

  lemma FitsLinkable(j: Job)
    requires Fits(j)
    ensures Linkable(j.objs)
  {
  }

  /** Nothing is loaded twice differently. */
  lemma LoadedOnce(j: Job, addr: nat, b: Byte, c: Byte)
    requires Fits(j) && Loaded(Linked(j), addr, b) && Loaded(Linked(j), addr, c)
    ensures b == c
  {
    hide Linked, LayoutOf, ReadEhdr, Fits, PhdrNo, HeadersIn;
    Segments(j);
    var i :| 0 <= i < 6 && Maps(Linked(j), PhdrNo(Linked(j), i), addr, b);
    var k :| 0 <= k < 6 && Maps(Linked(j), PhdrNo(Linked(j), k), addr, c);
    assert i == k;
  }

  /** Every byte of the file is loaded at TEXT_VM plus its offset. */
  lemma FileIsLoaded(j: Job, off: nat)
    requires Fits(j) && off < |Linked(j)|
    ensures Loaded(Linked(j), TEXT_VM + off, Linked(j)[off])
  {
    hide Linked, LayoutOf, ReadEhdr, Fits, PhdrNo, HeadersIn;
    Segments(j);
    var i := if off < PhdrNo(Linked(j), 2).filesz then 2 else 3;
    assert Maps(Linked(j), PhdrNo(Linked(j), i), TEXT_VM + off, Linked(j)[off]);
  }

  // ---------- symbols ----------

  /** The address relocation uses for a symbol of object `o`. */
  function SymbolVm(j: Job, o: nat, section: int, value: nat): nat
    requires o < |j.objs|
  {
    var l := LayoutOf(j);
    if section == 0 then TEXT_VM + l.text + Base(j.objs, 0, o) + value
    else if section == 3 then TEXT_VM + l.rodata + Base(j.objs, 3, o) + value
    else if section == 1 then DataVm(l) + Base(j.objs, 1, o) + value
    else if section == 2 then DataVm(l) + l.bss + Base(j.objs, 2, o) + value
    else 0
  }

  lemma {:induction false} BaseMono(objs: seq<Obj>, which: int, o: nat, n: nat)
    requires o < n <= |objs|
    ensures Base(objs, which, o) + SizeIn(objs[o].sections, which) <= Base(objs, which, n)
  {
    if o + 1 < n { BaseMono(objs, which, o, n - 1); }
  }

  /** The file offset of a byte of .text (0), .data (1) or .rodata (3). */
  function FileByte(j: Job, o: nat, section: int, v: nat): nat
    requires o < |j.objs|
  {
    FileOff(LayoutOf(j), PartNo(section)) + Base(j.objs, section, o) + v
  }

  lemma ByteInFile(j: Job, o: nat, section: int, v: nat)
    requires Linkable(j.objs) && o < |j.objs| && section in {0, 1, 3} && v < |BytesIn(j.objs[o].sections, section)|
    ensures FileByte(j, o, section, v) < |Linked(j)|
    ensures Linked(j)[FileByte(j, o, section, v)] == BytesIn(j.objs[o].sections, section)[v]
  {
    hide Linked, LayoutOf, FileOff, Combined, Base, BytesIn, Linkable, At, PartAt;
    SectionPlaced(j, section);
    CombinedAt(j.objs, section, |j.objs|, o);
    var off := FileOff(LayoutOf(j), PartNo(section));
    AtWithin(Linked(j), off, All(j.objs, section), Base(j.objs, section, o), BytesIn(j.objs[o].sections, section), v);
  }

  function PartNo(section: int): nat { if section == 0 then 1 else if section == 3 then 3 else 4 }

  lemma SectionPlaced(j: Job, section: int)
    requires Linkable(j.objs) && section in {0, 1, 3}
    ensures At(Linked(j), FileOff(LayoutOf(j), PartNo(section)), All(j.objs, section))
  {
    hide Linked, LayoutOf, FileOff, All, Linkable, At, PartAt;
    SectionParts(j);
    LayoutIsEmission(j, PartNo(section));
  }

  lemma SectionParts(j: Job)
    ensures PartAt(j, 1).bytes == All(j.objs, 0) && PartAt(j, 3).bytes == All(j.objs, 3) &&
      PartAt(j, 4).bytes == All(j.objs, 1)
  {
    hide All, LayoutOf, Ext;
  }

  /** Loading puts every byte of every object's .text, .data and .rodata at the address its
      symbols get, and zeros for .bss. */
  lemma SymbolsLoad(j: Job, o: nat, section: int, v: nat)
    requires Fits(j) && o < |j.objs| && 0 <= section < 4 && v < SizeIn(j.objs[o].sections, section)
    ensures section != 2 ==> v < |BytesIn(j.objs[o].sections, section)|
    ensures Loaded(Linked(j), SymbolVm(j, o, section, v), if section == 2 then 0
      else BytesIn(j.objs[o].sections, section)[v])
  {
    hide Linked, Fits, BytesIn, Base, LayoutOf, Linkable, DataVm, Loaded, Total, Ext, SizeIn;
    FitsLinkable(j);
    LayoutFacts(j);
    if section == 2 {
      BssLoadsZero(j, o, v);
    } else {
      SizeOfBytes(j.objs, o, section);
      ByteInFile(j, o, section, v);
      FileIsLoaded(j, FileByte(j, o, section, v));
    }
  }

  lemma SizeOfBytes(objs: seq<Obj>, o: nat, section: int)
    requires Linkable(objs) && o < |objs| && section != 2
    ensures |BytesIn(objs[o].sections, section)| == SizeIn(objs[o].sections, section)
  {
    assert objs[o] in objs;
    SizeIsLength(objs[o].sections, section);
  }

  lemma BssLoadsZero(j: Job, o: nat, v: nat)
    requires Fits(j) && o < |j.objs| && v < SizeIn(j.objs[o].sections, 2)
    ensures Loaded(Linked(j), SymbolVm(j, o, 2, v), 0)
  {
    hide Linked, Fits, BytesIn, Base, LayoutOf, Linkable, DataVm, Ext, SizeIn, ReadEhdr, PhdrNo, HeadersIn;
    FitsLinkable(j);
    LayoutFacts(j);
    Segments(j);
    PhdrReadsBack(j, 3);
    BaseMono(j.objs, 2, o, |j.objs|);
    assert Maps(Linked(j), PhdrNo(Linked(j), 3), SymbolVm(j, o, 2, v), 0);
  }

  /** Different bytes of the objects never share an address. */
  lemma SymbolsApart(j: Job, o: nat, section: int, v: nat, o2: nat, section2: int, v2: nat)
    requires Linkable(j.objs) && o < |j.objs| && o2 < |j.objs| && 0 <= section < 4 && 0 <= section2 < 4
    requires v < SizeIn(j.objs[o].sections, section) && v2 < SizeIn(j.objs[o2].sections, section2)
    requires SymbolVm(j, o, section, v) == SymbolVm(j, o2, section2, v2)
    ensures o == o2 && section == section2 && v == v2
  {
    hide Linked, Base, LayoutOf, Linkable, DataVm, Ext, SizeIn;
    LayoutFacts(j);
    BaseMono(j.objs, section, o, |j.objs|);
    BaseMono(j.objs, section2, o2, |j.objs|);
    if o < o2 { BaseMono(j.objs, section, o, o2); } else if o2 < o { BaseMono(j.objs, section, o2, o); }
  }

  // ---------- external symbols ----------

  /** The loader finds, for GOT slot `i`, a jump-slot relocation at the slot's address naming symbol
      `i + 1`, whose name is external `i`. */
  lemma SlotResolves(j: Job, i: nat)
    requires Fits(j) && i < |Ext(j)|
    ensures var l := LayoutOf(j);
      var rela := FileOff(l, 8) + 24 * i;
      var sym := FileOff(l, 6) + 24 * (i + 1);
      rela + 24 <= |Linked(j)| && sym + 24 <= |Linked(j)| &&
      ReadRela(Linked(j), rela) == Rela(DataVm(l) + l.got + 8 * i, i + 1, JumpSlot(j.machine), 0) &&
      CString(Linked(j), FileOff(l, 7) + ReadSym(Linked(j), sym).name) == Ext(j)[i]
  {
    hide Linked, LayoutOf, FileOff, Ext, CString, ReadSym, ReadRela, Fits, DataVm, JumpSlot;
    SlotRela(j, i);
    SlotName(j, i);
  }

  lemma SlotRela(j: Job, i: nat)
    requires Fits(j) && i < |Ext(j)|
    ensures var l := LayoutOf(j);
      var rela := FileOff(l, 8) + 24 * i;
      rela + 24 <= |Linked(j)| &&
      ReadRela(Linked(j), rela) == Rela(DataVm(l) + l.got + 8 * i, i + 1, JumpSlot(j.machine), 0)
  {
    hide Linked, LayoutOf, FileOff, Ext, Total, StrTab, Table, ReadRela, At, Linkable, DataVm, PartAt, JumpSlot,
      PltRelaRows;
    LayoutFacts(j);
    TableParts(j);
    LayoutIsEmission(j, 8);
    RelaRowReads(j.machine, DataVm(LayoutOf(j)) + LayoutOf(j).got, |Ext(j)|, Linked(j), FileOff(LayoutOf(j), 8), i);
  }

  lemma SlotName(j: Job, i: nat)
    requires Fits(j) && i < |Ext(j)|
    ensures var l := LayoutOf(j);
      var sym := FileOff(l, 6) + 24 * (i + 1);
      sym + 24 <= |Linked(j)| && CString(Linked(j), FileOff(l, 7) + ReadSym(Linked(j), sym).name) == Ext(j)[i]
  {
    hide Linked, LayoutOf, FileOff, Ext, Total, StrTab, Table, CString, ReadSym, NulFree, At, Linkable, DataVm, PartAt,
      DynSymRows;
    TableParts(j);
    LayoutIsEmission(j, 6);
    LayoutIsEmission(j, 7);
    SymRowReads(Ext(j), Linked(j), FileOff(LayoutOf(j), 6), i);
    assert DynNames(Ext(j))[i + 1] == Ext(j)[i];
    NameReads(Linked(j), FileOff(LayoutOf(j), 7), DynNames(Ext(j)), i + 1);
  }

  lemma TableParts(j: Job)
    ensures PartAt(j, 6).bytes == Table(DynSymRows(Ext(j), |Ext(j)|)) && PartAt(j, 7).bytes == StrTab(DynNames(Ext(j)))
    ensures PartAt(j, 8).bytes == Table(PltRelaRows(j.machine, DataVm(LayoutOf(j)) + LayoutOf(j).got, |Ext(j)|))
    ensures PartAt(j, 9).bytes == Table(DynRows(Dynamic(LayoutOf(j), |Ext(j)|, |StrTab(DynNames(Ext(j)))|), 14))
  {
    hide LayoutOf, Ext, Table, StrTab, All, Dynamic;
  }

  lemma RelaRowReads(machine: nat, gotVm: nat, n: nat, data: seq<Byte>, off: nat, i: nat)
    requires At(data, off, Table(PltRelaRows(machine, gotVm, n))) && i < n < TWO32 - 1 && gotVm + 8 * i < TWO64
    ensures off + 24 * i + 24 <= |data| &&
      ReadRela(data, off + 24 * i) == Rela(gotVm + 8 * i, i + 1, JumpSlot(machine), 0)
  {
    hide Table, Pack, RelaFields, At, ReadRela;
    PltRelaLength(machine, gotVm, n);
    RowAt(data, off, PltRelaRows(machine, gotVm, n), 24, i);
    RelaReads(data, off + i * 24, Rela(gotVm + 8 * i, i + 1, JumpSlot(machine), 0));
  }

  lemma SymRowReads(ext: seq<seq<Byte>>, data: seq<Byte>, off: nat, i: nat)
    requires At(data, off, Table(DynSymRows(ext, |ext|))) && i < |ext| && |StrTab(DynNames(ext))| < TWO32
    ensures off + 24 * (i + 1) + 24 <= |data| && ReadSym(data, off + 24 * (i + 1)).name == NameOff(DynNames(ext), i + 1)
  {
    hide Table, Pack, SymFields, At, ReadSym, StrTab;
    DynSymLength(ext);
    var s := Sym(NameOff(DynNames(ext), i + 1), 16, 0, 0);
    NameInTable(DynNames(ext), i + 1);
    assert DynSymRows(ext, |ext|)[i + 1] == SymFields(s);
    RowAt(data, off, DynSymRows(ext, |ext|), 24, i + 1);
    SymReads(data, off + (i + 1) * 24, s);
  }

  lemma NameInTable(names: seq<seq<Byte>>, k: nat)
    requires k < |names|
    ensures NameOff(names, k) < |StrTab(names)|
  {
    NameAt(StrTab(names), 0, names, k);
  }

  /** Each dynamic entry reads back. */
  lemma DynamicReads(j: Job, k: nat)
    requires Fits(j) && k < 14
    ensures var l := LayoutOf(j);
      var off := FileOff(l, 9) + 16 * k;
      off + 16 <= |Linked(j)| &&
      Dyn(ReadLe(Linked(j), off, 8), ReadLe(Linked(j), off + 8, 8)) ==
        Dynamic(l, |Ext(j)|, |StrTab(DynNames(Ext(j)))|)[k]
  {
    hide Linked, LayoutOf, Ext, StrTab, Table, At, Linkable, ReadLe, PartAt, DynRows, Fits, Dynamic, FileOff;
    FitsLinkable(j);
    TableParts(j);
    LayoutIsEmission(j, 9);
    DynamicFits(j, k);
    DynRowReads(Dynamic(LayoutOf(j), |Ext(j)|, |StrTab(DynNames(Ext(j)))|), Linked(j), FileOff(LayoutOf(j), 9), k);
  }

  lemma DynamicFits(j: Job, k: nat)
    requires Fits(j) && k < 14
    ensures var d := Dynamic(LayoutOf(j), |Ext(j)|, |StrTab(DynNames(Ext(j)))|)[k]; d.tag < TWO64 && d.value < TWO64
  {
    hide Linked, LayoutOf, Ext, Total, StrTab, Linkable, DataVm;
    LayoutFacts(j);
  }

  /** The tables' addresses in the dynamic section are where those tables are loaded. */
  lemma DynamicPoints(j: Job)
    requires Fits(j)
    ensures var l := LayoutOf(j);
      var ds := Dynamic(l, |Ext(j)|, |StrTab(DynNames(Ext(j)))|);
      ds[1] == Dyn(5, TEXT_VM + FileOff(l, 7)) && ds[2] == Dyn(6, TEXT_VM + FileOff(l, 6)) &&
      ds[5] == Dyn(3, TEXT_VM + FileOff(l, 5)) &&
      ds[6] == Dyn(23, TEXT_VM + FileOff(l, 8))
  {
    hide Linked, LayoutOf, Ext, Total, StrTab, Linkable, DataVm;
    LayoutFacts(j);
  }

  lemma DynRowReads(ds: seq<Dyn>, data: seq<Byte>, off: nat, k: nat)
    requires |ds| == 14 && k < 14 && At(data, off, Table(DynRows(ds, 14))) && ds[k].tag < TWO64 && ds[k].value < TWO64
    ensures off + 16 * k + 16 <= |data| && ReadLe(data, off + 16 * k, 8) == ds[k].tag &&
      ReadLe(data, off + 16 * k + 8, 8) == ds[k].value
  {
    hide Table, Pack, At, ReadLe, Pow256;
    DynLength(ds);
    RowAt(data, off, DynRows(ds, 14), 16, k);
    DynOffsets(ds[k]);
    Pow256Is();
    FieldReads(data, off + k * 16, DynFields(ds[k]), 0);
    FieldReads(data, off + k * 16, DynFields(ds[k]), 1);
    BeforeZero(DynFields(ds[k]));
  }
}
