/** What a dynamic loader that knows nothing but the file makes of a linked executable: it
    finds everything from the file header, by type and by tag (chapter 5 of the System V
    gABI; src/elf_link.c, the program headers and .dynamic). */
module ElfLoader {
  import opened Bits
  import opened Leb128
  import opened Slices
  import opened Alignment
  import ElfBytes
  import opened ElfTables
  import opened ElfLink
  import opened ElfImage
  import ElfLinker
  import ElfObj
  import ElfRead

  // ---------- the loader ----------

  /** The first program header of a type, from number `i` on. */
  function Header(out: seq<Byte>, ty: nat, i: nat): Option<Phdr>
    requires HeadersIn(out) && i <= ReadEhdr(out).phnum
    decreases ReadEhdr(out).phnum - i
  {
    if i == ReadEhdr(out).phnum then None
    else if PhdrNo(out, i).ty == ty then Some(PhdrNo(out, i))
    else Header(out, ty, i + 1)
  }

  /** Where in the file the byte at an address comes from. */
  function Where(out: seq<Byte>, addr: nat, i: nat): Option<nat>
    requires HeadersIn(out) && i <= ReadEhdr(out).phnum
    decreases ReadEhdr(out).phnum - i
  {
    if i == ReadEhdr(out).phnum then None
    else
      var p := PhdrNo(out, i);
      if p.ty == 1 && p.vaddr <= addr < p.vaddr + p.filesz then Some(p.off + (addr - p.vaddr))
      else Where(out, addr, i + 1)
  }

  /** The bytes at an address. */
  function Fetch(out: seq<Byte>, addr: nat, n: nat): Option<seq<Byte>>
    requires HeadersIn(out)
  {
    match Where(out, addr, 0)
    case None => None
    case Some(off) => if off + n <= |out| then Some(out[off..off + n]) else None
  }

  /** The value of the first entry with this tag; tag 0 ends the list. */
  function Entry(out: seq<Byte>, off: nat, tag: nat): Option<nat>
    decreases |out| - off
  {
    if off + 16 > |out| || ElfBytes.ReadLe(out, off, 8) == 0 then None
    else if ElfBytes.ReadLe(out, off, 8) == tag then Some(ElfBytes.ReadLe(out, off + 8, 8))
    else Entry(out, off + 16, tag)
  }

  /** The dynamic section is where the program header of type 2 says. */
  function DynamicEntry(out: seq<Byte>, tag: nat): Option<nat>
    requires HeadersIn(out)
  {
    match Header(out, 2, 0)
    case None => None
    case Some(p) =>
      match Where(out, p.vaddr, 0)
      case None => None
      case Some(off) => Entry(out, off, tag)
  }

  /** The string at an offset in the dynamic string table (tag 5). */
  function DynString(out: seq<Byte>, at: nat): Option<seq<Byte>>
    requires HeadersIn(out)
  {
    match DynamicEntry(out, 5)
    case None => None
    case Some(addr) =>
      match Where(out, addr, 0)
      case None => None
      case Some(off) => Some(CString(out, off + at))
  }

  /** The name of a dynamic symbol: table at tag 6, entries of the size at tag 11. */
  function SymbolName(out: seq<Byte>, sym: nat): Option<seq<Byte>>
    requires HeadersIn(out)
  {
    match (DynamicEntry(out, 6), DynamicEntry(out, 11))
    case (Some(addr), Some(size)) =>
      (match Where(out, addr, 0)
       case None => None
       case Some(off) =>
         if off + size * sym + 16 <= |out| then DynString(out, ReadSym(out, off + size * sym).name) else None)
    case _ => None
  }

  /** What a relocation asks for: the address of the function `name` at `slot`. */
  datatype Binding = Binding(slot: nat, kind: nat, name: Option<seq<Byte>>, addend: int)

  function BindingAt(out: seq<Byte>, off: nat): Option<Binding>
    requires HeadersIn(out)
  {
    if off + 24 > |out| then None
    else
      var r := ReadRela(out, off);
      Some(Binding(r.offset, r.ty, SymbolName(out, r.sym), r.addend))
  }

  /** The relocations the loader performs: those of the table at tag 23, which is as long
      as tag 2 says. */
  function Bindings(out: seq<Byte>): Option<seq<Option<Binding>>>
    requires HeadersIn(out)
  {
    match (DynamicEntry(out, 23), DynamicEntry(out, 2))
    case (Some(addr), Some(size)) =>
      (match Where(out, addr, 0)
       case None => None
       case Some(off) => Some(seq(size / 24, i requires 0 <= i < size / 24 => BindingAt(out, off + 24 * i))))
    case _ => None
  }

  // ---------- addresses ----------

  /** A byte of the file is found through its address. */
  lemma WhereIs(j: Job, off: nat)
    requires Fits(j) && off < |Linked(j)|
    ensures HeadersIn(Linked(j)) && Where(Linked(j), TEXT_VM + off, 0) == Some(off)
  {
    hide Linked, LayoutOf, ReadEhdr, Fits, HeadersIn, PhdrNo, Where;
    Segments(j);
    var out := Linked(j);
    WhereSkips(out, TEXT_VM + off, 0);
    WhereSkips(out, TEXT_VM + off, 1);
    var text, data := PhdrNo(out, 2), PhdrNo(out, 3);
    if off < text.filesz {
      WhereTakes(out, TEXT_VM + off, 2);
    } else {
      WhereSkips(out, TEXT_VM + off, 2);
      WhereTakes(out, TEXT_VM + off, 3);
    }
  }

  lemma WhereSkips(out: seq<Byte>, addr: nat, i: nat)
    requires HeadersIn(out) && i < ReadEhdr(out).phnum
    requires var p := PhdrNo(out, i); !(p.ty == 1 && p.vaddr <= addr < p.vaddr + p.filesz)
    ensures Where(out, addr, i) == Where(out, addr, i + 1)
  {
    hide PhdrNo, ReadEhdr, HeadersIn;
  }

  lemma WhereTakes(out: seq<Byte>, addr: nat, i: nat)
    requires HeadersIn(out) && i < ReadEhdr(out).phnum
    requires var p := PhdrNo(out, i); p.ty == 1 && p.vaddr <= addr < p.vaddr + p.filesz
    ensures Where(out, addr, i) == Some(PhdrNo(out, i).off + (addr - PhdrNo(out, i).vaddr))
  {
    hide PhdrNo, ReadEhdr, HeadersIn;
  }

  /** A table that the layout puts at a place in the data segment. */
  lemma PartFound(j: Job, k: nat)
    requires Fits(j) && 5 <= k < 10 && FileOff(LayoutOf(j), k) < |Linked(j)|
    ensures HeadersIn(Linked(j)) &&
      Where(Linked(j), TEXT_VM + FileOff(LayoutOf(j), k), 0) == Some(FileOff(LayoutOf(j), k))
  {
    hide Linked, LayoutOf, FileOff, Fits, HeadersIn, Where;
    WhereIs(j, FileOff(LayoutOf(j), k));
  }

  // ---------- headers ----------

  lemma HeaderFrom(out: seq<Byte>, ty: nat, i: nat, k: nat)
    requires HeadersIn(out) && i <= k < ReadEhdr(out).phnum && PhdrNo(out, k).ty == ty
    requires forall m :: i <= m < k ==> PhdrNo(out, m).ty != ty
    ensures Header(out, ty, i) == Some(PhdrNo(out, k))
    decreases k - i
  {
    hide PhdrNo, ReadEhdr, HeadersIn;
    if i < k { HeaderFrom(out, ty, i + 1, k); }
  }

  lemma HeaderIs(j: Job, k: nat)
    requires Fits(j) && k < 6 && k != 3
    ensures HeadersIn(Linked(j)) &&
      Header(Linked(j), Phdrs(LayoutOf(j), |j.interp|)[k].ty, 0) == Some(Phdrs(LayoutOf(j), |j.interp|)[k])
  {
    hide Linked, LayoutOf, ReadEhdr, Fits, HeadersIn, PhdrNo, Header, Phdrs;
    PhdrReadsBack(j, 0);
    var ps := Phdrs(LayoutOf(j), |j.interp|);
    forall m | 0 <= m < 6 ensures PhdrNo(Linked(j), m) == ps[m] { PhdrReadsBack(j, m); }
    PhdrTypes(j);
    HeaderFrom(Linked(j), ps[k].ty, 0, k);
  }

  lemma PhdrTypes(j: Job)
    ensures var ps := Phdrs(LayoutOf(j), |j.interp|);
      forall m, k :: 0 <= m < k < 6 && k != 3 ==> ps[m].ty != ps[k].ty
  {
    hide LayoutOf, DataVm;
  }

  /** The table of program headers, the interpreter, the dynamic section and the stack: each
      has a header, and it says where in the file and in memory its bytes are. Nothing is
      both writable and executable. */
  lemma HeadersTell(j: Job)
    requires Fits(j) && j.interp != []
    ensures var out := Linked(j);
      HeadersIn(out) &&
      (match Header(out, 6, 0) case None => false case Some(p) =>
        p.off == ReadEhdr(out).phoff && p.filesz == p.memsz == 56 * ReadEhdr(out).phnum &&
        Where(out, p.vaddr, 0) == Some(p.off)) &&
      (match Header(out, 3, 0) case None => false case Some(p) =>
        p.off + p.filesz <= |out| && out[p.off..p.off + p.filesz] == j.interp && p.filesz == p.memsz &&
        Fetch(out, p.vaddr, p.filesz) == Some(j.interp)) &&
      (match Header(out, 2, 0) case None => false case Some(p) =>
        p.off + p.filesz == |out| && p.filesz == p.memsz && Where(out, p.vaddr, 0) == Some(p.off)) &&
      (match Header(out, 0x6474_e551, 0) case None => false case Some(p) => p.flags == 6 && p.memsz == 0) &&
      forall i :: 0 <= i < ReadEhdr(out).phnum ==>
        PhdrNo(out, i).flags / 2 % 2 == 0 || PhdrNo(out, i).flags % 2 == 0
  {
    hide Linked, LayoutOf, ReadEhdr, Fits, HeadersIn, PhdrNo, Header, DataVm, Where, At, Ext, StrTab, Total, PartAt;
    FitsLinkable(j);
    LayoutFacts(j);
    HeaderReads(j);
    HeaderIs(j, 0);
    HeaderIs(j, 1);
    HeaderIs(j, 4);
    HeaderIs(j, 5);
    forall i | 0 <= i < 6 ensures PhdrNo(Linked(j), i) == Phdrs(LayoutOf(j), |j.interp|)[i] { PhdrReadsBack(j, i); }
    WhereIs(j, 64);
    WhereIs(j, SEG_START);
    WhereIs(j, LayoutOf(j).textSeg + LayoutOf(j).dynamic);
    InterpAt(j);
  }

  lemma InterpAt(j: Job)
    requires Linkable(j.objs)
    ensures SEG_START + |j.interp| <= |Linked(j)| && Linked(j)[SEG_START..SEG_START + |j.interp|] == j.interp
  {
    hide Linked, LayoutOf, Linkable, Ext, Stubs, All;
    LayoutIsEmission(j, 0);
  }

  /** The interpreter's path, by machine number. */
  function Interpreter(machine: nat): string {
    if machine == 62 then "/lib64/ld-linux-x86-64.so.2"
    else if machine == 243 then "/lib/ld-linux-riscv64-lp64d.so.1" else "/lib/ld-linux-aarch64.so.1"
  }

  predicate SpellsWithNul(bytes: seq<Byte>, s: string) {
    bytes != [] && bytes[|bytes| - 1] == 0 && Spells(bytes[..|bytes| - 1], s)
  }

  /** The interpreter named in the file. */
  lemma InterpreterSpelled(j: Job)
    requires Fits(j) && j.interp == ElfLinker.Interp(j.machine)
    ensures var out := Linked(j);
      HeadersIn(out) &&
      match Header(out, 3, 0) case None => false case Some(p) =>
        match Fetch(out, p.vaddr, p.filesz) case None => false case Some(path) =>
          SpellsWithNul(path, Interpreter(ReadEhdr(out).machine))
  {
    hide Linked, LayoutOf, ReadEhdr, Fits, HeadersIn, PhdrNo, Header, Fetch, SpellsWithNul, Interpreter;
    InterpChars(j.machine);
    assert j.interp != [] by { PathNotEmpty(j.interp, Interpreter(j.machine)); }
    HeadersTell(j);
    HeaderReads(j);
  }

  lemma PathNotEmpty(path: seq<Byte>, s: string)
    requires SpellsWithNul(path, s)
    ensures path != []
  {
  }

  lemma InterpChars(machine: nat)
    ensures SpellsWithNul(ElfLinker.Interp(machine), Interpreter(machine))
  {
    CharsSpell(Interpreter(machine));
    hide Spells, ElfLinker.Chars;
    assert ElfLinker.Interp(machine) == ElfLinker.Chars(Interpreter(machine)) + [0];
    var path := ElfLinker.Interp(machine);
    assert path[..|path| - 1] == ElfLinker.Chars(Interpreter(machine));
  }

  lemma CharsSpell(s: string)
    ensures Spells(ElfLinker.Chars(s), s)
  {
  }

  /** The program starts at the entry symbol: at the address in the file header, loading puts
      the byte of its object's .text that the symbol marks. The header says 0 when the symbol's
      object has no .text. */
  lemma EntryLoads(j: Job, entry: seq<Byte>, oi: nat, si: nat)
    requires Fits(j) && oi < |j.objs| && si < |j.objs[oi].symbols| && ElfLinker.EntryAt(j, entry, oi, si)
    ensures HeadersIn(Linked(j)) && Provides(j.objs, entry)
    ensures var sym, text := j.objs[oi].symbols[si], BytesIn(j.objs[oi].sections, 0);
      (sym.section == 0 && sym.value < |text| ==>
        Loaded(Linked(j), ReadEhdr(Linked(j)).entry, text[sym.value])) &&
      ((forall s :: s in j.objs[oi].sections ==> s.which != 0) ==> ReadEhdr(Linked(j)).entry == 0)
  {
    hide Linked, LayoutOf, ReadEhdr, HeadersIn, Loaded, Ext, DataVm, StrTab;
    HeaderReads(j);
    var sym, text := j.objs[oi].symbols[si], BytesIn(j.objs[oi].sections, 0);
    assert ProvidesAt(sym, entry);
    if sym.section == 0 && sym.value < |text| {
      SizeOfBytes(j.objs, oi, 0);
      SymbolsLoad(j, oi, 0, sym.value);
      TextNotEmpty(j.objs[oi].sections);
    }
  }

  lemma {:induction false} TextNotEmpty(sections: seq<ElfRead.ElfSection>)
    requires |BytesIn(sections, 0)| > 0
    ensures exists s :: s in sections && s.which == 0
  {
    if sections[0].which == 0 { assert sections[0] in sections; } else { TextNotEmpty(sections[1..]); }
  }

  // ---------- dynamic entries ----------

  function FindIn(ds: seq<Dyn>, k: nat, tag: nat): Option<nat>
    requires k <= |ds|
    decreases |ds| - k
  {
    if k == |ds| || ds[k].tag == 0 then None
    else if ds[k].tag == tag then Some(ds[k].value)
    else FindIn(ds, k + 1, tag)
  }

  function Entries(j: Job): (r: seq<Dyn>)
    ensures |r| == 14
  {
    Dynamic(LayoutOf(j), |Ext(j)|, |StrTab(DynNames(Ext(j)))|)
  }

  /** Walking the section in the file is walking the list that was written. */
  lemma {:induction false} EntryIs(j: Job, k: nat, tag: nat)
    requires Fits(j) && k < 14
    ensures Entry(Linked(j), FileOff(LayoutOf(j), 9) + 16 * k, tag) == FindIn(Entries(j), k, tag)
    decreases 14 - k
  {
    hide Linked, LayoutOf, Ext, StrTab, ElfBytes.ReadLe, Fits, Dynamic, FileOff;
    DynamicReads(j, k);
    if k < 13 {
      EntryIs(j, k + 1, tag);
    } else {
      LastEntry(j);
    }
  }

  lemma LastEntry(j: Job)
    ensures Entries(j)[13].tag == 0
  {
    hide LayoutOf, Ext, StrTab, DataVm;
  }

  lemma {:induction false} FoundAt(ds: seq<Dyn>, k: nat, i: nat)
    requires k <= i < |ds| && ds[i].tag != 0 && forall m :: k <= m < i ==> ds[m].tag != 0 && ds[m].tag != ds[i].tag
    ensures FindIn(ds, k, ds[i].tag) == Some(ds[i].value)
    decreases i - k
  {
    if k < i { FoundAt(ds, k + 1, i); }
  }

  lemma TagsDiffer(j: Job)
    ensures var ds := Entries(j);
      (forall i :: 0 <= i < 13 ==> ds[i].tag != 0) && forall m, i :: 0 <= m < i < 13 ==> ds[m].tag != ds[i].tag
  {
    hide LayoutOf, Ext, StrTab, DataVm;
  }

  /** Entry `i` of the list is what the loader finds under its tag. */
  lemma LoaderFinds(j: Job, i: nat)
    requires Fits(j) && i < 13
    ensures HeadersIn(Linked(j)) && DynamicEntry(Linked(j), Entries(j)[i].tag) == Some(Entries(j)[i].value)
  {
    hide Linked, LayoutOf, ReadEhdr, Fits, HeadersIn, Header, DataVm, Where, Ext, StrTab, Total, Entries, Entry, FindIn;
    FitsLinkable(j);
    LayoutFacts(j);
    HeaderIs(j, 4);
    WhereIs(j, LayoutOf(j).textSeg + LayoutOf(j).dynamic);
    EntryIs(j, 0, Entries(j)[i].tag);
    TagsDiffer(j);
    FoundAt(Entries(j), 0, i);
  }

  /** What the entries are: where each table is, how long, and with rows of which size. The
      table of slots is the only one relocated, by relocations with addends (7), and all of
      it before the program starts. */
  lemma LoaderTold(j: Job)
    requires Fits(j)
    ensures var out, l, ext := Linked(j), LayoutOf(j), Ext(j);
      HeadersIn(out) &&
      DynamicEntry(out, 5) == Some(TEXT_VM + FileOff(l, 7)) && DynamicEntry(out, 10) == Some(|StrTab(DynNames(ext))|) &&
      DynamicEntry(out, 6) == Some(TEXT_VM + FileOff(l, 6)) && DynamicEntry(out, 11) == Some(24) &&
      DynamicEntry(out, 3) == Some(TEXT_VM + FileOff(l, 5)) &&
      DynamicEntry(out, 23) == Some(TEXT_VM + FileOff(l, 8)) && DynamicEntry(out, 2) == Some(24 * |ext|) &&
      DynamicEntry(out, 20) == Some(7) && DynamicEntry(out, 8) == Some(24 * |ext|) &&
      DynamicEntry(out, 9) == Some(24) && DynamicEntry(out, 30) == Some(8) &&
      DynamicEntry(out, 0x6fff_fffb) == Some(1) && DynamicEntry(out, 1) == Some(1)
  {
    hide Linked, LayoutOf, Ext, StrTab, Fits, HeadersIn, DynamicEntry, DataVm, FileOff;
    forall i | 0 <= i < 13 ensures HeadersIn(Linked(j)) &&
      DynamicEntry(Linked(j), Entries(j)[i].tag) == Some(Entries(j)[i].value) {
      LoaderFinds(j, i);
    }
    DynamicPoints(j);
    EntriesAre(j);
  }

  lemma EntriesAre(j: Job)
    ensures var ds := Entries(j);
      ds[0] == Dyn(1, 1) && ds[1].tag == 5 && ds[2].tag == 6 && ds[3] == Dyn(10, |StrTab(DynNames(Ext(j)))|) &&
      ds[4] == Dyn(11, 24) && ds[5].tag == 3 && ds[6].tag == 23 && ds[7] == Dyn(2, 24 * |Ext(j)|) &&
      ds[8] == Dyn(20, 7) && ds[9] == Dyn(8, 24 * |Ext(j)|) && ds[10] == Dyn(9, 24) && ds[11] == Dyn(30, 8) &&
      ds[12] == Dyn(0x6fff_fffb, 1)
  {
    hide LayoutOf, Ext, StrTab, DataVm;
  }

  // ---------- names and relocations ----------

  lemma DynStringIs(out: seq<Byte>, at: nat, addr: nat, off: nat)
    requires HeadersIn(out) && DynamicEntry(out, 5) == Some(addr) && Where(out, addr, 0) == Some(off)
    ensures DynString(out, at) == Some(CString(out, off + at))
  {
    hide HeadersIn, DynamicEntry, Where, CString;
  }

  lemma SymbolNameIs(out: seq<Byte>, sym: nat, addr: nat, off: nat)
    requires HeadersIn(out) && DynamicEntry(out, 6) == Some(addr) && Where(out, addr, 0) == Some(off)
    requires DynamicEntry(out, 11) == Some(24) && off + 24 * sym + 16 <= |out|
    ensures SymbolName(out, sym) == DynString(out, ReadSym(out, off + 24 * sym).name)
  {
    hide HeadersIn, DynamicEntry, Where, DynString, ReadSym;
  }

  lemma FetchIs(out: seq<Byte>, addr: nat, off: nat, bytes: seq<Byte>)
    requires HeadersIn(out) && Where(out, addr, 0) == Some(off) && At(out, off, bytes)
    ensures Fetch(out, addr, |bytes|) == Some(bytes)
  {
    hide HeadersIn, Where;
  }

  /** The string table in the file, as the loader reads it. */
  lemma StringReads(j: Job, k: nat)
    requires Fits(j) && k < |DynNames(Ext(j))|
    ensures HeadersIn(Linked(j)) && NameOff(DynNames(Ext(j)), k) + |DynNames(Ext(j))[k]| < |StrTab(DynNames(Ext(j)))|
    ensures DynString(Linked(j), NameOff(DynNames(Ext(j)), k)) == Some(DynNames(Ext(j))[k])
  {
    hide *;
    LoaderTold(j);
    TablesInFile(j);
    PartFound(j, 7);
    NamesNulFree(j, k);
    TableBytes(j);
    var off := FileOff(LayoutOf(j), 7);
    NameReads(Linked(j), off, DynNames(Ext(j)), k);
    NameAt(Linked(j), off, DynNames(Ext(j)), k);
    DynStringIs(Linked(j), NameOff(DynNames(Ext(j)), k), TEXT_VM + off, off);
  }

  lemma NamesNulFree(j: Job, k: nat)
    requires Fits(j) && k < |DynNames(Ext(j))|
    ensures NulFree(DynNames(Ext(j))[k])
  {
    hide Ext, LayoutOf, StrTab, Linkable;
    if k > 0 { assert DynNames(Ext(j))[k] == Ext(j)[k - 1]; }
  }

  /** The tables are inside the file. */
  lemma TablesInFile(j: Job)
    requires Fits(j)
    ensures forall k :: 5 <= k < 10 ==> FileOff(LayoutOf(j), k) < |Linked(j)|
  {
    hide Linked, LayoutOf, Ext, StrTab, Linkable, DataVm, Total;
    LayoutFacts(j);
  }

  /** Symbol `i + 1` is named as external `i`. */
  lemma SymbolNamed(j: Job, i: nat)
    requires Fits(j) && i < |Ext(j)|
    ensures HeadersIn(Linked(j)) && SymbolName(Linked(j), i + 1) == Some(Ext(j)[i])
  {
    hide *;
    FitsLinkable(j);
    LoaderTold(j);
    TablesInFile(j);
    PartFound(j, 6);
    TableParts(j);
    LayoutIsEmission(j, 6);
    FitsNames(j);
    var off := FileOff(LayoutOf(j), 6);
    SymRowReads(Ext(j), Linked(j), off, i);
    SymbolNameIs(Linked(j), i + 1, TEXT_VM + off, off);
    NextName(Ext(j), i);
    StringReads(j, i + 1);
  }

  lemma NextName(ext: seq<seq<Byte>>, i: nat)
    requires i < |ext|
    ensures i + 1 < |DynNames(ext)| && DynNames(ext)[i + 1] == ext[i]
  {
  }

  lemma FitsNames(j: Job)
    requires Fits(j)
    ensures |StrTab(DynNames(Ext(j)))| < TWO32
  {
  }

  /** The number of the relocation the loader fills a slot with, by machine number. */
  function SlotKind(machine: nat): nat { if machine == 62 then 7 else if machine == 243 then 5 else 1026 }

  /** The loader fills every slot of the global offset table (tag 3), and nothing else, each
      with the address of its own external; the externals are exactly the names some object
      refers to and none provides. */
  lemma LoaderBinds(j: Job)
    requires Fits(j)
    ensures var out, ext := Linked(j), Ext(j);
      HeadersIn(out) &&
      match (Bindings(out), DynamicEntry(out, 3))
      case (Some(bs), Some(got)) =>
        |bs| == |ext| && Distinct(ext) &&
        (forall name :: name in ext <==> Refers(j.objs, name) && !Provides(j.objs, name)) &&
        forall i :: 0 <= i < |ext| ==>
          bs[i] == Some(Binding(got + 8 * i, SlotKind(ReadEhdr(out).machine), Some(ext[i]), 0))
      case _ => false
  {
    hide Linked, LayoutOf, Ext, StrTab, HeadersIn, DynamicEntry, DataVm, FileOff, Where, Fits, BindingAt, ReadEhdr,
      Refers,
      Provides;
    LoaderTold(j);
    TablesInFile(j);
    PartFound(j, 8);
    HeaderReads(j);
    forall i | 0 <= i < |Ext(j)|
      ensures BindingAt(Linked(j), FileOff(LayoutOf(j), 8) + 24 * i) == Some(Binding(
        TEXT_VM + FileOff(LayoutOf(j), 5) + 8 * i, SlotKind(j.machine), Some(Ext(j)[i]), 0))
    {
      BindingIs(j, i);
    }
    ExternalsOnce(j);
    Rows24(|Ext(j)|);
  }

  lemma Rows24(n: nat)
    ensures 24 * n / 24 == n
  {
  }

  lemma ExternalsOnce(j: Job)
    ensures Distinct(Ext(j))
    ensures forall name :: name in Ext(j) <==> Refers(j.objs, name) && !Provides(j.objs, name)
  {
    hide Refers, Provides;
    ExternalsNeeded(j.objs);
  }

  lemma BindingIs(j: Job, i: nat)
    requires Fits(j) && i < |Ext(j)|
    ensures HeadersIn(Linked(j)) && BindingAt(Linked(j), FileOff(LayoutOf(j), 8) + 24 * i) == Some(Binding(
      TEXT_VM + FileOff(LayoutOf(j), 5) + 8 * i, SlotKind(j.machine), Some(Ext(j)[i]), 0))
  {
    hide Linked, LayoutOf, Ext, HeadersIn, Fits, FileOff, DataVm, SymbolName, ReadRela;
    SlotRela(j, i);
    SymbolNamed(j, i);
    GotAt(j);
  }

  lemma GotAt(j: Job)
    requires Fits(j)
    ensures DataVm(LayoutOf(j)) + LayoutOf(j).got == TEXT_VM + FileOff(LayoutOf(j), 5)
  {
    hide Linked, LayoutOf, Ext, Linkable, Total, StrTab, DataVm;
    LayoutFacts(j);
  }

  /** The slots are zero in the file, and the program needs one library. Every name the
      loader reads ends inside the string table, which is as long as tag 10 says. */
  lemma LoaderReads(j: Job)
    requires Fits(j)
    ensures var out, ext := Linked(j), Ext(j);
      HeadersIn(out) &&
      (match (DynamicEntry(out, 5), DynamicEntry(out, 10))
       case (Some(table), Some(size)) =>
         Fetch(out, table, size) == Some(StrTab(DynNames(ext))) &&
         (match DynamicEntry(out, 1)
          case None => false
          case Some(at) =>
            (match DynString(out, at) case None => false case Some(name) =>
              Spells(name, "libc.so.6") && at + |name| < size)) &&
         forall i :: 0 <= i < |ext| ==> NameOff(DynNames(ext), i + 1) + |ext[i]| < size
       case _ => false) &&
      match DynamicEntry(out, 3)
      case None => false
      case Some(got) => Fetch(out, got, 8 * |ext|) == Some(seq(8 * |ext|, _ => 0))
  {
    hide *;
    FitsLinkable(j);
    LoaderTold(j);
    TablesInFile(j);
    PartFound(j, 5);
    PartFound(j, 7);
    FirstName(Ext(j));
    StringReads(j, 0);
    TableBytes(j);
    FetchIs(Linked(j), TEXT_VM + FileOff(LayoutOf(j), 7), FileOff(LayoutOf(j), 7), StrTab(DynNames(Ext(j))));
    FetchIs(Linked(j), TEXT_VM + FileOff(LayoutOf(j), 5), FileOff(LayoutOf(j), 5), seq(8 * |Ext(j)|, _ => 0));
    forall i | 0 <= i < |Ext(j)|
      ensures i + 1 < |DynNames(Ext(j))| && NameOff(DynNames(Ext(j)), i + 1) + |Ext(j)[i]| < |StrTab(DynNames(Ext(j)))|
    {
      NextName(Ext(j), i);
      StringReads(j, i + 1);
    }
  }

  lemma FirstName(ext: seq<seq<Byte>>)
    ensures |DynNames(ext)| == 1 + |ext| && NameOff(DynNames(ext), 0) == 1 && DynNames(ext)[0] == Libc &&
      Spells(Libc, "libc.so.6")
  {
    assert DynNames(ext)[..0] == [];
  }

  lemma TableBytes(j: Job)
    requires Fits(j)
    ensures At(Linked(j), FileOff(LayoutOf(j), 7), StrTab(DynNames(Ext(j))))
    ensures At(Linked(j), FileOff(LayoutOf(j), 5), seq(8 * |Ext(j)|, _ => 0))
  {
    hide Linked, LayoutOf, Ext, StrTab, FileOff, At, Linkable, Stubs, All, Table;
    FitsLinkable(j);
    LayoutIsEmission(j, 5);
    LayoutIsEmission(j, 7);
    assert ElfBytes.Zeros(8 * |Ext(j)|) == seq(8 * |Ext(j)|, _ => 0);
  }
}
