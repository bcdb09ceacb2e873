/** What any reader of the format finds in a written object, header by header and name by name
    (chapter 4 of the System V gABI; src/elf_obj.c). */
module ElfConforms {
  import opened Bits
  import opened Leb128
  import opened Slices
  import ElfBytes
  import Alignment
  import opened ElfTables
  import opened ElfObj
  import opened ElfRoundTrip

  // ---------- a reader of sections by name ----------

  predicate Readable(out: seq<Byte>) {
    |out| >= 64 && ReadEhdr(out).shoff + 64 * ReadEhdr(out).shnum <= |out| &&
    ReadEhdr(out).shstrndx < ReadEhdr(out).shnum
  }

  function SectionNo(out: seq<Byte>, i: nat): Shdr
    requires Readable(out) && i < ReadEhdr(out).shnum
  {
    ReadShdr(out, ReadEhdr(out).shoff + 64 * i)
  }

  function NameNo(out: seq<Byte>, i: nat): seq<Byte>
    requires Readable(out) && i < ReadEhdr(out).shnum
  {
    CString(out, SectionNo(out, ReadEhdr(out).shstrndx).off + SectionNo(out, i).name)
  }

  /** The number of the first section of that name, from number `i` on. */
  function Number(out: seq<Byte>, name: string, i: nat): Option<nat>
    requires Readable(out) && i <= ReadEhdr(out).shnum
    decreases ReadEhdr(out).shnum - i
  {
    if i == ReadEhdr(out).shnum then None
    else if Spells(NameNo(out, i), name) then Some(i)
    else Number(out, name, i + 1)
  }

  /** There is a section of that name, of this type and these flags, with these links and
      row size; it is aligned, and unless it has none (type 8) its bytes are in the file. */
  predicate Described(out: seq<Byte>, name: string, ty: nat, flags: nat, link: Option<nat>, info: Option<nat>,
      entsize: nat, size: nat, content: seq<Byte>)
  {
    Readable(out) &&
    match Number(out, name, 0)
    case None => false
    case Some(i) =>
      i < ReadEhdr(out).shnum &&
      var h := SectionNo(out, i);
      h.ty == ty && h.flags == flags && h.entsize == entsize && Some(h.link) == link && Some(h.info) == info &&
      h.size == size && h.align > 0 && h.off % h.align == 0 &&
      (ty != 8 ==> size == |content| && At(out, h.off, content))
  }

  predicate Missing(out: seq<Byte>, name: string) { Readable(out) && Number(out, name, 0) == None }

  // ---------- names ----------

  function Title(k: Kind): string {
    match k
    case KNull => "" case KText => ".text" case KData => ".data" case KBss => ".bss" case KRodata => ".rodata"
    case KRelaText => ".rela.text" case KRelaData => ".rela.data" case KSymtab => ".symtab" case KStrtab => ".strtab"
    case KShstrtab => ".shstrtab" case KNote => ".note.GNU-stack"
  }

  lemma NameSpelled(k: Kind)
    ensures Spells(Name(k), Title(k))
  {
    hide Spells, Name, Title;
    if k in {KNull, KText, KData, KBss} { ShortName(k); }
    else if k in {KRodata, KSymtab, KStrtab} { MiddleName(k); }
    else if k == KNote { NoteName(); }
    else { LongName(k); }
  }

  lemma ShortName(k: Kind)
    requires k in {KNull, KText, KData, KBss}
    ensures Spells(Name(k), Title(k))
  {
  }

  lemma MiddleName(k: Kind)
    requires k in {KRodata, KSymtab, KStrtab}
    ensures Spells(Name(k), Title(k))
  {
  }

  lemma LongName(k: Kind)
    requires k in {KRelaText, KRelaData, KShstrtab}
    ensures Spells(Name(k), Title(k))
  {
  }

  lemma NoteName()
    ensures Spells(Name(KNote), Title(KNote))
  {
  }

  lemma TitlesDiffer(k: Kind, k2: Kind)
    requires Spells(Name(k), Title(k2))
    ensures k == k2
  {
    var name := Name(k);
    if |name| == 5 { assert name[1] == Title(k2)[1] as int; }
    if |name| == 7 { assert name[1] == Title(k2)[1] as int && name[3] == Title(k2)[3] as int; }
    if |name| == 10 { assert name[6] == Title(k2)[6] as int; }
  }

  // ---------- the written object ----------

  lemma ReadableIs(u: Unit)
    requires WellFormed(u) && SizesFit(u)
    ensures Readable(Written(u)) && ReadEhdr(Written(u)) == FileHead(u)
  {
    hide Written, SizesFit, WellFormed, ReadEhdr, Present, OffsetOf, ShOff, Ord, ReadShdr, NameStart;
    EhdrReadsBack(u);
    NamesHeader(u);
  }

  lemma SectionIs(u: Unit, i: nat)
    requires WellFormed(u) && SizesFit(u) && i < |Kinds(u)|
    ensures Has(u, Kinds(u)[i]) && Readable(Written(u)) && ReadEhdr(Written(u)).shnum == |Kinds(u)|
    ensures SectionNo(Written(u), i) == Header(u, Kinds(u)[i])
  {
    hide Written, SizesFit, WellFormed, ReadEhdr, Present, OffsetOf, ShOff, Ord, ReadShdr, Readable, Header, Has;
    ReadableIs(u);
    HeaderReads(u, i);
  }

  lemma NameIs(u: Unit, i: nat)
    requires WellFormed(u) && SizesFit(u) && i < |Kinds(u)|
    ensures Readable(Written(u)) && ReadEhdr(Written(u)).shnum == |Kinds(u)|
    ensures NameNo(Written(u), i) == Name(Kinds(u)[i])
  {
    hide Written, SizesFit, WellFormed, ReadEhdr, Present, OffsetOf, ShOff, Ord, Readable, SectionNo, Header, CString,
      Has, NameStart;
    ReadableIs(u);
    SectionIs(u, i);
    OrdIs(u, KShstrtab) by { HasNames(u); }
    SectionIs(u, Ord(u, KShstrtab));
    HeaderName(u, i);
    HeaderNameField(u, Kinds(u)[i]);
    NamesOffset(u);
  }

  lemma HasNames(u: Unit)
    ensures Has(u, KShstrtab)
  {
  }

  lemma NamesOffset(u: Unit)
    requires WellFormed(u) && SizesFit(u)
    ensures Header(u, KShstrtab).off == OffsetOf(u, KShstrtab) && FileHead(u).shstrndx == Ord(u, KShstrtab)
  {
    hide Written, SizesFit, Present, OffsetOf, ShOff, Ord;
  }

  /** A section is found under its name exactly when the object has it. */
  lemma {:induction false} NumberFrom(u: Unit, k: Kind, i: nat)
    requires WellFormed(u) && SizesFit(u) && i <= |Kinds(u)| && Readable(Written(u))
    requires ReadEhdr(Written(u)).shnum == |Kinds(u)|
    ensures Number(Written(u), Title(k), i) == if Has(u, k) && i <= Ord(u, k) then Some(Ord(u, k)) else None
    decreases |Kinds(u)| - i
  {
    hide Written, SizesFit, WellFormed, ReadEhdr, Present, OffsetOf, ShOff, Ord, Readable, NameNo, Name, Title, Has,
      Spells;
    if i < |Kinds(u)| {
      NameIs(u, i);
      ContentFirst(u, i);
      NameSpelled(Kinds(u)[i]);
      if Spells(Name(Kinds(u)[i]), Title(k)) { TitlesDiffer(Kinds(u)[i], k); }
      NumberFrom(u, k, i + 1);
      if Has(u, k) { OrdIs(u, k); }
    } else if Has(u, k) {
      OrdIs(u, k);
    }
  }

  lemma NumberIs(u: Unit, k: Kind)
    requires WellFormed(u) && SizesFit(u)
    ensures Readable(Written(u))
    ensures Number(Written(u), Title(k), 0) == if Has(u, k) then Some(Ord(u, k)) else None
    ensures !Has(u, k) ==> Missing(Written(u), Title(k))
    ensures Has(u, k) ==> Ord(u, k) < ReadEhdr(Written(u)).shnum && SectionNo(Written(u), Ord(u, k)) == Header(u, k)
  {
    hide Written, SizesFit, WellFormed, ReadEhdr, Present, OffsetOf, ShOff, Ord, Readable, Number, Title, Has,
      SectionNo, Header, FileHead;
    SectionIs(u, 0) by { NullFirst(u); }
    NumberFrom(u, k, 0);
    if Has(u, k) {
      OrdIs(u, k);
      SectionIs(u, Ord(u, k));
    }
  }

  lemma NullFirst(u: Unit)
    ensures |Kinds(u)| > 0
  {
    PresentAt(u, 0, 11);
  }

  lemma {:induction false} PlaceAligned(cur: nat, parts: seq<ElfBytes.Part>, k: nat)
    requires ElfBytes.Aligned(parts) && k < |parts|
    ensures ElfBytes.PlaceOf(cur, parts, k) % parts[k].align == 0
    decreases k
  {
    if k == 0 {
      Alignment.AlignUpIs(cur, parts[0].align);
    } else {
      PlaceAligned(Alignment.AlignUp(cur, parts[0].align) + |parts[0].bytes|, parts[1..], k - 1);
    }
  }

  lemma OffsetAligned(u: Unit, k: Kind)
    requires WellFormed(u) && InFile(k) && Has(u, k)
    ensures OffsetOf(u, k) % 8 == 0 && OffsetOf(u, k) % 4 == 0 && OffsetOf(u, k) % 1 == 0
  {
    PlaceAligned(64, BodyParts(u, 9), FileNo(k));
    assert BodyParts(u, 9)[FileNo(k)] == PartOf(u, k);
    hide OffsetOf, Has, PartOf;
    EightAligned(OffsetOf(u, k));
  }

  lemma EightAligned(n: nat)
    requires n % 8 == 0
    ensures n % 4 == 0 && n % 1 == 0
  {
  }

  /** What is found under a name, from what the writer put in its header. */
  lemma DescribedIs(u: Unit, k: Kind, link: Option<nat>, info: Option<nat>)
    requires WellFormed(u) && SizesFit(u) && Has(u, k) && !k.KNull?
    requires link == Some(Header(u, k).link) && info == Some(Header(u, k).info)
    ensures var h := Header(u, k);
      Described(Written(u), Title(k), h.ty, h.flags, link, info, h.entsize, h.size, Content(u, k))
  {
    NumberIs(u, k);
    HeaderFits(u, k);
    if InFile(k) {
      ContentPlaced(u, k);
      OffsetAligned(u, k);
    }
    hide Written, SizesFit, WellFormed, ReadEhdr, Present, OffsetOf, ShOff, Ord, Readable, Number, Title, SectionNo,
      Content, At, ShdrFits, NameStart;
  }

  /** The sections with the program's bytes: code is executable, only .data and .bss can be
      written, and a section that would be empty is left out. */
  lemma ContentSections(u: Unit)
    requires WellFormed(u) && SizesFit(u)
    ensures var out := Written(u);
      Described(out, ".text", 1, 6, Some(0), Some(0), 0, |u.text.bytes|, u.text.bytes) &&
      (if u.data.used || u.data.bytes != []
       then Described(out, ".data", 1, 3, Some(0), Some(0), 0, |u.data.bytes|, u.data.bytes)
       else Missing(out, ".data")) &&
      (if u.bssUsed && u.bssLen > 0 then Described(out, ".bss", 8, 3, Some(0), Some(0), 0, u.bssLen, [])
       else Missing(out, ".bss")) &&
      (if u.rodata.used || u.rodata.bytes != []
       then Described(out, ".rodata", 1, 2, Some(0), Some(0), 0, |u.rodata.bytes|, u.rodata.bytes)
       else Missing(out, ".rodata")) &&
      (if u.note then Described(out, ".note.GNU-stack", 1, 0, Some(0), Some(0), 0, 4, [0, 0, 0, 0])
       else Missing(out, ".note.GNU-stack"))
  {
    hide *;
    TextPresent(u);
    Titles();
    CodeDescribed(u);
    DataDescribed(u);
    BssDescribed(u);
    RodataDescribed(u);
    NoteDescribed(u);
  }

  lemma Titles()
    ensures Title(KText) == ".text" && Title(KData) == ".data" && Title(KBss) == ".bss" && Title(KRodata) == ".rodata"
    ensures Title(KNote) == ".note.GNU-stack"
  {
  }

  lemma CodeDescribed(u: Unit)
    requires WellFormed(u) && SizesFit(u)
    ensures Described(Written(u), Title(KText), 1, 6, Some(0), Some(0), 0, |u.text.bytes|, u.text.bytes)
  {
    hide Written, SizesFit, WellFormed, Present, OffsetOf, Ord, Described, NameStart, Title;
    TextPresent(u);
    DescribedIs(u, KText, Some(0), Some(0));
  }

  lemma DataDescribed(u: Unit)
    requires WellFormed(u) && SizesFit(u)
    ensures if u.data.used || u.data.bytes != []
      then Described(Written(u), Title(KData), 1, 3, Some(0), Some(0), 0, |u.data.bytes|, u.data.bytes)
      else Missing(Written(u), Title(KData))
  {
    hide Written, SizesFit, WellFormed, Present, OffsetOf, Ord, Described, Missing, NameStart, Title;
    if Has(u, KData) { DescribedIs(u, KData, Some(0), Some(0)); } else { NumberIs(u, KData); }
  }

  lemma BssDescribed(u: Unit)
    requires WellFormed(u) && SizesFit(u)
    ensures if u.bssUsed && u.bssLen > 0
      then Described(Written(u), Title(KBss), 8, 3, Some(0), Some(0), 0, u.bssLen, [])
      else Missing(Written(u), Title(KBss))
  {
    hide Written, SizesFit, WellFormed, Present, OffsetOf, Ord, Described, Missing, NameStart, Title;
    if Has(u, KBss) { DescribedIs(u, KBss, Some(0), Some(0)); } else { NumberIs(u, KBss); }
  }

  lemma RodataDescribed(u: Unit)
    requires WellFormed(u) && SizesFit(u)
    ensures if u.rodata.used || u.rodata.bytes != []
      then Described(Written(u), Title(KRodata), 1, 2, Some(0), Some(0), 0, |u.rodata.bytes|, u.rodata.bytes)
      else Missing(Written(u), Title(KRodata))
  {
    hide Written, SizesFit, WellFormed, Present, OffsetOf, Ord, Described, Missing, NameStart, Title;
    if Has(u, KRodata) { DescribedIs(u, KRodata, Some(0), Some(0)); } else { NumberIs(u, KRodata); }
  }

  lemma NoteDescribed(u: Unit)
    requires WellFormed(u) && SizesFit(u)
    ensures if u.note then Described(Written(u), Title(KNote), 1, 0, Some(0), Some(0), 0, 4, [0, 0, 0, 0])
      else Missing(Written(u), Title(KNote))
  {
    hide Written, SizesFit, WellFormed, Present, OffsetOf, Ord, Described, Missing, NameStart, Title;
    if Has(u, KNote) { DescribedIs(u, KNote, Some(0), Some(0)); } else { NumberIs(u, KNote); }
  }

  lemma TextPresent(u: Unit)
    ensures Has(u, KText) && Has(u, KSymtab) && Has(u, KStrtab) && Has(u, KShstrtab)
  {
  }

  function Locals(syms: seq<Symbol>): nat {
    if syms == [] then 0 else Locals(syms[..|syms| - 1]) + if syms[|syms| - 1].global then 0 else 1
  }

  lemma {:induction false} LocalsPicked(syms: seq<Symbol>, n: nat)
    requires n <= |syms|
    ensures Locals(syms[..n]) == |Pick(syms, false, n)|
  {
    if n > 0 {
      assert syms[..n][..n - 1] == syms[..n - 1];
      LocalsPicked(syms, n - 1);
    }
  }

  /** The tables: relocations lead to the symbols and to the section they are for, symbols to
      their names, and the symbol table says where its global symbols start. */
  lemma TableSections(u: Unit)
    requires WellFormed(u) && SizesFit(u)
    ensures Readable(Written(u))
    ensures var out, n := Written(u), |u.syms|;
      Described(out, ".symtab", 2, 0, Number(out, ".strtab", 0), Some(1 + Locals(u.syms)), 24, 24 * (n + 1),
        Content(u, KSymtab)) &&
      Described(out, ".strtab", 3, 0, Some(0), Some(0), 0, |StrTab(SymNames(u.syms))|, StrTab(SymNames(u.syms))) &&
      Number(out, ".shstrtab", 0) == Some(ReadEhdr(out).shstrndx) &&
      (if u.text.relocs != []
       then Described(out, ".rela.text", 4, 0, Number(out, ".symtab", 0), Number(out, ".text", 0), 24,
         24 * |u.text.relocs|, Content(u, KRelaText))
       else Missing(out, ".rela.text")) &&
      (if u.data.relocs != [] && (u.data.used || u.data.bytes != [])
       then Described(out, ".rela.data", 4, 0, Number(out, ".symtab", 0), Number(out, ".data", 0), 24,
         24 * |u.data.relocs|, Content(u, KRelaData))
       else Missing(out, ".rela.data"))
  {
    hide Written, SizesFit, WellFormed, Present, OffsetOf, ShOff, Ord, Described, Missing, Number, NameStart, Pick,
      Locals, StrTab, Table, RelaRows, SymRows, ReadEhdr, Readable, SectionNo;
    TextPresent(u);
    ReadableIs(u);
    NumberIs(u, KText);
    NumberIs(u, KData);
    NumberIs(u, KSymtab);
    NumberIs(u, KStrtab);
    NumberIs(u, KShstrtab);
    NumberIs(u, KRelaText);
    NumberIs(u, KRelaData);
    LocalsPicked(u.syms, |u.syms|);
    assert u.syms[..|u.syms|] == u.syms;
    DescribedIs(u, KSymtab, Some(Ord(u, KStrtab)), Some(1 + Locals(u.syms)));
    DescribedIs(u, KStrtab, Some(0), Some(0));
    if Has(u, KRelaText) { DescribedIs(u, KRelaText, Some(Ord(u, KSymtab)), Some(Ord(u, KText))); }
    if Has(u, KRelaData) { DescribedIs(u, KRelaData, Some(Ord(u, KSymtab)), Some(Ord(u, KData))); }
  }

  /** The file header: 64-bit little-endian ELF version 1, a relocatable object for the unit's
      machine, and headers of the standard sizes. */
  lemma FileHeader(u: Unit)
    requires WellFormed(u) && SizesFit(u)
    ensures Readable(Written(u))
    ensures var out := Written(u);
      out[..8] == [0x7F, 'E' as int, 'L' as int, 'F' as int, 2, 1, 1, 0] && ElfBytes.ReadLe(out, 16, 2) == 1 &&
      ElfBytes.ReadLe(out, 18, 2) == u.machine && ElfBytes.ReadLe(out, 20, 4) == 1 &&
      ElfBytes.ReadLe(out, 24, 8) == ElfBytes.ReadLe(out, 32, 8) == 0 && ElfBytes.ReadLe(out, 48, 4) == 0 &&
      ElfBytes.ReadLe(out, 52, 2) == 64 && ElfBytes.ReadLe(out, 58, 2) == 64 && ReadEhdr(out).shoff % 8 == 0 &&
      SectionNo(out, 0) == Shdr(0, 0, 0, 0, 0, 0, 0, 0, 0)
  {
    ReadableIs(u);
    EhdrReadsBack(u);
    ConstantFields(u);
    NullFirst(u);
    SectionIs(u, 0);
    FirstIsNull(u);
    ShOffAligned(u);
    hide Written, SizesFit, WellFormed, Present, OffsetOf, ShOff, Ord, Readable, SectionNo, ElfBytes.ReadLe, Header;
    assert Written(u)[..8] == Written(u)[..16][..8];
  }

  lemma FirstIsNull(u: Unit)
    requires WellFormed(u)
    ensures |Kinds(u)| > 0 && Kinds(u)[0] == KNull && Has(u, KNull) &&
      Header(u, KNull) == Shdr(0, 0, 0, 0, 0, 0, 0, 0, 0)
  {
    PresentAt(u, 0, 11);
  }

  lemma ShOffAligned(u: Unit)
    requires WellFormed(u)
    ensures FileHead(u).shoff % 8 == 0
  {
    Alignment.AlignUpIs(ElfBytes.EndOf(64, BodyParts(u, 9)), 8);
    hide Ord;
  }

  lemma MoreOffsets(h: Ehdr)
    ensures var fs := EhdrFields(h);
      ElfBytes.Before(fs, 2) == 4 && ElfBytes.Before(fs, 6) == 32 && ElfBytes.Before(fs, 7) == 36
  {
    var fs := EhdrFields(h);
    EhdrOffsets(h);
    assert ElfBytes.Before(fs, 2) == ElfBytes.Before(fs, 1) + fs[1].width;
    assert ElfBytes.Before(fs, 6) == ElfBytes.Before(fs, 5) + fs[5].width;
    assert ElfBytes.Before(fs, 7) == ElfBytes.Before(fs, 6) + fs[6].width;
  }

  lemma ConstantFields(u: Unit)
    requires WellFormed(u) && SizesFit(u)
    ensures |Written(u)| >= 64 && ElfBytes.ReadLe(Written(u), 20, 4) == 1 && ElfBytes.ReadLe(Written(u), 48, 4) == 0 &&
      ElfBytes.ReadLe(Written(u), 52, 2) == 64
  {
    hide Written, WellFormed, SizesFit, FileHead, ReadEhdr, EhdrBytes;
    HeadersPlaced(u);
    EhdrReadsBack(u);
    ConstantsRead(Written(u), FileHead(u));
  }

  lemma ConstantsRead(out: seq<Byte>, h: Ehdr)
    requires At(out, 0, EhdrBytes(h)) && |out| >= 64
    ensures ElfBytes.ReadLe(out, 20, 4) == 1 && ElfBytes.ReadLe(out, 48, 4) == 0 && ElfBytes.ReadLe(out, 52, 2) == 64
  {
    var fs := EhdrFields(h);
    MoreOffsets(h);
    AtConcat(out, 0, Ident, ElfBytes.Pack(fs));
    ElfBytes.Pow256Is();
    hide ElfBytes.Pack, ElfBytes.Before, ElfBytes.Le, ElfBytes.FromLe, ElfBytes.Pow256, ElfBytes.ReadLe;
    ElfBytes.FieldReads(out, 16, fs, 2);
    ElfBytes.FieldReads(out, 16, fs, 6);
    ElfBytes.FieldReads(out, 16, fs, 7);
  }

  /** In the symbol table the local symbols come first: those before the first global one
      are marked local, the others global. Visibility and size are the defaults. */
  lemma SymbolsSorted(u: Unit, j: nat)
    requires WellFormed(u) && SizesFit(u) && 1 <= j <= |u.syms|
    ensures var out := Written(u);
      Readable(out) &&
      match Number(out, ".symtab", 0)
      case None => false
      case Some(i) =>
        i < ReadEhdr(out).shnum && SectionNo(out, i).off + 24 * j + 24 <= |out| &&
        var at := SectionNo(out, i).off + 24 * j;
        ElfBytes.ReadLe(out, at + 5, 1) == 0 && ElfBytes.ReadLe(out, at + 16, 8) == 0 &&
        ReadSym(out, at).info == if j < 1 + Locals(u.syms) then 0 else 16
  {
    hide Written, SizesFit, WellFormed, Present, OffsetOf, Ord, Readable, Number, ReadSym, Locals, SectionNo, Header,
      ReadEhdr, ShdrFits, Content, Has, Described, Missing, ElfBytes.ReadLe;
    NumberIs(u, KSymtab);
    SymbolInfo(u, j);
    TextPresent(u);
    HeaderFits(u, KSymtab);
  }

  lemma SymbolInfo(u: Unit, j: nat)
    requires WellFormed(u) && SizesFit(u) && 1 <= j <= |u.syms|
    ensures OffsetOf(u, KSymtab) + 24 * j + 24 <= |Written(u)|
    ensures var at := OffsetOf(u, KSymtab) + 24 * j;
      ElfBytes.ReadLe(Written(u), at + 5, 1) == 0 && ElfBytes.ReadLe(Written(u), at + 16, 8) == 0 &&
      ReadSym(Written(u), at).info == if j < 1 + Locals(u.syms) then 0 else 16
  {
    hide Written, OffsetOf, StrTab, ReadSym, Ord, Table, SymRows, SymFields, SymFits, SizesFit, SectOrd, NameOff, Order,
      Rows, At, ElfBytes.Pack, ElfBytes.ReadLe, Locals, Pick, NulFree, WellFormed;
    SymbolOrder(u, j);
    var n := |Order(u.syms)|;
    SymtabContents(u);
    SymRowsAre(u, n);
    SymRowIs(u, j - 1);
    SymFitsBack(u, Order(u.syms)[j - 1]);
    RowAt(Written(u), OffsetOf(u, KSymtab), SymRows(u, n), 24, j);
    SymReads(Written(u), OffsetOf(u, KSymtab) + j * 24, SymOf(u, Order(u.syms)[j - 1]));
  }

  lemma SymbolOrder(u: Unit, j: nat)
    requires 1 <= j <= |u.syms|
    ensures |Order(u.syms)| == |u.syms| && (u.syms[Order(u.syms)[j - 1]].global <==> j >= 1 + Locals(u.syms))
  {
    hide Order, Pick, Locals;
    RankIsBijection(u.syms);
    LocalsPicked(u.syms, |u.syms|);
    assert u.syms[..|u.syms|] == u.syms;
  }
}
