/** The reader undoes the writer (src/elf_obj.c, elf_obj_write; src/elf_read.c, elf_read). */
module ElfRoundTrip {
  import opened Bits
  import opened Leb128
  import opened Slices
  import opened ElfBytes
  import opened ElfTables
  import opened ElfObj
  import opened ElfRead

  // ---------- what the reader should give back ----------

  /** Content section headers come first; this is the number of the first other one. */
  function ContentEnd(u: Unit): nat { |Present(u, 5)| }

  function RelocBack(u: Unit, r: Reloc): ElfReloc
    requires r.symbol < |u.syms|
  {
    ElfReloc(r.address, Rank(u.syms, r.symbol), r.ty, Addend(u.machine, r))
  }

  function RelocsBack(u: Unit, relocs: seq<Reloc>, n: nat): (r: seq<ElfReloc>)
    requires n <= |relocs| && forall r :: r in relocs ==> r.symbol < |u.syms|
    ensures |r| == n
  {
    seq(n, i requires 0 <= i < n => RelocBack(u, relocs[i]))
  }

  predicate Known(machine: nat, ty: nat) { ElfRelocType(machine, ty) != 0 }

  predicate AllKnown(machine: nat, relocs: seq<Reloc>) { forall r :: r in relocs ==> Known(machine, r.ty) }

  function Which(k: Kind): int {
    match k
    case KText => 0
    case KData => 1
    case KBss => 2
    case KRodata => 3
    case _ => -1
  }

  /** A content section without relocations. */
  function PlainSection(u: Unit, k: Kind): ElfSection
    requires WellFormed(u)
  {
    match k
    case KText => ElfSection(0, 1, 6, |u.text.bytes|, u.text.bytes, [], 0, 0)
    case KData => ElfSection(1, 1, 3, |u.data.bytes|, u.data.bytes, [], 0, 0)
    case KBss => ElfSection(2, 8, 3, u.bssLen, [], [], 0, 0)
    case _ => ElfSection(3, 1, 2, |u.rodata.bytes|, u.rodata.bytes, [], 0, 0)
  }

  /** The relocations recovered for section `k` once `n` headers have been looked at. */
  function RelocsSeen(u: Unit, k: Kind, n: nat): seq<ElfReloc>
    requires WellFormed(u)
  {
    if k.KText? && Has(u, KRelaText) && Ord(u, KRelaText) < n then RelocsBack(u, u.text.relocs, |u.text.relocs|)
    else if k.KData? && Has(u, KRelaData) && Ord(u, KRelaData) < n then RelocsBack(u, u.data.relocs, |u.data.relocs|)
    else []
  }

  function SectionsBack(u: Unit, n: nat): (r: seq<ElfSection>)
    requires WellFormed(u)
    ensures |r| == ContentEnd(u) - 1
  {
    ContentCount(u);
    seq(ContentEnd(u) - 1, j requires 0 <= j < ContentEnd(u) - 1 =>
      PlainSection(u, Kinds(u)[j + 1]).(relocs := RelocsSeen(u, Kinds(u)[j + 1], n)))
  }

  /** An undefined symbol, or one in a section that was not emitted, comes back undefined. */
  function SectionBack(u: Unit, section: int): int
    requires -1 <= section < 4
  {
    if section >= 0 && Has(u, SectKind(section)) then Ord(u, SectKind(section)) - 1 else -1
  }

  function SymbolBack(u: Unit, i: nat): ElfSymbol
    requires WellFormed(u) && i < |u.syms|
  {
    var s := u.syms[i];
    ElfSymbol(s.name, SectionBack(u, s.section), s.value, if s.global then 1 else 0, 0, false)
  }

  function SymbolsBack(u: Unit, n: nat): (r: seq<ElfSymbol>)
    requires WellFormed(u) && n <= |Order(u.syms)|
    ensures |r| == n
  {
    seq(n, j requires 0 <= j < n => SymbolBack(u, Order(u.syms)[j]))
  }

  function ReadBack(u: Unit): Object
    requires WellFormed(u)
  {
    Object(u.machine, SectionsBack(u, |Kinds(u)|), SymbolsBack(u, |Order(u.syms)|))
  }

  /** Every number fits its field. */
  predicate SizesFit(u: Unit)
    requires WellFormed(u)
  {
    u.machine in {183, 62, 243} &&
    |Written(u)| < TWO64 && u.bssLen < TWO64 && |u.syms| < TWO32 - 1 && |StrTab(SymNames(u.syms))| < TWO32 &&
    |u.text.relocs| < TWO32 && |u.data.relocs| < TWO32 &&
    (forall s :: s in u.syms ==> s.value < TWO64) &&
    (forall r :: r in u.text.relocs + u.data.relocs ==> r.address < TWO64 && -TWO63 <= r.addend < TWO63)
  }

  // ---------- numbering ----------

  lemma {:induction false} PresentMono(u: Unit, n: nat, m: nat)
    requires n <= m <= 11
    ensures |Present(u, n)| <= |Present(u, m)|
  {
    if n < m { PresentMono(u, n, m - 1); }
  }

  lemma {:induction false} PresentPrefix(u: Unit, n: nat, m: nat)
    requires n <= m <= 11
    ensures |Present(u, n)| <= |Present(u, m)| && Present(u, n) == Present(u, m)[..|Present(u, n)|]
  {
    if n < m { PresentPrefix(u, n, m - 1); }
  }

  lemma ContentCount(u: Unit)
    ensures 2 <= ContentEnd(u) <= |Kinds(u)| && Kinds(u)[0] == KNull
  {
    PresentPrefix(u, 2, 5);
    PresentPrefix(u, 5, 11);
    PresentAt(u, 0, 11);
    assert Present(u, 1) == [KNull] && Present(u, 2) == [KNull, KText];
  }

  /** A header is a content section exactly when it comes before the end of those. */
  lemma ContentFirst(u: Unit, i: nat)
    requires i < |Kinds(u)|
    ensures var k := Kinds(u)[i];
      Has(u, k) && Ord(u, k) == i && (i == 0 <==> k.KNull?) && (1 <= i < ContentEnd(u) <==> Which(k) >= 0)
  {
    PresentOrd(u, 11, i);
    var k := Kinds(u)[i];
    ContentCount(u);
    if No(k) < 5 { PresentAt(u, No(k), 5); } else { PresentMono(u, 5, No(k)); }
    if k == KNull { assert Present(u, 0) == []; } else { PresentMono(u, 1, No(k)); assert Present(u, 1) == [KNull]; }
  }

  // ---------- the headers ----------

  lemma {:induction false} StrTabBound(names: seq<seq<Byte>>, w: nat)
    requires forall k :: 0 <= k < |names| ==> |names[k]| < w
    ensures |StrTab(names)| <= 1 + w * |names|
  {
    if names != [] {
      var n := |names| - 1;
      StrTabBound(names[..n], w);
      assert w * n + w == w * (n + 1);
    }
  }

  lemma NameShort(k: Kind)
    ensures |Name(k)| < 16
  {
  }

  lemma SectionNamesShort(u: Unit)
    ensures |StrTab(SectionNames(u))| <= 161
  {
    PresentShort(u, 11);
    var names := SectionNames(u);
    forall k | 0 <= k < |names| ensures |names[k]| < 16 { NameShort(Kinds(u)[k + 1]); }
    StrTabBound(names, 16);
  }

  lemma {:induction false} PresentShort(u: Unit, n: nat)
    requires n <= 11
    ensures |Present(u, n)| <= n
  {
    if n > 0 { PresentShort(u, n - 1); }
  }

  lemma NameStartBound(u: Unit, k: Kind)
    requires Has(u, k)
    ensures NameStart(u, k) < |StrTab(SectionNames(u))|
  {
    if !k.KNull? {
      PresentPositive(u, k);
      NameAt(StrTab(SectionNames(u)), 0, SectionNames(u), Ord(u, k) - 1);
    }
  }

  lemma OrdSmall(u: Unit, k: Kind)
    ensures Ord(u, k) <= 10
  {
    PresentShort(u, No(k));
  }

  lemma ContentLength(u: Unit, k: Kind)
    requires WellFormed(u)
    ensures k.KRelaText? ==> |Content(u, k)| == 24 * |u.text.relocs|
    ensures k.KRelaData? ==> |Content(u, k)| == 24 * |u.data.relocs|
    ensures k.KSymtab? ==> |Content(u, k)| == 24 * (|u.syms| + 1) && |Order(u.syms)| == |u.syms|
  {
    hide Table, RelaRows, SymRows, Order, Rows, StrTab, SectionNames, SymNames, Has;
    RelaRowsAre(u, u.text.relocs);
    RelaRowsAre(u, u.data.relocs);
    SymRowsAre(u, |Order(u.syms)|);
    RankIsBijection(u.syms);
  }

  lemma HeaderFits(u: Unit, k: Kind)
    requires WellFormed(u) && SizesFit(u) && Has(u, k)
    ensures ShdrFits(Header(u, k))
    ensures InFile(k) ==> Header(u, k).off == OffsetOf(u, k) && Header(u, k).size == |Content(u, k)|
  {
    if InFile(k) { ContentPlaced(u, k); }
    ContentLength(u, k);
    SectionNamesShort(u);
    NameStartBound(u, k);
    OrdSmall(u, KSymtab);
    OrdSmall(u, KText);
    OrdSmall(u, KData);
    OrdSmall(u, KStrtab);
    PickCount(u.syms, |u.syms|);
    hide OffsetOf, Written, NameStart, Ord, Present, Table, RelaRows, SymRows, Has;
  }

  function FrameOf(u: Unit): Frame
    requires WellFormed(u)
  {
    Frame(u.machine, ShOff(u), |Kinds(u)|, OffsetOf(u, KShstrtab), |StrTab(SectionNames(u))|)
  }

  /** Header `i` reads back as written. */
  lemma HeaderReads(u: Unit, i: nat)
    requires WellFormed(u) && SizesFit(u) && i < |Kinds(u)|
    ensures ShOff(u) + 64 * |Kinds(u)| <= |Written(u)| && Has(u, Kinds(u)[i])
    ensures ReadShdr(Written(u), ShOff(u) + i * 64) == Header(u, Kinds(u)[i])
  {
    hide WellFormed, SizesFit, Written, ShOff, Header, Has, Table, ReadShdr, Pack, OffsetOf, Present, HeaderRows,
      ShdrFields, ShdrFits, Rows;
    var rows := HeaderRows(u, |Kinds(u)|);
    HeaderRowsAre(u);
    HeaderRowIs(u, i);
    HeadersPlaced(u);
    TableLength(rows, 64);
    RowAt(Written(u), ShOff(u), rows, 64, i);
    HeaderFits(u, Kinds(u)[i]);
    ShdrReads(Written(u), ShOff(u) + i * 64, Header(u, Kinds(u)[i]));
  }

  /** The same through the reader's frame. */
  lemma HeaderAtReads(u: Unit, i: nat)
    requires WellFormed(u) && SizesFit(u) && i < |Kinds(u)| && Framed(Written(u), FrameOf(u))
    ensures Has(u, Kinds(u)[i]) && HeaderAt(Written(u), FrameOf(u), i) == Header(u, Kinds(u)[i])
  {
    hide WellFormed, SizesFit, Written, ShOff, Header, Has, ReadShdr, OffsetOf, Present;
    HeaderReads(u, i);
  }

  lemma NamesHeader(u: Unit)
    requires WellFormed(u) && SizesFit(u)
    ensures Ord(u, KShstrtab) < |Kinds(u)| && ShOff(u) + 64 * |Kinds(u)| <= |Written(u)|
    ensures var h := ReadShdr(Written(u), ShOff(u) + Ord(u, KShstrtab) * 64);
      h.off == OffsetOf(u, KShstrtab) && h.size == |StrTab(SectionNames(u))| && h.off + h.size <= |Written(u)|
  {
    hide WellFormed, SizesFit, Written, ShOff, ReadShdr, OffsetOf, Present, NameStart, Ord;
    OrdIs(u, KShstrtab);
    HeaderReads(u, Ord(u, KShstrtab));
    ContentPlaced(u, KShstrtab);
  }

  lemma FrameReads(u: Unit)
    requires WellFormed(u) && SizesFit(u)
    ensures ReadFrame(Written(u)) == Ok(FrameOf(u)) && Framed(Written(u), FrameOf(u))
  {
    hide WellFormed, Written, ShOff, ReadShdr, ReadEhdr, OffsetOf, Ord, Present, ReadLe, NameStart;
    NamesHeader(u);
    EhdrReadsBack(u);
    assert Written(u)[..4] == Written(u)[..16][..4] && Written(u)[4] == Written(u)[..16][4] &&
      Written(u)[5] == Written(u)[..16][5];
  }

  lemma FileHeadFits(u: Unit)
    requires WellFormed(u) && SizesFit(u)
    ensures EhdrFits(FileHead(u))
  {
    hide WellFormed, Written, ShOff, OffsetOf, Ord, Present;
    PresentShort(u, 11);
    OrdSmall(u, KShstrtab);
    HeadersPlaced(u);
  }

  lemma EhdrReadsBack(u: Unit)
    requires WellFormed(u) && SizesFit(u)
    ensures |Written(u)| >= 64 && Written(u)[..16] == Ident && ReadEhdr(Written(u)) == FileHead(u) &&
      ReadLe(Written(u), 58, 2) == 64
  {
    hide WellFormed, SizesFit, Written, ShOff, ReadEhdr, OffsetOf, Ord, Present, ReadLe, EhdrBytes, FileHead, EhdrFits;
    FileHeadFits(u);
    HeadersPlaced(u);
    EhdrReads(Written(u), FileHead(u));
  }

  lemma {:induction false} StrTabStartsNul(names: seq<seq<Byte>>)
    ensures StrTab(names)[0] == 0
  {
    if names != [] { StrTabStartsNul(names[..|names| - 1]); }
  }

  lemma KindNames(k: Kind)
    ensures NulFree(Name(k)) && SectionIdx(Name(k)) == Which(k)
  {
    assert k.KRelaText? || k.KRelaData? ==> Name(k)[2] == 101 && Name(k)[3] == 108;
  }

  /** The null header's name is empty. */
  lemma NullName(data: seq<Byte>, off: nat, names: seq<seq<Byte>>)
    requires At(data, off, StrTab(names))
    ensures CString(data, off) == []
  {
    StrTabStartsNul(names);
    assert data[off..off + |StrTab(names)|][0] == data[off];
  }

  /** The name a header's index leads to. */
  lemma HeaderName(u: Unit, i: nat)
    requires WellFormed(u) && i < |Kinds(u)|
    ensures Has(u, Kinds(u)[i]) && NameStart(u, Kinds(u)[i]) < |StrTab(SectionNames(u))|
    ensures CString(Written(u), OffsetOf(u, KShstrtab) + NameStart(u, Kinds(u)[i])) == Name(Kinds(u)[i])
  {
    hide WellFormed, Written, OffsetOf, Present, StrTab, CString, Ord, NulFree;
    ContentFirst(u, i);
    var k := Kinds(u)[i];
    NameStartBound(u, k);
    ContentPlaced(u, KShstrtab);
    if k == KNull {
      NullName(Written(u), OffsetOf(u, KShstrtab), SectionNames(u));
    } else {
      KindNames(k);
      NameReads(Written(u), OffsetOf(u, KShstrtab), SectionNames(u), i - 1);
    }
  }

  // ---------- the second pass ----------

  /** Content sections among the first `n` headers. */
  function ContentBefore(u: Unit, n: nat): nat {
    ContentCount(u);
    if n <= 1 then 0 else if n < ContentEnd(u) then n - 1 else ContentEnd(u) - 1
  }

  function ScanOf(u: Unit, n: nat): Scan
    requires WellFormed(u) && n <= |Kinds(u)|
  {
    ContentCount(u);
    Scan(seq(ContentBefore(u, n), j requires 0 <= j < ContentBefore(u, n) => PlainSection(u, Kinds(u)[j + 1])),
         seq(n, i => if 1 <= i < ContentEnd(u) then i - 1 else -1))
  }

  lemma HeaderNameField(u: Unit, k: Kind)
    requires WellFormed(u) && Has(u, k)
    ensures Header(u, k).name == NameStart(u, k)
  {
    hide WellFormed, OffsetOf, Present;
  }

  lemma WhichReads(u: Unit, n: nat)
    requires WellFormed(u) && n < |Kinds(u)| && Has(u, Kinds(u)[n])
    ensures WhichOf(Written(u), FrameOf(u), Header(u, Kinds(u)[n])) == Which(Kinds(u)[n])
  {
    hide WellFormed, Written, OffsetOf, Present, Header, Has, SectionIdx, NameStart, ShOff;
    var k := Kinds(u)[n];
    HeaderName(u, n);
    HeaderNameField(u, k);
    KindNames(k);
  }

  /** A content section's header and bytes give the section back. */
  lemma ContentReads(u: Unit, k: Kind)
    requires WellFormed(u) && SizesFit(u) && Has(u, k) && Which(k) >= 0
    ensures ReadContent(Written(u), Which(k), Header(u, k)) == Ok(PlainSection(u, k))
  {
    hide WellFormed, SizesFit, Written, OffsetOf, Present, Ord, NameStart, ShOff;
    HeaderFits(u, k);
    if !k.KBss? { ContentPlaced(u, k); }
  }

  lemma ScanGrows(u: Unit, n: nat)
    requires WellFormed(u) && n < |Kinds(u)|
    ensures ScanOf(u, n + 1) == (
      if Which(Kinds(u)[n]) < 0 then Scan(ScanOf(u, n).sections, ScanOf(u, n).secMap + [-1])
      else Scan(ScanOf(u, n).sections + [PlainSection(u, Kinds(u)[n])],
        ScanOf(u, n).secMap + [|ScanOf(u, n).sections|]))
  {
    hide WellFormed, Present, PlainSection;
    ContentCount(u);
    ContentFirst(u, n);
    var s0, s1 := ScanOf(u, n), ScanOf(u, n + 1);
    assert s1.secMap == s0.secMap + [if 1 <= n < ContentEnd(u) then n - 1 else -1];
    if Which(Kinds(u)[n]) < 0 {
      assert s1.sections == s0.sections;
    } else {
      assert s1.sections == s0.sections + [PlainSection(u, Kinds(u)[n])];
    }
  }

  lemma ScanStep(u: Unit, n: nat)
    requires WellFormed(u) && SizesFit(u) && n < |Kinds(u)|
    requires Framed(Written(u), FrameOf(u)) && ScanOk(ScanOf(u, n))
    ensures AddSection(Written(u), FrameOf(u), ScanOf(u, n), n) == Ok(ScanOf(u, n + 1))
  {
    hide WellFormed, SizesFit, Written, Framed, ScanOk, ScanOf, Present, Has, Header, ReadContent, WhichOf, HeaderAt,
      OffsetOf, ShOff, PlainSection;
    var k := Kinds(u)[n];
    HeaderAtReads(u, n);
    WhichReads(u, n);
    if Which(k) >= 0 { ContentReads(u, k); }
    ScanGrows(u, n);
  }

  lemma ScanOfOk(u: Unit, n: nat)
    requires WellFormed(u) && n <= |Kinds(u)|
    ensures ScanOk(ScanOf(u, n))
  {
    ContentCount(u);
  }

  lemma {:induction false} SectionsRead(u: Unit, n: nat)
    requires WellFormed(u) && SizesFit(u) && n <= |Kinds(u)| && Framed(Written(u), FrameOf(u))
    ensures ScanSections(Written(u), FrameOf(u), n) == Ok(ScanOf(u, n))
  {
    hide Written, SizesFit, WellFormed, AddSection, FrameOf;
    if n > 0 {
      SectionsRead(u, n - 1);
      ScanOfOk(u, n - 1);
      ScanStep(u, n - 1);
    } else {
      assert ScanOf(u, 0) == Scan([], []);
    }
  }

  // ---------- the third pass ----------

  lemma RelocTypesBack(machine: nat, ty: nat)
    ensures InternalRelocType(machine, ElfRelocType(machine, ty)) == if Known(machine, ty) then ty else -1
    ensures ElfRelocType(machine, ty) < 512
  {
  }

  lemma RelaRowIs(u: Unit, relocs: seq<Reloc>, i: nat)
    requires SizesFitRelocs(u, relocs) && i < |relocs|
    ensures RelaRows(u, relocs)[i] == RelaFields(RelaOf(u, relocs[i])) && RelaFits(RelaOf(u, relocs[i]))
  {
    RelocTypesBack(u.machine, relocs[i].ty);
    RankIsBijection(u.syms);
    assert relocs[i] in relocs;
    hide Rank, ElfRelocType;
  }

  predicate SizesFitRelocs(u: Unit, relocs: seq<Reloc>) {
    |u.syms| < TWO32 - 1 && forall r :: r in relocs ==>
      r.symbol < |u.syms| && r.address < TWO64 && -TWO63 <= r.addend < TWO63
  }

  /** One relocation entry, or the error its unknown type gives. */
  lemma RelocReads(u: Unit, data: seq<Byte>, off: nat, relocs: seq<Reloc>, i: nat)
    requires SizesFitRelocs(u, relocs) && i < |relocs| && At(data, off, Table(RelaRows(u, relocs)))
    ensures relocs[i].symbol < |u.syms|
    ensures ReadOneReloc(data, u.machine, off + i * 24) ==
      if Known(u.machine, relocs[i].ty) then Ok(RelocBack(u, relocs[i])) else Err(UnsupportedReloc(0))
  {
    assert relocs[i] in relocs;
    hide Table, ElfRelocType, InternalRelocType, Rank, At, ReadRela, Pack, RelaFields, RelaRows, RelaFits;
    RelaRowsAre(u, relocs);
    RelaRowIs(u, relocs, i);
    RelocTypesBack(u.machine, relocs[i].ty);
    RowAt(data, off, RelaRows(u, relocs), 24, i);
    RelaReads(data, off + i * 24, RelaOf(u, relocs[i]));
    UnknownIsNone(u.machine, relocs[i].ty);
  }

  lemma UnknownIsNone(machine: nat, ty: nat)
    ensures !Known(machine, ty) ==> ElfRelocType(machine, ty) == 0
  {
  }

  lemma {:induction false} RelocsRead(u: Unit, data: seq<Byte>, off: nat, relocs: seq<Reloc>, n: nat)
    requires SizesFitRelocs(u, relocs) && n <= |relocs| && At(data, off, Table(RelaRows(u, relocs)))
    ensures ReadRelocs(data, u.machine, off, n) ==
      if AllKnown(u.machine, relocs[..n]) then Ok(RelocsBack(u, relocs, n)) else Err(UnsupportedReloc(0))
  {
    hide At, ReadOneReloc, RelocBack, Known, Table, RelaRows;
    if n > 0 {
      RelocsRead(u, data, off, relocs, n - 1);
      RelocReads(u, data, off, relocs, n - 1);
      AllKnownGrows(u.machine, relocs, n - 1);
      if AllKnown(u.machine, relocs[..n]) {
        assert RelocsBack(u, relocs, n) == RelocsBack(u, relocs, n - 1) + [RelocBack(u, relocs[n - 1])];
      }
    } else {
      assert RelocsBack(u, relocs, 0) == [];
    }
  }

  lemma AllKnownGrows(machine: nat, relocs: seq<Reloc>, n: nat)
    requires n < |relocs|
    ensures AllKnown(machine, relocs[..n + 1]) <==> AllKnown(machine, relocs[..n]) && Known(machine, relocs[n].ty)
  {
    hide Known;
    assert relocs[..n + 1] == relocs[..n] + [relocs[n]];
  }

  /** The relocations of text or data, at their section's offset. */
  lemma RelocTableReads(u: Unit, k: Kind, relocs: seq<Reloc>)
    requires WellFormed(u) && SizesFit(u) && Has(u, k)
    requires (k.KRelaText? && relocs == u.text.relocs) || (k.KRelaData? && relocs == u.data.relocs)
    ensures (forall r :: r in relocs ==> r.symbol < |u.syms|) && |relocs| < TWO32
    ensures ReadRelocs(Written(u), u.machine, OffsetOf(u, k), |relocs|) ==
      if AllKnown(u.machine, relocs) then Ok(RelocsBack(u, relocs, |relocs|)) else Err(UnsupportedReloc(0))
  {
    hide Written, OffsetOf, Has, Table, RelaRows, AllKnown, RelocsBack, At;
    ContentPlaced(u, k);
    forall r | r in relocs ensures r in u.text.relocs + u.data.relocs {}
    RelocsRead(u, Written(u), OffsetOf(u, k), relocs, |relocs|);
    assert relocs[..|relocs|] == relocs;
  }

  /** An unknown relocation type met among the first `n` headers. */
  predicate UnknownSeen(u: Unit, n: nat) {
    (Has(u, KRelaText) && Ord(u, KRelaText) < n && !AllKnown(u.machine, u.text.relocs)) ||
    (Has(u, KRelaData) && Ord(u, KRelaData) < n && !AllKnown(u.machine, u.data.relocs))
  }

  function RelocScanOf(u: Unit, n: nat): Result<seq<ElfSection>>
    requires WellFormed(u)
  {
    if UnknownSeen(u, n) then Err(UnsupportedReloc(0)) else Ok(SectionsBack(u, n))
  }

  lemma SectionsBackAt(u: Unit, n: nat, j: nat)
    requires WellFormed(u) && j < ContentEnd(u) - 1
    ensures j + 1 < |Kinds(u)|
    ensures SectionsBack(u, n)[j] == PlainSection(u, Kinds(u)[j + 1]).(relocs := RelocsSeen(u, Kinds(u)[j + 1], n))
  {
    hide WellFormed, PlainSection, RelocsSeen, Present;
    ContentCount(u);
  }

  /** Headers other than relocation sections change nothing. */
  lemma OtherHeader(u: Unit, n: nat)
    requires WellFormed(u) && n < |Kinds(u)| && !Kinds(u)[n].KRelaText? && !Kinds(u)[n].KRelaData?
    ensures RelocScanOf(u, n + 1) == RelocScanOf(u, n)
  {
    hide Has, Ord, AllKnown, PlainSection, RelocsBack, WellFormed, SectionsBack;
    if Has(u, KRelaText) { OrdIs(u, KRelaText); }
    if Has(u, KRelaData) { OrdIs(u, KRelaData); }
    forall j | 0 <= j < ContentEnd(u) - 1 ensures SectionsBack(u, n + 1)[j] == SectionsBack(u, n)[j] {
      SectionsBackAt(u, n, j);
      SectionsBackAt(u, n + 1, j);
    }
    assert SectionsBack(u, n + 1) == SectionsBack(u, n);
  }

  /** A relocation section fills in its target. */
  lemma RelaHeader(u: Unit, n: nat, k: Kind, j: nat, relocs: seq<Reloc>)
    requires WellFormed(u) && n < |Kinds(u)| && Kinds(u)[n] == k
    requires (k.KRelaText? && relocs == u.text.relocs && j == 0) || (k.KRelaData? && relocs == u.data.relocs && j == 1)
    requires forall r :: r in relocs ==> r.symbol < |u.syms|
    ensures UnknownSeen(u, n + 1) <==> UnknownSeen(u, n) || !AllKnown(u.machine, relocs)
    ensures j < ContentEnd(u) - 1
    ensures var before := SectionsBack(u, n);
      SectionsBack(u, n + 1) == before[j := before[j].(relocs := RelocsBack(u, relocs, |relocs|))]
  {
    hide Has, Ord, AllKnown, PlainSection, RelocsBack, WellFormed, ContentEnd, Present, SectionsBack;
    RelaNumbers(u, n, k);
    var before, after := SectionsBack(u, n), SectionsBack(u, n + 1);
    forall i | 0 <= i < |before|
      ensures after[i] == if i == j then before[j].(relocs := RelocsBack(u, relocs, |relocs|)) else before[i] {
      SectionsBackAt(u, n, i);
      TargetNumber(u, i + 1);
      SectionsBackAt(u, n + 1, i);
    }
    assert after == before[j := before[j].(relocs := RelocsBack(u, relocs, |relocs|))];
  }

  /** Where relocation sections stand. */
  lemma RelaNumbers(u: Unit, n: nat, k: Kind)
    requires n < |Kinds(u)| && Kinds(u)[n] == k && (k.KRelaText? || k.KRelaData?)
    ensures Has(u, k) && Ord(u, k) == n
    ensures Has(u, KRelaText) && k.KRelaData? ==> Ord(u, KRelaText) != n
    ensures Has(u, KRelaData) && k.KRelaText? ==> Ord(u, KRelaData) != n
    ensures if k.KRelaText? then ContentEnd(u) >= 2 else ContentEnd(u) >= 3
  {
    ContentFirst(u, n);
    ContentCount(u);
    OrdOfTargets(u);
    if Has(u, KRelaText) { OrdIs(u, KRelaText); }
    if Has(u, KRelaData) { OrdIs(u, KRelaData); }
    if k.KRelaData? { PresentAt(u, No(KData), 5); }
  }

  lemma TargetNumber(u: Unit, i: nat)
    requires i < |Kinds(u)|
    ensures Kinds(u)[i].KText? ==> i == 1
    ensures Kinds(u)[i].KData? ==> i == 2
    ensures i == 1 ==> Kinds(u)[i].KText?
    ensures i == 2 && HasData(u) ==> Kinds(u)[i].KData?
  {
    ContentFirst(u, i);
    OrdOfTargets(u);
    OrdIs(u, KText);
    if HasData(u) { OrdIs(u, KData); }
  }

  lemma OrdOfTargets(u: Unit)
    ensures Ord(u, KText) == 1 && (HasData(u) ==> Ord(u, KData) == 2)
  {
    assert Present(u, 1) == [KNull] && Present(u, 2) == [KNull, KText];
  }

  lemma RelaShape(u: Unit, k: Kind)
    requires WellFormed(u) && Has(u, k)
    ensures Header(u, k).ty == 4 <==> k.KRelaText? || k.KRelaData?
    ensures k.KRelaText? ==> Header(u, k).info == Ord(u, KText) && Header(u, k).size == 24 * |u.text.relocs|
    ensures k.KRelaData? ==> Header(u, k).info == Ord(u, KData) && Header(u, k).size == 24 * |u.data.relocs|
    ensures k.KRelaText? || k.KRelaData? ==> Header(u, k).off == OffsetOf(u, k)
    ensures Header(u, k).ty == 2 <==> k.KSymtab?
    ensures k.KSymtab? ==>
      Header(u, k).off == OffsetOf(u, k) && Header(u, k).size == 24 * (|u.syms| + 1) &&
      Header(u, k).link == Ord(u, KStrtab)
    ensures k.KStrtab? ==> Header(u, k).off == OffsetOf(u, k) && Header(u, k).size == |StrTab(SymNames(u.syms))|
  {
    hide WellFormed, NameStart, OffsetOf, Ord, Present;
  }

  lemma RelocStep(u: Unit, n: nat, sc: Scan)
    requires WellFormed(u) && SizesFit(u) && n < |Kinds(u)| && Framed(Written(u), FrameOf(u))
    requires sc == ScanOf(u, |Kinds(u)|) && ScanOk(Scan(SectionsBack(u, n), sc.secMap)) && !UnknownSeen(u, n)
    ensures AddRelocs(Written(u), FrameOf(u), sc.secMap, SectionsBack(u, n), n) == RelocScanOf(u, n + 1)
  {
    hide WellFormed, SizesFit, Written, Framed, ScanOk, Present, Has, Header, HeaderAt, OffsetOf, ShOff, PlainSection,
      Ord, AllKnown,
      UnknownSeen, RelocsBack, SectionsBack, ReadRelocs;
    var k := Kinds(u)[n];
    HeaderAtReads(u, n);
    RelaShape(u, k);
    if k.KRelaText? || k.KRelaData? {
      var relocs := if k.KRelaText? then u.text.relocs else u.data.relocs;
      RelaNumbers(u, n, k);
      HasDataOf(u, k);
      OrdOfTargets(u);
      ContentCount(u);
      RelocTableReads(u, k, relocs);
      RelaHeader(u, n, k, if k.KRelaText? then 0 else 1, relocs);
    } else {
      OtherHeader(u, n);
    }
  }

  lemma HasDataOf(u: Unit, k: Kind)
    requires Has(u, k)
    ensures k.KRelaData? ==> HasData(u)
  {
  }

  lemma {:induction false} RelocSectionsRead(u: Unit, n: nat, sc: Scan)
    requires WellFormed(u) && SizesFit(u) && n <= |Kinds(u)| && Framed(Written(u), FrameOf(u))
    requires sc == ScanOf(u, |Kinds(u)|) && ScanOk(sc)
    ensures ScanRelocs(Written(u), FrameOf(u), sc, n) == RelocScanOf(u, n)
  {
    hide Written, SizesFit, WellFormed, AddRelocs, FrameOf, UnknownSeen, PlainSection, Framed, ScanOf, SectionsBack;
    ContentCount(u);
    if n > 0 {
      RelocSectionsRead(u, n - 1, sc);
      if UnknownSeen(u, n - 1) {
        UnknownStays(u, n - 1);
      } else {
        RelocStep(u, n - 1, sc);
      }
    } else {
      NothingUnknown(u);
      NoRelocsYet(u);
    }
  }

  lemma NoRelocsYet(u: Unit)
    requires WellFormed(u)
    ensures SectionsBack(u, 0) == ScanOf(u, |Kinds(u)|).sections
  {
    hide WellFormed, Present;
    ContentCount(u);
    forall j | 0 <= j < ContentEnd(u) - 1 ensures SectionsBack(u, 0)[j] == PlainSection(u, Kinds(u)[j + 1]) {
      PlainHasNone(u, Kinds(u)[j + 1]);
    }
  }

  lemma PlainHasNone(u: Unit, k: Kind)
    requires WellFormed(u)
    ensures PlainSection(u, k).(relocs := RelocsSeen(u, k, 0)) == PlainSection(u, k)
  {
  }

  lemma UnknownStays(u: Unit, n: nat)
    requires UnknownSeen(u, n)
    ensures UnknownSeen(u, n + 1)
  {
  }

  lemma NothingUnknown(u: Unit)
    ensures !UnknownSeen(u, 0)
  {
  }

  // ---------- symbols ----------

  lemma {:induction false} SymtabFound(u: Unit, n: nat)
    requires WellFormed(u) && SizesFit(u) && n <= |Kinds(u)| && Framed(Written(u), FrameOf(u))
    ensures FindSymtab(Written(u), FrameOf(u), n) == if Ord(u, KSymtab) < n then Ord(u, KSymtab) else 0
  {
    hide WellFormed, SizesFit, Written, Framed, Present, Header, HeaderAt, OffsetOf, ShOff, Ord;
    if n > 0 {
      SymtabFound(u, n - 1);
      HeaderAtReads(u, n - 1);
      ContentFirst(u, n - 1);
      OrdIs(u, KSymtab);
      RelaShape(u, Kinds(u)[n - 1]);
    }
  }

  lemma ShndxBack(u: Unit, section: int)
    requires -1 <= section < 4
    ensures var s := SectOrd(u, section);
      s <= 10 && SectionBack(u, section) == (if s != 0 then s - 1 else -1) && (s != 0 ==> 1 <= s < ContentEnd(u))
  {
    if section >= 0 {
      var k := SectKind(section);
      OrdSmall(u, k);
      if Has(u, k) { PresentPositive(u, k); PresentAt(u, No(k), 5); }
    }
  }

  lemma SymFitsBack(u: Unit, i: nat)
    requires WellFormed(u) && SizesFit(u) && i < |u.syms|
    ensures SymFits(SymOf(u, i)) && NulFree(u.syms[i].name) && SymOf(u, i).name < |StrTab(SymNames(u.syms))|
  {
    hide Written, SectOrd, Ord;
    var names := SymNames(u.syms);
    NameAt(StrTab(names), 0, names, i);
    assert u.syms[i] in u.syms;
    ShndxBack(u, u.syms[i].section);
  }

  lemma SymRowIs(u: Unit, j: nat)
    requires WellFormed(u) && j < |Order(u.syms)|
    ensures SymRows(u, |Order(u.syms)|)[j + 1] == SymFields(SymOf(u, Order(u.syms)[j]))
  {
    hide WellFormed, SymFields, SymOf;
  }

  lemma SymbolReads(u: Unit, j: nat, data: seq<Byte>, off: nat, strOff: nat, secMap: seq<int>)
    requires WellFormed(u) && SizesFit(u) && j < |Order(u.syms)| && secMap == ScanOf(u, |Kinds(u)|).secMap
    requires At(data, off, Table(SymRows(u, |Order(u.syms)|))) && At(data, strOff, StrTab(SymNames(u.syms)))
    ensures ReadOneSymbol(data, off + (j + 1) * 24, strOff, |StrTab(SymNames(u.syms))|, secMap) ==
      Ok([SymbolBack(u, Order(u.syms)[j])])
  {
    hide SizesFit, Table, At, Present, Has, SectOrd, SectionBack, StrTab, CString, ReadSym, SymFields, Pack, SymRows,
      NulFree, SymFits;
    var i := Order(u.syms)[j];
    SymFitsBack(u, i);
    SymRowIs(u, j);
    SymRowsAre(u, |Order(u.syms)|);
    RowAt(data, off, SymRows(u, |Order(u.syms)|), 24, j + 1);
    SymReads(data, off + (j + 1) * 24, SymOf(u, i));
    NameReads(data, strOff, SymNames(u.syms), i);
    ContentCount(u);
    assert u.syms[i] in u.syms;
    ShndxBack(u, u.syms[i].section);
  }

  lemma {:induction false} SymbolsRead(u: Unit, n: nat, data: seq<Byte>, off: nat, strOff: nat, secMap: seq<int>)
    requires WellFormed(u) && SizesFit(u) && n <= |Order(u.syms)| && secMap == ScanOf(u, |Kinds(u)|).secMap
    requires At(data, off, Table(SymRows(u, |Order(u.syms)|))) && At(data, strOff, StrTab(SymNames(u.syms)))
    ensures ReadSymbols(data, off, strOff, |StrTab(SymNames(u.syms))|, secMap, n) == Ok(SymbolsBack(u, n))
  {
    hide SizesFit, WellFormed, ReadOneSymbol, SymbolBack, At, Table, StrTab, ScanOf, SymRows;
    if n > 0 {
      SymbolsRead(u, n - 1, data, off, strOff, secMap);
      SymbolReads(u, n - 1, data, off, strOff, secMap);
      assert SymbolsBack(u, n) == SymbolsBack(u, n - 1) + [SymbolBack(u, Order(u.syms)[n - 1])];
    } else {
      assert SymbolsBack(u, 0) == [];
    }
  }

  lemma SymtabContents(u: Unit)
    requires WellFormed(u)
    ensures At(Written(u), OffsetOf(u, KSymtab), Table(SymRows(u, |Order(u.syms)|)))
    ensures At(Written(u), OffsetOf(u, KStrtab), StrTab(SymNames(u.syms)))
  {
    hide WellFormed, Written, OffsetOf, At;
    ContentPlaced(u, KSymtab);
    ContentPlaced(u, KStrtab);
  }

  lemma HeaderOf(u: Unit, k: Kind)
    requires WellFormed(u) && SizesFit(u) && Framed(Written(u), FrameOf(u)) && Has(u, k)
    ensures Ord(u, k) < |Kinds(u)| && HeaderAt(Written(u), FrameOf(u), Ord(u, k)) == Header(u, k)
  {
    hide WellFormed, SizesFit, Written, Framed, Present, Header, HeaderAt, OffsetOf, ShOff, Ord, Has;
    OrdIs(u, k);
    HeaderAtReads(u, Ord(u, k));
  }

  lemma SymbolTableRead(u: Unit, secMap: seq<int>)
    requires WellFormed(u) && SizesFit(u) && Framed(Written(u), FrameOf(u)) && secMap == ScanOf(u, |Kinds(u)|).secMap
    ensures FindSymtab(Written(u), FrameOf(u), |Kinds(u)|) == Ord(u, KSymtab) < |Kinds(u)|
    ensures SymbolsOf(Written(u), FrameOf(u), secMap, Ord(u, KSymtab)) == Ok(SymbolsBack(u, |Order(u.syms)|))
  {
    hide WellFormed, Written, Present, Header, OffsetOf, ShOff, Ord, ReadSymbols, SymbolsBack, ReadLe, StrTab, SymRows,
      Table, ScanOf, Rank;
    SymtabContents(u);
    HeaderOf(u, KSymtab);
    HeaderOf(u, KStrtab);
    PresentPositive(u, KSymtab);
    SymtabFound(u, |Kinds(u)|);
    RelaShape(u, KSymtab);
    RelaShape(u, KStrtab);
    SymbolsRead(u, |Order(u.syms)|, Written(u), OffsetOf(u, KSymtab), OffsetOf(u, KStrtab), secMap);
    RankIsBijection(u.syms);
    assert 24 * (|u.syms| + 1) / 24 % TWO32 == |u.syms| + 1;
  }

  // ---------- the theorem ----------

  /** Reading an object just written gives back its sections, its symbols locals first, and its
      relocations against the same symbols, provided every relocation type is known for the machine;
      otherwise the reader refuses the file. */
  lemma RoundTrip(u: Unit)
    requires WellFormed(u) && SizesFit(u)
    ensures ReadObject(Written(u)) ==
      if AllKnown(u.machine, u.text.relocs) && (HasData(u) ==> AllKnown(u.machine, u.data.relocs)) then Ok(ReadBack(u))
      else Err(UnsupportedReloc(0))
  {
    hide Written, SizesFit, WellFormed, ReadFrame, ScanSections, ScanRelocs, SymbolsOf, FindSymtab, UnknownSeen,
      SectionsBack, SymbolsBack, AllKnown;
    FrameReads(u);
    var n := |Kinds(u)|;
    var sc := ScanOf(u, n);
    SectionsRead(u, n);
    ScanOfOk(u, n);
    RelocSectionsRead(u, n, sc);
    SymbolTableRead(u, sc.secMap);
    UnknownAtEnd(u);
  }

  lemma UnknownAtEnd(u: Unit)
    ensures UnknownSeen(u, |Kinds(u)|) <==>
      !(AllKnown(u.machine, u.text.relocs) && (HasData(u) ==> AllKnown(u.machine, u.data.relocs)))
  {
    if Has(u, KRelaText) { OrdIs(u, KRelaText); }
    if Has(u, KRelaData) { OrdIs(u, KRelaData); }
  }

  /** A relocation still names the symbol the assembler meant. */
  lemma RelocationsKeepTheirSymbol(u: Unit, r: Reloc)
    requires WellFormed(u) && r in u.text.relocs + u.data.relocs
    ensures var back := RelocBack(u, r);
      back.sym < |ReadBack(u).symbols| && ReadBack(u).symbols[back.sym] == SymbolBack(u, r.symbol)
  {
    RankIsBijection(u.syms);
  }

  /** What the relocations written ask for, by the numbers of the processor supplements.
      On x86-64 a displacement counts from the end of its four bytes; on RISC-V the
      assembler's addend is kept; on AArch64 nothing is added. The reader gives the same
      addend back. */
  lemma RelocationsMean(u: Unit, r: Reloc, s: int, p: int)
    requires r.symbol < |u.syms|
    ensures RelocBack(u, r).addend == RelaOf(u, r).addend
    ensures var row := RelaOf(u, r);
      (u.machine == 62 ==>
        (r.ty == 10 ==> row.ty == 1 && s + row.addend == s) &&
        (r.ty in {11, 12} ==> row.ty == (if r.ty == 11 then 2 else 42) && s + row.addend - p == s - (p + 4))) &&
      (u.machine == 243 ==>
        row.addend == r.addend && (19 <= r.ty <= 23 ==> row.ty == [1, 2, 23, 24, 25][r.ty - 19])) &&
      (u.machine == 183 ==>
        row.addend == 0 && (r.ty in {0, 2, 3, 4} ==> row.ty == [257, 0, 283, 275, 277][r.ty]))
  {
  }

  /** The linker expects fixed section numbers; dense numbering agrees with them exactly when
      every section emitted has all lower-numbered ones emitted too. */
  lemma DenseIsFixedIff(u: Unit)
    ensures (forall s :: 0 <= s < 4 && Has(u, SectKind(s)) ==> SectionBack(u, s) == s) <==>
      ((Has(u, KBss) ==> Has(u, KData)) && (Has(u, KRodata) ==> Has(u, KData) && Has(u, KBss)))
  {
    assert Present(u, 1) == [KNull] && Present(u, 2) == [KNull, KText];
    assert |Present(u, 3)| == 2 + if Has(u, KData) then 1 else 0;
    assert |Present(u, 4)| == |Present(u, 3)| + if Has(u, KBss) then 1 else 0;
    assert SectKind(0) == KText && SectKind(1) == KData && SectKind(2) == KBss && SectKind(3) == KRodata;
    assert SectionBack(u, 0) == 0;
    assert Has(u, KData) ==> SectionBack(u, 1) == 1;
    assert Has(u, KBss) ==> SectionBack(u, 2) == if Has(u, KData) then 2 else 1;
    assert Has(u, KRodata) ==>
      SectionBack(u, 3) == 1 + (if Has(u, KData) then 1 else 0) + if Has(u, KBss) then 1 else 0;
    if forall s :: 0 <= s < 4 && Has(u, SectKind(s)) ==> SectionBack(u, s) == s {
      assert Has(u, SectKind(2)) ==> SectionBack(u, 2) == 2;
      assert Has(u, SectKind(3)) ==> SectionBack(u, 3) == 3;
    }
  }
}
