/** Writing a relocatable ELF64 object (src/elf_obj.c, elf_obj_write). */
module ElfObj {
  import opened Bits
  import opened Leb128
  import opened Slices
  import opened Alignment
  import opened ElfBytes
  import opened ElfTables

  // ---------- the assembled unit ----------

  datatype Reloc = Reloc(address: nat, symbol: nat, ty: nat, addend: int)

  /** `section` is 0 to 3 for .text, .data, .bss and .rodata, -1 when undefined. */
  datatype Symbol = Symbol(name: seq<Byte>, section: int, value: nat, global: bool)

  datatype Section = Section(bytes: seq<Byte>, used: bool, relocs: seq<Reloc>)

  datatype Unit = Unit(machine: nat, text: Section, data: Section, bssLen: nat, bssUsed: bool, rodata: Section,
                       syms: seq<Symbol>, note: bool)

  predicate WellFormed(u: Unit) {
    (forall r :: r in u.text.relocs + u.data.relocs ==> r.symbol < |u.syms|) &&
    (forall s :: s in u.syms ==> NulFree(s.name) && -1 <= s.section < 4)
  }

  // ---------- relocation types ----------

  const EM_AARCH64: nat := 183
  const EM_X86_64: nat := 62
  const EM_RISCV: nat := 243

  function ElfRelocType(machine: nat, ty: nat): nat {
    if machine == EM_RISCV then
      if ty == 19 then 1 else if ty == 20 then 2 else if ty == 21 then 23 else if ty == 22 then 24
        else if ty == 23 then 25 else 0
    else if machine == EM_X86_64 then
      if ty == 10 then 1 else if ty == 11 then 2 else if ty == 12 then 42 else 0
    else
      if ty == 0 then 257 else if ty == 2 then 283 else if ty == 3 then 275 else if ty == 4 then 277 else 0
  }

  /** Only RISC-V relocations carry the assembler's addend. */
  function Addend(machine: nat, r: Reloc): int {
    if machine == EM_X86_64 && (r.ty == 11 || r.ty == 12) then -4 else if machine == EM_RISCV then r.addend else 0
  }

  // ---------- which sections there are ----------

  datatype Kind = KNull | KText | KData | KBss | KRodata | KRelaText | KRelaData | KSymtab | KStrtab | KShstrtab | KNote

  const AllKinds: seq<Kind> :=
    [KNull, KText, KData, KBss, KRodata, KRelaText, KRelaData, KSymtab, KStrtab, KShstrtab, KNote]

  function No(k: Kind): (n: nat)
    ensures n < 11 && AllKinds[n] == k
  {
    match k
    case KNull => 0 case KText => 1 case KData => 2 case KBss => 3
    case KRodata => 4 case KRelaText => 5 case KRelaData => 6
    case KSymtab => 7 case KStrtab => 8 case KShstrtab => 9 case KNote => 10
  }

  predicate HasData(u: Unit) { u.data.used || u.data.bytes != [] }

  predicate Has(u: Unit, k: Kind) {
    match k
    case KData => HasData(u)
    case KBss => u.bssUsed && u.bssLen > 0
    case KRodata => u.rodata.used || u.rodata.bytes != []
    case KRelaText => u.text.relocs != []
    case KRelaData => HasData(u) && u.data.relocs != []
    case KNote => u.note
    case _ => true
  }

  /** The section headers among the first `n` kinds, in order. */
  function Present(u: Unit, n: nat): seq<Kind>
    requires n <= 11
  {
    if n == 0 then [] else Present(u, n - 1) + if Has(u, AllKinds[n - 1]) then [AllKinds[n - 1]] else []
  }

  function Kinds(u: Unit): seq<Kind> { Present(u, 11) }

  /** The header number of a present section. */
  function Ord(u: Unit, k: Kind): nat { |Present(u, No(k))| }

  lemma {:induction false} PresentAt(u: Unit, n: nat, m: nat)
    requires n < m <= 11 && Has(u, AllKinds[n])
    ensures |Present(u, n)| < |Present(u, m)| && Present(u, m)[|Present(u, n)|] == AllKinds[n]
  {
    if n + 1 < m { PresentAt(u, n, m - 1); }
  }

  lemma {:induction false} PresentOrd(u: Unit, m: nat, i: nat)
    requires m <= 11 && i < |Present(u, m)|
    ensures var k := Present(u, m)[i]; Has(u, k) && No(k) < m && Ord(u, k) == i
  {
    if i < |Present(u, m - 1)| {
      PresentOrd(u, m - 1, i);
    } else {
      assert Present(u, m)[i] == AllKinds[m - 1];
      KindNo(m - 1);
    }
  }

  lemma KindNo(n: nat)
    requires n < 11
    ensures No(AllKinds[n]) == n
  {
  }

  lemma OrdIs(u: Unit, k: Kind)
    requires Has(u, k)
    ensures Ord(u, k) < |Kinds(u)| && Kinds(u)[Ord(u, k)] == k
  {
    PresentAt(u, No(k), 11);
  }

  function SectKind(section: nat): Kind
    requires section < 4
  {
    if section == 0 then KText else if section == 1 then KData else if section == 2 then KBss else KRodata
  }

  /** A symbol's section header; undefined and unemitted sections give SHN_UNDEF. */
  function SectOrd(u: Unit, section: int): nat
    requires -1 <= section < 4
  {
    if section >= 0 && Has(u, SectKind(section)) then Ord(u, SectKind(section)) else 0
  }

  function Name(k: Kind): seq<Byte> {
    match k
    case KNull => []
    case KText => [46, 116, 101, 120, 116]
    case KData => [46, 100, 97, 116, 97]
    case KBss => [46, 98, 115, 115]
    case KRodata => [46, 114, 111, 100, 97, 116, 97]
    case KRelaText => [46, 114, 101, 108, 97, 46, 116, 101, 120, 116]
    case KRelaData => [46, 114, 101, 108, 97, 46, 100, 97, 116, 97]
    case KSymtab => [46, 115, 121, 109, 116, 97, 98]
    case KStrtab => [46, 115, 116, 114, 116, 97, 98]
    case KShstrtab => [46, 115, 104, 115, 116, 114, 116, 97, 98]
    case KNote => [46, 110, 111, 116, 101, 46, 71, 78, 85, 45, 115, 116, 97, 99, 107]
  }

  /** Names in the section string table: all but the null header's. */
  function SectionNames(u: Unit): (r: seq<seq<Byte>>)
    ensures |r| == |Kinds(u)| - 1
  {
    PresentAt(u, 0, 11);
    seq(|Kinds(u)| - 1, i requires 0 <= i < |Kinds(u)| - 1 => Name(Kinds(u)[i + 1]))
  }

  // ---------- symbol order: locals, then globals ----------

  /** Indices below `n` of the local or of the global symbols. */
  function Pick(syms: seq<Symbol>, global: bool, n: nat): (r: seq<nat>)
    requires n <= |syms|
    ensures |r| <= n && forall j :: 0 <= j < |r| ==> r[j] < n && syms[r[j]].global == global
  {
    if n == 0 then []
    else if syms[n - 1].global == global then Pick(syms, global, n - 1) + [n - 1]
    else Pick(syms, global, n - 1)
  }

  function Order(syms: seq<Symbol>): (r: seq<nat>)
    ensures forall j :: 0 <= j < |r| ==> r[j] < |syms|
  {
    Pick(syms, false, |syms|) + Pick(syms, true, |syms|)
  }

  /** The place of symbol `i` in that order. */
  function Rank(syms: seq<Symbol>, i: nat): nat
    requires i < |syms|
  {
    |Pick(syms, syms[i].global, i)| + if syms[i].global then |Pick(syms, false, |syms|)| else 0
  }

  lemma {:induction false} PickAt(syms: seq<Symbol>, i: nat, n: nat)
    requires i < n <= |syms|
    ensures var g := syms[i].global;
      |Pick(syms, g, i)| < |Pick(syms, g, n)| && Pick(syms, g, n)[|Pick(syms, g, i)|] == i
  {
    if i + 1 < n { PickAt(syms, i, n - 1); }
  }

  lemma {:induction false} PickRank(syms: seq<Symbol>, global: bool, n: nat, j: nat)
    requires n <= |syms| && j < |Pick(syms, global, n)|
    ensures |Pick(syms, global, Pick(syms, global, n)[j])| == j
  {
    if j < |Pick(syms, global, n - 1)| { PickRank(syms, global, n - 1, j); }
  }

  lemma {:induction false} PickCount(syms: seq<Symbol>, n: nat)
    requires n <= |syms|
    ensures |Pick(syms, false, n)| + |Pick(syms, true, n)| == n
  {
    if n > 0 { PickCount(syms, n - 1); }
  }

  /** The renumbering is a bijection with the locals first. */
  lemma RankIsBijection(syms: seq<Symbol>)
    ensures |Order(syms)| == |syms|
    ensures forall i :: 0 <= i < |syms| ==> Rank(syms, i) < |syms| && Order(syms)[Rank(syms, i)] == i
    ensures forall j :: 0 <= j < |syms| ==> Rank(syms, Order(syms)[j]) == j
    ensures forall j :: 0 <= j < |syms| ==> (syms[Order(syms)[j]].global <==> j >= |Pick(syms, false, |syms|)|)
  {
    PickCount(syms, |syms|);
    forall i | 0 <= i < |syms| ensures Rank(syms, i) < |syms| && Order(syms)[Rank(syms, i)] == i {
      PickAt(syms, i, |syms|);
    }
    forall j | 0 <= j < |syms|
      ensures Rank(syms, Order(syms)[j]) == j && (syms[Order(syms)[j]].global <==> j >= |Pick(syms, false, |syms|)|)
    {
      var n := |Pick(syms, false, |syms|)|;
      if j < n { PickRank(syms, false, |syms|, j); } else { PickRank(syms, true, |syms|, j - n); }
    }
  }

  // ---------- the tables ----------

  function SymNames(syms: seq<Symbol>): (r: seq<seq<Byte>>)
    ensures |r| == |syms|
  {
    seq(|syms|, i requires 0 <= i < |syms| => syms[i].name)
  }

  function SymOf(u: Unit, i: nat): Sym
    requires WellFormed(u) && i < |u.syms|
  {
    var s := u.syms[i];
    Sym(NameOff(SymNames(u.syms), i), if s.global then 16 else 0, SectOrd(u, s.section), s.value)
  }

  /** The null symbol, then the first `n` symbols in order. */
  function SymRows(u: Unit, n: nat): (r: seq<seq<Field>>)
    requires WellFormed(u) && n <= |Order(u.syms)|
    ensures |r| == n + 1
  {
    [SymFields(Sym(0, 0, 0, 0))] + seq(n, j requires 0 <= j < n => SymFields(SymOf(u, Order(u.syms)[j])))
  }

  function RelaOf(u: Unit, r: Reloc): Rela
    requires r.symbol < |u.syms|
  {
    Rela(r.address, Rank(u.syms, r.symbol) + 1, ElfRelocType(u.machine, r.ty), Addend(u.machine, r))
  }

  function RelaRows(u: Unit, relocs: seq<Reloc>): (rows: seq<seq<Field>>)
    requires forall r :: r in relocs ==> r.symbol < |u.syms|
    ensures |rows| == |relocs|
  {
    seq(|relocs|, i requires 0 <= i < |relocs| => RelaFields(RelaOf(u, relocs[i])))
  }

  lemma SymRowsAre(u: Unit, n: nat)
    requires WellFormed(u) && n <= |Order(u.syms)|
    ensures Rows(SymRows(u, n), 24) && |Table(SymRows(u, n))| == 24 * (n + 1)
  {
    var rows := SymRows(u, n);
    forall k | 0 <= k < |rows| ensures |Pack(rows[k])| == 24 {
      if k == 0 { SymOffsets(Sym(0, 0, 0, 0)); } else { SymOffsets(SymOf(u, Order(u.syms)[k - 1])); }
    }
    TableLength(rows, 24);
  }

  lemma RelaRowsAre(u: Unit, relocs: seq<Reloc>)
    requires forall r :: r in relocs ==> r.symbol < |u.syms|
    ensures Rows(RelaRows(u, relocs), 24) && |Table(RelaRows(u, relocs))| == 24 * |relocs|
  {
    var rows := RelaRows(u, relocs);
    forall k | 0 <= k < |rows| ensures |Pack(rows[k])| == 24 { RelaOffsets(RelaOf(u, relocs[k])); }
    TableLength(rows, 24);
  }

  // ---------- the file ----------

  function Content(u: Unit, k: Kind): seq<Byte>
    requires WellFormed(u)
  {
    match k
    case KText => u.text.bytes
    case KRodata => u.rodata.bytes
    case KData => u.data.bytes
    case KRelaText => Table(RelaRows(u, u.text.relocs))
    case KRelaData => Table(RelaRows(u, u.data.relocs))
    case KSymtab => Table(SymRows(u, |Order(u.syms)|))
    case KStrtab => StrTab(SymNames(u.syms))
    case KShstrtab => StrTab(SectionNames(u))
    case KNote => [0, 0, 0, 0]
    case _ => []
  }

  /** File order of the contents, which is not header order. */
  const FileOrder: seq<Kind> := [KText, KRodata, KData, KRelaText, KRelaData, KSymtab, KStrtab, KShstrtab, KNote]

  predicate InFile(k: Kind) { !k.KNull? && !k.KBss? }

  function FileNo(k: Kind): (n: nat)
    requires InFile(k)
    ensures n < 9 && FileOrder[n] == k
  {
    match k
    case KText => 0 case KRodata => 1 case KData => 2 case KRelaText => 3 case KRelaData => 4
    case KSymtab => 5 case KStrtab => 6 case KShstrtab => 7 case KNote => 8
  }

  /** Present contents are 8-aligned; an absent section takes no room. */
  function PartOf(u: Unit, k: Kind): Part
    requires WellFormed(u)
  {
    if Has(u, k) then Part(8, Content(u, k)) else Part(1, [])
  }

  function BodyParts(u: Unit, n: nat): (r: seq<Part>)
    requires WellFormed(u) && n <= 9
    ensures |r| == n && Aligned(r)
  {
    seq(n, i requires 0 <= i < n => PartOf(u, FileOrder[i]))
  }

  function OffsetOf(u: Unit, k: Kind): nat
    requires WellFormed(u) && InFile(k)
  {
    PlaceOf(64, BodyParts(u, 9), FileNo(k))
  }

  function ShOff(u: Unit): nat
    requires WellFormed(u)
  {
    AlignUp(EndOf(64, BodyParts(u, 9)), 8)
  }

  function NameStart(u: Unit, k: Kind): nat
    requires Has(u, k)
  {
    if k.KNull? then 0
    else
      PresentPositive(u, k);
      NameOff(SectionNames(u), Ord(u, k) - 1)
  }

  function Header(u: Unit, k: Kind): Shdr
    requires WellFormed(u) && Has(u, k)
  {
    var name := NameStart(u, k);
    match k
    case KNull => Shdr(0, 0, 0, 0, 0, 0, 0, 0, 0)
    case KText => Shdr(name, 1, 6, OffsetOf(u, k), |u.text.bytes|, 0, 0, 4, 0)
    case KData => Shdr(name, 1, 3, OffsetOf(u, k), |u.data.bytes|, 0, 0, 8, 0)
    case KBss => Shdr(name, 8, 3, 0, u.bssLen, 0, 0, 8, 0)
    case KRodata => Shdr(name, 1, 2, OffsetOf(u, k), |u.rodata.bytes|, 0, 0, 8, 0)
    case KRelaText => Shdr(name, 4, 0, OffsetOf(u, k), 24 * |u.text.relocs|, Ord(u, KSymtab), Ord(u, KText), 8, 24)
    case KRelaData => Shdr(name, 4, 0, OffsetOf(u, k), 24 * |u.data.relocs|, Ord(u, KSymtab), Ord(u, KData), 8, 24)
    case KSymtab => Shdr(name, 2, 0, OffsetOf(u, k), 24 * (|u.syms| + 1), Ord(u, KStrtab),
      |Pick(u.syms, false, |u.syms|)| + 1, 8, 24)
    case KStrtab => Shdr(name, 3, 0, OffsetOf(u, k), |Content(u, k)|, 0, 0, 1, 0)
    case KShstrtab => Shdr(name, 3, 0, OffsetOf(u, k), |Content(u, k)|, 0, 0, 1, 0)
    case KNote => Shdr(name, 1, 0, OffsetOf(u, k), 4, 0, 0, 1, 0)
  }

  lemma PresentPositive(u: Unit, k: Kind)
    requires !k.KNull? && Has(u, k)
    ensures 0 < Ord(u, k) < |Kinds(u)|
  {
    PresentAt(u, 0, No(k));
    OrdIs(u, k);
  }

  function HeaderRows(u: Unit, n: nat): (r: seq<seq<Field>>)
    requires WellFormed(u) && n <= |Kinds(u)|
    ensures |r| == n
  {
    seq(n, i requires 0 <= i < n => PresentOrd(u, 11, i); ShdrFields(Header(u, Kinds(u)[i])))
  }

  lemma HeaderRowIs(u: Unit, i: nat)
    requires WellFormed(u) && i < |Kinds(u)|
    ensures Has(u, Kinds(u)[i]) && HeaderRows(u, |Kinds(u)|)[i] == ShdrFields(Header(u, Kinds(u)[i]))
    ensures |Pack(HeaderRows(u, |Kinds(u)|)[i])| == 64
  {
    PresentOrd(u, 11, i);
    ShdrOffsets(Header(u, Kinds(u)[i]));
  }

  lemma HeaderRowsAre(u: Unit)
    requires WellFormed(u)
    ensures Rows(HeaderRows(u, |Kinds(u)|), 64)
  {
    forall j | 0 <= j < |Kinds(u)| ensures |Pack(HeaderRows(u, |Kinds(u)|)[j])| == 64 { HeaderRowIs(u, j); }
  }

  function FileHead(u: Unit): Ehdr
    requires WellFormed(u)
  {
    Ehdr(1, u.machine, 0, 0, ShOff(u), 0, 0, |Kinds(u)|, Ord(u, KShstrtab))
  }

  function AllParts(u: Unit): (r: seq<Part>)
    requires WellFormed(u)
    ensures |r| == 10 && Aligned(r)
  {
    BodyParts(u, 9) + [Part(8, Table(HeaderRows(u, |Kinds(u)|)))]
  }

  /** The object file. */
  function Written(u: Unit): seq<Byte>
    requires WellFormed(u)
  {
    Assemble(EhdrBytes(FileHead(u)), AllParts(u))
  }

  // ---------- where everything is ----------

  lemma {:induction false} PlacePrefix(cur: nat, parts: seq<Part>, p: Part, k: nat)
    requires Aligned(parts) && p.align > 0 && k < |parts|
    ensures PlaceOf(cur, parts + [p], k) == PlaceOf(cur, parts, k)
    decreases k
  {
    if k > 0 {
      assert (parts + [p])[1..] == parts[1..] + [p];
      PlacePrefix(AlignUp(cur, parts[0].align) + |parts[0].bytes|, parts[1..], p, k - 1);
    }
  }

  lemma {:induction false} PlaceLast(cur: nat, parts: seq<Part>, p: Part)
    requires Aligned(parts) && p.align > 0
    ensures PlaceOf(cur, parts + [p], |parts|) == AlignUp(EndOf(cur, parts), p.align)
    decreases |parts|
  {
    if parts != [] {
      assert (parts + [p])[1..] == parts[1..] + [p];
      PlaceLast(AlignUp(cur, parts[0].align) + |parts[0].bytes|, parts[1..], p);
    }
  }

  /** Every present section's bytes are at the offset its header gives. */
  lemma ContentPlaced(u: Unit, k: Kind)
    requires WellFormed(u) && InFile(k) && Has(u, k)
    ensures At(Written(u), OffsetOf(u, k), Content(u, k))
  {
    var part := BodyParts(u, 9)[FileNo(k)];
    assert part == PartOf(u, k) == Part(8, Content(u, k));
    hide Has, Content, PartOf, Header, EhdrBytes, Table, BodyParts, FileHead;
    EhdrOffsets(FileHead(u));
    PlacedAt(EhdrBytes(FileHead(u)), AllParts(u), FileNo(k));
    PlacePrefix(64, BodyParts(u, 9), Part(8, Table(HeaderRows(u, |Kinds(u)|))), FileNo(k));
  }

  /** The header table is where e_shoff says, after the file header. */
  lemma HeadersPlaced(u: Unit)
    requires WellFormed(u)
    ensures At(Written(u), ShOff(u), Table(HeaderRows(u, |Kinds(u)|)))
    ensures At(Written(u), 0, EhdrBytes(FileHead(u)))
  {
    hide Has, Content, PartOf, Header, EhdrBytes, Table, BodyParts, FileHead;
    EhdrOffsets(FileHead(u));
    PlacedAt(EhdrBytes(FileHead(u)), AllParts(u), 9);
    PlaceLast(64, BodyParts(u, 9), Part(8, Table(HeaderRows(u, |Kinds(u)|))));
    AssembleKeeps(EhdrBytes(FileHead(u)), AllParts(u));
  }
}
