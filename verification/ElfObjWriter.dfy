/** The object writer's loops: numbering, layout and emission (src/elf_obj.c, elf_obj_write). */
module ElfObjWriter {
  import opened Bits
  import opened Leb128
  import opened Slices
  import opened Alignment
  import opened ElfBytes
  import opened ElfTables
  import opened ElfObj

  // ---------- building up the specification's tables ----------

  lemma StrTabMore(names: seq<seq<Byte>>, name: seq<Byte>)
    ensures StrTab(names + [name]) == StrTab(names) + name + [0]
  {
    assert (names + [name])[..|names|] == names;
  }

  lemma TableMore(rows: seq<seq<Field>>, row: seq<Field>)
    ensures Table(rows + [row]) == Table(rows) + Pack(row)
  {
    assert (rows + [row])[..|rows|] == rows;
  }

  /** Names of the first present sections, without the null one. */
  function NamesOf(ks: seq<Kind>): (r: seq<seq<Byte>>)
    ensures |r| == if ks == [] then 0 else |ks| - 1
  {
    if ks == [] then [] else seq(|ks| - 1, i requires 0 <= i < |ks| - 1 => Name(ks[i + 1]))
  }

  lemma NamesOfMore(ks: seq<Kind>, k: Kind)
    requires ks != []
    ensures NamesOf(ks + [k]) == NamesOf(ks) + [Name(k)]
  {
  }

  lemma NameStartIs(u: Unit, n: nat)
    requires 1 <= n < 11 && Has(u, AllKinds[n])
    ensures Present(u, n) != [] && NameStart(u, AllKinds[n]) == |StrTab(NamesOf(Present(u, n)))|
  {
    var k := AllKinds[n];
    assert No(k) == n;
    PresentAt(u, 0, n);
    PresentPositive(u, k);
    PresentIsPrefix(u, n, 11);
    assert SectionNames(u)[..Ord(u, k) - 1] == NamesOf(Present(u, n));
  }

  lemma {:induction false} PresentIsPrefix(u: Unit, n: nat, m: nat)
    requires n <= m <= 11
    ensures |Present(u, n)| <= |Present(u, m)| && Present(u, n) == Present(u, m)[..|Present(u, n)|]
  {
    if n < m { PresentIsPrefix(u, n, m - 1); }
  }

  // ---------- numbering ----------

  /** Header numbers (0 if absent), name offsets, how many headers, and their names. */
  datatype Numbers = Numbers(ord: seq<nat>, nameOff: seq<nat>, shnum: nat, shstrtab: seq<Byte>)

  ghost predicate Numbered(u: Unit, x: Numbers, n: nat)
    requires n <= 11
  {
    |x.ord| == |x.nameOff| == n && x.shnum == |Present(u, n)| &&
    (n > 0 ==> x.shstrtab == StrTab(NamesOf(Present(u, n)))) &&
    forall i :: 0 <= i < n && Has(u, AllKinds[i]) ==>
      x.ord[i] == Ord(u, AllKinds[i]) && x.nameOff[i] == NameStart(u, AllKinds[i])
  }

  method NumberSections(u: Unit) returns (x: Numbers)
    ensures Numbered(u, x, 11)
  {
    hide Numbered, StrTab;
    x := Numbers([], [], 0, [0]);
    var n := 0;
    NoNumbers(u, x);
    while n < 11
      invariant 0 <= n <= 11 && Numbered(u, x, n) && x.shstrtab != [] && (n == 0 ==> x.shnum == 0 && x.shstrtab == [0])
    {
      if !Has(u, AllKinds[n]) {
        AbsentNumber(u, x, n);
        x := Numbers(x.ord + [0], x.nameOff + [0], x.shnum, x.shstrtab);
      } else if n == 0 {
        FirstNumber(u, x);
        x := Numbers(x.ord + [0], x.nameOff + [0], 1, x.shstrtab);
      } else {
        NextNumber(u, x, n);
        x := Numbers(x.ord + [x.shnum], x.nameOff + [|x.shstrtab|], x.shnum + 1, x.shstrtab + Name(AllKinds[n]) + [0]);
      }
      n := n + 1;
    }
  }

  lemma NoNumbers(u: Unit, x: Numbers)
    requires x == Numbers([], [], 0, [0])
    ensures Numbered(u, x, 0)
  {
  }

  lemma AbsentNumber(u: Unit, x: Numbers, n: nat)
    requires n < 11 && Numbered(u, x, n) && !Has(u, AllKinds[n])
    ensures n > 0 && Numbered(u, Numbers(x.ord + [0], x.nameOff + [0], x.shnum, x.shstrtab), n + 1)
  {
    hide NameStart, StrTab, NamesOf;
    assert Present(u, n + 1) == Present(u, n);
  }

  lemma NullNumber(u: Unit)
    ensures Present(u, 1) == [KNull] && StrTab(NamesOf(Present(u, 1))) == [0] && Ord(u, KNull) == 0 &&
      NameStart(u, KNull) == 0
  {
    assert Present(u, 0) == [];
    assert NamesOf([KNull]) == [];
  }

  lemma FirstNumber(u: Unit, x: Numbers)
    requires Numbered(u, x, 0) && x.shstrtab == [0]
    ensures Numbered(u, Numbers(x.ord + [0], x.nameOff + [0], 1, x.shstrtab), 1)
  {
    hide StrTab, NamesOf;
    NullNumber(u);
  }

  lemma NextNumber(u: Unit, x: Numbers, n: nat)
    requires 1 <= n < 11 && Has(u, AllKinds[n]) && Numbered(u, x, n)
    ensures Numbered(u, Numbers(x.ord + [x.shnum], x.nameOff + [|x.shstrtab|], x.shnum + 1,
      x.shstrtab + Name(AllKinds[n]) + [0]), n + 1)
  {
    hide StrTab, NamesOf, NameStart, Name;
    NameStartIs(u, n);
    NamesOfMore(Present(u, n), AllKinds[n]);
    StrTabMore(NamesOf(Present(u, n)), Name(AllKinds[n]));
    KindNo(n);
    assert Present(u, n + 1) == Present(u, n) + [AllKinds[n]];
  }

  lemma NamesOfAll(u: Unit)
    ensures NamesOf(Kinds(u)) == SectionNames(u)
  {
    PresentAt(u, 0, 11);
  }

  /** The remap from the assembler's symbols to the symbol table: locals, then globals. */
  method IndexSymbols(syms: seq<Symbol>) returns (idx: array<nat>, firstGlobal: nat)
    ensures idx.Length == |syms| && forall i :: 0 <= i < |syms| ==> idx[i] == Rank(syms, i) + 1
    ensures firstGlobal == |Pick(syms, false, |syms|)| + 1
    ensures fresh(idx)
  {
    idx := new nat[|syms|];
    firstGlobal := IndexPass(syms, false, idx, 1);
    var _ := IndexPass(syms, true, idx, firstGlobal);
  }

  /** Number the symbols of one binding from `first` on. */
  method IndexPass(syms: seq<Symbol>, global: bool, idx: array<nat>, first: nat) returns (next: nat)
    requires idx.Length == |syms| && first == (if global then |Pick(syms, false, |syms|)| else 0) + 1
    modifies idx
    ensures next == first + |Pick(syms, global, |syms|)|
    ensures forall i :: 0 <= i < |syms| ==>
      idx[i] == if syms[i].global == global then Rank(syms, i) + 1 else old(idx[i])
  {
    hide Rank;
    next := first;
    var i := 0;
    while i < |syms|
      invariant 0 <= i <= |syms| && next == first + |Pick(syms, global, i)|
      invariant forall j :: 0 <= j < i ==> idx[j] == if syms[j].global == global then Rank(syms, j) + 1 else old(idx[j])
      invariant forall j :: i <= j < |syms| ==> idx[j] == old(idx[j])
    {
      if syms[i].global == global {
        RankIs(syms, i);
        idx[i] := next;
        next := next + 1;
      }
      i := i + 1;
    }
  }

  lemma RankIs(syms: seq<Symbol>, i: nat)
    requires i < |syms|
    ensures Rank(syms, i) == |Pick(syms, syms[i].global, i)| + if syms[i].global then |Pick(syms, false, |syms|)| else 0
  {
  }

  /** The string table and each symbol's offset in it. */
  method BuildStrtab(syms: seq<Symbol>) returns (tab: seq<Byte>, offs: seq<nat>)
    ensures tab == StrTab(SymNames(syms)) && |offs| == |syms|
    ensures forall i :: 0 <= i < |syms| ==> offs[i] == NameOff(SymNames(syms), i)
  {
    tab, offs := [0], [];
    ghost var names := SymNames(syms);
    var i := 0;
    while i < |syms|
      invariant 0 <= i <= |syms| == |names| && names == SymNames(syms) && tab == StrTab(names[..i]) && |offs| == i
      invariant forall j :: 0 <= j < i ==> offs[j] == NameOff(names, j)
    {
      offs := offs + [|tab|];
      StrTabMore(names[..i], names[i]);
      assert names[..i + 1] == names[..i] + [names[i]];
      tab := tab + syms[i].name + [0];
      i := i + 1;
    }
    assert names[..i] == names;
  }

  // ---------- tables ----------

  method BuildRela(u: Unit, relocs: seq<Reloc>, idx: array<nat>) returns (bytes: seq<Byte>)
    requires forall r :: r in relocs ==> r.symbol < |u.syms|
    requires idx.Length == |u.syms| && forall i :: 0 <= i < |u.syms| ==> idx[i] == Rank(u.syms, i) + 1
    ensures bytes == Table(RelaRows(u, relocs))
  {
    hide Rank, Table, Pack;
    bytes := [];
    ghost var rows := RelaRows(u, relocs);
    assert Table(rows[..0]) == [] by { EmptyTable(); }
    var i := 0;
    while i < |relocs|
      invariant 0 <= i <= |relocs| && bytes == Table(rows[..i])
    {
      var r := relocs[i];
      TableMore(rows[..i], rows[i]);
      assert rows[..i + 1] == rows[..i] + [rows[i]];
      bytes := bytes + Pack(RelaFields(Rela(r.address, idx[r.symbol], ElfRelocType(u.machine, r.ty),
        Addend(u.machine, r))));
      i := i + 1;
    }
    assert rows[..i] == rows;
  }

  lemma EmptyTable()
    ensures Table([]) == []
  {
  }

  /** Symbols of one binding, in order, after what is there. */
  method EmitPass(u: Unit, offs: seq<nat>, x: Numbers, global: bool, start: seq<Byte>, ghost done: nat)
      returns (bytes: seq<Byte>)
    requires WellFormed(u) && Numbered(u, x, 11) && |offs| == |u.syms|
    requires forall i :: 0 <= i < |u.syms| ==> offs[i] == NameOff(SymNames(u.syms), i)
    requires done == (if global then |Pick(u.syms, false, |u.syms|)| else 0) && start == Table(SymRows(u, done))
    ensures bytes == Table(SymRows(u, done + |Pick(u.syms, global, |u.syms|)|))
  {
    hide Table, Pack, SymFields, SymRows, Numbered, NameOff, SymOf, WellFormed;
    bytes := start;
    var i := 0;
    while i < |u.syms|
      invariant 0 <= i <= |u.syms| && done + |Pick(u.syms, global, i)| <= |Order(u.syms)|
      invariant bytes == Table(SymRows(u, done + |Pick(u.syms, global, i)|))
    {
      PassBound(u.syms, global, i);
      var s := u.syms[i];
      if s.global == global {
        SymRowNext(u, global, i);
        var shndx := ShndxOf(u, x, s.section, i);
        SymOfIs(u, i);
        bytes := bytes + Pack(SymFields(Sym(offs[i], if global then 16 else 0, shndx, s.value)));
      }
      i := i + 1;
    }
  }

  lemma SymOfIs(u: Unit, i: nat)
    requires WellFormed(u) && i < |u.syms|
    ensures u.syms[i] in u.syms && SymOf(u, i) ==
      Sym(NameOff(SymNames(u.syms), i), if u.syms[i].global then 16 else 0, SectOrd(u, u.syms[i].section),
        u.syms[i].value)
  {
  }

  method ShndxOf(u: Unit, x: Numbers, section: int, ghost i: nat) returns (r: nat)
    requires WellFormed(u) && Numbered(u, x, 11) && i < |u.syms| && section == u.syms[i].section
    ensures -1 <= section < 4 && r == SectOrd(u, section)
  {
    assert u.syms[i] in u.syms;
    if section < 0 || !Has(u, SectKind(section)) { return 0; }
    return x.ord[No(SectKind(section))];
  }

  lemma {:induction false} PickMono(syms: seq<Symbol>, global: bool, i: nat, n: nat)
    requires i <= n <= |syms|
    ensures |Pick(syms, global, i)| <= |Pick(syms, global, n)|
  {
    if i < n { PickMono(syms, global, i, n - 1); }
  }

  lemma PassBound(syms: seq<Symbol>, global: bool, i: nat)
    requires i < |syms|
    ensures (if global then |Pick(syms, false, |syms|)| else 0) + |Pick(syms, global, i + 1)| <= |Order(syms)|
  {
    PickMono(syms, global, i + 1, |syms|);
  }

  /** The next row of a pass. */
  lemma SymRowNext(u: Unit, global: bool, i: nat)
    requires WellFormed(u) && i < |u.syms| && u.syms[i].global == global
    ensures var n := (if global then |Pick(u.syms, false, |u.syms|)| else 0) + |Pick(u.syms, global, i)|;
      n < |Order(u.syms)| && Table(SymRows(u, n + 1)) == Table(SymRows(u, n)) + Pack(SymFields(SymOf(u, i)))
  {
    hide WellFormed, SymFields, SymOf, Table, Pack;
    RankIsBijection(u.syms);
    var n := Rank(u.syms, i);
    assert Order(u.syms)[n] == i;
    assert SymRows(u, n + 1) == SymRows(u, n) + [SymFields(SymOf(u, i))];
    TableMore(SymRows(u, n), SymFields(SymOf(u, i)));
  }

  method BuildSymtab(u: Unit, offs: seq<nat>, x: Numbers) returns (bytes: seq<Byte>)
    requires WellFormed(u) && Numbered(u, x, 11) && |offs| == |u.syms|
    requires forall i :: 0 <= i < |u.syms| ==> offs[i] == NameOff(SymNames(u.syms), i)
    ensures bytes == Table(SymRows(u, |Order(u.syms)|))
  {
    hide Table, Pack, SymFields, Numbered, NameOff, SymOf, WellFormed;
    bytes := Pack(SymFields(Sym(0, 0, 0, 0)));
    NullRow(u);
    bytes := EmitPass(u, offs, x, false, bytes, 0);
    bytes := EmitPass(u, offs, x, true, bytes, |Pick(u.syms, false, |u.syms|)|);
  }

  lemma NullRow(u: Unit)
    requires WellFormed(u)
    ensures Table(SymRows(u, 0)) == Pack(SymFields(Sym(0, 0, 0, 0)))
  {
    hide WellFormed, SymFields, Pack;
    var row := SymFields(Sym(0, 0, 0, 0));
    assert SymRows(u, 0) == [] + [row];
    TableMore([], row);
  }

  // ---------- layout ----------

  /** Offsets by file order, and of the headers. */
  datatype Offsets = Offsets(at: seq<nat>, headers: nat)

  /** The running offset: each present section aligned to 8, then its size. */
  method LayOut(u: Unit, sizes: seq<nat>) returns (o: Offsets)
    requires WellFormed(u) && |sizes| == 9 && forall i :: 0 <= i < 9 && Has(u, FileOrder[i]) ==>
      sizes[i] == |Content(u, FileOrder[i])|
    ensures |o.at| == 9 && o.headers == ShOff(u)
    ensures forall i :: 0 <= i < 9 && Has(u, FileOrder[i]) ==> o.at[i] == OffsetOf(u, FileOrder[i])
  {
    hide WellFormed, Content, Has;
    var cur := 64;
    var offs: seq<nat> := [];
    var i := 0;
    ghost var parts := BodyParts(u, 9);
    while i < 9
      invariant 0 <= i <= 9 && |offs| == i && cur == EndOf(64, parts[..i])
      invariant forall j :: 0 <= j < i && Has(u, FileOrder[j]) ==> offs[j] == PlaceOf(64, parts, j)
    {
      EndStep(64, parts, i);
      if Has(u, FileOrder[i]) {
        cur := AlignUp(cur, 8);
        offs := offs + [cur];
        cur := cur + sizes[i];
      } else {
        AlignUpAligned(cur, 1);
        offs := offs + [0];
      }
      i := i + 1;
    }
    assert parts[..9] == parts;
    FileNumbers();
    o := Offsets(offs, AlignUp(cur, 8));
  }

  lemma FileNumbers()
    ensures forall i :: 0 <= i < 9 ==> InFile(FileOrder[i]) && FileNo(FileOrder[i]) == i
  {
  }

  lemma {:induction false} EndStep(cur: nat, parts: seq<Part>, i: nat)
    requires Aligned(parts) && i < |parts|
    ensures PlaceOf(cur, parts, i) == AlignUp(EndOf(cur, parts[..i]), parts[i].align)
    ensures EndOf(cur, parts[..i + 1]) == PlaceOf(cur, parts, i) + |parts[i].bytes|
    decreases i
  {
    var next := AlignUp(cur, parts[0].align) + |parts[0].bytes|;
    if i == 0 {
      assert parts[..1][1..] == [];
    } else {
      assert parts[..i][1..] == parts[1..][..i - 1] && parts[..i + 1][1..] == parts[1..][..i];
      EndStep(next, parts[1..], i - 1);
    }
  }

  // ---------- headers ----------

  method HeaderFor(u: Unit, k: Kind, x: Numbers, o: Offsets, firstGlobal: nat, strSize: nat) returns (h: Shdr)
    requires WellFormed(u) && Has(u, k) && Numbered(u, x, 11) && |o.at| == 9
    requires forall i :: 0 <= i < 9 && Has(u, FileOrder[i]) ==> o.at[i] == OffsetOf(u, FileOrder[i])
    requires firstGlobal == |Pick(u.syms, false, |u.syms|)| + 1 && strSize == |StrTab(SymNames(u.syms))|
    ensures h == Header(u, k)
  {
    hide WellFormed, OffsetOf, NameStart, Present, Pick, StrTab, NamesOf;
    NamesOfAll(u);
    var name := x.nameOff[No(k)];
    var off := if InFile(k) then o.at[FileNo(k)] else 0;
    match k
    case KNull =>
      NullNumber(u);
      h := Shdr(0, 0, 0, 0, 0, 0, 0, 0, 0);
    case KText => h := Shdr(name, 1, 6, off, |u.text.bytes|, 0, 0, 4, 0);
    case KData => h := Shdr(name, 1, 3, off, |u.data.bytes|, 0, 0, 8, 0);
    case KBss => h := Shdr(name, 8, 3, 0, u.bssLen, 0, 0, 8, 0);
    case KRodata => h := Shdr(name, 1, 2, off, |u.rodata.bytes|, 0, 0, 8, 0);
    case KRelaText => h := Shdr(name, 4, 0, off, 24 * |u.text.relocs|, x.ord[No(KSymtab)], x.ord[No(KText)], 8, 24);
    case KRelaData => h := Shdr(name, 4, 0, off, 24 * |u.data.relocs|, x.ord[No(KSymtab)], x.ord[No(KData)], 8, 24);
    case KSymtab => h := Shdr(name, 2, 0, off, 24 * (|u.syms| + 1), x.ord[No(KStrtab)], firstGlobal, 8, 24);
    case KStrtab => h := Shdr(name, 3, 0, off, strSize, 0, 0, 1, 0);
    case KShstrtab => h := Shdr(name, 3, 0, off, |x.shstrtab|, 0, 0, 1, 0);
    case KNote => h := Shdr(name, 1, 0, off, 4, 0, 0, 1, 0);
  }

  /** Rows for the present sections among the first `n` kinds. */
  method BuildHeaders(u: Unit, x: Numbers, o: Offsets, firstGlobal: nat, strSize: nat) returns (bytes: seq<Byte>)
    requires WellFormed(u) && Numbered(u, x, 11) && |o.at| == 9
    requires forall i :: 0 <= i < 9 && Has(u, FileOrder[i]) ==> o.at[i] == OffsetOf(u, FileOrder[i])
    requires firstGlobal == |Pick(u.syms, false, |u.syms|)| + 1 && strSize == |StrTab(SymNames(u.syms))|
    ensures bytes == Table(HeaderRows(u, |Kinds(u)|))
  {
    hide WellFormed, OffsetOf, Pick, StrTab, Table, Pack, Header, ShdrFields, HeaderRows, Has, Numbered;
    bytes := [];
    NoHeaders(u);
    var n := 0;
    while n < 11
      invariant 0 <= n <= 11 && |Present(u, n)| <= |Kinds(u)| && bytes == Table(HeaderRows(u, |Present(u, n)|))
    {
      PresentIsPrefix(u, n + 1, 11);
      if Has(u, AllKinds[n]) {
        var h := HeaderFor(u, AllKinds[n], x, o, firstGlobal, strSize);
        HeaderRowNext(u, n);
        bytes := bytes + Pack(ShdrFields(h));
      }
      n := n + 1;
    }
  }

  lemma NoHeaders(u: Unit)
    requires WellFormed(u)
    ensures Table(HeaderRows(u, 0)) == [] && |Present(u, 0)| == 0
  {
    assert HeaderRows(u, 0) == [];
  }

  lemma HeaderRowNext(u: Unit, n: nat)
    requires WellFormed(u) && n < 11 && Has(u, AllKinds[n])
    ensures var m := |Present(u, n)|;
      m < |Kinds(u)| && Table(HeaderRows(u, m + 1)) ==
        Table(HeaderRows(u, m)) + Pack(ShdrFields(Header(u, AllKinds[n])))
  {
    hide WellFormed, Header, ShdrFields, Pack, Table;
    KindNo(n);
    OrdIs(u, AllKinds[n]);
    var m := |Present(u, n)|;
    assert HeaderRows(u, m + 1) == HeaderRows(u, m) + [ShdrFields(Header(u, AllKinds[n]))];
    TableMore(HeaderRows(u, m), ShdrFields(Header(u, AllKinds[n])));
  }

  // ---------- emission ----------

  lemma SkipPart(start: seq<Byte>, done: seq<Part>)
    requires Aligned(done)
    ensures Assemble(start, done + [Part(1, [])]) == Assemble(start, done)
  {
    AssembleOneMore(start, done, Part(1, []));
    AlignUpAligned(|Assemble(start, done)|, 1);
  }

  /** The contents in file order; an absent section writes nothing. */
  method EmitContents(b: ElfBytes.Buf, u: Unit, contents: seq<seq<Byte>>)
    requires WellFormed(u) && |contents| == 9 && b.bytes == EhdrBytes(FileHead(u))
    requires forall i :: 0 <= i < 9 && Has(u, FileOrder[i]) ==> contents[i] == Content(u, FileOrder[i])
    modifies b
    ensures b.bytes == Assemble(EhdrBytes(FileHead(u)), BodyParts(u, 9))
  {
    hide WellFormed, Content, Has, FileHead, EhdrBytes;
    ghost var head := EhdrBytes(FileHead(u));
    var i := 0;
    while i < 9
      invariant 0 <= i <= 9 && b.bytes == Assemble(head, BodyParts(u, i))
    {
      assert BodyParts(u, i + 1) == BodyParts(u, i) + [PartOf(u, FileOrder[i])];
      if Has(u, FileOrder[i]) {
        b.PutPart(head, BodyParts(u, i), Part(8, contents[i]));
      } else {
        SkipPart(head, BodyParts(u, i));
      }
      i := i + 1;
    }
  }

  method WriteObject(u: Unit) returns (out: seq<Byte>)
    requires WellFormed(u)
    ensures out == Written(u)
  {
    hide Content, Numbered, Pick, Table, StrTab, Rank, Present;
    var x := NumberSections(u);
    var strtab, offs := BuildStrtab(u.syms);
    var idx, firstGlobal := IndexSymbols(u.syms);
    var relaText := BuildRela(u, u.text.relocs, idx);
    var relaData := BuildRela(u, u.data.relocs, idx);
    var symtab := BuildSymtab(u, offs, x);
    NumbersAre(u, x);
    var contents := [u.text.bytes, u.rodata.bytes, u.data.bytes, relaText, relaData, symtab, strtab, x.shstrtab,
      [0, 0, 0, 0]];
    ContentsAre(u);
    out := Finish(u, x, firstGlobal, |strtab|, contents);
  }

  lemma NumbersAre(u: Unit, x: Numbers)
    requires Numbered(u, x, 11)
    ensures x.shnum == |Kinds(u)| && x.shstrtab == StrTab(SectionNames(u))
    ensures |x.ord| == 11 && x.ord[No(KShstrtab)] == Ord(u, KShstrtab)
  {
    NamesOfAll(u);
    assert AllKinds[No(KShstrtab)] == KShstrtab;
  }

  lemma ContentsAre(u: Unit)
    requires WellFormed(u)
    ensures Content(u, KText) == u.text.bytes && Content(u, KRodata) == u.rodata.bytes &&
      Content(u, KData) == u.data.bytes
    ensures Content(u, KRelaText) == Table(RelaRows(u, u.text.relocs)) &&
      Content(u, KRelaData) == Table(RelaRows(u, u.data.relocs))
    ensures Content(u, KSymtab) == Table(SymRows(u, |Order(u.syms)|)) && Content(u, KStrtab) == StrTab(SymNames(u.syms))
    ensures Content(u, KShstrtab) == StrTab(SectionNames(u)) && Content(u, KNote) == [0, 0, 0, 0]
  {
    hide WellFormed, Table, RelaRows, SymRows, StrTab, SectionNames, SymNames;
  }

  /** Lay out, then emit header, contents and section headers. */
  method Finish(u: Unit, x: Numbers, firstGlobal: nat, strSize: nat, contents: seq<seq<Byte>>) returns (out: seq<Byte>)
    requires WellFormed(u) && Numbered(u, x, 11) && |contents| == 9
    requires forall i :: 0 <= i < 9 && Has(u, FileOrder[i]) ==> contents[i] == Content(u, FileOrder[i])
    requires firstGlobal == |Pick(u.syms, false, |u.syms|)| + 1 && strSize == |StrTab(SymNames(u.syms))|
    ensures out == Written(u)
  {
    hide WellFormed, Content, Has, Pick, StrTab, EhdrBytes, Numbered, HeaderRows, Table, OffsetOf, ShOff;
    NumbersAre(u, x);
    var sizes := seq(9, i requires 0 <= i < 9 => |contents[i]|);
    var o := LayOut(u, sizes);
    var headers := BuildHeaders(u, x, o, firstGlobal, strSize);
    var b := new ElfBytes.Buf();
    b.Put(EhdrBytes(Ehdr(1, u.machine, 0, 0, o.headers, 0, 0, x.shnum, x.ord[No(KShstrtab)])));
    EmitContents(b, u, contents);
    b.PutPart(EhdrBytes(FileHead(u)), BodyParts(u, 9), Part(8, headers));
    out := b.bytes;
  }
}
