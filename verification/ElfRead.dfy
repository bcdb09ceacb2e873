/** Reading a relocatable ELF64 object (src/elf_read.c, elf_read). */
module ElfRead {
  import opened Bits
  import opened Leb128
  import opened Slices
  import opened ElfBytes
  import opened ElfTables
  import opened ElfObj

  datatype Error =
    | TooSmall | NotElf | Not64 | NotLittleEndian | NotRelocatable | UnsupportedMachine(machine: nat)
    | BadHeaderSize | BadNameIndex | Truncated | UnsupportedReloc(elfType: nat)

  datatype Result<T> = Ok(value: T) | Err(error: Error)

  datatype ElfReloc = ElfReloc(offset: nat, sym: nat, ty: int, addend: int)

  /** `which` is the section's fixed number, 0 to 3 for .text, .data, .bss and .rodata. */
  datatype ElfSection = ElfSection(which: int, ty: nat, flags: nat, size: nat, data: seq<Byte>, relocs: seq<ElfReloc>,
    link: nat, entsize: nat)

  datatype ElfSymbol = ElfSymbol(name: seq<Byte>, section: int, value: nat, binding: nat, ty: nat, common: bool)

  datatype Object = Object(machine: nat, sections: seq<ElfSection>, symbols: seq<ElfSymbol>)

  function InternalRelocType(machine: nat, t: nat): int {
    if machine == EM_RISCV then
      if t == 1 then 19 else if t == 2 then 20 else if t == 23 then 21 else if t == 24 then 22 else if t == 25 then 23
        else -1
    else if machine == EM_X86_64 then
      if t == 1 then 10 else if t == 2 then 11 else if t == 4 then 11 else if t == 42 then 12 else -1
    else
      if t == 257 then 0 else if t == 283 then 2 else if t == 275 then 3 else if t == 277 then 4 else -1
  }

  function SectionIdx(name: seq<Byte>): (r: int)
    ensures -1 <= r < 4
  {
    if name == Name(KText) then 0 else if name == Name(KData) then 1 else if name == Name(KBss) then 2
    else if name == Name(KRodata) then 3 else -1
  }

  // ---------- the frame ----------

  datatype Frame = Frame(machine: nat, shoff: nat, shnum: nat, strOff: nat, strSize: nat)

  predicate Framed(data: seq<Byte>, f: Frame) { f.shoff + 64 * f.shnum <= |data| }

  function HeaderAt(data: seq<Byte>, f: Frame, i: nat): Shdr
    requires Framed(data, f) && i < f.shnum
  {
    ReadShdr(data, f.shoff + i * 64)
  }

  function ReadFrame(data: seq<Byte>): (r: Result<Frame>)
    ensures r.Ok? ==> Framed(data, r.value) && r.value.strOff + r.value.strSize <= |data|
  {
    if |data| < 64 then Err(TooSmall)
    else if data[..4] != [127, 69, 76, 70] then Err(NotElf)
    else if data[4] != 2 then Err(Not64)
    else if data[5] != 1 then Err(NotLittleEndian)
    else
      var h := ReadEhdr(data);
      if h.ty != 1 then Err(NotRelocatable)
      else if h.machine != EM_AARCH64 && h.machine != EM_X86_64 &&
        h.machine != EM_RISCV then Err(UnsupportedMachine(h.machine))
      else if ReadLe(data, 58, 2) != 64 then Err(BadHeaderSize)
      else if h.shoff + h.shnum * 64 > |data| then Err(Truncated)
      else if h.shstrndx >= h.shnum then Err(BadNameIndex)
      else
        var str := ReadShdr(data, h.shoff + h.shstrndx * 64);
        if str.off + str.size > |data| then Err(Truncated)
        else Ok(Frame(h.machine, h.shoff, h.shnum, str.off, str.size))
  }

  // ---------- the passes ----------

  /** The last symbol table among the first `n` headers, or 0. */
  function FindSymtab(data: seq<Byte>, f: Frame, n: nat): (r: nat)
    requires Framed(data, f) && n <= f.shnum
    ensures r == 0 || r < n
  {
    if n == 0 then 0 else if HeaderAt(data, f, n - 1).ty == 2 then n - 1 else FindSymtab(data, f, n - 1)
  }

  /** Content sections so far, and for every header its section's index or -1. */
  datatype Scan = Scan(sections: seq<ElfSection>, secMap: seq<int>)

  predicate ScanOk(sc: Scan) { forall i :: 0 <= i < |sc.secMap| ==> -1 <= sc.secMap[i] < |sc.sections| }

  /** Which content section a header names, or -1. */
  function WhichOf(data: seq<Byte>, f: Frame, h: Shdr): (r: int)
    ensures -1 <= r < 4
  {
    if h.name >= f.strSize then -1 else SectionIdx(CString(data, f.strOff + h.name))
  }

  function ReadContent(data: seq<Byte>, which: int, h: Shdr): Result<ElfSection> {
    if h.ty != 8 && h.size > 0 && h.off + h.size > |data| then Err(Truncated)
    else
      var bytes := if h.ty != 8 && h.size > 0 then data[h.off..h.off + h.size] else [];
      Ok(ElfSection(which, h.ty, h.flags, h.size, bytes, [], h.link, h.entsize))
  }

  function AddSection(data: seq<Byte>, f: Frame, sc: Scan, i: nat): (r: Result<Scan>)
    requires Framed(data, f) && i < f.shnum && ScanOk(sc)
    ensures r.Ok? ==> ScanOk(r.value) && |r.value.secMap| == |sc.secMap| + 1
  {
    var h := HeaderAt(data, f, i);
    var which := WhichOf(data, f, h);
    if which < 0 then Ok(Scan(sc.sections, sc.secMap + [-1]))
    else
      match ReadContent(data, which, h)
      case Err(e) => Err(e)
      case Ok(s) => Ok(Scan(sc.sections + [s], sc.secMap + [|sc.sections|]))
  }

  function ScanSections(data: seq<Byte>, f: Frame, n: nat): (r: Result<Scan>)
    requires Framed(data, f) && n <= f.shnum
    ensures r.Ok? ==> ScanOk(r.value) && |r.value.secMap| == n
  {
    if n == 0 then Ok(Scan([], []))
    else
      match ScanSections(data, f, n - 1)
      case Err(e) => Err(e)
      case Ok(sc) => AddSection(data, f, sc, n - 1)
  }

  function ReadOneReloc(data: seq<Byte>, machine: nat, off: nat): Result<ElfReloc> {
    if off + 24 > |data| then Err(Truncated)
    else
      var r := ReadRela(data, off);
      var ty := InternalRelocType(machine, r.ty);
      if ty < 0 then Err(UnsupportedReloc(r.ty))
        else Ok(ElfReloc(r.offset, if r.sym > 0 then r.sym - 1 else 0, ty, r.addend))
  }

  function ReadRelocs(data: seq<Byte>, machine: nat, off: nat, n: nat): Result<seq<ElfReloc>> {
    if n == 0 then Ok([])
    else
      match ReadRelocs(data, machine, off, n - 1)
      case Err(e) => Err(e)
      case Ok(rs) =>
        match ReadOneReloc(data, machine, off + (n - 1) * 24)
        case Err(e) => Err(e)
        case Ok(r) => Ok(rs + [r])
  }

  function AddRelocs(data: seq<Byte>, f: Frame, secMap: seq<int>, sections: seq<ElfSection>,
      i: nat): (r: Result<seq<ElfSection>>)
    requires Framed(data, f) && i < f.shnum == |secMap| && ScanOk(Scan(sections, secMap))
    ensures r.Ok? ==> |r.value| == |sections|
  {
    var h := HeaderAt(data, f, i);
    if h.ty != 4 || h.info >= f.shnum || secMap[h.info] < 0 then Ok(sections)
    else
      match ReadRelocs(data, f.machine, h.off, h.size / 24 % TWO32)
      case Err(e) => Err(e)
      case Ok(rs) => Ok(sections[secMap[h.info] := sections[secMap[h.info]].(relocs := rs)])
  }

  function ScanRelocs(data: seq<Byte>, f: Frame, sc: Scan, n: nat): (r: Result<seq<ElfSection>>)
    requires Framed(data, f) && n <= f.shnum == |sc.secMap| && ScanOk(sc)
    ensures r.Ok? ==> |r.value| == |sc.sections|
  {
    if n == 0 then Ok(sc.sections)
    else
      match ScanRelocs(data, f, sc, n - 1)
      case Err(e) => Err(e)
      case Ok(secs) => AddRelocs(data, f, sc.secMap, secs, n - 1)
  }

  /** The symbol of one table entry; entries with a name outside the string table are skipped. */
  function ReadOneSymbol(data: seq<Byte>, off: nat, strOff: nat, strSize: nat,
      secMap: seq<int>): Result<seq<ElfSymbol>> {
    if off + 16 > |data| then Err(Truncated)
    else
      var s := ReadSym(data, off);
      if s.name >= strSize then Ok([])
      else
        var section := if s.shndx != 0 && s.shndx != 0xFFF2 && s.shndx < |secMap| then secMap[s.shndx] else -1;
        Ok([ElfSymbol(CString(data, strOff + s.name), section, s.value, s.info / 16, s.info % 16, s.shndx == 0xFFF2)])
  }

  /** Entries 1 to `n` of the table. */
  function ReadSymbols(data: seq<Byte>, off: nat, strOff: nat, strSize: nat, secMap: seq<int>,
      n: nat): Result<seq<ElfSymbol>> {
    if n == 0 then Ok([])
    else
      match ReadSymbols(data, off, strOff, strSize, secMap, n - 1)
      case Err(e) => Err(e)
      case Ok(syms) =>
        match ReadOneSymbol(data, off + n * 24, strOff, strSize, secMap)
        case Err(e) => Err(e)
        case Ok(s) => Ok(syms + s)
  }

  /** Symbols of the table at header `at`; 0 means there is none. */
  function SymbolsOf(data: seq<Byte>, f: Frame, secMap: seq<int>, pos: nat): Result<seq<ElfSymbol>>
    requires Framed(data, f) && (pos == 0 || pos < f.shnum)
  {
    if pos == 0 then Ok([])
    else
      var h := HeaderAt(data, f, pos);
      var str := f.shoff + h.link * 64;
      if str + 40 > |data| then Err(Truncated)
      else
        var strOff, strSize := ReadLe(data, str + 24, 8), ReadLe(data, str + 32, 8);
        if strOff + strSize > |data| then Err(Truncated)
        else
          var n := h.size / 24 % TWO32;
          ReadSymbols(data, h.off, strOff, strSize, secMap, if n > 1 then n - 1 else 0)
  }

  /** What reading the file gives. */
  function ReadObject(data: seq<Byte>): Result<Object> {
    match ReadFrame(data)
    case Err(e) => Err(e)
    case Ok(f) =>
      match ScanSections(data, f, f.shnum)
      case Err(e) => Err(e)
      case Ok(sc) =>
        match ScanRelocs(data, f, sc, f.shnum)
        case Err(e) => Err(e)
        case Ok(sections) =>
          match SymbolsOf(data, f, sc.secMap, FindSymtab(data, f, f.shnum))
          case Err(e) => Err(e)
          case Ok(symbols) => Ok(Object(f.machine, sections, symbols))
  }

  // ---------- the passes as loops ----------

  /** The second pass. */
  method ReadSections(data: seq<Byte>, f: Frame) returns (r: Result<Scan>)
    requires Framed(data, f)
    ensures r == ScanSections(data, f, f.shnum)
  {
    hide AddSection, HeaderAt;
    var sc := Scan([], []);
    var i := 0;
    while i < f.shnum
      invariant 0 <= i <= f.shnum && ScanSections(data, f, i) == Ok(sc)
    {
      var next := AddSection(data, f, sc, i);
      if next.Err? {
        SectionErrorStays(data, f, i + 1, f.shnum);
        return next;
      }
      sc := next.value;
      i := i + 1;
    }
    return Ok(sc);
  }

  lemma {:induction false} SectionErrorStays(data: seq<Byte>, f: Frame, n: nat, m: nat)
    requires Framed(data, f) && n <= m <= f.shnum && ScanSections(data, f, n).Err?
    ensures ScanSections(data, f, m) == ScanSections(data, f, n)
  {
    hide AddSection, HeaderAt;
    if n < m { SectionErrorStays(data, f, n, m - 1); }
  }

  method ReadRelocTable(data: seq<Byte>, machine: nat, off: nat, n: nat) returns (r: Result<seq<ElfReloc>>)
    ensures r == ReadRelocs(data, machine, off, n)
  {
    hide ReadOneReloc;
    var rs: seq<ElfReloc> := [];
    var i := 0;
    while i < n
      invariant 0 <= i <= n && ReadRelocs(data, machine, off, i) == Ok(rs)
    {
      var one := ReadOneReloc(data, machine, off + i * 24);
      if one.Err? {
        RelocErrorStays(data, machine, off, i + 1, n);
        return Err(one.error);
      }
      rs := rs + [one.value];
      i := i + 1;
    }
    return Ok(rs);
  }

  lemma {:induction false} RelocErrorStays(data: seq<Byte>, machine: nat, off: nat, n: nat, m: nat)
    requires n <= m && ReadRelocs(data, machine, off, n).Err?
    ensures ReadRelocs(data, machine, off, m) == ReadRelocs(data, machine, off, n)
  {
    hide ReadOneReloc;
    if n < m { RelocErrorStays(data, machine, off, n, m - 1); }
  }

  /** The third pass. */
  method ReadRelocSections(data: seq<Byte>, f: Frame, sc: Scan) returns (r: Result<seq<ElfSection>>)
    requires Framed(data, f) && f.shnum == |sc.secMap| && ScanOk(sc)
    ensures r == ScanRelocs(data, f, sc, f.shnum)
  {
    hide HeaderAt, ReadRelocs;
    var sections := sc.sections;
    var i := 0;
    while i < f.shnum
      invariant 0 <= i <= f.shnum && |sections| == |sc.sections| && ScanRelocs(data, f, sc, i) == Ok(sections)
    {
      var h := HeaderAt(data, f, i);
      if h.ty == 4 && h.info < f.shnum && sc.secMap[h.info] >= 0 {
        var rs := ReadRelocTable(data, f.machine, h.off, h.size / 24 % TWO32);
        if rs.Err? {
          ScanErrorStays(data, f, sc, i + 1, f.shnum);
          return Err(rs.error);
        }
        var target := sc.secMap[h.info];
        sections := sections[target := sections[target].(relocs := rs.value)];
      }
      i := i + 1;
    }
    return Ok(sections);
  }

  lemma {:induction false} ScanErrorStays(data: seq<Byte>, f: Frame, sc: Scan, n: nat, m: nat)
    requires Framed(data, f) && n <= m <= f.shnum == |sc.secMap| && ScanOk(sc) && ScanRelocs(data, f, sc, n).Err?
    ensures ScanRelocs(data, f, sc, m) == ScanRelocs(data, f, sc, n)
  {
    hide AddRelocs, HeaderAt;
    if n < m { ScanErrorStays(data, f, sc, n, m - 1); }
  }

  method ReadSymbolTable(data: seq<Byte>, off: nat, strOff: nat, strSize: nat, secMap: seq<int>, n: nat)
      returns (r: Result<seq<ElfSymbol>>)
    ensures r == ReadSymbols(data, off, strOff, strSize, secMap, n)
  {
    hide ReadOneSymbol;
    var syms: seq<ElfSymbol> := [];
    var i := 1;
    while i <= n
      invariant 1 <= i <= n + 1 && ReadSymbols(data, off, strOff, strSize, secMap, i - 1) == Ok(syms)
    {
      var one := ReadOneSymbol(data, off + i * 24, strOff, strSize, secMap);
      if one.Err? {
        SymbolErrorStays(data, off, strOff, strSize, secMap, i, n);
        return Err(one.error);
      }
      syms := syms + one.value;
      i := i + 1;
    }
    return Ok(syms);
  }

  lemma {:induction false} SymbolErrorStays(data: seq<Byte>, off: nat, strOff: nat, strSize: nat, secMap: seq<int>,
      n: nat, m: nat)
    requires n <= m && ReadSymbols(data, off, strOff, strSize, secMap, n).Err?
    ensures ReadSymbols(data, off, strOff, strSize, secMap, m) == ReadSymbols(data, off, strOff, strSize, secMap, n)
  {
    hide ReadOneSymbol;
    if n < m { SymbolErrorStays(data, off, strOff, strSize, secMap, n, m - 1); }
  }

  method FindSymbolTable(data: seq<Byte>, f: Frame) returns (r: nat)
    requires Framed(data, f)
    ensures r == FindSymtab(data, f, f.shnum)
  {
    hide HeaderAt;
    r := 0;
    var i := 0;
    while i < f.shnum
      invariant 0 <= i <= f.shnum && r == FindSymtab(data, f, i)
    {
      if HeaderAt(data, f, i).ty == 2 { r := i; }
      i := i + 1;
    }
  }

  method Read(data: seq<Byte>) returns (r: Result<Object>)
    ensures r == ReadObject(data)
  {
    hide ReadFrame, ScanSections, ScanRelocs, ReadSymbols, FindSymtab, HeaderAt, ReadLe;
    var frame := ReadFrame(data);
    if frame.Err? { return Err(frame.error); }
    var f := frame.value;
    var symtab := FindSymbolTable(data, f);
    var scan := ReadSections(data, f);
    if scan.Err? { return Err(scan.error); }
    var sections := ReadRelocSections(data, f, scan.value);
    if sections.Err? { return Err(sections.error); }
    if symtab == 0 { return Ok(Object(f.machine, sections.value, [])); }
    var h := HeaderAt(data, f, symtab);
    var str := f.shoff + h.link * 64;
    if str + 40 > |data| { return Err(Truncated); }
    var strOff, strSize := ReadLe(data, str + 24, 8), ReadLe(data, str + 32, 8);
    if strOff + strSize > |data| { return Err(Truncated); }
    var n := h.size / 24 % TWO32;
    var symbols := ReadSymbolTable(data, h.off, strOff, strSize, scan.value.secMap, if n > 1 then n - 1 else 0);
    if symbols.Err? { return Err(symbols.error); }
    return Ok(Object(f.machine, sections.value, symbols.value));
  }
}
