/** The records and tables of an ELF64 file (chapters 4 and 5 of the System V gABI), as the
    object writer and the linker emit them (src/elf_obj.c, src/elf_link.c). */
module ElfTables {
  import opened Bits
  import opened Leb128
  import opened Slices
  import opened ElfBytes

  datatype Option<T> = None | Some(value: T)

  // ---------- string tables ----------

  /** These characters, one byte each. */
  predicate Spells(bytes: seq<Byte>, s: string) {
    |bytes| == |s| && forall k :: 0 <= k < |s| ==> bytes[k] == s[k] as int % 256
  }

  /** A leading NUL, then each name with its NUL. */
  function StrTab(names: seq<seq<Byte>>): (r: seq<Byte>)
    ensures r != []
  {
    if names == [] then [0] else StrTab(names[..|names| - 1]) + names[|names| - 1] + [0]
  }

  /** Where name `k` starts: the table's length before it was added. */
  function NameOff(names: seq<seq<Byte>>, k: nat): (r: nat)
    requires k < |names|
    ensures r > 0
  {
    |StrTab(names[..k])|
  }

  predicate NulFree(s: seq<Byte>) { 0 !in s }

  /** The bytes up to the next NUL, or the end of the data. */
  function CString(data: seq<Byte>, off: nat): seq<Byte>
    decreases |data| - off
  {
    if off >= |data| || data[off] == 0 then [] else [data[off]] + CString(data, off + 1)
  }

  lemma {:induction false} NameAt(out: seq<Byte>, off: nat, names: seq<seq<Byte>>, k: nat)
    requires k < |names| && At(out, off, StrTab(names))
    ensures NameOff(names, k) + |names[k]| < |StrTab(names)|
    ensures At(out, off + NameOff(names, k), names[k] + [0])
  {
    var last := |names| - 1;
    var front := StrTab(names[..last]);
    assert StrTab(names) == front + (names[last] + [0]);
    AtConcat(out, off, front, names[last] + [0]);
    if k < last {
      assert names[..last][..k] == names[..k];
      NameAt(out, off, names[..last], k);
    }
  }

  lemma {:induction false} CStringIs(data: seq<Byte>, off: nat, name: seq<Byte>)
    requires NulFree(name) && At(data, off, name + [0])
    ensures CString(data, off) == name
    decreases |name|
  {
    var s := data[off..off + |name| + 1];
    assert data[off] == s[0];
    if name != [] {
      assert s[0] == name[0];
      AtConcat(data, off, [name[0]], name[1..] + [0]) by { assert [name[0]] + (name[1..] + [0]) == name + [0]; }
      CStringIs(data, off + 1, name[1..]);
    } else {
      assert s[0] == 0;
    }
  }

  /** A name read back from a table in the file. */
  lemma NameReads(data: seq<Byte>, off: nat, names: seq<seq<Byte>>, k: nat)
    requires k < |names| && At(data, off, StrTab(names)) && NulFree(names[k])
    ensures NameOff(names, k) < |StrTab(names)| && CString(data, off + NameOff(names, k)) == names[k]
  {
    NameAt(data, off, names, k);
    CStringIs(data, off + NameOff(names, k), names[k]);
  }

  // ---------- tables of fixed-size rows ----------

  function Table(rows: seq<seq<Field>>): seq<Byte> {
    if rows == [] then [] else Table(rows[..|rows| - 1]) + Pack(rows[|rows| - 1])
  }

  predicate Rows(rows: seq<seq<Field>>, w: nat) { forall k :: 0 <= k < |rows| ==> |Pack(rows[k])| == w }

  lemma {:induction false} TableLength(rows: seq<seq<Field>>, w: nat)
    requires Rows(rows, w)
    ensures |Table(rows)| == |rows| * w
  {
    hide Pack;
    if rows != [] {
      var n := |rows| - 1;
      TableLength(rows[..n], w);
      assert |Pack(rows[n])| == w;
      TimesNext(n, w);
    }
  }

  lemma TimesNext(n: nat, w: nat)
    ensures n * w + w == (n + 1) * w
  {
  }

  lemma {:induction false} RowAt(out: seq<Byte>, off: nat, rows: seq<seq<Field>>, w: nat, k: nat)
    requires k < |rows| && Rows(rows, w) && At(out, off, Table(rows))
    ensures At(out, off + k * w, Pack(rows[k]))
  {
    var last := |rows| - 1;
    AtConcat(out, off, Table(rows[..last]), Pack(rows[last]));
    TableLength(rows[..last], w);
    if k < last { RowAt(out, off, rows[..last], w, k); }
  }

  // ---------- section headers ----------

  datatype Shdr = Shdr(name: nat, ty: nat, flags: nat, off: nat, size: nat, link: nat, info: nat, align: nat,
    entsize: nat)

  function ShdrFields(h: Shdr): seq<Field> {
    [Field(4, h.name), Field(4, h.ty), Field(8, h.flags), Field(8, 0), Field(8, h.off), Field(8, h.size),
     Field(4, h.link), Field(4, h.info), Field(8, h.align), Field(8, h.entsize)]
  }

  predicate ShdrFits(h: Shdr) {
    h.name < TWO32 && h.ty < TWO32 && h.flags < TWO64 && h.off < TWO64 && h.size < TWO64 &&
    h.link < TWO32 && h.info < TWO32 && h.align < TWO64 && h.entsize < TWO64
  }

  function ReadShdr(data: seq<Byte>, sh: nat): Shdr
    requires sh + 64 <= |data|
  {
    Shdr(ReadLe(data, sh, 4), ReadLe(data, sh + 4, 4), ReadLe(data, sh + 8, 8), ReadLe(data, sh + 24, 8),
      ReadLe(data, sh + 32, 8),
         ReadLe(data, sh + 40, 4), ReadLe(data, sh + 44, 4), ReadLe(data, sh + 48, 8), ReadLe(data, sh + 56, 8))
  }

  lemma ShdrOffsets(h: Shdr)
    ensures var fs := ShdrFields(h);
      Before(fs, 1) == 4 && Before(fs, 2) == 8 && Before(fs, 3) == 16 && Before(fs, 4) == 24 && Before(fs, 5) == 32 &&
      Before(fs, 6) == 40 && Before(fs, 7) == 44 && Before(fs, 8) == 48 && Before(fs, 9) == 56 && |Pack(fs)| == 64
  {
    var fs := ShdrFields(h);
    PackLength(fs);
    assert Before(fs, 2) == Before(fs, 1) + 4;
    assert Before(fs, 4) == Before(fs, 3) + 8;
    assert Before(fs, 6) == Before(fs, 5) + 8;
    assert Before(fs, 8) == Before(fs, 7) + 4;
    assert Before(fs, 10) == Before(fs, 9) + 8;
  }

  lemma ShdrReads(data: seq<Byte>, sh: nat, h: Shdr)
    requires ShdrFits(h) && At(data, sh, Pack(ShdrFields(h)))
    ensures sh + 64 <= |data| && ReadShdr(data, sh) == h && ReadLe(data, sh + 16, 8) == 0
  {
    var fs := ShdrFields(h);
    Pow256Is();
    ShdrOffsets(h);
    hide Pack, Before, Le, FromLe, Pow256;
    FieldReads(data, sh, fs, 0);
    FieldReads(data, sh, fs, 1);
    FieldReads(data, sh, fs, 2);
    FieldReads(data, sh, fs, 3);
    FieldReads(data, sh, fs, 4);
    FieldReads(data, sh, fs, 5);
    FieldReads(data, sh, fs, 6);
    FieldReads(data, sh, fs, 7);
    FieldReads(data, sh, fs, 8);
    FieldReads(data, sh, fs, 9);
    BeforeZero(fs);
  }

  lemma BeforeZero(fs: seq<Field>)
    ensures Before(fs, 0) == 0
  {
  }

  // ---------- symbols ----------

  datatype Sym = Sym(name: nat, info: nat, shndx: nat, value: nat)

  function SymFields(s: Sym): seq<Field> {
    [Field(4, s.name), Field(1, s.info), Field(1, 0), Field(2, s.shndx), Field(8, s.value), Field(8, 0)]
  }

  predicate SymFits(s: Sym) { s.name < TWO32 && s.info < 256 && s.shndx < 0x1_0000 && s.value < TWO64 }

  function ReadSym(data: seq<Byte>, off: nat): Sym
    requires off + 16 <= |data|
  {
    Sym(ReadLe(data, off, 4), ReadLe(data, off + 4, 1), ReadLe(data, off + 6, 2), ReadLe(data, off + 8, 8))
  }

  lemma SymOffsets(s: Sym)
    ensures var fs := SymFields(s);
      Before(fs, 1) == 4 && Before(fs, 2) == 5 && Before(fs, 3) == 6 && Before(fs, 4) == 8 && Before(fs, 5) == 16 &&
      |Pack(fs)| == 24
  {
    var fs := SymFields(s);
    PackLength(fs);
    assert Before(fs, 2) == Before(fs, 1) + 1;
    assert Before(fs, 4) == Before(fs, 3) + 2;
    assert Before(fs, 6) == Before(fs, 5) + 8;
  }

  lemma SymReads(data: seq<Byte>, off: nat, s: Sym)
    requires SymFits(s) && At(data, off, Pack(SymFields(s)))
    ensures off + 24 <= |data| && ReadSym(data, off) == s
    ensures ReadLe(data, off + 5, 1) == 0 && ReadLe(data, off + 16, 8) == 0
  {
    var fs := SymFields(s);
    Pow256Is();
    SymOffsets(s);
    hide Pack, Before, Le, FromLe, Pow256;
    BeforeZero(fs);
    FieldReads(data, off, fs, 0);
    FieldReads(data, off, fs, 1);
    FieldReads(data, off, fs, 2);
    FieldReads(data, off, fs, 3);
    FieldReads(data, off, fs, 4);
    FieldReads(data, off, fs, 5);
  }

  // ---------- relocations ----------

  datatype Rela = Rela(offset: nat, sym: nat, ty: nat, addend: int)

  function RelaFields(r: Rela): seq<Field> {
    [Field(8, r.offset), Field(8, r.sym * TWO32 + r.ty), Field(8, r.addend % TWO64)]
  }

  predicate RelaFits(r: Rela) { r.offset < TWO64 && r.sym < TWO32 && r.ty < TWO32 && -TWO63 <= r.addend < TWO63 }

  function ReadRela(data: seq<Byte>, off: nat): Rela
    requires off + 24 <= |data|
  {
    var info := ReadLe(data, off + 8, 8);
    Rela(ReadLe(data, off, 8), info / TWO32, info % TWO32, Wrap64(ReadLe(data, off + 16, 8)))
  }

  lemma RelaOffsets(r: Rela)
    ensures var fs := RelaFields(r); Before(fs, 1) == 8 && Before(fs, 2) == 16 && |Pack(fs)| == 24
  {
    var fs := RelaFields(r);
    PackLength(fs);
    assert Before(fs, 2) == Before(fs, 1) + 8;
  }

  lemma WrapMod(x: int)
    requires -TWO63 <= x < TWO63
    ensures Wrap64(x % TWO64) == x
  {
    ModUnique(x, TWO64, if x < 0 then -1 else 0, if x < 0 then x + TWO64 else x);
    ModUnique(x % TWO64 + TWO63, TWO64, if x < 0 then 1 else 0, x + TWO63);
  }

  lemma RelaReads(data: seq<Byte>, off: nat, r: Rela)
    requires RelaFits(r) && At(data, off, Pack(RelaFields(r)))
    ensures off + 24 <= |data| && ReadRela(data, off) == r
  {
    var fs := RelaFields(r);
    Pow256Is();
    RelaOffsets(r);
    WrapMod(r.addend);
    ModUnique(r.sym * TWO32 + r.ty, TWO32, r.sym, r.ty);
    assert r.sym * TWO32 + r.ty < TWO64;
    hide Pack, Before, Le, FromLe, Pow256, Wrap64;
    BeforeZero(fs);
    FieldReads(data, off, fs, 0);
    FieldReads(data, off, fs, 1);
    FieldReads(data, off, fs, 2);
  }

  // ---------- the file header ----------

  datatype Ehdr = Ehdr(ty: nat, machine: nat, entry: nat, phoff: nat, shoff: nat, phentsize: nat, phnum: nat,
    shnum: nat, shstrndx: nat)

  /** Magic, 64-bit, little-endian, version 1, padding. */
  const Ident: seq<Byte> := [127, 69, 76, 70, 2, 1, 1, 0, 0, 0, 0, 0, 0, 0, 0, 0]

  function EhdrFields(h: Ehdr): seq<Field> {
    [Field(2, h.ty), Field(2, h.machine), Field(4, 1), Field(8, h.entry), Field(8, h.phoff), Field(8, h.shoff),
      Field(4, 0),
     Field(2, 64), Field(2, h.phentsize), Field(2, h.phnum), Field(2, 64), Field(2, h.shnum), Field(2, h.shstrndx)]
  }

  function EhdrBytes(h: Ehdr): seq<Byte> { Ident + Pack(EhdrFields(h)) }

  predicate EhdrFits(h: Ehdr) {
    h.ty < 0x1_0000 && h.machine < 0x1_0000 && h.entry < TWO64 && h.phoff < TWO64 && h.shoff < TWO64 &&
    h.phentsize < 0x1_0000 && h.phnum < 0x1_0000 && h.shnum < 0x1_0000 && h.shstrndx < 0x1_0000
  }

  function ReadEhdr(data: seq<Byte>): Ehdr
    requires |data| >= 64
  {
    Ehdr(ReadLe(data, 16, 2), ReadLe(data, 18, 2), ReadLe(data, 24, 8), ReadLe(data, 32, 8), ReadLe(data, 40, 8),
         ReadLe(data, 54, 2), ReadLe(data, 56, 2), ReadLe(data, 60, 2), ReadLe(data, 62, 2))
  }

  lemma EhdrOffsets(h: Ehdr)
    ensures var fs := EhdrFields(h);
      Before(fs, 1) == 2 && Before(fs, 3) == 8 && Before(fs, 4) == 16 && Before(fs, 5) == 24 && Before(fs, 8) == 38 &&
      Before(fs, 9) == 40 &&
      Before(fs, 10) == 42 && Before(fs, 11) == 44 && Before(fs, 12) == 46 && |EhdrBytes(h)| == 64
  {
    var fs := EhdrFields(h);
    PackLength(fs);
    assert Before(fs, 2) == Before(fs, 1) + 2;
    assert Before(fs, 4) == Before(fs, 3) + 8;
    assert Before(fs, 6) == Before(fs, 5) + 8;
    assert Before(fs, 8) == Before(fs, 7) + 2;
    assert Before(fs, 10) == Before(fs, 9) + 2;
    assert Before(fs, 12) == Before(fs, 11) + 2;
    assert Before(fs, 13) == Before(fs, 12) + 2;
  }

  lemma EhdrReads(data: seq<Byte>, h: Ehdr)
    requires EhdrFits(h) && At(data, 0, EhdrBytes(h))
    ensures |data| >= 64 && data[..16] == Ident && ReadEhdr(data) == h && ReadLe(data, 58, 2) == 64
  {
    var fs := EhdrFields(h);
    Pow256Is();
    EhdrOffsets(h);
    AtConcat(data, 0, Ident, Pack(fs));
    hide Pack, Before, Le, FromLe, Pow256;
    BeforeZero(fs);
    FieldReads(data, 16, fs, 0);
    FieldReads(data, 16, fs, 1);
    FieldReads(data, 16, fs, 3);
    FieldReads(data, 16, fs, 4);
    FieldReads(data, 16, fs, 5);
    FieldReads(data, 16, fs, 8);
    FieldReads(data, 16, fs, 9);
    FieldReads(data, 16, fs, 10);
    FieldReads(data, 16, fs, 11);
    FieldReads(data, 16, fs, 12);
  }
}
