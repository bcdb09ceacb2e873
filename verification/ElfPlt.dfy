/** The procedure linkage table: on every machine a stub jumps to the address in its
    external's slot (src/elf_link.c, the .plt part and the patches at the end; Intel SDM
    volume 2, JMP; Arm Architecture Reference Manual for A-profile, section C6.2). */
module ElfPlt {
  import opened Bits
  import opened Leb128
  import opened Slices
  import ElfBytes
  import opened ElfTables
  import opened ElfLink
  import opened ElfImage
  import opened ElfLoader
  import Riscv
  import RiscvFixups
  import RiscvRun

  // ---------- the table in the file ----------

  lemma {:induction false} StubPlaced(machine: nat, l: Layout, n: nat, i: nat)
    requires i < n
    ensures At(Stubs(machine, l, n), 16 * i, Stub(machine, l, i))
  {
    hide Stub;
    if i < n - 1 {
      StubPlaced(machine, l, n - 1, i);
      AtFront(Stubs(machine, l, n - 1), Stub(machine, l, n - 1), 16 * i, Stub(machine, l, i));
    } else {
      AtEnd(Stubs(machine, l, n - 1), Stub(machine, l, n - 1));
    }
  }

  lemma PltPlaced(j: Job)
    requires Linkable(j.objs)
    ensures At(Linked(j), LayoutOf(j).plt, Stubs(j.machine, LayoutOf(j), |Ext(j)|))
  {
    hide Linked, LayoutOf, Ext, Linkable, All, Stubs, Table, StrTab;
    LayoutIsEmission(j, 2);
  }

  /** The bytes of stub `i` in the file, and where it is loaded. */
  lemma StubInFile(j: Job, i: nat)
    requires Fits(j) && i < |Ext(j)|
    ensures var p := LayoutOf(j).plt + 16 * i;
      p + 16 <= |Linked(j)| && Linked(j)[p..p + 16] == Stub(j.machine, LayoutOf(j), i)
  {
    hide Linked, LayoutOf, Ext, Stub, Stubs;
    FitsLinkable(j);
    PltPlaced(j);
    StubPlaced(j.machine, LayoutOf(j), |Ext(j)|, i);
    WithinPart(Linked(j), LayoutOf(j).plt, Stubs(j.machine, LayoutOf(j), |Ext(j)|), 16 * i,
      Stub(j.machine, LayoutOf(j), i));
  }

  lemma WithinPart(out: seq<Byte>, off: nat, part: seq<Byte>, base: nat, inner: seq<Byte>)
    requires At(out, off, part) && At(part, base, inner)
    ensures At(out, off + base, inner)
  {
    forall k | 0 <= k < |inner| ensures out[off + base + k] == inner[k] { AtWithin(out, off, part, base, inner, k); }
  }

  // ---------- x86-64 ----------

  /** The signed value of four bytes. */
  function Signed32(n: nat): int { if n >= 0x8000_0000 then n - TWO32 else n }

  /** The slot that `jmp *disp(%rip)` at `pc` reads. */
  function JumpSlotOf(code: seq<Byte>, pc: nat): Option<int>
    requires |code| >= 6
  {
    if code[0] == 0xFF && code[1] == 0x25 then Some((pc + 6 + Signed32(ElfBytes.ReadLe(code, 2, 4))) % TWO64) else None
  }

  predicate Near(d: int) { -0x8000_0000 <= Wrap64(d) < 0x8000_0000 }

  /** The stub at offset `p` jumps through slot `i` exactly when the slot is less than 2 GiB
      away, addresses going round at 2^64. */
  predicate JumpsThrough(out: seq<Byte>, p: nat, i: nat) {
    p + 16 <= |out| && HeadersIn(out) && Where(out, TEXT_VM + p, 0) == Some(p) &&
    match DynamicEntry(out, 3)
    case None => false
    case Some(got) =>
      JumpSlotOf(out[p..p + 16], TEXT_VM + p) == Some(got + 8 * i) <==> Near(got + 8 * i - (TEXT_VM + p + 6))
  }

  /** On x86-64 stub `i` jumps through slot `i` of the table the loader fills, if that is in
      reach. */
  lemma X86StubJumps(j: Job, i: nat)
    requires Fits(j) && i < |Ext(j)| && j.machine == 62
    ensures JumpsThrough(Linked(j), LayoutOf(j).plt + 16 * i, i)
  {
    hide Linked, LayoutOf, Ext, Fits, HeadersIn, DynamicEntry, Where, DataVm, FileOff;
    StubInFile(j, i);
    var p := LayoutOf(j).plt + 16 * i;
    WhereIs(j, p);
    LoaderTold(j);
    GotAt(j);
    SlotAfter(j, i);
    var slot := DataVm(LayoutOf(j)) + LayoutOf(j).got + 8 * i;
    X86Bytes(LayoutOf(j), i);
    X86Reads(slot, TEXT_VM + p);
  }

  lemma SlotAfter(j: Job, i: nat)
    requires Fits(j) && i < |Ext(j)|
    ensures var l := LayoutOf(j);
      TEXT_VM + l.plt + 16 * i + 16 <= DataVm(l) + l.got + 8 * i < TWO64 - 8
  {
    hide Ext, Linked, LayoutOf, Linkable, DataVm, Total, StrTab;
    LayoutFacts(j);
  }

  lemma X86Bytes(l: Layout, i: nat)
    ensures var s := Stub(62, l, i);
      s[0] == 0xFF && s[1] == 0x25 &&
      ElfBytes.ReadLe(s, 2, 4) == (DataVm(l) + l.got + 8 * i - (TEXT_VM + l.plt + 16 * i + 6)) % TWO32
  {
    hide DataVm;
    var rip := (DataVm(l) + l.got + 8 * i - (TEXT_VM + l.plt + 16 * i + 6)) % TWO32;
    var s := Stub(62, l, i);
    assert s[2..6] == ElfBytes.Le(rip, 4);
    ElfBytes.LeRoundTrip(rip, 4);
    ElfBytes.Pow256Is();
    hide ElfBytes.Le, ElfBytes.Pow256, ElfBytes.FromLe, Stub;
    ModTwice(rip);
  }

  lemma ModTwice(x: nat)
    requires x < TWO32
    ensures x % TWO32 == x
  {
  }

  lemma X86Reads(slot: nat, pc: nat)
    requires pc + 6 <= slot < TWO64
    ensures (pc + 6 + Signed32((slot - (pc + 6)) % TWO32)) % TWO64 == slot <==> Near(slot - (pc + 6))
  {
    var d := slot - (pc + 6);
    var q := d / TWO32;
    assert d == q * TWO32 + d % TWO32;
    var k := if d % TWO32 >= 0x8000_0000 then q + 1 else q;
    assert pc + 6 + Signed32(d % TWO32) == slot - k * TWO32;
    assert 0 <= k <= TWO32;
    SlotMinus(slot, k);
    NearIs(d);
  }

  lemma NearIs(d: nat)
    requires d < TWO64
    ensures Near(d) <==> d < 0x8000_0000 || TWO64 - 0x8000_0000 <= d
  {
    ModUnique(d + TWO63, TWO64, if d < TWO63 then 0 else 1, if d < TWO63 then d + TWO63 else d - TWO63);
  }

  lemma SlotMinus(slot: nat, k: nat)
    requires slot < TWO64 && k <= TWO32 && slot - k * TWO32 >= -0x8000_0000
    ensures (slot - k * TWO32) % TWO64 == slot <==> k == 0 || k == TWO32
  {
    var x := slot - k * TWO32;
    ModUnique(x, TWO64, if x < 0 then -1 else 0, if x < 0 then x + TWO64 else x);
  }

  // ---------- RISC-V ----------

  /** The stubs in the file are what the linker's patches expect. */
  lemma RiscvTemplate(j: Job, i: nat)
    requires Fits(j) && i < |Ext(j)| && j.machine == 243
    ensures var p := LayoutOf(j).plt;
      p + 16 * |Ext(j)| <= |Linked(j)| && RiscvRun.Template(Linked(j)[p..p + 16 * |Ext(j)|], i)
  {
    hide Linked, LayoutOf, Ext, Stub;
    FitsLinkable(j);
    PltPlaced(j);
    StubPlaced(243, LayoutOf(j), |Ext(j)|, i);
    var plt := Stubs(243, LayoutOf(j), |Ext(j)|);
    RiscvWords(LayoutOf(j), i);
    hide Stubs;
    assert plt[16 * i..16 * i + 16] == Stub(243, LayoutOf(j), i);
    assert forall k :: 0 <= k < 16 ==> plt[16 * i + k] == Stub(243, LayoutOf(j), i)[k];
  }

  lemma RiscvWords(l: Layout, i: nat)
    ensures RiscvFixups.WordAt(Stub(243, l, i), 8) == 0x28067 && RiscvFixups.WordAt(Stub(243, l, i), 12) == 0x13
  {
    FourBytes(0x297);
    FourBytes(0x2b283);
    FourBytes(0x28067);
    FourBytes(0x13);
    hide ElfBytes.Le;
  }

  lemma FourBytes(v: nat)
    ensures ElfBytes.Le(v, 4) == [v % 256, v / 256 % 256, v / 256 / 256 % 256, v / 256 / 256 / 256 % 256]
  {
    assert ElfBytes.Le(v / 256, 3) == [v / 256 % 256] + ElfBytes.Le(v / 256 / 256, 2);
    assert ElfBytes.Le(v / 256 / 256, 2) == [v / 256 / 256 % 256] + ElfBytes.Le(v / 256 / 256 / 256, 1);
  }

  // ---------- AArch64 ----------

  const PAGE_SIZE := 0x1000

  /** The four words a stub is patched to: `adrp x16`, `ldr x17, [x16, #lo12]`,
      `add x16, x16, #lo12`, `br x17`. */
  function A64Words(plt: nat, got: nat, i: nat): (r: seq<int>)
    ensures |r| == 4
  {
    var slot := got + 8 * i;
    var pages := slot / PAGE_SIZE - (plt + 16 * i) / PAGE_SIZE;
    var lo12 := slot % PAGE_SIZE;
    [0x9000_0010 + pages % 4 * 0x2000_0000 + pages / 4 % 0x8_0000 * 32, 0xF940_0211 + lo12 / 8 * 1024,
     0x9100_0210 + lo12 * 1024, 0xD61F_0220]
  }

  /** `used` is the last address loaded from. */
  datatype A64 = A64(pc: int, x: seq<int>, used: int) | Undefined

  /** `adrp`, `ldr` of 64 bits and `add` with unsigned immediates, and `br`; register 31 is
      not used. */
  function A64Step(w: int, s: A64, mem: int -> int): (r: A64)
    requires s.A64? && |s.x| == 32
    ensures r.A64? ==> |r.x| == 32
  {
    var rd, rn := Riscv.Field(w, 1, 32), Riscv.Field(w, 32, 32);
    var next := (s.pc + 4) % TWO64;
    if Riscv.Field(w, 0x8000_0000, 2) == 1 && Riscv.Field(w, 0x100_0000, 32) == 16 then
      var imm := Riscv.SignExtend(Riscv.Field(w, 32, 0x8_0000) * 4 + Riscv.Field(w, 0x2000_0000, 4), 0x10_0000);
      A64(next, s.x[rd := (s.pc - s.pc % PAGE_SIZE + imm * PAGE_SIZE) % TWO64], s.used)
    else if Riscv.Field(w, 0x40_0000, 1024) == 0x3E5 then
      var a := (s.x[rn] + Riscv.Field(w, 1024, 4096) * 8) % TWO64;
      A64(next, s.x[rd := mem(a)], a)
    else if Riscv.Field(w, 0x40_0000, 1024) == 0x244 then
      A64(next, s.x[rd := (s.x[rn] + Riscv.Field(w, 1024, 4096)) % TWO64], s.used)
    else if Riscv.Field(w, 1024, 0x40_0000) == 0x35_87C0 && rd == 0 then A64(s.x[rn] % TWO64, s.x, s.used)
    else Undefined
  }

  lemma AdrpFields(imm: int)
    ensures var w := 0x9000_0010 + imm % 4 * 0x2000_0000 + imm / 4 % 0x8_0000 * 32;
      Riscv.Field(w, 0x8000_0000, 2) == 1 && Riscv.Field(w, 0x100_0000, 32) == 16 && Riscv.Field(w, 1, 32) == 16 &&
      Riscv.Field(w, 32, 0x8_0000) == imm / 4 % 0x8_0000 && Riscv.Field(w, 0x2000_0000, 4) == imm % 4
  {
    var lo, hi := imm % 4, imm / 4 % 0x8_0000;
    var w := 0x9000_0010 + lo * 0x2000_0000 + hi * 32;
    hide Riscv.Field;
    Riscv.Unpack(w, 0, 1, 16, 32, 0x480_0000 + lo * 0x100_0000 + hi);
    Riscv.Unpack(w, 16, 32, hi, 0x8_0000, 0x90 + lo * 32);
    Riscv.Unpack(w, hi * 32 + 16, 0x100_0000, 16, 32, 4 + lo);
    Riscv.Unpack(w, 0x1000_0010 + hi * 32, 0x2000_0000, lo, 4, 1);
    Riscv.Unpack(w, lo * 0x2000_0000 + 0x1000_0010 + hi * 32, 0x8000_0000, 1, 2, 0);
  }

  /** The page displacement as the instruction holds it: 21 bits, signed. */
  function Held(pages: int): int { Riscv.SignExtend(pages / 4 % 0x8_0000 * 4 + pages % 4, 0x10_0000) }

  lemma PagesHeld(pages: int) returns (k: int)
    requires -0x8_0000_0000_0000 < pages < 0x8_0000_0000_0000
    ensures Held(pages) == pages - k * 0x20_0000 && -0x4000_0001 < k < 0x4000_0001
    ensures k == 0 <==> -0x10_0000 <= pages < 0x10_0000
  {
    var q, r := pages / 0x20_0000, pages % 0x20_0000;
    assert pages == q * 0x20_0000 + r;
    ModUnique(pages, 4, q * 0x8_0000 + r / 4, r % 4) by { assert r == r / 4 * 4 + r % 4; }
    ModUnique(q * 0x8_0000 + r / 4, 0x8_0000, q, r / 4);
    k := if r >= 0x10_0000 then q + 1 else q;
  }

  lemma LdrAddFields(lo12: nat)
    requires lo12 < 4096
    ensures var w := 0xF940_0211 + lo12 / 8 * 1024;
      Riscv.Field(w, 0x8000_0000, 2) == 1 && Riscv.Field(w, 0x100_0000, 32) == 25 &&
      Riscv.Field(w, 0x40_0000, 1024) == 0x3E5 && Riscv.Field(w, 1, 32) == 17 && Riscv.Field(w, 32, 32) == 16 &&
      Riscv.Field(w, 1024, 4096) == lo12 / 8
    ensures var w := 0x9100_0210 + lo12 * 1024;
      Riscv.Field(w, 0x8000_0000, 2) == 1 && Riscv.Field(w, 0x100_0000, 32) == 17 &&
      Riscv.Field(w, 0x40_0000, 1024) == 0x244 && Riscv.Field(w, 1, 32) == 16 && Riscv.Field(w, 32, 32) == 16 &&
      Riscv.Field(w, 1024, 4096) == lo12
  {
    ImmediateFields(0x3E5, lo12 / 8, 17);
    ImmediateFields(0x244, lo12, 16);
  }

  /** An instruction of ten opcode bits, a 12-bit immediate and two registers, the first x16. */
  lemma ImmediateFields(op: nat, imm: nat, rd: nat)
    requires 0x200 <= op < 0x400 && imm < 4096 && rd < 32
    ensures var w := op * 0x40_0000 + imm * 1024 + 16 * 32 + rd;
      Riscv.Field(w, 0x8000_0000, 2) == 1 && Riscv.Field(w, 0x100_0000, 32) == op / 4 % 32 &&
      Riscv.Field(w, 0x40_0000, 1024) == op && Riscv.Field(w, 1, 32) == rd && Riscv.Field(w, 32, 32) == 16 &&
      Riscv.Field(w, 1024, 4096) == imm
  {
    hide Riscv.Field;
    var w := op * 0x40_0000 + imm * 1024 + 16 * 32 + rd;
    Riscv.Unpack(w, 0, 1, rd, 32, op * 0x2_0000 + imm * 32 + 16);
    Riscv.Unpack(w, rd, 32, 16, 32, op * 4096 + imm);
    Riscv.Unpack(w, 16 * 32 + rd, 1024, imm, 4096, op);
    OpcodeFields(op, imm * 1024 + 16 * 32 + rd);
  }

  lemma OpcodeFields(op: nat, low: nat)
    requires 0x200 <= op < 0x400 && low < 0x40_0000
    ensures var w := op * 0x40_0000 + low;
      Riscv.Field(w, 0x8000_0000, 2) == 1 && Riscv.Field(w, 0x100_0000, 32) == op / 4 % 32 &&
      Riscv.Field(w, 0x40_0000, 1024) == op
  {
    hide Riscv.Field;
    var w := op * 0x40_0000 + low;
    Riscv.Unpack(w, low, 0x40_0000, op, 1024, 0);
    assert op == op / 4 * 4 + op % 4 && op / 4 == op / 4 / 32 * 32 + op / 4 % 32;
    Riscv.Unpack(w, op % 4 * 0x40_0000 + low, 0x100_0000, op / 4 % 32, 32, op / 128);
    Riscv.Unpack(w, op % 0x200 * 0x40_0000 + low, 0x8000_0000, 1, 2, 0);
  }

  lemma BrFields()
    ensures var w := 0xD61F_0220;
      Riscv.Field(w, 0x8000_0000, 2) == 1 && Riscv.Field(w, 0x100_0000, 32) == 22 &&
      Riscv.Field(w, 0x40_0000, 1024) == 0x358 && Riscv.Field(w, 1024, 0x40_0000) == 0x35_87C0 &&
      Riscv.Field(w, 1, 32) == 0 && Riscv.Field(w, 32, 32) == 17
  {
  }

  /** The page of the slot, up to a multiple of 2^33, then the slot in it. */
  lemma SlotFromPages(pc: nat, slot: nat, k: int)
    requires pc < TWO63 && slot < TWO63 && slot % 8 == 0
    requires var pages := slot / PAGE_SIZE - pc / PAGE_SIZE;
      Held(pages) == pages - k * 0x20_0000 && -0x4000_0001 < k < 0x4000_0001
    ensures var page := (pc - pc % PAGE_SIZE + Held(slot / PAGE_SIZE - pc / PAGE_SIZE) * PAGE_SIZE) % TWO64;
      (page + slot % PAGE_SIZE / 8 * 8) % TWO64 == slot <==> k == 0
  {
    hide Held;
    assert pc == pc / PAGE_SIZE * PAGE_SIZE + pc % PAGE_SIZE;
    assert slot == slot / PAGE_SIZE * PAGE_SIZE + slot % PAGE_SIZE;
    assert slot % PAGE_SIZE % 8 == 0;
    var lo12 := slot % PAGE_SIZE;
    assert lo12 / 8 * 8 == lo12;
    var x := slot - lo12 - k * 0x2_0000_0000;
    assert pc - pc % PAGE_SIZE + Held(slot / PAGE_SIZE - pc / PAGE_SIZE) * PAGE_SIZE == x;
    assert x == x / TWO64 * TWO64 + x % TWO64;
    ModUnique(x + lo12, TWO64, (x % TWO64 + lo12) / TWO64 + x / TWO64, (x % TWO64 + lo12) % TWO64);
    if k != 0 && (x + lo12) % TWO64 == slot {
      var m := (x + lo12) / TWO64;
      assert x + lo12 == m * TWO64 + slot;
      assert -k * 0x2_0000_0000 == m * TWO64;
      assert -k == m * 0x8000_0000;
      SmallMultiple(m, 0x8000_0000);
    }
    if k == 0 { ModUnique(slot, TWO64, 0, slot); }
  }

  /** On AArch64 a patched stub goes where slot `i` says, changing only x16 and x17, exactly
      when the slot's page is less than 2^20 pages away. */
  lemma A64StubRuns(plt: nat, got: nat, i: nat, code: int -> int, mem: int -> int, s: A64)
    requires s.A64? && |s.x| == 32 && s.pc == plt + 16 * i && got % 8 == 0
    requires plt + 16 * i + 16 < TWO63 && got + 8 * i < TWO63
    requires forall n :: 0 <= n < 4 ==> code(plt + 16 * i + 4 * n) == A64Words(plt, got, i)[n]
    ensures var r := A64Run(4, code, s, mem);
      r.A64? && |r.x| == 32 && (forall q :: 0 <= q < 32 && q != 16 && q != 17 ==> r.x[q] == s.x[q]) &&
      r.pc == mem(r.used) % TWO64 &&
      (r.used == got + 8 * i <==> -0x10_0000 <= (got + 8 * i) / PAGE_SIZE - s.pc / PAGE_SIZE < 0x10_0000)
  {
    hide A64Step, Held, A64Words, A64Run, Riscv.Field;
    var slot := got + 8 * i;
    var pages := slot / PAGE_SIZE - s.pc / PAGE_SIZE;
    PagesBounded(s.pc, slot);
    var k := PagesHeld(pages);
    SlotAligned(got, i);
    SlotFromPages(s.pc, slot, k);
    FirstSteps(pages, slot % PAGE_SIZE, s, mem);
    StubFetched(plt, got, i, code);
    var page := (s.pc - s.pc % PAGE_SIZE + Held(pages) * PAGE_SIZE) % TWO64;
    FromPage(s, slot % PAGE_SIZE, page, code, mem);
  }

  /** The rest of a stub, once x16 holds the page. */
  lemma FromPage(s: A64, lo12: nat, page: int, code: int -> int, mem: int -> int)
    requires s.A64? && |s.x| == 32 && lo12 < 4096 && 0 <= s.pc < TWO64 - 16
    requires A64Step(code(s.pc), s, mem) == A64(s.pc + 4, s.x[16 := page], s.used)
    requires code(s.pc + 4) == 0xF940_0211 + lo12 / 8 * 1024 && code(s.pc + 8) == 0x9100_0210 + lo12 * 1024
    requires code(s.pc + 12) == 0xD61F_0220
    ensures var r := A64Run(4, code, s, mem);
      r.A64? && |r.x| == 32 && (forall q :: 0 <= q < 32 && q != 16 && q != 17 ==> r.x[q] == s.x[q]) &&
      r.used == (page + lo12 / 8 * 8) % TWO64 && r.pc == mem(r.used) % TWO64
  {
    hide *;
    var a := (page + lo12 / 8 * 8) % TWO64;
    var s1 := A64(s.pc + 4, s.x[16 := page], s.used);
    var s2 := A64(s.pc + 8, s1.x[17 := mem(a)], a);
    var s3 := A64(s.pc + 12, s2.x[16 := (page + lo12) % TWO64], a);
    LastSteps(lo12, s1, s2, s3, page, a, mem);
    FourSteps(code, s, s1, s2, s3, A64(mem(a) % TWO64, s3.x, a), mem);
  }

  lemma PagesBounded(pc: nat, slot: nat)
    requires pc < TWO63 && slot < TWO63
    ensures -0x8_0000_0000_0000 < slot / PAGE_SIZE - pc / PAGE_SIZE < 0x8_0000_0000_0000
  {
  }

  lemma SlotAligned(got: nat, i: nat)
    requires got % 8 == 0
    ensures (got + 8 * i) % 8 == 0
  {
  }

  lemma StubFetched(plt: nat, got: nat, i: nat, code: int -> int)
    requires forall n :: 0 <= n < 4 ==> code(plt + 16 * i + 4 * n) == A64Words(plt, got, i)[n]
    ensures var pc, slot := plt + 16 * i, got + 8 * i;
      var pages := slot / PAGE_SIZE - pc / PAGE_SIZE;
      code(pc) == 0x9000_0010 + pages % 4 * 0x2000_0000 + pages / 4 % 0x8_0000 * 32 &&
      code(pc + 4) == 0xF940_0211 + slot % PAGE_SIZE / 8 * 1024 &&
      code(pc + 8) == 0x9100_0210 + slot % PAGE_SIZE * 1024 && code(pc + 12) == 0xD61F_0220
  {
    assert code(plt + 16 * i + 4 * 0) == A64Words(plt, got, i)[0];
    assert code(plt + 16 * i + 4 * 1) == A64Words(plt, got, i)[1];
    assert code(plt + 16 * i + 4 * 2) == A64Words(plt, got, i)[2];
    assert code(plt + 16 * i + 4 * 3) == A64Words(plt, got, i)[3];
  }

  lemma FourSteps(code: int -> int, s: A64, s1: A64, s2: A64, s3: A64, s4: A64, mem: int -> int)
    requires s.A64? && |s.x| == 32 && s1.A64? && |s1.x| == 32 && s2.A64? && |s2.x| == 32 && s3.A64? && |s3.x| == 32
    requires A64Step(code(s.pc), s, mem) == s1 && A64Step(code(s1.pc), s1, mem) == s2
    requires A64Step(code(s2.pc), s2, mem) == s3 && A64Step(code(s3.pc), s3, mem) == s4
    ensures A64Run(4, code, s, mem) == s4
  {
    hide A64Step;
    assert A64Run(1, code, s3, mem) == A64Run(0, code, s4, mem) == s4;
    assert A64Run(2, code, s2, mem) == A64Run(1, code, s3, mem);
    assert A64Run(3, code, s1, mem) == A64Run(2, code, s2, mem);
  }

  function A64Run(n: nat, code: int -> int, s: A64, mem: int -> int): A64
    requires s.A64? ==> |s.x| == 32
  {
    if n == 0 || s.Undefined? then s else A64Run(n - 1, code, A64Step(code(s.pc), s, mem), mem)
  }

  /** `adrp`. */
  lemma FirstSteps(pages: int, lo12: nat, s: A64, mem: int -> int)
    requires s.A64? && |s.x| == 32 && lo12 < 4096 && 0 <= s.pc < TWO64 - 16
    ensures A64Step(0x9000_0010 + pages % 4 * 0x2000_0000 + pages / 4 % 0x8_0000 * 32, s, mem) ==
      A64(s.pc + 4, s.x[16 := (s.pc - s.pc % PAGE_SIZE + Held(pages) * PAGE_SIZE) % TWO64], s.used)
  {
    AdrpFields(pages);
    hide Riscv.Field, Riscv.SignExtend;
  }

  /** `ldr`, `add`, `br`. */
  lemma LastSteps(lo12: nat, s1: A64, s2: A64, s3: A64, page: int, a: int, mem: int -> int)
    requires s1.A64? && |s1.x| == 32 && s1.x[16] == page && lo12 < 4096 && 0 <= s1.pc < TWO64 - 12
    requires a == (page + lo12 / 8 * 8) % TWO64 && s2 == A64(s1.pc + 4, s1.x[17 := mem(a)], a)
    requires s3 == A64(s1.pc + 8, s2.x[16 := (page + lo12) % TWO64], a)
    ensures A64Step(0xF940_0211 + lo12 / 8 * 1024, s1, mem) == s2
    ensures A64Step(0x9100_0210 + lo12 * 1024, s2, mem) == s3
    ensures A64Step(0xD61F_0220, s3, mem) == A64(mem(a) % TWO64, s3.x, a)
  {
    LdrAddFields(lo12);
    BrFields();
    hide Riscv.Field, Riscv.SignExtend;
  }

  /** A stub of the table holds the four words. */
  predicate A64StubAt(table: seq<Byte>, plt: nat, got: nat, i: nat) {
    16 * i + 16 <= |table| &&
    forall n :: 0 <= n < 4 ==> RiscvFixups.WordAt(table, 16 * i + 4 * n) == A64Words(plt, got, i)[n]
  }

  /** Overwrite the padding of every stub with its words; the table is at address `plt`. */
  method PatchA64Stubs(table: array<Byte>, plt: nat, got: nat, n: nat)
    requires 16 * n <= table.Length
    modifies table
    ensures forall i :: 0 <= i < n ==> A64StubAt(table[..], plt, got, i)
    ensures forall b :: 16 * n <= b < table.Length ==> table[b] == old(table[b])
  {
    hide RiscvFixups.WordAt, A64StubAt;
    var i := 0;
    while i < n
      invariant 0 <= i <= n
      invariant forall j :: 0 <= j < i ==> A64StubAt(table[..], plt, got, j)
      invariant forall b :: 16 * n <= b < table.Length ==> table[b] == old(table[b])
    {
      ghost var before := table[..];
      PatchA64Stub(table, plt, got, i);
      forall j | 0 <= j < i ensures A64StubAt(table[..], plt, got, j) {
        A64StubKept(before, table[..], plt, got, j, i);
      }
      i := i + 1;
    }
  }

  method PatchA64Stub(table: array<Byte>, plt: nat, got: nat, i: nat)
    requires 16 * i + 16 <= table.Length
    modifies table
    ensures A64StubAt(table[..], plt, got, i)
    ensures forall b :: 0 <= b < table.Length && !(16 * i <= b < 16 * i + 16) ==> table[b] == old(table[b])
  {
    hide RiscvFixups.WordAt, A64Words;
    var words := A64Words(plt, got, i);
    A64WordsFit(plt, got, i);
    var n := 0;
    while n < 4
      invariant 0 <= n <= 4
      invariant forall m :: 0 <= m < n ==> RiscvFixups.WordAt(table[..], 16 * i + 4 * m) == words[m]
      invariant forall b :: 0 <= b < table.Length && !(16 * i <= b < 16 * i + 16) ==> table[b] == old(table[b])
    {
      ghost var before := table[..];
      RiscvFixups.StoreWord(table, 16 * i + 4 * n, words[n]);
      forall m | 0 <= m < n ensures RiscvFixups.WordAt(table[..], 16 * i + 4 * m) == words[m] {
        WordKept(before, table[..], 16 * i + 4 * m);
      }
      n := n + 1;
    }
  }

  lemma A64WordsFit(plt: nat, got: nat, i: nat)
    ensures forall n :: 0 <= n < 4 ==> 0 <= A64Words(plt, got, i)[n] < TWO32
  {
  }

  lemma WordKept(before: seq<Byte>, now: seq<Byte>, at: nat)
    requires at + 4 <= |before| == |now| && forall b :: at <= b < at + 4 ==> now[b] == before[b]
    ensures RiscvFixups.WordAt(now, at) == RiscvFixups.WordAt(before, at)
  {
  }

  lemma A64StubKept(before: seq<Byte>, now: seq<Byte>, plt: nat, got: nat, j: nat, i: nat)
    requires j < i && |now| == |before| && A64StubAt(before, plt, got, j)
    requires forall b :: 0 <= b < |now| && !(16 * i <= b < 16 * i + 16) ==> now[b] == before[b]
    ensures A64StubAt(now, plt, got, j)
  {
    hide A64Words, RiscvFixups.WordAt;
    forall n | 0 <= n < 4 ensures RiscvFixups.WordAt(now, 16 * j + 4 * n) == A64Words(plt, got, j)[n] {
      WordKept(before, now, 16 * j + 4 * n);
    }
  }
}
