/** RV64I instruction words (RISC-V Unprivileged ISA Specification, sections 2.2 and
    2.3; src/asm_rv64.c, enc_*): fields, immediates and what the instructions the
    assembler relies on do. */
module Riscv {
  import opened Bits

  const P7 := 0x80
  const P8 := 0x100
  const P12 := 0x1000
  const P15 := 0x8000
  const P20 := 0x10_0000
  const P21 := 0x20_0000
  const P25 := 0x200_0000
  const P31 := 0x8000_0000

  /** `count` values starting at bit weight `lo`; for negative `x`, of its two's complement. */
  function Field(x: int, lo: int, count: int): (r: int)
    requires lo > 0 && count > 0
    ensures 0 <= r < count
  {
    x / lo % count
  }

  /** Sign extension of a field of `2 * half` values. */
  function SignExtend(x: int, half: int): (r: int) { if x >= half then x - 2 * half else x }

  // ---------- encoders: fields of a word do not overlap, so or-ing them adds them ----------

  function EncI(imm: int, rs1: int, f3: int, rd: int, opcode: int): int {
    Field(imm, 1, 4096) * P20 + rs1 * P15 + f3 * P12 + rd * P7 + opcode
  }

  function EncS(imm: int, rs2: int, rs1: int, f3: int, opcode: int): int {
    Field(imm, 32, 128) * P25 + rs2 * P20 + rs1 * P15 + f3 * P12 + Field(imm, 1, 32) * P7 + opcode
  }

  function EncB(imm: int, rs2: int, rs1: int, f3: int): int {
    Field(imm, 4096, 2) * P31 + Field(imm, 32, 64) * P25 + rs2 * P20 + rs1 * P15 + f3 * P12 +
    Field(imm, 2, 16) * P8 + Field(imm, 2048, 2) * P7 + 0x63
  }

  function EncJ(imm: int, rd: int): int {
    Field(imm, P20, 2) * P31 + Field(imm, 2, 1024) * P21 + Field(imm, 2048, 2) * P20 + Field(imm, 4096, 256) * P12 +
      rd * P7 + 0x6F
  }

  function EncU(imm: int, rd: int, opcode: int): int { Field(imm, 1, P20) * P12 + rd * P7 + opcode }

  predicate Reg(r: int) { 0 <= r < 32 }

  // ---------- immediates as the hardware reads them ----------

  function Opcode(w: int): int { Field(w, 1, 128) }
  function Rd(w: int): int { Field(w, P7, 32) }
  function Funct3(w: int): int { Field(w, P12, 8) }
  function Rs1(w: int): int { Field(w, P15, 32) }
  function Rs2(w: int): int { Field(w, P20, 32) }

  function ImmI(w: int): int { SignExtend(Field(w, P20, 4096), 2048) }

  function ImmS(w: int): int { SignExtend(Field(w, P25, 128) * 32 + Field(w, P7, 32), 2048) }

  function ImmB(w: int): int {
    SignExtend(Field(w, P31, 2) * 4096 + Field(w, P7, 2) * 2048 + Field(w, P25, 64) * 32 + Field(w, P8, 16) * 2, 4096)
  }

  function ImmJ(w: int): int {
    SignExtend(Field(w, P31, 2) * P20 + Field(w, P12, 256) * 4096 + Field(w, P20, 2) * 2048 + Field(w, P21, 1024) * 2,
      P20)
  }

  /** The upper immediate: 20 bits, already shifted. */
  function ImmU(w: int): int { SignExtend(Field(w, P12, P20), 0x8_0000) * P12 }

  // ---------- packing and unpacking ----------

  /** A field below, a field, and the rest above. */
  lemma Unpack(w: int, low: int, lo: int, mid: int, count: int, high: int)
    requires lo > 0 && count > 0 && 0 <= low < lo && 0 <= mid < count
    requires w == (high * count + mid) * lo + low
    ensures Field(w, lo, count) == mid && w % lo == low && w / (lo * count) == high
  {
    ModUnique(w, lo, high * count + mid, low);
    ModUnique(high * count + mid, count, high, mid);
    TimesSum(high, count, mid, lo);
    BelowProduct(mid, count, low, lo);
    ModUnique(w, lo * count, high, mid * lo + low);
  }

  lemma TimesSum(high: int, count: int, mid: int, lo: int)
    ensures (high * count + mid) * lo == high * (lo * count) + mid * lo
  {
    assert (high * count) * lo == high * (lo * count);
  }

  lemma BelowProduct(mid: int, count: int, low: int, lo: int)
    requires lo > 0 && 0 <= mid < count && 0 <= low < lo
    ensures 0 <= mid * lo + low < lo * count
  {
    AtLeast(count - mid, lo);
    Distribute(count, mid, lo);
    if mid > 0 { AtLeast(mid, lo); }
  }

  lemma EncIFields(imm: int, rs1: int, f3: int, rd: int, opcode: int)
    requires Reg(rs1) && Reg(rd) && 0 <= f3 < 8 && 0 <= opcode < 128
    ensures var w := EncI(imm, rs1, f3, rd, opcode);
      0 <= w < TWO32 && Opcode(w) == opcode && Rd(w) == rd && Funct3(w) == f3 && Rs1(w) == rs1 &&
      Field(w, P20, 4096) == imm % 4096
  {
    var i := Field(imm, 1, 4096);
    assert i == imm % 4096;
    hide Field;
    var w := EncI(imm, rs1, f3, rd, opcode);
    var w15 := i * 32 + rs1;
    var w12 := w15 * 8 + f3;
    var w7 := w12 * 32 + rd;
    Unpack(w, 0, 1, opcode, 128, w7);
    Unpack(w, opcode, P7, rd, 32, w12);
    Unpack(w, rd * P7 + opcode, P12, f3, 8, w15);
    Unpack(w, f3 * P12 + rd * P7 + opcode, P15, rs1, 32, i);
    Unpack(w, rs1 * P15 + f3 * P12 + rd * P7 + opcode, P20, i, 4096, 0);
  }

  lemma EncSFields(imm: int, rs2: int, rs1: int, f3: int, opcode: int)
    requires Reg(rs1) && Reg(rs2) && 0 <= f3 < 8 && 0 <= opcode < 128
    ensures var w := EncS(imm, rs2, rs1, f3, opcode);
      0 <= w < TWO32 && Opcode(w) == opcode && Funct3(w) == f3 && Rs1(w) == rs1 && Rs2(w) == rs2 &&
      Field(w, P7, 32) == Field(imm, 1, 32) && Field(w, P25, 128) == Field(imm, 32, 128)
  {
    var top, bot := Field(imm, 32, 128), Field(imm, 1, 32);
    hide Field;
    var w := EncS(imm, rs2, rs1, f3, opcode);
    var w20 := top * 32 + rs2;
    var w15 := w20 * 32 + rs1;
    var w12 := w15 * 8 + f3;
    Unpack(w, 0, 1, opcode, 128, w12 * 32 + bot);
    Unpack(w, opcode, P7, bot, 32, w12);
    Unpack(w, bot * P7 + opcode, P12, f3, 8, w15);
    Unpack(w, f3 * P12 + bot * P7 + opcode, P15, rs1, 32, w20);
    Unpack(w, rs1 * P15 + f3 * P12 + bot * P7 + opcode, P20, rs2, 32, top);
    Unpack(w, rs2 * P20 + rs1 * P15 + f3 * P12 + bot * P7 + opcode, P25, top, 128, 0);
  }

  lemma EncBFields(imm: int, rs2: int, rs1: int, f3: int)
    requires Reg(rs1) && Reg(rs2) && 0 <= f3 < 8
    ensures var w := EncB(imm, rs2, rs1, f3);
      0 <= w < TWO32 && Opcode(w) == 0x63 && Funct3(w) == f3 && Rs1(w) == rs1 && Rs2(w) == rs2 &&
      Field(w, P7, 2) == Field(imm, 2048, 2) && Field(w, P8, 16) == Field(imm, 2, 16) &&
      Field(w, P25, 64) == Field(imm, 32, 64) && Field(w, P31, 2) == Field(imm, 4096, 2)
  {
    var a, b, c, d := Field(imm, 2048, 2), Field(imm, 2, 16), Field(imm, 32, 64), Field(imm, 4096, 2);
    hide Field;
    var w := EncB(imm, rs2, rs1, f3);
    var w25 := d * 64 + c;
    var w20 := w25 * 32 + rs2;
    var w15 := w20 * 32 + rs1;
    var w12 := w15 * 8 + f3;
    var w8 := w12 * 16 + b;
    Unpack(w, 0, 1, 0x63, 128, w8 * 2 + a);
    Unpack(w, 0x63, P7, a, 2, w8);
    Unpack(w, a * P7 + 0x63, P8, b, 16, w12);
    var low12 := b * P8 + a * P7 + 0x63;
    Unpack(w, low12, P12, f3, 8, w15);
    Unpack(w, f3 * P12 + low12, P15, rs1, 32, w20);
    Unpack(w, rs1 * P15 + f3 * P12 + low12, P20, rs2, 32, w25);
    Unpack(w, rs2 * P20 + rs1 * P15 + f3 * P12 + low12, P25, c, 64, d);
    Unpack(w, c * P25 + rs2 * P20 + rs1 * P15 + f3 * P12 + low12, P31, d, 2, 0);
  }

  lemma EncJFields(imm: int, rd: int)
    requires Reg(rd)
    ensures var w := EncJ(imm, rd);
      0 <= w < TWO32 && Opcode(w) == 0x6F && Rd(w) == rd &&
      Field(w, P12, 256) == Field(imm, 4096, 256) && Field(w, P20, 2) == Field(imm, 2048, 2) &&
      Field(w, P21, 1024) == Field(imm, 2, 1024) && Field(w, P31, 2) == Field(imm, P20, 2)
  {
    var a, b, c, d := Field(imm, 4096, 256), Field(imm, 2048, 2), Field(imm, 2, 1024), Field(imm, P20, 2);
    hide Field;
    var w := EncJ(imm, rd);
    var w21 := d * 1024 + c;
    var w20 := w21 * 2 + b;
    var w12 := w20 * 256 + a;
    Unpack(w, 0, 1, 0x6F, 128, w12 * 32 + rd);
    Unpack(w, 0x6F, P7, rd, 32, w12);
    Unpack(w, rd * P7 + 0x6F, P12, a, 256, w20);
    Unpack(w, a * P12 + rd * P7 + 0x6F, P20, b, 2, w21);
    Unpack(w, b * P20 + a * P12 + rd * P7 + 0x6F, P21, c, 1024, d);
    Unpack(w, c * P21 + b * P20 + a * P12 + rd * P7 + 0x6F, P31, d, 2, 0);
  }

  lemma EncUFields(imm: int, rd: int, opcode: int)
    requires Reg(rd) && 0 <= opcode < 128
    ensures var w := EncU(imm, rd, opcode);
      0 <= w < TWO32 && Opcode(w) == opcode && Rd(w) == rd && Field(w, P12, P20) == imm % P20
  {
    var i := Field(imm, 1, P20);
    assert i == imm % P20;
    hide Field;
    var w := EncU(imm, rd, opcode);
    Unpack(w, 0, 1, opcode, 128, i * 32 + rd);
    Unpack(w, opcode, P7, rd, 32, i);
    Unpack(w, rd * P7 + opcode, P12, i, P20, 0);
  }

  /** Encoding and decoding an immediate that fits. */
  lemma ImmIExact(imm: int, rs1: int, f3: int, rd: int, opcode: int)
    requires Reg(rs1) && Reg(rd) && 0 <= f3 < 8 && 0 <= opcode < 128 && -2048 <= imm < 2048
    ensures ImmI(EncI(imm, rs1, f3, rd, opcode)) == imm
  {
    EncIFields(imm, rs1, f3, rd, opcode);
  }

  /** The scattered bits of an even displacement add up to it. */
  lemma BranchBits(imm: int)
    requires -4096 <= imm < 4096 && imm % 2 == 0
    ensures SignExtend(Field(imm, 4096, 2) * 4096 + Field(imm, 2048, 2) * 2048 + Field(imm, 32, 64) * 32 + Field(imm,
      2, 16) * 2, 4096) == imm
  {
    var x := imm / 2;
    assert imm / 32 == x / 16 && imm / 2048 == x / 16 / 64 && imm / 4096 == x / 16 / 64 / 2;
    assert x == x / 16 * 16 + x % 16;
    assert x / 16 == x / 16 / 64 * 64 + x / 16 % 64;
    assert x / 16 / 64 == x / 16 / 64 / 2 * 2 + x / 16 / 64 % 2;
  }

  lemma JumpBits(imm: int)
    requires -P20 <= imm < P20 && imm % 2 == 0
    ensures SignExtend(Field(imm, P20, 2) * P20 + Field(imm, 4096, 256) * 4096 + Field(imm, 2048, 2) * 2048 +
      Field(imm, 2, 1024) * 2, P20) == imm
  {
    var x := imm / 2;
    assert imm / 2048 == x / 1024 && imm / 4096 == x / 1024 / 2 && imm / P20 == x / 1024 / 2 / 256;
    assert x == x / 1024 * 1024 + x % 1024;
    assert x / 1024 == x / 1024 / 2 * 2 + x / 1024 % 2;
    assert x / 1024 / 2 == x / 1024 / 2 / 256 * 256 + x / 1024 / 2 % 256;
  }

  lemma ImmBExact(imm: int, rs2: int, rs1: int, f3: int)
    requires Reg(rs1) && Reg(rs2) && 0 <= f3 < 8 && -4096 <= imm < 4096 && imm % 2 == 0
    ensures ImmB(EncB(imm, rs2, rs1, f3)) == imm
  {
    EncBFields(imm, rs2, rs1, f3);
    BranchBits(imm);
    hide EncB, Field;
  }

  lemma ImmJExact(imm: int, rd: int)
    requires Reg(rd) && -P20 <= imm < P20 && imm % 2 == 0
    ensures ImmJ(EncJ(imm, rd)) == imm
  {
    EncJFields(imm, rd);
    JumpBits(imm);
    hide EncJ, Field;
  }

  lemma ImmUExact(imm: int, rd: int, opcode: int)
    requires Reg(rd) && 0 <= opcode < 128 && -0x8_0000 <= imm < 0x8_0000
    ensures ImmU(EncU(imm, rd, opcode)) == imm * P12
  {
    EncUFields(imm, rd, opcode);
  }
}
