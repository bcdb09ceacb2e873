/** Materialising 64-bit constants (src/asm_rv64.c, emit_li): the instructions leave
    exactly the constant in the register. */
module RiscvLi {
  import opened Bits
  import opened Riscv

  // ---------- the instructions used ----------

  const OP_IMM := 0x13
  const LUI := 0x37

  /** The integer registers; `x0` reads as zero and ignores writes. */
  type XRegs = seq<int>

  function Get(x: XRegs, r: int): int
    requires |x| == 32 && Reg(r)
  {
    if r == 0 then 0 else x[r]
  }

  function Put(x: XRegs, r: int, v: int): XRegs
    requires |x| == 32 && Reg(r)
  {
    if r == 0 then x else x[r := v]
  }

  datatype Machine = Running(x: XRegs) | Illegal

  /** `addi`, `slli` and `lui`. */
  function Step(w: int, x: XRegs): Machine
    requires |x| == 32
  {
    if Opcode(w) == 0x13 && Funct3(w) == 0 then Running(Put(x, Rd(w), Wrap64(Get(x, Rs1(w)) + ImmI(w))))
    else if Opcode(w) == 0x13 && Funct3(w) == 1 && 0 <= ImmI(w) < 64 then
      Running(Put(x, Rd(w), Wrap64(Get(x, Rs1(w)) * Pow2(ImmI(w)))))
    else if Opcode(w) == 0x37 then Running(Put(x, Rd(w), ImmU(w)))
    else Illegal
  }

  function Run(words: seq<int>, x: XRegs): Machine
    requires |x| == 32
    decreases words
  {
    if words == [] then Running(x)
    else
      match Step(words[0], x)
      case Illegal => Illegal
      case Running(x1) => if |x1| == 32 then Run(words[1..], x1) else Illegal
  }

  // ---------- the sequence ----------

  function Upper(n: int): int { (n + 0x800) / 4096 }

  function Lower(n: int): (lo: int)
    ensures -2048 <= lo < 2048
  {
    n - Upper(n) * 4096
  }

  predicate Small(n: int) { -2048 <= n <= 2047 }

  predicate Upper20(n: int) { -0x8_0000 <= n <= 0x7_FFFF }

  function Addi(rd: int, rs: int, imm: int): int { EncI(imm, rs, 0, rd, OP_IMM) }

  function LiWords(rd: int, n: int): seq<int>
    decreases if n < 0 then -n else n
  {
    if Small(n) then [Addi(rd, 0, n)]
    else if Upper20(Upper(n)) then [EncU(Upper(n), rd, LUI)] + (if Lower(n) != 0 then [Addi(rd, rd, Lower(n))] else [])
    else LiWords(rd, Upper(n)) + [EncI(12, rd, 1, rd, OP_IMM), Addi(rd, rd, Lower(n))]
  }

  /** The instruction sequence as the assembler appends it. */
  method EmitLi(words: seq<int>, rd: int, n: int) returns (all: seq<int>)
    ensures all == words + LiWords(rd, n)
    decreases if n < 0 then -n else n
  {
    if n >= -2048 && n <= 2047 {
      return words + [EncI(n, 0, 0, rd, 0x13)];
    }
    var hi := (n + 0x800) / 4096;
    var lo := n - hi * 4096;
    if hi >= -0x80000 && hi <= 0x7FFFF {
      all := words + [EncU(hi, rd, 0x37)];
      if lo != 0 { all := all + [EncI(lo, rd, 0, rd, 0x13)]; }
      return;
    }
    all := EmitLi(words, rd, hi);
    all := all + [EncI(12, rd, 1, rd, 0x13)];
    all := all + [EncI(lo, rd, 0, rd, 0x13)];
  }

  // ---------- single instructions ----------

  lemma AddiStep(rd: int, rs: int, imm: int, x: XRegs)
    requires Reg(rd) && Reg(rs) && -2048 <= imm < 2048 && |x| == 32
    ensures Step(Addi(rd, rs, imm), x) == Running(Put(x, rd, Wrap64(Get(x, rs) + imm)))
  {
    EncIFields(imm, rs, 0, rd, OP_IMM);
    ImmIExact(imm, rs, 0, rd, OP_IMM);
  }

  lemma SlliStep(rd: int, x: XRegs)
    requires Reg(rd) && |x| == 32
    ensures Step(EncI(12, rd, 1, rd, OP_IMM), x) == Running(Put(x, rd, Wrap64(Get(x, rd) * 4096)))
  {
    EncIFields(12, rd, 1, rd, OP_IMM);
    ImmIExact(12, rd, 1, rd, OP_IMM);
    Pow2Twelve();
  }

  lemma Pow2Twelve()
    ensures Pow2(12) == 4096
  {
    assert Pow2(4) == 16 by { assert Pow2(0) == 1 && Pow2(1) == 2 && Pow2(2) == 4 && Pow2(3) == 8; }
    assert Pow2(8) == 256 by { assert Pow2(5) == 32 && Pow2(6) == 64 && Pow2(7) == 128; }
    assert Pow2(9) == 512 && Pow2(10) == 1024 && Pow2(11) == 2048;
  }

  lemma LuiStep(rd: int, hi: int, x: XRegs)
    requires Reg(rd) && Upper20(hi) && |x| == 32
    ensures Step(EncU(hi, rd, LUI), x) == Running(Put(x, rd, hi * 4096))
  {
    EncUFields(hi, rd, LUI);
    ImmUExact(hi, rd, LUI);
  }

  // ---------- wrap-around ----------

  lemma WrapUnique(x: int, k: int, r: int)
    requires x == r + k * TWO64 && -TWO63 <= r < TWO63
    ensures Wrap64(x) == r
  {
    ModUnique(x + TWO63, TWO64, k, r + TWO63);
  }

  lemma WrapIs(x: int) returns (k: int)
    ensures x == Wrap64(x) + k * TWO64
  {
    k := (x + TWO63) / TWO64;
  }

  /** Wrapping before adding makes no difference. */
  lemma WrapAdd(x: int, y: int)
    ensures Wrap64(Wrap64(x) + y) == Wrap64(x + y)
  {
    var k := WrapIs(x);
    var j := WrapIs(x + y);
    assert Wrap64(x) + y == Wrap64(x + y) + (j - k) * TWO64;
    WrapUnique(Wrap64(x) + y, j - k, Wrap64(x + y));
  }

  // ---------- the theorem ----------

  lemma {:induction false} RunConcat(a: seq<int>, b: seq<int>, x: XRegs)
    requires |x| == 32
    ensures Run(a + b, x) == (match Run(a, x) case Illegal => Illegal case Running(y) => if |y| == 32 then Run(b, y)
      else Illegal)
    decreases a
  {
    if a == [] {
      assert a + b == b;
    } else {
      assert (a + b)[0] == a[0] && (a + b)[1..] == a[1..] + b;
      match Step(a[0], x)
      case Illegal =>
      case Running(x1) => if |x1| == 32 { RunConcat(a[1..], b, x1); }
    }
  }

  lemma RunTwo(v: int, w: int, x: XRegs, y: XRegs, z: XRegs)
    requires |x| == 32 && |y| == 32 && |z| == 32 && Step(v, x) == Running(y) && Step(w, y) == Running(z)
    ensures Run([v, w], x) == Running(z)
  {
    hide Step;
    assert [v, w][1..] == [w] && [w][1..] == [];
    assert Run([w], y) == Run([], z) == Running(z);
  }

  /** For every 64-bit constant the sequence leaves exactly that constant in the
      register and no other register changed. */
  lemma {:induction false} LiExact(rd: int, n: int, x: XRegs)
    requires 0 < rd < 32 && |x| == 32 && -TWO63 <= n < TWO63
    ensures Run(LiWords(rd, n), x) == Running(x[rd := n])
    decreases if n < 0 then -n else n
  {
    if Small(n) {
      AddiStep(rd, 0, n, x);
      assert [Addi(rd, 0, n)][1..] == [];
    } else if Upper20(Upper(n)) {
      LiUpper(rd, n, x);
    } else {
      hide Step, EncI;
      var hi, lo := Upper(n), Lower(n);
      LiExact(rd, hi, x);
      var x1 := x[rd := hi];
      SlliStep(rd, x1);
      var x2 := x1[rd := Wrap64(hi * 4096)];
      AddiStep(rd, rd, lo, x2);
      WrapAdd(hi * 4096, lo);
      RunTwo(EncI(12, rd, 1, rd, OP_IMM), Addi(rd, rd, lo), x1, x2, x[rd := n]);
      RunConcat(LiWords(rd, hi), [EncI(12, rd, 1, rd, OP_IMM), Addi(rd, rd, lo)], x);
    }
  }

  lemma LiUpper(rd: int, n: int, x: XRegs)
    requires 0 < rd < 32 && |x| == 32 && -TWO63 <= n < TWO63 && !Small(n) && Upper20(Upper(n))
    ensures Run(LiWords(rd, n), x) == Running(x[rd := n])
  {
    var hi, lo := Upper(n), Lower(n);
    LuiStep(rd, hi, x);
    var x1 := x[rd := hi * 4096];
    if lo != 0 {
      AddiStep(rd, rd, lo, x1);
      RunTwo(EncU(hi, rd, LUI), Addi(rd, rd, lo), x, x1, x[rd := n]);
      assert [EncU(hi, rd, LUI)] + [Addi(rd, rd, lo)] == [EncU(hi, rd, LUI), Addi(rd, rd, lo)];
    } else {
      assert [EncU(hi, rd, LUI)] + [] == [EncU(hi, rd, LUI)] && [EncU(hi, rd, LUI)][1..] == [];
    }
  }

  /** Never more than eight instructions: two for 32-bit constants and two more for
      every further twelve bits. */
  lemma LiLength(rd: int, n: int)
    ensures -0x8000_0800 <= n < 0x7FFF_F800 ==> |LiWords(rd, n)| <= 2
    ensures -TWO63 <= n < TWO63 ==> |LiWords(rd, n)| <= 8
  {
    if -TWO63 <= n < TWO63 && !Small(n) && !Upper20(Upper(n)) {
      var a := Upper(n);
      LiLevel(rd, a);
    }
  }

  lemma LiLevel(rd: int, a: int)
    requires -0x8_0000_0000_0001 <= a <= 0x8_0000_0000_0001
    ensures |LiWords(rd, a)| <= 6
  {
    if !Small(a) && !Upper20(Upper(a)) {
      var b := Upper(a);
      if !Small(b) && !Upper20(Upper(b)) {
        var c := Upper(b);
        assert Small(c) || Upper20(Upper(c));
        assert |LiWords(rd, c)| <= 2;
        assert |LiWords(rd, b)| == |LiWords(rd, c)| + 2;
      }
    }
  }
}
