/** Addresses of symbols on RISC-V: the assembler emits `auipc` followed by an instruction
    with the low twelve bits (src/asm_rv64.c, emit_auipc, emit_lopc_i, emit_lopc_s), and the
    linker fills in both halves (src/elf_link.c, the riscv64 relocations and PLT stubs). */
module RiscvLink {
  import opened Bits
  import opened Leb128
  import opened Riscv
  import opened RiscvFixups

  const AUIPC := 0x17
  const JALR := 0x67
  const RA := 1
  const T0 := 5

  // ---------- the two instructions ----------

  /** The instruction that completes the address: a load, `addi` or `jalr`, or a store. */
  datatype Access =
    | Load(f3: int, opcode: int, rd: int, scratch: int)
    | Store(f3: int, opcode: int, val: int, scratch: int)

  predicate Legal(a: Access) {
    0 <= a.f3 < 8 && 0 <= a.opcode < 128 && Reg(a.scratch) && Reg(if a.Load? then a.rd else a.val)
  }

  /** The completing instruction with immediate `imm`, cut to twelve bits. */
  function Low(a: Access, imm: int): int {
    match a
    case Load(f3, opcode, rd, scratch) => EncI(imm, scratch, f3, rd, opcode)
    case Store(f3, opcode, val, scratch) => EncS(imm, val, scratch, f3, opcode)
  }

  function High(a: Access, hi: int): int { EncU(hi, a.scratch, AUIPC) }

  /** The offset the completing instruction adds to its base register. */
  function Offset(a: Access, w: int): int { if a.Load? then ImmI(w) else ImmS(w) }

  lemma HighFields(a: Access, hi: int)
    requires Legal(a)
    ensures var w := High(a, hi);
      0 <= w < TWO32 && Opcode(w) == AUIPC && Rd(w) == a.scratch && ImmU(w) == SignExtend(hi % P20, 0x8_0000) * P12
  {
    EncUFields(hi, a.scratch, AUIPC);
    hide EncU, Field;
  }

  /** Whatever the immediate, the registers and the operation stay; the offset is its low twelve bits. */
  lemma LowFields(a: Access, imm: int)
    requires Legal(a)
    ensures var w := Low(a, imm);
      0 <= w < TWO32 && Opcode(w) == a.opcode && Funct3(w) == a.f3 && Rs1(w) == a.scratch &&
      Offset(a, w) == SignExtend(imm % 4096, 2048)
    ensures if a.Load? then Rd(Low(a, imm)) == a.rd else Rs2(Low(a, imm)) == a.val
  {
    match a
    case Load(f3, opcode, rd, scratch) => EncIFields(imm, scratch, f3, rd, opcode);
    case Store(f3, opcode, val, scratch) =>
      EncSFields(imm, val, scratch, f3, opcode);
      TwelveBits(imm);
      hide EncS;
  }

  lemma TwelveBits(x: int)
    ensures Field(x, 32, 128) * 32 + Field(x, 1, 32) == x % 4096
  {
    var q := x / 32;
    assert x == q * 32 + x % 32 && q == q / 128 * 128 + q % 128;
    ModUnique(x, 4096, q / 128, q % 128 * 32 + x % 32);
  }

  lemma SignExtendIs(x: int, half: int)
    requires half > 0
    ensures SignExtend(x % (2 * half), half) == x - (x + half) / (2 * half) * (2 * half)
  {
    var m := 2 * half;
    var q, r := x / m, x % m;
    assert x == q * m + r;
    if r >= half {
      ModUnique(x + half, m, q + 1, r - half) by { assert (q + 1) * m == q * m + m; }
      assert (q + 1) * m == q * m + m;
    } else {
      ModUnique(x + half, m, q, r + half);
    }
  }

  // ---------- the linker's patches ----------

  function PatchHigh(w: int, hi: int): int { w % P12 + Field(hi, 1, P20) * P12 }

  function PatchLow(isStore: bool, w: int, lo: int): int {
    if isStore then w - Field(w, P25, 128) * P25 - Field(w, P7, 32) * P7 + lo / 32 * P25 + lo % 32 * P7
    else w % P20 + lo * P20
  }

  lemma PatchHighIs(a: Access, hi: int)
    requires Legal(a)
    ensures PatchHigh(High(a, 0), hi) == High(a, hi)
  {
    assert High(a, 0) == a.scratch * P7 + AUIPC;
  }

  lemma PatchLowIs(a: Access, addend: int, val: int)
    requires Legal(a)
    ensures PatchLow(a.Store?, Low(a, addend), val % 4096) == Low(a, val)
  {
    match a
    case Load(f3, opcode, rd, scratch) =>
      Unpack(Low(a, addend), scratch * P15 + f3 * P12 + rd * P7 + opcode, P20, Field(addend, 1, 4096), 4096, 0);
    case Store(f3, opcode, rs2, scratch) =>
      EncSFields(addend, rs2, scratch, f3, opcode);
      LowBits(val);
      hide Field;
  }

  /** Splitting the low twelve bits is splitting the value's. */
  lemma LowBits(val: int)
    ensures val % 4096 / 32 == Field(val, 32, 128) && val % 4096 % 32 == Field(val, 1, 32)
  {
    var q, r := val / 4096, val % 4096;
    assert val == q * 4096 + r && r == r / 32 * 32 + r % 32;
    ModUnique(val, 32, q * 128 + r / 32, r % 32);
    ModUnique(q * 128 + r / 32, 128, q, r / 32);
  }

  // ---------- reaching the symbol ----------

  /** The displacement split for the two instructions. */
  function Hi20(val: int): int { (val + 0x800) / P12 }

  predicate InReach(val: int) { -0x8000_0000 - 0x800 <= val < 0x8000_0000 - 0x800 }

  /** `auipc rd, hi` leaves this in rd. */
  function AfterAuipc(w: int, pc: int): int { (pc + ImmU(w)) % TWO64 }

  /** The address the completing instruction uses (or, for `addi`, its result). */
  function Address(base: int, offset: int): int { (base + offset) % TWO64 }

  /** The two halves make up the displacement, except for a multiple of 2^32 that is zero just inside the range. */
  lemma HalvesMakeUp(val: int) returns (k: int)
    requires -TWO63 <= val < TWO63
    ensures SignExtend(Hi20(val) % P20, 0x8_0000) * P12 + SignExtend(val % 4096, 2048) == val - k * TWO32
    ensures k == 0 <==> InReach(val)
    ensures -TWO32 < k < TWO32
  {
    var hi := Hi20(val);
    SignExtendIs(val, 2048);
    SignExtendIs(hi, 0x8_0000);
    k := (hi + 0x8_0000) / P20;
    hide SignExtend;
    assert val + 0x800 == hi * P12 + (val + 0x800) % P12;
    assert hi + 0x8_0000 == k * P20 + (hi + 0x8_0000) % P20;
  }

  lemma MultipleOf64(x: int, k: int)
    requires -TWO32 < k < TWO32
    ensures (x - k * TWO32) % TWO64 == x % TWO64 <==> k == 0
  {
    if (x - k * TWO32) % TWO64 == x % TWO64 {
      var q := x / TWO64 - (x - k * TWO32) / TWO64;
      assert x == x / TWO64 * TWO64 + x % TWO64;
      assert k * TWO32 == q * TWO64;
      assert k == q * TWO32;
    }
  }

  /** The linked pair computes the symbol's address plus addend exactly when the
      displacement fits the asymmetric 32-bit range. */
  lemma PairReaches(a: Access, pc: int, target: int, val: int)
    requires Legal(a) && val == Wrap64(target - pc)
    ensures Address(AfterAuipc(High(a, Hi20(val)), pc), Offset(a, Low(a, val))) == target % TWO64 <==> InReach(val)
  {
    HighFields(a, Hi20(val));
    LowFields(a, val);
    hide High, Low, Offset, ImmU;
    var k := HalvesMakeUp(val);
    var up := ImmU(High(a, Hi20(val)));
    var off := Offset(a, Low(a, val));
    hide InReach, SignExtend, Hi20;
    AddMod(pc + up, off);
    var q := (target - pc + TWO63) / TWO64;
    assert val == target - pc - q * TWO64;
    MultipleOf64(target, k);
    ShiftMod(target - k * TWO32, q);
    assert pc + up + off == target - k * TWO32 - q * TWO64;
  }

  lemma AddMod(x: int, y: int)
    ensures (x % TWO64 + y) % TWO64 == (x + y) % TWO64
  {
    ShiftMod(x + y, x / TWO64);
    assert x == x / TWO64 * TWO64 + x % TWO64;
  }

  lemma ShiftMod(x: int, q: int)
    ensures (x - q * TWO64) % TWO64 == x % TWO64
  {
    ModUnique(x - q * TWO64, TWO64, x / TWO64 - q, x % TWO64);
  }

  // ---------- the assembler's side ----------

  datatype RelocKind = HI20 | LO12I | LO12S

  datatype Reloc = Reloc(offset: nat, sym: nat, kind: RelocKind, addend: int)

  /** One emitted pair. */
  datatype Site = Site(pos: nat, access: Access, sym: nat, addend: int)

  function LowReloc(s: Site): Reloc {
    Reloc(s.pos + 4, s.sym, if s.access.Load? then LO12I else LO12S, s.addend)
  }

  /** The words of a pair, before or after the linker has patched each. */
  predicate Holds(text: seq<Byte>, s: Site, hi: int, lo: int) {
    s.pos + 8 <= |text| && WordAt(text, s.pos) == High(s.access, hi) && WordAt(text, s.pos + 4) == Low(s.access, lo)
  }

  predicate Spaced(sites: seq<Site>) {
    (forall k :: 0 <= k < |sites| ==> Legal(sites[k].access)) &&
    forall j, k :: 0 <= j < k < |sites| ==> sites[j].pos + 8 <= sites[k].pos
  }

  /** Relocations come in pairs, each high half directly followed by its low half. */
  predicate Paired(relocs: seq<Reloc>, sites: seq<Site>) {
    |relocs| == 2 * |sites| && forall k :: 0 <= k < |sites| ==>
      relocs[2 * k] == Reloc(sites[k].pos, sites[k].sym, HI20, sites[k].addend) &&
      relocs[2 * k + 1] == LowReloc(sites[k])
  }

  predicate Emitted(text: seq<Byte>, sites: seq<Site>) {
    forall k :: 0 <= k < |sites| ==> Holds(text, sites[k], 0, sites[k].addend)
  }

  /** Every low relocation has its high half four bytes earlier, for the same symbol and addend. */
  lemma LowHasHigh(relocs: seq<Reloc>, sites: seq<Site>, i: nat)
    requires Paired(relocs, sites) && i < |relocs| && relocs[i].kind != HI20
    ensures i > 0 && relocs[i].offset >= 4 &&
      relocs[i - 1] == Reloc(relocs[i].offset - 4, relocs[i].sym, HI20, relocs[i].addend)
  {
    var k := i / 2;
    assert relocs[2 * k].kind == HI20;
    assert i == 2 * k + 1;
  }

  function WordBytes(w: int): (r: seq<Byte>)
    requires 0 <= w < TWO32
    ensures |r| == 4
  {
    [w % 256, w / 256 % 256, w / 0x1_0000 % 256, w / 0x100_0000 % 256]
  }

  lemma AppendWord(text: seq<Byte>, w: int)
    requires 0 <= w < TWO32
    ensures WordAt(text + WordBytes(w), |text|) == w
  {
    SplitWord(w);
  }

  lemma KeepWord(text: seq<Byte>, more: seq<Byte>, p: nat)
    requires p + 4 <= |text|
    ensures WordAt(text + more, p) == WordAt(text, p)
  {
  }

  datatype Assembled = Done | NeedsScratch | ScratchIsValue

  /** The text section being assembled, with its relocations. */
  class Assembler {
    var text: seq<Byte>
    var relocs: seq<Reloc>
    ghost var sites: seq<Site>

    ghost predicate Valid()
      reads this
    {
      Paired(relocs, sites) && Spaced(sites) && Emitted(text, sites) &&
      (sites != [] ==> sites[|sites| - 1].pos + 8 <= |text|)
    }

    constructor ()
      ensures Valid() && text == [] && relocs == [] && sites == []
    {
      text, relocs, sites := [], [], [];
    }

    /** Any other instruction. */
    method EmitInsn(w: int)
      requires Valid() && 0 <= w < TWO32
      modifies this
      ensures Valid() && text == old(text) + WordBytes(w) && relocs == old(relocs) && sites == old(sites)
    {
      text := text + WordBytes(w);
      forall k | 0 <= k < |sites| ensures Holds(text, sites[k], 0, sites[k].addend) {
        KeepWord(old(text), WordBytes(w), sites[k].pos);
        KeepWord(old(text), WordBytes(w), sites[k].pos + 4);
      }
    }

    /** `auipc` and its completing instruction. */
    method EmitPair(a: Access, sym: nat, addend: int)
      requires Valid() && Legal(a)
      modifies this
      ensures Valid() && sites == old(sites) + [Site(|old(text)|, a, sym, addend)]
      ensures |text| == |old(text)| + 8 && text[..|old(text)|] == old(text)
      ensures relocs == old(relocs) + [Reloc(|old(text)|, sym, HI20, addend),
        LowReloc(Site(|old(text)|, a, sym, addend))]
    {
      HighFields(a, 0);
      LowFields(a, addend);
      hide High, Low;
      var pos := |text|;
      ghost var site := Site(pos, a, sym, addend);
      text := text + WordBytes(High(a, 0));
      relocs := relocs + [Reloc(pos, sym, HI20, addend)];
      ghost var half := text;
      text := text + WordBytes(Low(a, addend));
      relocs := relocs + [Reloc(|text| - 4, sym, if a.Load? then LO12I else LO12S, addend)];
      sites := sites + [site];
      AddSite(old(text), old(sites), half, text, site);
      AddPair(old(relocs), old(sites), relocs, site);
    }

    /** An integer load may reuse its destination for the address; a float load cannot. */
    method LoadSymbol(f3: int, opcode: int, float: bool, rd: int, scratch: int, sym: nat, addend: int)
        returns (r: Assembled)
      requires Valid() && 0 <= f3 < 8 && 0 <= opcode < 128 && Reg(rd) && scratch < 32
      modifies this
      ensures Valid() && r == (if float && scratch < 0 then NeedsScratch else Done)
      ensures r != Done ==> text == old(text) && relocs == old(relocs) && sites == old(sites)
      ensures r == Done ==>
        sites == old(sites) +
          [Site(|old(text)|, Load(f3, opcode, rd, if scratch < 0 then rd else scratch), sym, addend)]
    {
      if float && scratch < 0 { return NeedsScratch; }
      EmitPair(Load(f3, opcode, rd, if scratch < 0 then rd else scratch), sym, addend);
      return Done;
    }

    /** A store needs a scratch register other than the value's. */
    method StoreSymbol(f3: int, opcode: int, val: int, scratch: int, sym: nat, addend: int) returns (r: Assembled)
      requires Valid() && 0 <= f3 < 8 && 0 <= opcode < 128 && Reg(val) && scratch < 32
      modifies this
      ensures Valid() && r == (if scratch < 0 then NeedsScratch else if scratch == val then ScratchIsValue else Done)
      ensures r != Done ==> text == old(text) && relocs == old(relocs) && sites == old(sites)
      ensures r == Done ==> sites == old(sites) + [Site(|old(text)|, Store(f3, opcode, val, scratch), sym, addend)]
    {
      if scratch < 0 { return NeedsScratch; }
      if scratch == val { return ScratchIsValue; }
      EmitPair(Store(f3, opcode, val, scratch), sym, addend);
      return Done;
    }

    method LoadAddress(rd: int, sym: nat, addend: int)
      requires Valid() && Reg(rd)
      modifies this
      ensures Valid() && sites == old(sites) + [Site(|old(text)|, Load(0, 0x13, rd, rd), sym, addend)]
    {
      EmitPair(Load(0, 0x13, rd, rd), sym, addend);
    }

    method Call(sym: nat)
      requires Valid()
      modifies this
      ensures Valid() && sites == old(sites) + [Site(|old(text)|, Load(0, JALR, RA, RA), sym, 0)]
    {
      EmitPair(Load(0, JALR, RA, RA), sym, 0);
    }
  }

  lemma AddSite(text: seq<Byte>, sites: seq<Site>, half: seq<Byte>, now: seq<Byte>, s: Site)
    requires Emitted(text, sites) && Spaced(sites) && (sites != [] ==> sites[|sites| - 1].pos + 8 <= |text|)
    requires s.pos == |text| && Legal(s.access) && 0 <= High(s.access, 0) < TWO32 &&
      0 <= Low(s.access, s.addend) < TWO32
    requires half == text + WordBytes(High(s.access, 0)) && now == half + WordBytes(Low(s.access, s.addend))
    ensures Emitted(now, sites + [s]) && Spaced(sites + [s])
  {
    hide High, Low;
    forall k | 0 <= k < |sites| ensures Holds(now, sites[k], 0, sites[k].addend) && sites[k].pos + 8 <= |text| {
      assert Holds(text, sites[k], 0, sites[k].addend);
      KeepWord(text, WordBytes(High(s.access, 0)), sites[k].pos);
      KeepWord(text, WordBytes(High(s.access, 0)), sites[k].pos + 4);
      KeepWord(half, WordBytes(Low(s.access, s.addend)), sites[k].pos);
      KeepWord(half, WordBytes(Low(s.access, s.addend)), sites[k].pos + 4);
    }
    AppendWord(text, High(s.access, 0));
    AppendWord(half, Low(s.access, s.addend));
    KeepWord(half, WordBytes(Low(s.access, s.addend)), s.pos);
    hide WordAt, WordBytes;
    assert Holds(now, s, 0, s.addend);
  }

  lemma AddPair(relocs: seq<Reloc>, sites: seq<Site>, now: seq<Reloc>, s: Site)
    requires Paired(relocs, sites)
    requires now == relocs + [Reloc(s.pos, s.sym, HI20, s.addend)] + [LowReloc(s)]
    ensures Paired(now, sites + [s])
  {
    var all := sites + [s];
    forall k | 0 <= k < |all|
      ensures now[2 * k] == Reloc(all[k].pos, all[k].sym, HI20, all[k].addend) && now[2 * k + 1] == LowReloc(all[k])
    {
      if k < |sites| { assert all[k] == sites[k] && now[2 * k] == relocs[2 * k] && now[2 * k + 1] == relocs[2 * k + 1];
        }
    }
  }

  // ---------- the linker's side ----------

  /** Where a symbol is: at an address, among the externals, or nowhere. */
  datatype Symbol = Defined(vm: int) | External(index: nat) | Unknown

  /** Addresses of this object's text, the PLT and the GOT. */
  datatype Layout = Layout(text: int, plt: int, got: int)

  /** An external is reached through its PLT stub by a call, through its GOT slot by anything else. */
  function Target(s: Symbol, opcode: int, l: Layout): int {
    match s
    case Defined(vm) => vm
    case External(i) => if opcode == JALR then l.plt + 16 * i else l.got + 8 * i
    case Unknown => 0
  }

  function Lookup(syms: seq<Symbol>, sym: nat): Symbol { if sym < |syms| then syms[sym] else Unknown }

  /** The one displacement both halves must carry. */
  function Displace(s: Site, syms: seq<Symbol>, l: Layout): int {
    Wrap64(Target(Lookup(syms, s.sym), s.access.opcode, l) + s.addend - (l.text + s.pos))
  }

  /** The halves of site `k` after `n` relocations. */
  function HiNow(k: nat, n: nat, val: int): int { if 2 * k < n then Hi20(val) else 0 }
  function LoNow(k: nat, n: nat, val: int, addend: int): int { if 2 * k + 1 < n then val else addend }

  predicate Linked(text: seq<Byte>, sites: seq<Site>, syms: seq<Symbol>, l: Layout, n: nat) {
    forall k :: 0 <= k < |sites| ==>
      var val := Displace(sites[k], syms, l);
      Holds(text, sites[k], HiNow(k, n, val), LoNow(k, n, val, sites[k].addend))
  }

  predicate InSites(sites: seq<Site>, b: int) { exists k :: 0 <= k < |sites| && sites[k].pos <= b < sites[k].pos + 8 }

  /** One patched word keeps the others. */
  lemma LinkedStep(sites: seq<Site>, syms: seq<Symbol>, l: Layout, n: nat, before: seq<Byte>, now: seq<Byte>)
    requires n < 2 * |sites| && Spaced(sites) && Linked(before, sites, syms, l, n) && |now| == |before|
    requires var s := sites[n / 2];
      var p := s.pos + n % 2 * 4;
      var val := Displace(s, syms, l);
      s.pos + 8 <= |now| && (forall b :: 0 <= b < |now| && !(p <= b < p + 4) ==> now[b] == before[b]) &&
      WordAt(now, p) == if n % 2 == 0 then High(s.access, Hi20(val)) else Low(s.access, val)
    ensures Linked(now, sites, syms, l, n + 1)
    ensures forall b :: 0 <= b < |now| && !InSites(sites, b) ==> now[b] == before[b]
  {
    hide High, Low, Displace;
    var p := sites[n / 2].pos + n % 2 * 4;
    forall k | 0 <= k < |sites|
      ensures var val := Displace(sites[k], syms, l);
        Holds(now, sites[k], HiNow(k, n + 1, val), LoNow(k, n + 1, val, sites[k].addend))
    {
      var val := Displace(sites[k], syms, l);
      assert Holds(before, sites[k], HiNow(k, n, val), LoNow(k, n, val, sites[k].addend));
      if p != sites[k].pos { SameWord(before, now, p, sites[k].pos); }
      if p != sites[k].pos + 4 { SameWord(before, now, p, sites[k].pos + 4); }
    }
    forall b | 0 <= b < |now| && !InSites(sites, b) ensures now[b] == before[b] {
      assert !(sites[n / 2].pos <= b < sites[n / 2].pos + 8);
    }
  }

  lemma SameWord(before: seq<Byte>, now: seq<Byte>, p: nat, q: nat)
    requires |now| == |before| && q + 4 <= |now| && (q + 4 <= p || p + 4 <= q)
    requires forall b :: 0 <= b < |now| && !(p <= b < p + 4) ==> now[b] == before[b]
    ensures WordAt(now, q) == WordAt(before, q)
  {
  }

  /** Which word a relocation patches, and what the linker finds there. */
  lemma Found(text: seq<Byte>, relocs: seq<Reloc>, sites: seq<Site>, syms: seq<Symbol>, l: Layout, i: nat)
    requires i < |relocs| && Paired(relocs, sites) && Spaced(sites) && Linked(text, sites, syms, l, i)
    ensures var s := sites[i / 2];
      var r := relocs[i];
      Legal(s.access) && s.pos + 8 <= |text| && r.sym == s.sym && r.addend == s.addend &&
      r.offset == s.pos + i % 2 * 4 &&
      r.kind == (if i % 2 == 0 then HI20 else if s.access.Load? then LO12I else LO12S) &&
      WordAt(text, r.offset) == (if i % 2 == 0 then High(s.access, 0) else Low(s.access, s.addend)) &&
      WordAt(text, s.pos + 4) % 128 == s.access.opcode
  {
    var s := sites[i / 2];
    var val := Displace(s, syms, l);
    assert Holds(text, s, HiNow(i / 2, i, val), LoNow(i / 2, i, val, s.addend));
    LowFields(s.access, s.addend);
    hide High, Low, Displace;
    assert i == 2 * (i / 2) + i % 2;
  }

  /** Apply one object's text relocations in order. */
  method ApplyRelocs(text: array<Byte>, relocs: seq<Reloc>, syms: seq<Symbol>, l: Layout, ghost sites: seq<Site>)
    requires Paired(relocs, sites) && Spaced(sites) && Emitted(text[..], sites)
    modifies text
    ensures Linked(text[..], sites, syms, l, |relocs|)
    ensures forall b :: 0 <= b < text.Length && !InSites(sites, b) ==> text[b] == old(text[b])
  {
    hide High, Low, Hi20, Displace, Holds, WordAt, InSites, Spaced, PatchHigh, PatchLow, Emitted;
    StartLinked(text[..], sites, syms, l);
    var i := 0;
    while i < |relocs|
      invariant 0 <= i <= |relocs|
      invariant Linked(text[..], sites, syms, l, i)
      invariant forall b :: 0 <= b < text.Length && !InSites(sites, b) ==> text[b] == old(text[b])
    {
      ghost var before := text[..];
      RelocateOne(text, relocs, syms, l, i, sites);
      i := i + 1;
    }
  }

  lemma StartLinked(text: seq<Byte>, sites: seq<Site>, syms: seq<Symbol>, l: Layout)
    requires Emitted(text, sites)
    ensures Linked(text, sites, syms, l, 0)
  {
  }

  method RelocateOne(text: array<Byte>, relocs: seq<Reloc>, syms: seq<Symbol>, l: Layout, i: nat,
      ghost sites: seq<Site>)
    requires i < |relocs| == 2 * |sites| && Paired(relocs, sites) && Spaced(sites) &&
      Linked(text[..], sites, syms, l, i)
    modifies text
    ensures Linked(text[..], sites, syms, l, i + 1)
    ensures forall b :: 0 <= b < text.Length && !InSites(sites, b) ==> text[b] == old(text[b])
  {
    hide High, Low, Hi20, Holds, WordAt, InSites, Spaced, Paired, PatchHigh, PatchLow, Linked, Target, Lookup, Wrap64;
    ghost var s := sites[i / 2];
    ghost var before := text[..];
    Found(before, relocs, sites, syms, l, i);
    var rel := relocs[i];
    var w := WordAt(text[..], rel.offset);
    var op := if rel.kind == HI20 then WordAt(text[..], rel.offset + 4) % 128 else w % 128;
    var target := Target(Lookup(syms, rel.sym), op, l);
    var now: int;
    if rel.kind == HI20 {
      var val := Wrap64(target + rel.addend - (l.text + rel.offset));
      now := PatchHigh(w, Hi20(val));
      PatchHighIs(s.access, Hi20(val));
      HighFields(s.access, Hi20(val));
    } else {
      var val := Wrap64(target + rel.addend - (l.text + rel.offset - 4));
      now := PatchLow(rel.kind == LO12S, w, val % 4096);
      PatchLowIs(s.access, s.addend, val);
      LowFields(s.access, val);
    }
    StoreWord(text, rel.offset, now);
    LinkedStep(sites, syms, l, i, before, text[..]);
  }

  /** After linking, a symbol access reaches symbol plus addend exactly when its displacement is
      in range, and the instructions are otherwise as assembled. */
  lemma LinkedPairReaches(text: seq<Byte>, relocs: seq<Reloc>, sites: seq<Site>, syms: seq<Symbol>, l: Layout, k: nat)
    requires Paired(relocs, sites) && Spaced(sites) && k < |sites| && Linked(text, sites, syms, l, |relocs|)
    ensures var s := sites[k];
      var pc := l.text + s.pos;
      s.pos + 8 <= |text| &&
      var up, low := WordAt(text, s.pos), WordAt(text, s.pos + 4);
      Opcode(up) == AUIPC && Rd(up) == s.access.scratch == Rs1(low) && Opcode(low) == s.access.opcode &&
      Funct3(low) == s.access.f3 &&
      (Address(AfterAuipc(up, pc), Offset(s.access, low)) ==
        (Target(Lookup(syms, s.sym), s.access.opcode, l) + s.addend) % TWO64 <==>
       InReach(Displace(s, syms, l)))
  {
    var s := sites[k];
    var pc := l.text + s.pos;
    var val := Displace(s, syms, l);
    var target := Target(Lookup(syms, s.sym), s.access.opcode, l) + s.addend;
    assert Legal(s.access) && Holds(text, s, Hi20(val), val);
    HighFields(s.access, Hi20(val));
    LowFields(s.access, val);
    PairReaches(s.access, pc, target, val);
  }

  // ---------- PLT stubs ----------

  /** `ld t0, lo(t0)` of a stub. */
  const StubLoad := Load(3, 0x03, T0, T0)

  function StubVal(l: Layout, i: nat): int { Wrap64(l.got + 8 * i - (l.plt + 16 * i)) }

  /** `auipc t0; ld t0, lo(t0); jr t0; nop`, as laid out and then patched. */
  function StubWords(l: Layout, i: nat): (r: seq<int>)
    ensures |r| == 4
  {
    [0x297 + Field(Hi20(StubVal(l, i)), 1, P20) * P12, 0x2b283 % P20 + StubVal(l, i) % 4096 * P20, 0x28067, 0x13]
  }

  /** A stub loads its external's GOT slot and jumps there without a return address,
      exactly when the slot is in range. */
  lemma StubReachesSlot(l: Layout, i: nat)
    ensures var w := StubWords(l, i);
      w[0] == High(StubLoad, Hi20(StubVal(l, i))) && w[1] == Low(StubLoad, StubVal(l, i)) &&
      w[2] == EncI(0, T0, 0, 0, JALR)
    ensures var w := StubWords(l, i);
      Address(AfterAuipc(w[0], l.plt + 16 * i), ImmI(w[1])) == (l.got + 8 * i) % TWO64 <==> InReach(StubVal(l, i))
  {
    PairReaches(StubLoad, l.plt + 16 * i, l.got + 8 * i, StubVal(l, i));
  }
}
