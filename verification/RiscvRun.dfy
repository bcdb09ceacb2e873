/** Running linked RISC-V code: what a call, an address and a load or store of a symbol do
    once both halves are patched, and where a PLT stub goes (RISC-V Unprivileged ISA
    Specification, sections 2.4 to 2.6). */
module RiscvRun {
  import opened Bits
  import opened Leb128
  import opened Riscv
  import opened RiscvFixups
  import opened RiscvLi
  import opened RiscvLink

  // ---------- the machine ----------

  /** Registers hold unsigned 64-bit values; `used` lists the addresses loaded from and
      stored to, in order. */
  datatype Hart = Hart(pc: int, x: XRegs, used: seq<int>)

  /** The instruction word at an address, and the value a load gives there. */
  type Code = int -> int
  type Memory = (int, int) -> int

  datatype Ran = Ran(hart: Hart) | Trapped

  function Next(h: Hart, x: XRegs, used: seq<int>): Ran { Ran(Hart((h.pc + 4) % TWO64, x, h.used + used)) }

  /** `auipc`, `addi`, `jalr`, loads and stores, of integers and floats; a float register
      is not kept track of. */
  function Execute(w: int, h: Hart, mem: Memory): (r: Ran)
    requires |h.x| == 32
    ensures r.Ran? ==> |r.hart.x| == 32
  {
    var base := Get(h.x, Rs1(w));
    if Opcode(w) == 0x17 then Next(h, Put(h.x, Rd(w), (h.pc + ImmU(w)) % TWO64), [])
    else if Opcode(w) == 0x13 && Funct3(w) == 0 then Next(h, Put(h.x, Rd(w), (base + ImmI(w)) % TWO64), [])
    else if Opcode(w) == 0x67 && Funct3(w) == 0 then
      var target := (base + ImmI(w)) % TWO64;
      Ran(Hart(target - target % 2, Put(h.x, Rd(w), (h.pc + 4) % TWO64), h.used))
    else if Opcode(w) == 0x03 then
      var a := (base + ImmI(w)) % TWO64;
      Next(h, Put(h.x, Rd(w), mem(Funct3(w), a)), [a])
    else if Opcode(w) == 0x07 then Next(h, h.x, [(base + ImmI(w)) % TWO64])
    else if Opcode(w) == 0x23 || Opcode(w) == 0x27 then Next(h, h.x, [(base + ImmS(w)) % TWO64])
    else Trapped
  }

  /** Run `n` instructions. */
  function Steps(code: Code, mem: Memory, n: nat, h: Hart): (r: Ran)
    requires |h.x| == 32
    ensures r.Ran? ==> |r.hart.x| == 32
    decreases n
  {
    if n == 0 then Ran(h)
    else
      match Execute(code(h.pc), h, mem)
      case Trapped => Trapped
      case Ran(h1) => Steps(code, mem, n - 1, h1)
  }

  lemma StepOne(code: Code, mem: Memory, h: Hart)
    requires |h.x| == 32
    ensures Steps(code, mem, 1, h) == Execute(code(h.pc), h, mem)
  {
    hide Execute;
    assert forall h1: Hart | |h1.x| == 32 :: Steps(code, mem, 0, h1) == Ran(h1);
  }

  lemma {:induction false} StepsThen(code: Code, mem: Memory, m: nat, n: nat, h: Hart)
    requires |h.x| == 32
    ensures Steps(code, mem, m + n, h) ==
      match Steps(code, mem, m, h) case Trapped => Trapped case Ran(h1) => Steps(code, mem, n, h1)
    decreases m
  {
    hide Execute;
    if m > 0 {
      match Execute(code(h.pc), h, mem)
      case Trapped =>
      case Ran(h1) => StepsThen(code, mem, m - 1, n, h1);
    }
  }

  /** These bytes are in memory at that address, below 2^64. */
  ghost predicate Placed(code: Code, bytes: seq<Byte>, at: int) {
    0 <= at && at + |bytes| <= TWO64 && forall p: nat :: p + 4 <= |bytes| ==> code(at + p) == WordAt(bytes, p)
  }

  lemma TwoSteps(code: Code, mem: Memory, h: Hart, h1: Hart)
    requires |h.x| == 32 && Execute(code(h.pc), h, mem) == Ran(h1)
    ensures Steps(code, mem, 2, h) == Execute(code(h1.pc), h1, mem)
  {
    StepOne(code, mem, h);
    StepOne(code, mem, h1);
    StepsThen(code, mem, 1, 1, h);
  }

  // ---------- a pair ----------

  /** The accesses the assembler makes. */
  predicate Runnable(a: Access) {
    Legal(a) &&
    if a.Store? then a.opcode in {0x23, 0x27}
    else a.opcode in {0x03, 0x07} || (a.opcode in {0x13, 0x67} && a.f3 == 0)
  }

  /** The address the pair is after: where control is, what is in the register, or what
      was loaded from or stored to. */
  function Reached(a: Access, h: Hart): int
    requires Legal(a) && |h.x| == 32
  {
    if a.opcode == 0x67 then h.pc
    else if a.opcode == 0x13 && a.Load? then Get(h.x, a.rd)
    else if h.used == [] then -1 else h.used[|h.used| - 1]
  }

  /** The address as the second instruction computes it from the first's result. */
  function Computed(a: Access, pc: int, val: int): int {
    Address(AfterAuipc(High(a, Hi20(val)), pc), Offset(a, Low(a, val)))
  }

  lemma ExecuteAuipc(w: int, h: Hart, mem: Memory)
    requires |h.x| == 32 && Opcode(w) == 0x17
    ensures Execute(w, h, mem) == Next(h, Put(h.x, Rd(w), (h.pc + ImmU(w)) % TWO64), [])
  {
  }

  /** What the completing instruction does when it computes the address `c`. */
  function Completed(a: Access, c: int, h: Hart, mem: Memory): (r: Hart)
    requires Runnable(a) && |h.x| == 32
    ensures |r.x| == 32
  {
    if a.opcode == 0x67 then Hart(c - c % 2, Put(h.x, a.rd, (h.pc + 4) % TWO64), h.used)
    else
      Hart((h.pc + 4) % TWO64,
           if a.Store? || a.opcode == 0x07 then h.x
           else Put(h.x, a.rd, if a.opcode == 0x13 then c else mem(a.f3, c)),
           if a.opcode == 0x13 then h.used else h.used + [c])
  }

  lemma ExecuteLow(a: Access, val: int, h: Hart, mem: Memory)
    requires Runnable(a) && |h.x| == 32
    ensures Execute(Low(a, val), h, mem) ==
      Ran(Completed(a, Address(Get(h.x, a.scratch), Offset(a, Low(a, val))), h, mem))
  {
    LowFields(a, val);
    hide Low, ImmU, ImmI, ImmS, Opcode, Rd, Rs1, Rs2, Funct3, SignExtend, Get, Put;
    assert h.used + [] == h.used;
  }

  /** The two instructions of a pair, one after the other. */
  lemma RunPair(a: Access, val: int, h: Hart, code: Code, mem: Memory)
    requires Runnable(a) && |h.x| == 32 && 0 <= h.pc <= TWO64 - 8
    requires code(h.pc) == High(a, Hi20(val)) && code(h.pc + 4) == Low(a, val)
    ensures var x1 := Put(h.x, a.scratch, AfterAuipc(High(a, Hi20(val)), h.pc));
      var c := if a.scratch != 0 then Computed(a, h.pc, val) else Address(0, Offset(a, Low(a, val)));
      Steps(code, mem, 2, h) == Ran(Completed(a, c, Hart(h.pc + 4, x1, h.used), mem))
  {
    HighFields(a, Hi20(val));
    hide High, Low, Hi20, ImmU, Opcode, Rd, Steps, Execute, Completed, Offset, Runnable;
    var up := High(a, Hi20(val));
    ExecuteAuipc(up, h, mem);
    var h1 := Hart(h.pc + 4, Put(h.x, a.scratch, AfterAuipc(up, h.pc)), h.used);
    assert h.used + [] == h.used;
    assert Execute(up, h, mem) == Ran(h1);
    TwoSteps(code, mem, h, h1);
    ExecuteLow(a, val, h1, mem);
  }

  /** Right or wrong, the address computed is the target up to a multiple of 2^32. */
  lemma ComputedNear(a: Access, pc: int, target: int, val: int)
    requires Legal(a) && val == Wrap64(target - pc)
    ensures Computed(a, pc, val) % TWO32 == target % TWO32
    ensures 0 <= Computed(a, pc, val) < TWO64
  {
    HighFields(a, Hi20(val));
    LowFields(a, val);
    hide High, Low, Offset, ImmU;
    var k := HalvesMakeUp(val);
    var up, off := ImmU(High(a, Hi20(val))), Offset(a, Low(a, val));
    hide InReach, SignExtend, Hi20;
    AddMod(pc + up, off);
    var q := (target - pc + TWO63) / TWO64;
    assert val == target - pc - q * TWO64;
    var sum := pc + up + off;
    assert sum == target - (k + q * TWO32) * TWO32;
    var p := sum / TWO64;
    assert Computed(a, pc, val) == sum - p * TWO64;
    Less32(target, k + q * TWO32 + p * TWO32);
  }

  lemma Less32(x: int, q: int)
    ensures (x - q * TWO32) % TWO32 == x % TWO32
  {
    ModUnique(x - q * TWO32, TWO32, x / TWO32 - q, x % TWO32);
  }

  /** Rounding down an address that is wrong by a multiple of 2^32 does not make it right. */
  lemma RoundedSame(c: int, target: int)
    requires c % TWO32 == target % TWO32 && target % 2 == 0 && 0 <= c < TWO64 && 0 <= target < TWO64
    ensures c % 2 == 0
  {
    assert c == c / TWO32 * TWO32 + c % TWO32 && target == target / TWO32 * TWO32 + target % TWO32;
  }

  /** Where a pair arrives, from its words alone. */
  lemma Arrives(a: Access, target: int, val: int, h: Hart, code: Code, mem: Memory)
    requires Runnable(a) && a.scratch != 0 && (a.opcode == 0x13 ==> a.rd != 0) && |h.x| == 32
    requires 0 <= h.pc <= TWO64 - 8 && val == Wrap64(target - h.pc)
    requires a.opcode == 0x67 ==> target % 2 == 0 && 0 <= target < TWO64
    requires code(h.pc) == High(a, Hi20(val)) && code(h.pc + 4) == Low(a, val)
    ensures var r := Steps(code, mem, 2, h);
      r.Ran? && (Reached(a, r.hart) == target % TWO64 <==> InReach(val)) &&
      (a.opcode != 0x67 ==> r.hart.pc == (h.pc + 8) % TWO64) &&
      (a.opcode == 0x67 ==> Reached(a, r.hart) == r.hart.pc && target % TWO64 == target) &&
      (a == Load(0, 0x67, 1, 1) ==> r.hart.x == h.x[1 := (h.pc + 8) % TWO64] && r.hart.used == h.used)
  {
    hide High, Low, Hi20, InReach, Wrap64, Computed, Steps, Offset, AfterAuipc;
    RunPair(a, val, h, code, mem);
    ReachedIff(a, h.pc, target, val);
    if a.opcode == 0x67 {
      ComputedNear(a, h.pc, target, val);
      RoundedSame(Computed(a, h.pc, val), target);
      SmallTarget(target);
    }
  }

  lemma Even16(x: int, i: nat)
    requires x % 2 == 0
    ensures (x + 16 * i) % 2 == 0
  {
  }

  lemma SmallTarget(target: int)
    requires 0 <= target < TWO64
    ensures target % TWO64 == target
  {
  }

  // ---------- linked code ----------

  /** A linked object's text in memory, about to run site `k`. */
  ghost predicate AtSite(text: seq<Byte>, relocs: seq<Reloc>, sites: seq<Site>, syms: seq<Symbol>, l: Layout, k: nat,
      code: Code, h: Hart) {
    Paired(relocs, sites) && Spaced(sites) && k < |sites| && Linked(text, sites, syms, l, |relocs|) &&
    Placed(code, text, l.text) && |h.x| == 32 && h.pc == l.text + sites[k].pos && Runnable(sites[k].access)
  }

  /** The words at a site, and what they are relative to. */
  lemma AtWords(text: seq<Byte>, relocs: seq<Reloc>, sites: seq<Site>, syms: seq<Symbol>, l: Layout, k: nat,
      code: Code, h: Hart)
    requires AtSite(text, relocs, sites, syms, l, k, code, h)
    ensures var s := sites[k];
      var val := Displace(s, syms, l);
      Runnable(s.access) && |h.x| == 32 && 0 <= h.pc <= TWO64 - 8 &&
      code(h.pc) == High(s.access, Hi20(val)) && code(h.pc + 4) == Low(s.access, val)
  {
    hide High, Low, Displace, Hi20, WordAt, Paired;
    var s := sites[k];
    assert |relocs| == 2 * |sites| by { SizeOfPaired(relocs, sites); }
    var val := Displace(s, syms, l);
    assert Holds(text, s, HiNow(k, |relocs|, val), LoNow(k, |relocs|, val, s.addend));
    assert code(l.text + s.pos) == WordAt(text, s.pos);
    assert code(l.text + (s.pos + 4)) == WordAt(text, s.pos + 4);
  }

  /** The displacement at a site, for the address its symbol means there. */
  lemma MeantIs(text: seq<Byte>, relocs: seq<Reloc>, sites: seq<Site>, syms: seq<Symbol>, l: Layout, k: nat,
      target: int, code: Code, h: Hart)
    requires AtSite(text, relocs, sites, syms, l, k, code, h)
    requires target == Target(RiscvLink.Lookup(syms, sites[k].sym), sites[k].access.opcode, l) + sites[k].addend
    ensures Displace(sites[k], syms, l) == Wrap64(target - h.pc)
  {
    SiteIs(text, relocs, sites, syms, l, k, code, h);
    hide AtSite, Target, Wrap64;
  }

  lemma SiteIs(text: seq<Byte>, relocs: seq<Reloc>, sites: seq<Site>, syms: seq<Symbol>, l: Layout, k: nat,
      code: Code, h: Hart)
    requires AtSite(text, relocs, sites, syms, l, k, code, h)
    ensures h.pc == l.text + sites[k].pos
  {
  }

  lemma ReachedIff(a: Access, pc: int, target: int, val: int)
    requires Legal(a) && val == Wrap64(target - pc)
    ensures Computed(a, pc, val) == target % TWO64 <==> InReach(val)
  {
    PairReaches(a, pc, target, val);
  }

  lemma SizeOfPaired(relocs: seq<Reloc>, sites: seq<Site>)
    requires Paired(relocs, sites)
    ensures |relocs| == 2 * |sites|
  {
  }

  /** A call of an external function goes to the function's stub, with the return address
      in `ra` and nothing else changed, exactly when the stub is in reach. */
  lemma ExternalCalled(text: seq<Byte>, relocs: seq<Reloc>, sites: seq<Site>, syms: seq<Symbol>, l: Layout, k: nat,
      i: nat, code: Code, mem: Memory, h: Hart)
    requires AtSite(text, relocs, sites, syms, l, k, code, h)
    requires sites[k].access == Load(0, 0x67, 1, 1) && sites[k].addend == 0
    requires sites[k].sym < |syms| && syms[sites[k].sym] == External(i)
    requires 0 <= l.plt && l.plt + 16 * i < TWO64 && l.plt % 2 == 0
    ensures var r := Steps(code, mem, 2, h);
      r.Ran? && r.hart.x == h.x[1 := (h.pc + 8) % TWO64] && r.hart.used == h.used &&
      (r.hart.pc == l.plt + 16 * i <==> InReach(Wrap64(l.plt + 16 * i - h.pc)))
  {
    AtWords(text, relocs, sites, syms, l, k, code, h);
    var target := l.plt + 16 * i;
    Even16(l.plt, i);
    MeantIs(text, relocs, sites, syms, l, k, target, code, h);
    hide AtSite, Displace, High, Low, Hi20, InReach, Wrap64, Reached, Steps, Runnable;
    Arrives(sites[k].access, target, Wrap64(target - h.pc), h, code, mem);
    SmallTarget(target);
  }

  /** Anything else that names an external, the address taken, a load or a store, is after
      the external's slot in the global offset table, exactly when the slot is in reach. */
  lemma ExternalAccessed(text: seq<Byte>, relocs: seq<Reloc>, sites: seq<Site>, syms: seq<Symbol>, l: Layout, k: nat,
      i: nat, code: Code, mem: Memory, h: Hart)
    requires AtSite(text, relocs, sites, syms, l, k, code, h)
    requires sites[k].access.opcode != 0x67 && sites[k].access.scratch != 0
    requires sites[k].access.opcode == 0x13 ==> sites[k].access.rd != 0
    requires sites[k].sym < |syms| && syms[sites[k].sym] == External(i)
    ensures var r := Steps(code, mem, 2, h);
      var slot := l.got + 8 * i + sites[k].addend;
      r.Ran? && r.hart.pc == (h.pc + 8) % TWO64 &&
      (Reached(sites[k].access, r.hart) == slot % TWO64 <==> InReach(Wrap64(slot - h.pc)))
  {
    AtWords(text, relocs, sites, syms, l, k, code, h);
    var target := l.got + 8 * i + sites[k].addend;
    MeantIs(text, relocs, sites, syms, l, k, target, code, h);
    hide AtSite, Displace, High, Low, Hi20, InReach, Wrap64, Reached, Steps;
    Arrives(sites[k].access, target, Wrap64(target - h.pc), h, code, mem);
  }

  /** What is defined in the program is reached itself, whatever the access. */
  lemma DefinedReached(text: seq<Byte>, relocs: seq<Reloc>, sites: seq<Site>, syms: seq<Symbol>, l: Layout, k: nat,
      vm: int, code: Code, mem: Memory, h: Hart)
    requires AtSite(text, relocs, sites, syms, l, k, code, h)
    requires sites[k].access.scratch != 0
    requires sites[k].access.opcode == 0x13 ==> sites[k].access.rd != 0
    requires sites[k].sym < |syms| && syms[sites[k].sym] == Defined(vm)
    requires 0 <= vm + sites[k].addend < TWO64
    requires sites[k].access.opcode == 0x67 ==> (vm + sites[k].addend) % 2 == 0
    ensures var r := Steps(code, mem, 2, h);
      var target := vm + sites[k].addend;
      r.Ran? && (Reached(sites[k].access, r.hart) == target <==> InReach(Wrap64(target - h.pc)))
  {
    AtWords(text, relocs, sites, syms, l, k, code, h);
    var target := vm + sites[k].addend;
    MeantIs(text, relocs, sites, syms, l, k, target, code, h);
    hide AtSite, Displace, High, Low, Hi20, InReach, Wrap64, Reached, Steps, Runnable;
    Arrives(sites[k].access, target, Wrap64(target - h.pc), h, code, mem);
    SmallTarget(target);
  }

  /** `x0` for the address register: it stays zero, and the access is after the low half of
      the displacement alone, never a symbol outside the first and last 2048 bytes. */
  lemma ZeroBaseMisses(text: seq<Byte>, relocs: seq<Reloc>, sites: seq<Site>, syms: seq<Symbol>, l: Layout, k: nat,
      target: int, code: Code, mem: Memory, h: Hart)
    requires AtSite(text, relocs, sites, syms, l, k, code, h) && sites[k].access.scratch == 0
    requires sites[k].access.opcode !in {0x13, 0x67} && 2048 <= target < TWO64 - 2048
    ensures var r := Steps(code, mem, 2, h); r.Ran? && Reached(sites[k].access, r.hart) != target
  {
    AtWords(text, relocs, sites, syms, l, k, code, h);
    var a, val := sites[k].access, Displace(sites[k], syms, l);
    LowFields(a, val);
    hide High, Low, Hi20, Steps, AtSite, Displace, Offset, AfterAuipc, Legal, Computed;
    RunPair(a, val, h, code, mem);
    var off := Offset(a, Low(a, val));
    assert -2048 <= off < 2048;
    SmallMod(off);
  }

  lemma SmallMod(off: int)
    requires -2048 <= off < 2048
    ensures (0 + off) % TWO64 == if off < 0 then off + TWO64 else off
  {
  }

  // ---------- stubs ----------

  /** The four words of stub `i`, where the linker has put the table. */
  predicate StubAt(plt: seq<Byte>, l: Layout, i: nat) {
    16 * i + 16 <= |plt| && forall j :: 0 <= j < 4 ==> WordAt(plt, 16 * i + 4 * j) == StubWords(l, i)[j]
  }

  /** From a stub, control goes to the address in the external's slot. `ra` is what it was:
      the external returns to the stub's caller. It is that slot exactly when the slot is
      in reach. */
  lemma StubRuns(plt: seq<Byte>, l: Layout, i: nat, code: Code, mem: Memory, h: Hart)
    requires StubAt(plt, l, i) && Placed(code, plt, l.plt) && |h.x| == 32 && h.pc == l.plt + 16 * i
    requires 0 <= l.got && l.got + 8 * i < TWO64
    ensures var r := Steps(code, mem, 3, h);
      r.Ran? && |r.hart.used| == |h.used| + 1 && r.hart.used[..|h.used|] == h.used &&
      var slot := r.hart.used[|h.used|];
      var to := mem(3, slot);
      r.hart.pc == to % TWO64 - to % TWO64 % 2 && (forall q :: 0 <= q < 32 && q != 5 ==> r.hart.x[q] == h.x[q]) &&
      (slot == l.got + 8 * i <==> InReach(Wrap64(l.got + 8 * i - h.pc)))
  {
    hide *;
    StubCode(plt, l, i, code);
    var c := StubLoads(l, i, code, mem, h);
    var h2 := Steps(code, mem, 2, h).hart;
    StepsThen(code, mem, 2, 1, h);
    StepOne(code, mem, h2);
    JumpRuns(h2, mem);
    LoadedParts(h, h2, c, mem);
  }

  /** The slot's content is in `t0`. */
  predicate Loaded(h: Hart, h2: Hart, c: int, mem: Memory) {
    |h.x| == 32 == |h2.x| && h2.pc == h.pc + 8 && h2.used == h.used + [c] && h2.x[5] == mem(3, c) &&
    forall q :: 0 <= q < 32 && q != 5 ==> h2.x[q] == h.x[q]
  }

  lemma LoadedParts(h: Hart, h2: Hart, c: int, mem: Memory)
    requires Loaded(h, h2, c, mem)
    ensures |h2.x| == 32 && h2.pc == h.pc + 8 && h2.used == h.used + [c] && h2.x[5] == mem(3, c)
    ensures h2.used[|h.used|] == c && h2.used[..|h.used|] == h.used
    ensures forall q :: 0 <= q < 32 && q != 5 ==> h2.x[q] == h.x[q]
  {
  }

  lemma StubLoads(l: Layout, i: nat, code: Code, mem: Memory, h: Hart) returns (c: int)
    requires |h.x| == 32 && h.pc == l.plt + 16 * i && 0 <= h.pc <= TWO64 - 16
    requires code(h.pc) == High(StubLoad, Hi20(StubVal(l, i))) && code(h.pc + 4) == Low(StubLoad, StubVal(l, i))
    requires 0 <= l.got && l.got + 8 * i < TWO64
    ensures c == l.got + 8 * i <==> InReach(Wrap64(l.got + 8 * i - h.pc))
    ensures var r := Steps(code, mem, 2, h); r.Ran? && Loaded(h, r.hart, c, mem)
  {
    var val := StubVal(l, i);
    hide High, Low, Hi20, InReach, Computed, Offset, AfterAuipc, Steps, Wrap64;
    RunPair(StubLoad, val, h, code, mem);
    ReachedIff(StubLoad, h.pc, l.got + 8 * i, val);
    SmallTarget(l.got + 8 * i);
    c := Computed(StubLoad, h.pc, val);
    var x1 := Put(h.x, 5, AfterAuipc(High(StubLoad, Hi20(val)), h.pc));
    assert Steps(code, mem, 2, h).hart == Hart(h.pc + 8, Put(x1, 5, mem(3, c)), h.used + [c]);
  }

  lemma JumpRuns(h: Hart, mem: Memory)
    requires |h.x| == 32
    ensures var to := h.x[5] % TWO64; Execute(EncI(0, 5, 0, 0, 0x67), h, mem) == Ran(Hart(to - to % 2, h.x, h.used))
  {
    JumpFields();
    hide EncI, Opcode, Rd, Rs1, ImmI, Funct3;
  }

  /** The words of a stub where the machine fetches them. */
  lemma StubCode(plt: seq<Byte>, l: Layout, i: nat, code: Code)
    requires StubAt(plt, l, i) && Placed(code, plt, l.plt)
    ensures var pc := l.plt + 16 * i;
      0 <= pc <= TWO64 - 16 && code(pc) == High(StubLoad, Hi20(StubVal(l, i))) &&
      code(pc + 4) == Low(StubLoad, StubVal(l, i)) && code(pc + 8) == EncI(0, 5, 0, 0, 0x67)
  {
    StubReachesSlot(l, i);
    hide StubWords, High, Low, Hi20, EncI, WordAt;
    var p := 16 * i;
    assert WordAt(plt, p + 4 * 0) == StubWords(l, i)[0];
    assert WordAt(plt, p + 4 * 1) == StubWords(l, i)[1];
    assert WordAt(plt, p + 4 * 2) == StubWords(l, i)[2];
    assert code(l.plt + p) == WordAt(plt, p) && code(l.plt + (p + 4)) == WordAt(plt, p + 4);
    assert code(l.plt + (p + 8)) == WordAt(plt, p + 8);
  }

  /** `jr t0`. */
  lemma JumpFields()
    ensures var w := EncI(0, 5, 0, 0, 0x67);
      Opcode(w) == 0x67 && Funct3(w) == 0 && Rd(w) == 0 && Rs1(w) == 5 && ImmI(w) == 0
  {
    EncIFields(0, 5, 0, 0, 0x67);
    ImmIExact(0, 5, 0, 0, 0x67);
  }

  /** A call of an external, as far as the external: five instructions later control is where
      the external's slot says, and `ra` is the address after the call. */
  lemma CallGoesThrough(text: seq<Byte>, relocs: seq<Reloc>, sites: seq<Site>, syms: seq<Symbol>, l: Layout, k: nat,
      i: nat, plt: seq<Byte>, code: Code, mem: Memory, h: Hart)
    requires AtSite(text, relocs, sites, syms, l, k, code, h)
    requires sites[k].access == Load(0, 0x67, 1, 1) && sites[k].addend == 0
    requires sites[k].sym < |syms| && syms[sites[k].sym] == External(i)
    requires StubAt(plt, l, i) && Placed(code, plt, l.plt) && l.plt % 2 == 0 && 0 <= l.got && l.got + 8 * i < TWO64
    requires InReach(Wrap64(l.plt + 16 * i - h.pc)) && InReach(Wrap64(l.got + 8 * i - (l.plt + 16 * i)))
    ensures var r := Steps(code, mem, 5, h);
      var to := mem(3, l.got + 8 * i);
      r.Ran? && r.hart.pc == to % TWO64 - to % TWO64 % 2 && r.hart.x[1] == (h.pc + 8) % TWO64 &&
      r.hart.used == h.used + [l.got + 8 * i] &&
      forall q :: 0 <= q < 32 && q != 5 && q != 1 ==> r.hart.x[q] == h.x[q]
  {
    hide AtSite, StubAt, Placed, InReach, Wrap64, Steps;
    PltFits(plt, l, i, code);
    ExternalCalled(text, relocs, sites, syms, l, k, i, code, mem, h);
    assert |h.x| == 32 by { AtWords(text, relocs, sites, syms, l, k, code, h); }
    var h2 := Steps(code, mem, 2, h).hart;
    StubRuns(plt, l, i, code, mem, h2);
    StepsThen(code, mem, 2, 3, h);
    assert h2.x[1] == (h.pc + 8) % TWO64;
    var r := Steps(code, mem, 5, h);
    assert r.hart.used == r.hart.used[..|h2.used|] + [r.hart.used[|h2.used|]];
  }

  lemma PltFits(plt: seq<Byte>, l: Layout, i: nat, code: Code)
    requires StubAt(plt, l, i) && Placed(code, plt, l.plt)
    ensures 0 <= l.plt && l.plt + 16 * i < TWO64
  {
    hide StubWords;
  }

  // ---------- patching the stubs ----------

  /** Fill in the two halves of every stub; the jump and the padding are there already. */
  method PatchStubs(plt: array<Byte>, l: Layout, n: nat)
    requires 16 * n <= plt.Length
    requires forall i :: 0 <= i < n ==> Template(plt[..], i)
    modifies plt
    ensures forall i :: 0 <= i < n ==> StubAt(plt[..], l, i)
    ensures forall b :: 16 * n <= b < plt.Length ==> plt[b] == old(plt[b])
  {
    hide WordAt;
    var i := 0;
    while i < n
      invariant 0 <= i <= n
      invariant forall j :: 0 <= j < i ==> StubAt(plt[..], l, j)
      invariant forall j :: i <= j < n ==> Template(plt[..], j)
      invariant forall b :: 16 * n <= b < plt.Length ==> plt[b] == old(plt[b])
    {
      ghost var before := plt[..];
      var val := Wrap64(l.got + 8 * i - (l.plt + 16 * i));
      StubWordsFit(l, i);
      assert Template(before, i);
      StoreWord(plt, 16 * i, 0x297 + Field(Hi20(val), 1, P20) * P12);
      ghost var half := plt[..];
      StoreWord(plt, 16 * i + 4, 0x2b283 % P20 + val % 4096 * P20);
      Patched(before, half, plt[..], l, i, n);
      i := i + 1;
    }
  }

  /** A stub before it is patched. */
  predicate Template(plt: seq<Byte>, i: nat) {
    16 * i + 16 <= |plt| && WordAt(plt, 16 * i + 8) == 0x28067 && WordAt(plt, 16 * i + 12) == 0x13
  }

  lemma StubWordsFit(l: Layout, i: nat)
    ensures forall j :: 0 <= j < 4 ==> 0 <= StubWords(l, i)[j] < TWO32
  {
  }

  lemma Patched(before: seq<Byte>, half: seq<Byte>, now: seq<Byte>, l: Layout, i: nat, n: nat)
    requires i < n && 16 * n <= |before| == |half| == |now| && Template(before, i)
    requires WordAt(half, 16 * i) == StubWords(l, i)[0] && WordAt(now, 16 * i + 4) == StubWords(l, i)[1]
    requires forall b :: 0 <= b < |now| && !(16 * i <= b < 16 * i + 4) ==> half[b] == before[b]
    requires forall b :: 0 <= b < |now| && !(16 * i + 4 <= b < 16 * i + 8) ==> now[b] == half[b]
    ensures StubAt(now, l, i)
    ensures forall j :: 0 <= j < i && StubAt(before, l, j) ==> StubAt(now, l, j)
    ensures forall j :: i < j < n && Template(before, j) ==> Template(now, j)
  {
    hide StubWords;
    assert forall p :: 0 <= p && p + 4 <= |now| && (p + 4 <= 16 * i || 16 * i + 8 <= p) ==>
      WordAt(now, p) == WordAt(before, p);
    assert WordAt(now, 16 * i) == WordAt(half, 16 * i);
    ThirdAndFourth(l, i);
    forall j | 0 <= j < i && StubAt(before, l, j) ensures StubAt(now, l, j) {
      forall m | 0 <= m < 4 ensures WordAt(now, 16 * j + 4 * m) == StubWords(l, j)[m] {
        assert WordAt(before, 16 * j + 4 * m) == StubWords(l, j)[m];
      }
    }
  }

  lemma ThirdAndFourth(l: Layout, i: nat)
    ensures StubWords(l, i)[2] == 0x28067 && StubWords(l, i)[3] == 0x13
  {
  }
}
