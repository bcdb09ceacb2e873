/** Patching branches and jumps to local labels (src/asm_rv64.c, resolve_fixups). */
module RiscvFixups {
  import opened Bits
  import opened Leb128
  import opened Riscv

  // ---------- words in a byte section ----------

  function WordAt(s: seq<Byte>, at: nat): (w: int)
    requires at + 4 <= |s|
    ensures 0 <= w < TWO32
  {
    s[at] as int + s[at + 1] as int * 0x100 + s[at + 2] as int * 0x1_0000 + s[at + 3] as int * 0x100_0000
  }

  // ---------- the patched bits ----------

  datatype Kind = Branch | Jump

  /** The target bits cleared, then the displacement's put in. */
  function PatchB(w: int, delta: int): int {
    w - Field(w, P25, 128) * P25 - Field(w, P7, 32) * P7 +
    Field(delta, 4096, 2) * P31 + Field(delta, 32, 64) * P25 + Field(delta, 2, 16) * P8 + Field(delta, 2048, 2) * P7
  }

  function PatchJ(w: int, delta: int): int {
    w % P12 + Field(delta, P20, 2) * P31 + Field(delta, 2, 1024) * P21 + Field(delta, 2048, 2) * P20 + Field(delta,
      4096, 256) * P12
  }

  function PatchWord(kind: Kind, w: int, delta: int): int
      { if kind.Branch? then PatchB(w, delta) else PatchJ(w, delta) }

  predicate InRange(kind: Kind, delta: int) {
    if kind.Branch? then -4096 <= delta < 4096 else -0x10_0000 <= delta < 0x10_0000
  }

  /** Patching an unresolved branch gives the instruction encoded with its
      displacement in the first place. */
  lemma PatchIsEncodeB(delta: int, rs2: int, rs1: int, f3: int)
    requires Reg(rs1) && Reg(rs2) && 0 <= f3 < 8
    ensures PatchB(EncB(0, rs2, rs1, f3), delta) == EncB(delta, rs2, rs1, f3)
  {
    EncBFields(0, rs2, rs1, f3);
    var w := EncB(0, rs2, rs1, f3);
    assert w == rs2 * P20 + rs1 * P15 + f3 * P12 + 0x63;
    Unpack(w, 0x63, P7, 0, 32, rs2 * 256 + rs1 * 8 + f3);
    Unpack(w, w, P25, 0, 128, 0);
  }

  lemma PatchIsEncodeJ(delta: int, rd: int)
    requires Reg(rd)
    ensures PatchJ(EncJ(0, rd), delta) == EncJ(delta, rd)
  {
    assert EncJ(0, rd) == rd * P7 + 0x6F;
  }

  /** An unresolved instruction as the assembler emits it. */
  datatype Unresolved = UB(rs2: int, rs1: int, f3: int) | UJ(rd: int)

  predicate WellFormed(u: Unresolved) {
    match u
    case UB(rs2, rs1, f3) => Reg(rs2) && Reg(rs1) && 0 <= f3 < 8
    case UJ(rd) => Reg(rd)
  }

  function KindOf(u: Unresolved): Kind { if u.UB? then Branch else Jump }

  function Encode(u: Unresolved, delta: int): int {
    match u
    case UB(rs2, rs1, f3) => EncB(delta, rs2, rs1, f3)
    case UJ(rd) => EncJ(delta, rd)
  }

  /** Where the hardware goes from the instruction. */
  function Displacement(u: Unresolved, w: int): int { if u.UB? then ImmB(w) else ImmJ(w) }

  lemma PatchedReachesTarget(u: Unresolved, delta: int)
    requires WellFormed(u) && delta % 2 == 0 && InRange(KindOf(u), delta)
    ensures PatchWord(KindOf(u), Encode(u, 0), delta) == Encode(u, delta)
    ensures Displacement(u, Encode(u, delta)) == delta && 0 <= Encode(u, delta) < TWO32
    ensures Opcode(Encode(u, delta)) == Opcode(Encode(u, 0))
    ensures match u
            case UB(rs2, rs1, f3) => var w := Encode(u, delta); Rs1(w) == rs1 && Rs2(w) == rs2 && Funct3(w) == f3
            case UJ(rd) => Rd(Encode(u, delta)) == rd
  {
    match u
    case UB(rs2, rs1, f3) =>
      PatchIsEncodeB(delta, rs2, rs1, f3);
      ImmBExact(delta, rs2, rs1, f3);
      EncBFields(delta, rs2, rs1, f3);
      EncBFields(0, rs2, rs1, f3);
    case UJ(rd) =>
      PatchIsEncodeJ(delta, rd);
      ImmJExact(delta, rd);
      EncJFields(delta, rd);
      EncJFields(0, rd);
  }

  // ---------- resolving ----------

  datatype Fixup = Fixup(offset: nat, ins: Unresolved, target: string)

  datatype Label = Label(inText: bool, offset: nat)

  datatype Outcome = Resolved | Undefined(k: nat) | Misaligned(k: nat) | OutOfRange(k: nat)

  function Delta(f: Fixup, labels: map<string, Label>): int
    requires f.target in labels
  {
    labels[f.target].offset - f.offset
  }

  /** What a fixup meets: its label missing, an odd or far displacement, or nothing wrong. */
  function Check(f: Fixup, k: nat, labels: map<string, Label>): Outcome {
    if f.target !in labels || !labels[f.target].inText then Undefined(k)
    else if Delta(f, labels) % 2 != 0 then Misaligned(k)
    else if !InRange(KindOf(f.ins), Delta(f, labels)) then OutOfRange(k)
    else Resolved
  }

  /** The fixups are distinct instructions inside the section, not yet resolved. */
  predicate Pending(s: seq<Byte>, fixups: seq<Fixup>) {
    (forall k :: 0 <= k < |fixups| ==>
      fixups[k].offset + 4 <= |s| && WellFormed(fixups[k].ins) &&
      WordAt(s, fixups[k].offset) == Encode(fixups[k].ins, 0)) &&
    forall j, k :: 0 <= j < k < |fixups| ==>
      fixups[j].offset + 4 <= fixups[k].offset || fixups[k].offset + 4 <= fixups[j].offset
  }

  /** The first fixup that cannot be resolved, and why. */
  predicate FirstFault(fixups: seq<Fixup>, labels: map<string, Label>, r: Outcome)
    requires r != Resolved
  {
    r.k < |fixups| && r == Check(fixups[r.k], r.k, labels) && forall j :: 0 <= j < r.k ==>
      Check(fixups[j], j, labels) == Resolved
  }

  predicate Touched(fixups: seq<Fixup>, n: nat, b: int)
    requires n <= |fixups|
  {
    exists k :: 0 <= k < n && fixups[k].offset <= b < fixups[k].offset + 4
  }

  lemma SplitWord(w: int)
    requires 0 <= w < TWO32
    ensures w == w % 256 + w / 256 % 256 * 0x100 + w / 0x1_0000 % 256 * 0x1_0000 + w / 0x100_0000 % 256 * 0x100_0000
  {
    var a := w / 256;
    var b := a / 256;
    assert w / 0x1_0000 == b && w / 0x100_0000 == b / 256;
    assert w == a * 256 + w % 256 && a == b * 256 + a % 256 && b == b / 256 * 256 + b % 256 && b / 256 % 256 == b / 256;
  }

  method StoreWord(text: array<Byte>, at: nat, w: int)
    requires at + 4 <= text.Length && 0 <= w < TWO32
    modifies text
    ensures WordAt(text[..], at) == w
    ensures forall b :: 0 <= b < text.Length && !(at <= b < at + 4) ==> text[b] == old(text[b])
  {
    SplitWord(w);
    text[at] := w % 256;
    text[at + 1] := w / 256 % 256;
    text[at + 2] := w / 0x1_0000 % 256;
    text[at + 3] := w / 0x100_0000 % 256;
  }

  /** After `n` fixups: those instructions hold their displacement, all other bytes are as they were. */
  ghost predicate Patched(start: seq<Byte>, now: seq<Byte>, fixups: seq<Fixup>, labels: map<string, Label>, n: nat)
    requires n <= |fixups| && Pending(start, fixups)
  {
    |now| == |start| &&
    (forall k :: 0 <= k < n ==>
      fixups[k].target in labels && WordAt(now, fixups[k].offset) == Encode(fixups[k].ins, Delta(fixups[k], labels))) &&
    forall b :: 0 <= b < |now| && !Touched(fixups, n, b) ==> now[b] == start[b]
  }

  lemma StartPatched(start: seq<Byte>, fixups: seq<Fixup>, labels: map<string, Label>)
    requires Pending(start, fixups)
    ensures Patched(start, start, fixups, labels, 0)
  {
  }

  /** One more instruction patched. */
  lemma PatchOne(start: seq<Byte>, before: seq<Byte>, now: seq<Byte>, fixups: seq<Fixup>, labels: map<string, Label>,
      i: nat)
    requires i < |fixups| && Pending(start, fixups) && Patched(start, before, fixups, labels, i) && |now| == |before|
    requires fixups[i].target in labels &&
      WordAt(now, fixups[i].offset) == Encode(fixups[i].ins, Delta(fixups[i], labels))
    requires forall b :: 0 <= b < |now| && !(fixups[i].offset <= b < fixups[i].offset + 4) ==> now[b] == before[b]
    ensures Patched(start, now, fixups, labels, i + 1)
  {
    hide Encode;
    OthersKept(fixups, i, before, now);
  }

  /** Whatever was patched so far, only bytes of fixups changed. */
  lemma OnlyFixups(start: seq<Byte>, now: seq<Byte>, fixups: seq<Fixup>, labels: map<string, Label>, n: nat)
    requires n <= |fixups| && Pending(start, fixups) && Patched(start, now, fixups, labels, n)
    ensures |now| == |start| && forall b :: 0 <= b < |now| && !Touched(fixups, |fixups|, b) ==> now[b] == start[b]
  {
    hide Encode, WordAt;
    forall b | 0 <= b < |now| && !Touched(fixups, |fixups|, b) ensures now[b] == start[b] {
      assert !Touched(fixups, n, b);
    }
  }

  /** What success means: each instruction goes to its label. */
  lemma AllReach(start: seq<Byte>, now: seq<Byte>, fixups: seq<Fixup>, labels: map<string, Label>, k: nat)
    requires k < |fixups| && Pending(start, fixups) && Patched(start, now, fixups, labels, |fixups|) &&
      Check(fixups[k], k, labels) == Resolved
    ensures var f, w := fixups[k], WordAt(now, fixups[k].offset);
      f.target in labels && labels[f.target].inText && f.offset + Displacement(f.ins, w) == labels[f.target].offset &&
      Opcode(w) == Opcode(Encode(f.ins, 0))
  {
    hide PatchWord, Encode, Displacement;
    PatchedReachesTarget(fixups[k].ins, Delta(fixups[k], labels));
  }

  lemma BranchHolds(a: int, b: int, c: int, d: int)
    requires 0 <= a < 2 && 0 <= b < 2 && 0 <= c < 64 && 0 <= d < 16
    ensures var x := SignExtend(a * 4096 + b * 2048 + c * 32 + d * 2, 4096); x % 2 == 0 && -4096 <= x < 4096
  {
  }

  lemma JumpHolds(a: int, b: int, c: int, d: int)
    requires 0 <= a < 2 && 0 <= b < 256 && 0 <= c < 2 && 0 <= d < 1024
    ensures var x := SignExtend(a * P20 + b * 4096 + c * 2048 + d * 2, P20); x % 2 == 0 && -P20 <= x < P20
  {
  }

  lemma Bounded(u: Unresolved, w: int)
    ensures Displacement(u, w) % 2 == 0 && InRange(KindOf(u), Displacement(u, w))
  {
    hide Field, SignExtend;
    if u.UB? { BranchHolds(Field(w, P31, 2), Field(w, P7, 2), Field(w, P25, 64), Field(w, P8, 16)); }
    else { JumpHolds(Field(w, P31, 2), Field(w, P12, 256), Field(w, P20, 2), Field(w, P21, 1024)); }
  }

  /** The displacements an instruction of this kind can hold. */
  lemma HoldsIff(u: Unresolved, d: int)
    requires WellFormed(u)
    ensures (exists w :: 0 <= w < TWO32 && Displacement(u, w) == d) <==> d % 2 == 0 && InRange(KindOf(u), d)
  {
    hide Displacement, InRange, Encode, PatchWord;
    if d % 2 == 0 && InRange(KindOf(u), d) {
      PatchedReachesTarget(u, d);
      assert Displacement(u, Encode(u, d)) == d;
    }
    forall w | 0 <= w < TWO32 ensures Displacement(u, w) % 2 == 0 && InRange(KindOf(u), Displacement(u, w)) {
      Bounded(u, w);
    }
  }

  /** A branch or jump is resolved exactly when its label is in this section and some
      instruction of its kind goes there; else the report says what is wrong. */
  lemma ResolvedIff(f: Fixup, k: nat, labels: map<string, Label>)
    requires WellFormed(f.ins)
    ensures var known := f.target in labels && labels[f.target].inText;
      var c := Check(f, k, labels);
      (c == Resolved <==>
        known && exists w :: 0 <= w < TWO32 && f.offset + Displacement(f.ins, w) == labels[f.target].offset) &&
      (c == Undefined(k) <==> !known) &&
      (c == Misaligned(k) <==> known && labels[f.target].offset % 2 != f.offset % 2)
  {
    hide Displacement, InRange;
    if f.target in labels && labels[f.target].inText {
      var d := labels[f.target].offset - f.offset;
      HoldsIff(f.ins, d);
      assert forall w :: Displacement(f.ins, w) == d <==> f.offset + Displacement(f.ins, w) == labels[f.target].offset;
    }
  }

  /** Patch one instruction whose displacement is known to fit. */
  method PatchInstruction(text: array<Byte>, f: Fixup, delta: int)
    requires f.offset + 4 <= text.Length && WellFormed(f.ins) && WordAt(text[..], f.offset) == Encode(f.ins, 0)
    requires delta % 2 == 0 && InRange(KindOf(f.ins), delta)
    modifies text
    ensures WordAt(text[..], f.offset) == Encode(f.ins, delta)
    ensures forall b :: 0 <= b < text.Length && !(f.offset <= b < f.offset + 4) ==> text[b] == old(text[b])
  {
    hide PatchWord, Encode, Displacement;
    PatchedReachesTarget(f.ins, delta);
    var w := WordAt(text[..], f.offset);
    StoreWord(text, f.offset, PatchWord(KindOf(f.ins), w, delta));
  }

  /** Patch every fixup in turn; on success each instruction reaches its label and
      nothing else in the section changed. */
  method ResolveFixups(text: array<Byte>, fixups: seq<Fixup>, labels: map<string, Label>) returns (r: Outcome)
    requires Pending(text[..], fixups)
    modifies text
    ensures r == Resolved <==> forall k :: 0 <= k < |fixups| ==> Check(fixups[k], k, labels) == Resolved
    ensures r != Resolved ==> FirstFault(fixups, labels, r)
    ensures r == Resolved ==> Patched(old(text[..]), text[..], fixups, labels, |fixups|)
    ensures forall b :: 0 <= b < text.Length && !Touched(fixups, |fixups|, b) ==> text[b] == old(text[b])
  {
    hide Encode, Delta, InRange, WordAt, Patched, Touched;
    ghost var start := text[..];
    var i := 0;
    StartPatched(start, fixups, labels);
    while i < |fixups|
      invariant 0 <= i <= |fixups|
      invariant forall k :: 0 <= k < i ==> Check(fixups[k], k, labels) == Resolved
      invariant |text[..]| == |start| && Patched(start, text[..], fixups, labels, i)
    {
      OnlyFixups(start, text[..], fixups, labels, i);
      var f := fixups[i];
      if f.target !in labels || !labels[f.target].inText { return Undefined(i); }
      var delta := Delta(f, labels);
      if delta % 2 != 0 { return Misaligned(i); }
      if !InRange(KindOf(f.ins), delta) { return OutOfRange(i); }
      ghost var before := text[..];
      Untouched(fixups, labels, i, before, start);
      PatchInstruction(text, f, delta);
      PatchOne(start, before, text[..], fixups, labels, i);
      i := i + 1;
    }
    OnlyFixups(start, text[..], fixups, labels, i);
    return Resolved;
  }

  /** The next instruction is still as it was emitted. */
  lemma Untouched(fixups: seq<Fixup>, labels: map<string, Label>, i: nat, now: seq<Byte>, start: seq<Byte>)
    requires i < |fixups| && Pending(start, fixups) && Patched(start, now, fixups, labels, i)
    ensures WellFormed(fixups[i].ins) && fixups[i].offset + 4 <= |now|
    ensures WordAt(now, fixups[i].offset) == Encode(fixups[i].ins, 0)
  {
    var at := fixups[i].offset;
    forall b | at <= b < at + 4 ensures now[b] == start[b] { assert !Touched(fixups, i, b); }
  }

  /** Writing one instruction leaves the earlier ones alone. */
  lemma OthersKept(fixups: seq<Fixup>, i: nat, before: seq<Byte>, now: seq<Byte>)
    requires i < |fixups| && |now| == |before|
    requires forall k :: 0 <= k < |fixups| ==> fixups[k].offset + 4 <= |now|
    requires forall j, k :: 0 <= j < k < |fixups| ==>
      fixups[j].offset + 4 <= fixups[k].offset || fixups[k].offset + 4 <= fixups[j].offset
    requires forall b :: 0 <= b < |now| && !(fixups[i].offset <= b < fixups[i].offset + 4) ==> now[b] == before[b]
    ensures forall k :: 0 <= k < i ==> WordAt(now, fixups[k].offset) == WordAt(before, fixups[k].offset)
    ensures forall b :: 0 <= b < |now| && !Touched(fixups, i + 1, b) ==> now[b] == before[b] && !Touched(fixups, i, b)
  {
    forall b | 0 <= b < |now| && !Touched(fixups, i + 1, b) ensures now[b] == before[b] && !Touched(fixups, i, b) {
      assert !(fixups[i].offset <= b < fixups[i].offset + 4);
    }
  }
}
