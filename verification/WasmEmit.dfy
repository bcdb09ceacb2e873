/** The WebAssembly backend's function bodies (src/emit_wasm.c, emit_instr,
    emit_phi_moves, emit_func_body): every block becomes one `if` in a dispatch
    loop over a program-counter local. */
module WasmEmit {
  import opened Bits
  import opened Ir
  import opened Wasm

  const MAX_REGS := 4096

  /** Types of registers, as far as the fixed-size table reaches. */
  type RegTypes = map<nat, Ty>

  function DefTy(i: Instr): Ty
    requires !IsTerminator(i)
  {
    match i
    case Const(_, _) => Int
    case ConstBool(_, _) => Bool
    case Bin(_, op, _, _) => if op.Add? || op.Sub? || op.Mul? then Int else Bool
    case Un(_, op, _) => if op.Neg? then Int else Bool
    case Copy(_, _) => Int
  }

  function Note(rt: RegTypes, r: nat, t: Ty): RegTypes { if r < MAX_REGS then rt[r := t] else rt }

  function NotePhis(rt: RegTypes, phis: seq<Phi>): RegTypes
    decreases phis
  {
    if phis == [] then rt else NotePhis(Note(rt, phis[0].dst, phis[0].ty), phis[1..])
  }

  function NoteInstrs(rt: RegTypes, instrs: seq<Instr>): RegTypes
    decreases instrs
  {
    if instrs == [] then rt
    else NoteInstrs(if IsTerminator(instrs[0]) then rt else Note(rt, instrs[0].dst, DefTy(instrs[0])), instrs[1..])
  }

  function NoteBlocks(rt: RegTypes, blocks: seq<Block>): RegTypes
    decreases blocks
  {
    if blocks == [] then rt else NoteBlocks(NoteInstrs(NotePhis(rt, blocks[0].phis), blocks[0].instrs), blocks[1..])
  }

  function NoteParams(rt: RegTypes, k: nat, params: seq<Ty>): RegTypes
    decreases params
  {
    if params == [] then rt else NoteParams(rt[k := params[0]], k + 1, params[1..])
  }

  function BuildRegTypes(f: Func, params: seq<Ty>): RegTypes { NoteBlocks(NoteParams(map[], 0, params), f.blocks) }

  /** Registers beyond the table count as 64-bit integers. */
  function TyOf(rt: RegTypes, r: nat): Ty { if r in rt then rt[r] else Int }

  /** What the backend takes the registers of a function for. */
  function FuncTypes(f: Func, params: seq<Ty>): RegTypes {
    var rt := BuildRegTypes(f, params);
    map r: nat | r < f.nextReg :: TyOf(rt, r)
  }

  /** The type a comparison works at comes from whichever operand the table knows. */
  function OperandTy(rt: RegTypes, a: nat, b: nat): Ty { if a in rt then rt[a] else TyOf(rt, b) }

  function CompareOpcode(op: BinOp, t: Ty): nat {
    match op
    case CmpEq => if t.Int? then 0x51 else 0x46
    case CmpNe => if t.Int? then 0x52 else 0x47
    case CmpLt => if t.Int? then 0x53 else 0x48
    case CmpLe => if t.Int? then 0x57 else 0x4C
    case CmpGt => if t.Int? then 0x55 else 0x4A
    case _ => if t.Int? then 0x59 else 0x4E
  }

  function BinOpcode(op: BinOp, t: Ty): nat {
    match op
    case Add => 0x7C
    case Sub => 0x7D
    case Mul => 0x7E
    case And => 0x71
    case Or => 0x72
    case _ => CompareOpcode(op, t)
  }

  function EmitInstr(i: Instr, rt: RegTypes): seq<W> {
    match i
    case Const(d, n) => [Const64(n), Set(d)]
    case ConstBool(d, flag) => [Const32(if flag then 1 else 0), Set(d)]
    case Bin(d, op, a, b) => [Get(a), Get(b), Num(BinOpcode(op, OperandTy(rt, a, b))), Set(d)]
    case Un(d, op, a) =>
      if op.Neg? then [Const64(0), Get(a), Num(0x7D), Set(d)] else [Get(a), Const32(1), Num(0x73), Set(d)]
    case Copy(d, a) => [Get(a), Set(d)]
    case Ret(a) => [Get(a), Return]
    case Br(_) => []
    case Cbr(_, _, _) => []
  }

  function EmitInstrs(instrs: seq<Instr>, rt: RegTypes): seq<W>
    decreases instrs
  {
    if instrs == [] then [] else EmitInstr(instrs[0], rt) + EmitInstrs(instrs[1..], rt)
  }

  function EmitMoves(moves: seq<Move>): seq<W>
    decreases moves
  {
    if moves == [] then [] else [Get(moves[0].src), Set(moves[0].dst)] + EmitMoves(moves[1..])
  }

  /** The phi copies of the target on the edge from `src`. */
  function EmitPhiMoves(f: Func, src: nat, target: nat): seq<W> {
    if target >= |f.blocks| then [] else EmitMoves(Moves(f.blocks[target].phis, src))
  }

  function GoTo(f: Func, src: nat, target: nat): seq<W> {
    EmitPhiMoves(f, src, target) + [Const32(target), Set(f.nextReg)]
  }

  function EmitTerm(f: Func, src: nat, i: Instr): seq<W> {
    match i
    case Br(t) => GoTo(f, src, t) + [Escape(1)]
    case Cbr(c, t, e) => [Get(c), If(GoTo(f, src, t), GoTo(f, src, e)), Escape(1)]
    case _ => []
  }

  function EmitTerms(f: Func, src: nat, instrs: seq<Instr>): seq<W>
    decreases instrs
  {
    if instrs == [] then [] else EmitTerm(f, src, instrs[0]) + EmitTerms(f, src, instrs[1..])
  }

  predicate HasTerminator(b: Block) { exists i :: 0 <= i < |b.instrs| && IsTerminator(b.instrs[i]) }

  function EmitBlock(f: Func, rt: RegTypes, b: nat): seq<W>
    requires b < |f.blocks|
  {
    EmitInstrs(f.blocks[b].instrs, rt) + EmitTerms(f, b, f.blocks[b].instrs)
  }

  /** One case of the dispatch: `if $pc == b { … }`. */
  function EmitCase(f: Func, rt: RegTypes, b: nat): seq<W>
    requires b < |f.blocks|
  {
    [Get(f.nextReg), Const32(b), Num(0x46), If(EmitBlock(f, rt, b), [])]
  }

  function EmitCases(f: Func, rt: RegTypes, b: nat): seq<W>
    requires b <= |f.blocks|
    decreases |f.blocks| - b
  {
    if b == |f.blocks| then [] else EmitCase(f, rt, b) + EmitCases(f, rt, b + 1)
  }

  datatype Result = Code(code: seq<W>) | MayFallOffTheEnd

  /** The body of a value-returning function; a block without a terminator is an error. */
  function EmitFuncBody(f: Func, params: seq<Ty>): Result {
    if exists b :: 0 <= b < |f.blocks| && !HasTerminator(f.blocks[b]) then MayFallOffTheEnd
    else Code([Const32(0), Set(f.nextReg), Loop(EmitCases(f, BuildRegTypes(f, params), 0)), Unreachable])
  }

  /** Local types: parameters, one local per other register, then the program counter. */
  function LocalTypes(f: Func, params: seq<Ty>): seq<Ty>
    requires |params| <= f.nextReg
  {
    var rt := BuildRegTypes(f, params);
    params + seq(f.nextReg - |params|, i requires 0 <= i < f.nextReg - |params| => TyOf(rt, |params| + i)) + [Bool]
  }
}
