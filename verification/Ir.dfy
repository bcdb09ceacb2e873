/** The SSA intermediate representation (include/ir.h, src/ir.c): values,
    instructions, blocks with phis, and what running a function means. */
module Ir {
  import opened Bits

  datatype Ty = Int | Bool

  datatype BinOp = Add | Sub | Mul | CmpEq | CmpNe | CmpLt | CmpLe | CmpGt | CmpGe | And | Or

  datatype UnOp = Neg | Not

  datatype Instr =
    | Const(dst: nat, imm: int)
    | ConstBool(dst: nat, flag: bool)
    | Bin(dst: nat, op: BinOp, a: nat, b: nat)
    | Un(dst: nat, uop: UnOp, a: nat)
    | Copy(dst: nat, a: nat)
    | Br(target: nat)
    | Cbr(cond: nat, thn: nat, els: nat)
    | Ret(a: nat)

  predicate IsTerminator(i: Instr) { i.Br? || i.Cbr? || i.Ret? }

  /** A phi argument: the register read when control comes from block `pred`. */
  datatype PhiArg = PhiArg(reg: nat, pred: nat)

  datatype Phi = Phi(dst: nat, ty: Ty, args: seq<PhiArg>)

  datatype Block = Block(phis: seq<Phi>, instrs: seq<Instr>)

  /** A function as its blocks' contents. */
  datatype Func = Func(blocks: seq<Block>, nextReg: nat)

  // ---------- building ----------

  function EmitInto(f: Func, b: nat, i: Instr): Func
    requires b < |f.blocks|
  {
    f.(blocks := f.blocks[b := f.blocks[b].(instrs := f.blocks[b].instrs + [i])])
  }

  function EmitPhi(f: Func, b: nat, p: Phi): Func
    requires b < |f.blocks|
  {
    f.(blocks := f.blocks[b := f.blocks[b].(phis := f.blocks[b].phis + [p])])
  }

  function AddBlock(f: Func): Func { f.(blocks := f.blocks + [Block([], [])]) }

  function NewReg(f: Func): Func { f.(nextReg := f.nextReg + 1) }

  // ---------- running ----------

  /** Registers; one never written reads as zero. */
  type Regs = map<nat, int>

  function Read(regs: Regs, r: nat): int { if r in regs then regs[r] else 0 }

  function Truth(b: bool): int { if b then 1 else 0 }

  /** Machine meaning of the operators: 64-bit wrap-around for arithmetic, bitwise
      32-bit operations for the logical ones. */
  function BinValue(op: BinOp, x: int, y: int): int {
    match op
    case Add => Wrap64(x + y)
    case Sub => Wrap64(x - y)
    case Mul => Wrap64(x * y)
    case CmpEq => Truth(x == y)
    case CmpNe => Truth(x != y)
    case CmpLt => Truth(x < y)
    case CmpLe => Truth(x <= y)
    case CmpGt => Truth(x > y)
    case CmpGe => Truth(x >= y)
    case And => BitAnd(x % TWO32, y % TWO32)
    case Or => BitOr(x % TWO32, y % TWO32)
  }

  function UnValue(op: UnOp, x: int): int {
    match op
    case Neg => Wrap64(0 - x)
    case Not => BitXor(x % TWO32, 1)
  }

  /** A register copy `dst := src` made when an edge is taken. */
  datatype Move = Move(dst: nat, src: nat)

  /** The copies the phis of a block ask for on the edge from `pred`. */
  function ArgMoves(dst: nat, args: seq<PhiArg>, pred: nat): seq<Move> {
    if args == [] then []
    else (if args[0].pred == pred then [Move(dst, args[0].reg)] else []) + ArgMoves(dst, args[1..], pred)
  }

  function Moves(phis: seq<Phi>, pred: nat): seq<Move> {
    if phis == [] then [] else ArgMoves(phis[0].dst, phis[0].args, pred) + Moves(phis[1..], pred)
  }

  /** Phis take effect together: every source is read in `before`. */
  function Parallel(moves: seq<Move>, before: Regs, regs: Regs): Regs {
    if moves == [] then regs
    else Parallel(moves[1..], before, regs[moves[0].dst := Read(before, moves[0].src)])
  }

  datatype State = At(block: nat, index: nat, regs: Regs) | Done(v: int) | Stuck

  function Jump(f: Func, pred: nat, target: nat, regs: Regs): State {
    if target < |f.blocks| then At(target, 0, Parallel(Moves(f.blocks[target].phis, pred), regs, regs)) else Stuck
  }

  /** Effect of a non-terminator. */
  function Exec(i: Instr, regs: Regs): Regs
    requires !IsTerminator(i)
  {
    match i
    case Const(d, n) => regs[d := n]
    case ConstBool(d, flag) => regs[d := Truth(flag)]
    case Bin(d, op, a, b) => regs[d := BinValue(op, Read(regs, a), Read(regs, b))]
    case Un(d, op, a) => regs[d := UnValue(op, Read(regs, a))]
    case Copy(d, a) => regs[d := Read(regs, a)]
  }

  function Step(f: Func, s: State): State {
    match s
    case Done(_) => s
    case Stuck => s
    case At(b, i, regs) =>
      if b >= |f.blocks| || i >= |f.blocks[b].instrs| then Stuck
      else
        match f.blocks[b].instrs[i]
        case Br(t) => Jump(f, b, t, regs)
        case Cbr(c, t, e) => Jump(f, b, if Read(regs, c) != 0 then t else e, regs)
        case Ret(a) => Done(Read(regs, a))
        case ins => At(b, i + 1, Exec(ins, regs))
  }

  function Steps(f: Func, s: State, n: nat): State
    decreases n
  {
    if n == 0 then s else Steps(f, Step(f, s), n - 1)
  }

  lemma {:induction false} StepsAdd(f: Func, s: State, m: nat, n: nat)
    ensures Steps(f, s, m + n) == Steps(f, Steps(f, s, m), n)
    decreases m
  {
    if m > 0 { StepsAdd(f, Step(f, s), m - 1, n); }
  }
}
