/** The dispatch loop simulates the control-flow graph: each pass over it runs one
    block of the function, phi copies included. */
module WasmCorrect {
  import opened Bits
  import opened Ir
  import opened IrFunction
  import opened Wasm
  import opened WasmEmit

  // ---------- sequential and simultaneous copies ----------

  /** Copies one after the other, as the emitted code makes them. */
  function Sequential(moves: seq<Move>, regs: Regs): Regs
    decreases moves
  {
    if moves == [] then regs
    else Sequential(moves[1..], regs[moves[0].dst := Read(regs, moves[0].src)])
  }

  /** No copy reads what an earlier one has overwritten with something else. */
  predicate NoClobber(moves: seq<Move>) {
    forall i, j :: 0 <= i < j < |moves| && moves[j].src == moves[i].dst ==> moves[i].src == moves[i].dst
  }

  predicate DistinctTargets(moves: seq<Move>) {
    forall i, j :: 0 <= i < j < |moves| ==> moves[i].dst != moves[j].dst
  }

  lemma {:induction false} SequentialIsParallel(moves: seq<Move>, before: Regs, regs: Regs)
    requires NoClobber(moves) && forall j :: 0 <= j < |moves| ==> Read(regs, moves[j].src) == Read(before, moves[j].src)
    ensures Sequential(moves, regs) == Parallel(moves, before, regs)
    decreases moves
  {
    if moves != [] {
      var m, rest := moves[0], moves[1..];
      var regs1 := regs[m.dst := Read(regs, m.src)];
      forall j | 0 <= j < |rest| ensures Read(regs1, rest[j].src) == Read(before, rest[j].src) {
        assert rest[j] == moves[j + 1];
      }
      forall i, j | 0 <= i < j < |rest| && rest[j].src == rest[i].dst ensures rest[i].src == rest[i].dst {
        assert rest[i] == moves[i + 1] && rest[j] == moves[j + 1];
      }
      SequentialIsParallel(rest, before, regs1);
    }
  }

  /** With distinct targets, each target ends with what its own copy read. */
  lemma {:induction false} ParallelTarget(moves: seq<Move>, before: Regs, regs: Regs, j: nat)
    requires DistinctTargets(moves) && j < |moves|
    ensures Read(Parallel(moves, before, regs), moves[j].dst) == Read(before, moves[j].src)
    decreases moves
  {
    var regs1 := regs[moves[0].dst := Read(before, moves[0].src)];
    if j == 0 {
      ParallelOther(moves[1..], before, regs1, moves[0].dst);
    } else {
      ParallelTarget(moves[1..], before, regs1, j - 1);
    }
  }

  lemma {:induction false} ParallelOther(moves: seq<Move>, before: Regs, regs: Regs, r: nat)
    requires forall j :: 0 <= j < |moves| ==> moves[j].dst != r
    ensures Read(Parallel(moves, before, regs), r) == Read(regs, r)
    decreases moves
  {
    if moves != [] { ParallelOther(moves[1..], before, regs[moves[0].dst := Read(before, moves[0].src)], r); }
  }

  lemma {:induction false} SequentialOther(moves: seq<Move>, regs: Regs, r: nat)
    requires forall j :: 0 <= j < |moves| ==> moves[j].dst != r
    ensures Read(Sequential(moves, regs), r) == Read(regs, r)
    decreases moves
  {
    if moves != [] { SequentialOther(moves[1..], regs[moves[0].dst := Read(regs, moves[0].src)], r); }
  }

  /** A chain of copies up to `j`, none of which clobbers an earlier one's source
      before `j` reads the target of copy `i`. */
  lemma {:induction false} SequentialAt(moves: seq<Move>, regs: Regs, i: nat, j: nat)
    requires DistinctTargets(moves) && i < j < |moves| && moves[j].src == moves[i].dst
    requires NoClobber(moves[..j])
    ensures Read(Sequential(moves, regs), moves[j].dst) == Read(regs, moves[i].src)
  {
    var pre, post := moves[..j], moves[j..];
    SequentialSplit(pre, post, regs);
    assert pre + post == moves;
    var mid := Sequential(pre, regs);
    SequentialIsParallel(pre, regs, regs);
    ParallelTarget(pre, regs, regs, i);
    assert pre[i] == moves[i] && post[0] == moves[j];
    forall k | 0 <= k < |post[1..]| ensures post[1..][k].dst != moves[j].dst {
      assert post[1..][k] == moves[j + 1 + k];
    }
    SequentialOther(post[1..], mid[moves[j].dst := Read(mid, moves[j].src)], moves[j].dst);
  }

  lemma {:induction false} SequentialSplit(a: seq<Move>, b: seq<Move>, regs: Regs)
    ensures Sequential(a + b, regs) == Sequential(b, Sequential(a, regs))
    decreases a
  {
    if a == [] {
      assert a + b == b;
    } else {
      assert (a + b)[0] == a[0] && (a + b)[1..] == a[1..] + b;
      SequentialSplit(a[1..], b, regs[a[0].dst := Read(regs, a[0].src)]);
    }
  }

  /** The first clobbered copy. */
  lemma {:induction false} FirstClobber(moves: seq<Move>) returns (i: nat, j: nat)
    requires !NoClobber(moves)
    ensures i < j < |moves| && moves[j].src == moves[i].dst && moves[i].src != moves[i].dst && NoClobber(moves[..j])
    decreases |moves|
  {
    var last := |moves| - 1;
    if NoClobber(moves[..last]) {
      var a, b :| 0 <= a < b < |moves| && moves[b].src == moves[a].dst && moves[a].src != moves[a].dst;
      assert b == last;
      i, j := a, b;
    } else {
      i, j := FirstClobber(moves[..last]);
      assert moves[..last][..j] == moves[..j];
    }
  }

  /** Copying one after the other equals copying at once, whatever the registers
      hold, exactly when no copy reads an overwritten register. */
  lemma SequentialIff(moves: seq<Move>)
    requires DistinctTargets(moves)
    ensures NoClobber(moves) <==>
      forall regs: Regs, r: nat :: Read(Sequential(moves, regs), r) == Read(Parallel(moves, regs, regs), r)
  {
    if NoClobber(moves) {
      forall regs: Regs, r: nat ensures Read(Sequential(moves, regs), r) == Read(Parallel(moves, regs, regs), r) {
        SequentialIsParallel(moves, regs, regs);
      }
    } else {
      var i, j := FirstClobber(moves);
      var regs: Regs := map[moves[i].src := 1, moves[i].dst := 0];
      SequentialAt(moves, regs, i, j);
      ParallelTarget(moves, regs, regs, j);
      assert Read(Sequential(moves, regs), moves[j].dst) != Read(Parallel(moves, regs, regs), moves[j].dst);
    }
  }

  // ---------- registers and locals ----------

  function Box(t: Ty, n: int): Val { if t.Int? then V64(n) else V32(n) }

  predicate Fits(t: Ty, n: int) { if t.Int? then -TWO63 <= n < TWO63 else 0 <= n <= 1 }

  predicate Has(rt: RegTypes, r: nat, t: Ty) { r in rt && rt[r] == t }

  /** The instruction is used at the types the table records. */
  predicate InstrTyped(i: Instr, rt: RegTypes) {
    match i
    case Const(d, n) => Has(rt, d, Int) && Fits(Int, n)
    case ConstBool(d, _) => Has(rt, d, Bool)
    case Bin(d, op, a, b) =>
      Has(rt, d, DefTy(i)) && a in rt && b in rt && rt[a] == rt[b] &&
      (op.Add? || op.Sub? || op.Mul? ==> rt[a] == Int) && (op.And? || op.Or? ==> rt[a] == Bool)
    case Un(d, op, a) => Has(rt, d, DefTy(i)) && Has(rt, a, DefTy(i))
    case Copy(d, a) => Has(rt, d, Int) && Has(rt, a, Int)
    case Br(_) => true
    case Cbr(c, _, _) => Has(rt, c, Bool)
    case Ret(a) => a in rt
  }

  predicate PhiTyped(p: Phi, rt: RegTypes) {
    Has(rt, p.dst, p.ty) && forall k :: 0 <= k < |p.args| ==> Has(rt, p.args[k].reg, p.ty)
  }

  predicate BlockTyped(b: Block, rt: RegTypes) {
    (forall k :: 0 <= k < |b.instrs| ==> InstrTyped(b.instrs[k], rt)) &&
    forall k :: 0 <= k < |b.phis| ==> PhiTyped(b.phis[k], rt)
  }

  /** A function the backend can translate: typed, returning `ret`, every block
      closed and branching inside the function, copies on every edge in an order
      that does not clobber. */
  ghost predicate Ready(f: Func, rt: RegTypes, ret: Ty) {
    (forall r :: r in rt ==> r < f.nextReg) &&
    (forall b :: 0 <= b < |f.blocks| ==> Closed(f.blocks[b]) && BlockTyped(f.blocks[b], rt)) &&
    (forall b :: 0 <= b < |f.blocks| ==> LastOk(f.blocks[b].instrs[|f.blocks[b].instrs| - 1], |f.blocks|, rt, ret)) &&
    (forall b, p: nat :: 0 <= b < |f.blocks| ==> NoClobber(Moves(f.blocks[b].phis, p)))
  }

  predicate LastOk(i: Instr, blocks: nat, rt: RegTypes, ret: Ty) {
    match i
    case Br(t) => t < blocks
    case Cbr(_, t, e) => t < blocks && e < blocks
    case Ret(a) => Has(rt, a, ret)
    case _ => true
  }

  predicate Held(regs: Regs, rt: RegTypes) { forall r :: r in rt ==> Fits(rt[r], Read(regs, r)) }

  /** Locals hold the registers, at their types, and the program counter. */
  predicate Rel(regs: Regs, l: Locals, rt: RegTypes, pc: nat) {
    (forall r :: r in rt ==> r < pc && r in l && l[r] == Box(rt[r], Read(regs, r))) && pc in l && l[pc].V32?
  }

  lemma RelSet(regs: Regs, l: Locals, rt: RegTypes, pc: nat, d: nat, t: Ty, n: int)
    requires Rel(regs, l, rt, pc) && Held(regs, rt) && Has(rt, d, t) && Fits(t, n)
    ensures d in l && l[d].V64? == t.Int?
    ensures Rel(regs[d := n], l[d := Box(t, n)], rt, pc) && Held(regs[d := n], rt)
    ensures l[d := Box(t, n)][pc] == l[pc]
  {
  }

  lemma BitBounds(x: nat, y: nat)
    requires x <= 1 && y <= 1
    ensures 0 <= BitAnd(x, y) <= 1 && 0 <= BitOr(x, y) <= 1 && 0 <= BitXor(x, y) <= 1
  {
    assert BitAnd(0, 0) == 0 && BitOr(0, 0) == 0 && BitXor(0, 0) == 0;
    assert BitAnd(1, 1) == 1 && BitOr(1, 1) == 1 && BitXor(1, 1) == 0;
    assert BitOr(0, 1) == 1 && BitOr(1, 0) == 1 && BitXor(0, 1) == 1 && BitXor(1, 0) == 1;
  }

  /** The opcode chosen for a binary operation computes the operation. */
  lemma BinCode(op: BinOp, t: Ty, x: int, y: int)
    requires Fits(t, x) && Fits(t, y) && (op.Add? || op.Sub? || op.Mul? ==> t == Int) &&
      (op.And? || op.Or? ==> t == Bool)
    ensures var d := if op.Add? || op.Sub? || op.Mul? then Int else Bool;
      NumValue(BinOpcode(op, t), Box(t, x), Box(t, y)) == [Box(d, BinValue(op, x, y))] && Fits(d, BinValue(op, x, y))
  {
    if t == Bool { BitBounds(x, y); }
  }

  lemma ValueFits(i: Instr, rt: RegTypes, regs: Regs)
    requires !IsTerminator(i) && InstrTyped(i, rt) && Held(regs, rt)
    ensures Fits(DefTy(i), Read(Ir.Exec(i, regs), i.dst))
  {
    match i
    case Bin(_, op, a, b) => BinCode(op, rt[a], Read(regs, a), Read(regs, b));
    case Un(_, op, a) => if op.Not? { BitBounds(Read(regs, a), 1); }
    case _ =>
  }

  lemma BinRuns(i: Instr, rt: RegTypes, regs: Regs, l: Locals, pc: nat, fuel: nat)
    requires i.Bin? && InstrTyped(i, rt) && Rel(regs, l, rt, pc) && Held(regs, rt)
    ensures Wasm.Exec(EmitInstr(i, rt), l, [], fuel) == Next(l[i.dst := Box(DefTy(i), Read(Ir.Exec(i, regs), i.dst))],
      [])
  {
    BinCode(i.op, rt[i.a], Read(regs, i.a), Read(regs, i.b));
    RunFour(Get(i.a), Get(i.b), BinOpcode(i.op, OperandTy(rt, i.a, i.b)), i.dst, l, l[i.a], l[i.b],
            Box(DefTy(i), Read(Ir.Exec(i, regs), i.dst)), fuel);
  }

  lemma UnRuns(i: Instr, rt: RegTypes, regs: Regs, l: Locals, pc: nat, fuel: nat)
    requires i.Un? && InstrTyped(i, rt) && Rel(regs, l, rt, pc) && Held(regs, rt)
    ensures Wasm.Exec(EmitInstr(i, rt), l, [], fuel) == Next(l[i.dst := Box(DefTy(i), Read(Ir.Exec(i, regs), i.dst))],
      [])
  {
    var v := Box(DefTy(i), Read(Ir.Exec(i, regs), i.dst));
    if i.uop.Neg? {
      RunFour(Const64(0), Get(i.a), 0x7D, i.dst, l, V64(0), l[i.a], v, fuel);
    } else {
      BitBounds(Read(regs, i.a), 1);
      RunFour(Get(i.a), Const32(1), 0x73, i.dst, l, l[i.a], V32(1), v, fuel);
    }
  }

  /** One instruction's code computes what the instruction does and leaves the stack empty. */
  lemma InstrRuns(i: Instr, rt: RegTypes, regs: Regs, l: Locals, pc: nat, fuel: nat) returns (l1: Locals)
    requires !IsTerminator(i) && InstrTyped(i, rt) && Rel(regs, l, rt, pc) && Held(regs, rt)
    ensures Wasm.Exec(EmitInstr(i, rt), l, [], fuel) == Next(l1, [])
    ensures Rel(Ir.Exec(i, regs), l1, rt, pc) && Held(Ir.Exec(i, regs), rt) && l1[pc] == l[pc]
  {
    var d, t, v := i.dst, DefTy(i), Read(Ir.Exec(i, regs), i.dst);
    ValueFits(i, rt, regs);
    RelSet(regs, l, rt, pc, d, t, v);
    assert Ir.Exec(i, regs) == regs[d := v];
    l1 := l[d := Box(t, v)];
    match i
    case Const(_, n) => RunTwo(Const64(n), d, l, Box(t, v), fuel);
    case ConstBool(_, flag) => RunTwo(Const32(if flag then 1 else 0), d, l, Box(t, v), fuel);
    case Copy(_, a) => RunTwo(Get(a), d, l, Box(t, v), fuel);
    case Bin(_, _, _, _) => BinRuns(i, rt, regs, l, pc, fuel);
    case Un(_, _, _) => UnRuns(i, rt, regs, l, pc, fuel);
  }

  lemma RunTwo(push: W, d: nat, l: Locals, v: Val, fuel: nat)
    requires !push.If? && !push.Loop? && Simple(push, l, []) == Next(l, [v]) && d in l && l[d].V64? == v.V64?
    ensures Wasm.Exec([push, Set(d)], l, [], fuel) == Next(l[d := v], [])
  {
    assert [push, Set(d)] == [push] + [Set(d)] && [Set(d)] == [Set(d)] + [];
    ExecSimple(push, [Set(d)], l, [], fuel);
    ExecSimple(Set(d), [], l, [v], fuel);
  }

  lemma RunFour(p: W, q: W, opcode: nat, d: nat, l: Locals, x: Val, y: Val, v: Val, fuel: nat)
    requires !p.If? && !p.Loop? && Simple(p, l, []) == Next(l, [x])
    requires !q.If? && !q.Loop? && Simple(q, l, [x]) == Next(l, [x, y])
    requires NumValue(opcode, x, y) == [v] && d in l && l[d].V64? == v.V64?
    ensures Wasm.Exec([p, q, Num(opcode), Set(d)], l, [], fuel) == Next(l[d := v], [])
  {
    var c3, c2, c1 := [Set(d)], [Num(opcode), Set(d)], [q, Num(opcode), Set(d)];
    assert [p, q, Num(opcode), Set(d)] == [p] + c1 && c1 == [q] + c2 && c2 == [Num(opcode)] + c3 && c3 == [Set(d)] + [];
    ExecSimple(p, c1, l, [], fuel);
    ExecSimple(q, c2, l, [x], fuel);
    ExecSimple(Num(opcode), c3, l, [x, y], fuel);
    assert [x, y][..0] + [v] == [v];
    ExecSimple(Set(d), [], l, [v], fuel);
  }

  // ---------- blocks ----------

  lemma InstrHasNoLoop(i: Instr, rt: RegTypes)
    ensures forall k :: 0 <= k < |EmitInstr(i, rt)| ==> !EmitInstr(i, rt)[k].Loop?
  {
  }

  /** The code of a straight run followed by `rest`. */
  lemma {:induction false} InstrsRun(instrs: seq<Instr>, tail: seq<Instr>, rt: RegTypes, regs: Regs, l: Locals, pc: nat,
                                     rest: seq<W>, fuel: nat) returns (l1: Locals)
    requires Straight(instrs) && (forall k :: 0 <= k < |instrs| ==> InstrTyped(instrs[k], rt))
    requires Rel(regs, l, rt, pc) && Held(regs, rt)
    ensures Wasm.Exec(EmitInstrs(instrs + tail, rt) + rest, l, [], fuel) == Wasm.Exec(EmitInstrs(tail, rt) + rest, l1,
      [], fuel)
    ensures Rel(ExecAll(instrs, regs), l1, rt, pc) && Held(ExecAll(instrs, regs), rt) && l1[pc] == l[pc]
    decreases instrs
  {
    if instrs == [] {
      assert instrs + tail == tail;
      l1 := l;
    } else {
      var i, more := instrs[0], instrs[1..];
      assert (instrs + tail)[1..] == more + tail;
      var mid := InstrRuns(i, rt, regs, l, pc, fuel);
      InstrHasNoLoop(i, rt);
      var onward := EmitInstrs(more + tail, rt) + rest;
      assert EmitInstrs(instrs + tail, rt) + rest == EmitInstr(i, rt) + onward;
      ExecConcat(EmitInstr(i, rt), onward, l, [], fuel);
      l1 := InstrsRun(more, tail, rt, Ir.Exec(i, regs), mid, pc, rest, fuel);
    }
  }

  // ---------- phi copies and jumps ----------

  predicate MovesTyped(moves: seq<Move>, rt: RegTypes) {
    forall k :: 0 <= k < |moves| ==> moves[k].src in rt && Has(rt, moves[k].dst, rt[moves[k].src])
  }

  lemma {:induction false} ArgMovesTyped(p: Phi, args: seq<PhiArg>, pred: nat, rt: RegTypes)
    requires Has(rt, p.dst, p.ty) && forall k :: 0 <= k < |args| ==> Has(rt, args[k].reg, p.ty)
    ensures MovesTyped(ArgMoves(p.dst, args, pred), rt)
    decreases args
  {
    if args != [] { ArgMovesTyped(p, args[1..], pred, rt); }
  }

  lemma {:induction false} PhiMovesTyped(phis: seq<Phi>, pred: nat, rt: RegTypes)
    requires forall k :: 0 <= k < |phis| ==> PhiTyped(phis[k], rt)
    ensures MovesTyped(Moves(phis, pred), rt)
    decreases phis
  {
    if phis != [] {
      ArgMovesTyped(phis[0], phis[0].args, pred, rt);
      PhiMovesTyped(phis[1..], pred, rt);
    }
  }

  lemma {:induction false} MovesRun(moves: seq<Move>, rest: seq<W>, rt: RegTypes, regs: Regs, l: Locals, pc: nat,
      fuel: nat)
    returns (l1: Locals)
    requires MovesTyped(moves, rt) && Rel(regs, l, rt, pc) && Held(regs, rt)
    ensures Wasm.Exec(EmitMoves(moves) + rest, l, [], fuel) == Wasm.Exec(rest, l1, [], fuel)
    ensures Rel(Sequential(moves, regs), l1, rt, pc) && Held(Sequential(moves, regs), rt) && l1[pc] == l[pc]
    decreases moves
  {
    if moves == [] {
      assert EmitMoves(moves) + rest == rest;
      l1 := l;
    } else {
      var m, more := moves[0], moves[1..];
      var t, v := rt[m.src], Read(regs, m.src);
      RelSet(regs, l, rt, pc, m.dst, t, v);
      RunTwo(Get(m.src), m.dst, l, Box(t, v), fuel);
      assert EmitMoves(moves) + rest == [Get(m.src), Set(m.dst)] + (EmitMoves(more) + rest);
      ExecConcat([Get(m.src), Set(m.dst)], EmitMoves(more) + rest, l, [], fuel);
      l1 := MovesRun(more, rest, rt, regs[m.dst := v], l[m.dst := Box(t, v)], pc, fuel);
    }
  }

  /** Taking an edge: the copies, then the new program counter. */
  lemma GoToRuns(f: Func, src: nat, target: nat, rt: RegTypes, ret: Ty, regs: Regs, l: Locals, fuel: nat)
      returns (l1: Locals)
    requires Ready(f, rt, ret) && target < |f.blocks| && Rel(regs, l, rt, f.nextReg) && Held(regs, rt)
    ensures Wasm.Exec(GoTo(f, src, target), l, [], fuel) == Next(l1, [])
    ensures var next := Jump(f, src, target, regs);
      next == At(target, 0, next.regs) && Rel(next.regs, l1, rt, f.nextReg) && Held(next.regs, rt)
    ensures l1[f.nextReg] == V32(target)
  {
    var moves := Moves(f.blocks[target].phis, src);
    var tail := [Const32(target), Set(f.nextReg)];
    PhiMovesTyped(f.blocks[target].phis, src, rt);
    var mid := MovesRun(moves, tail, rt, regs, l, f.nextReg, fuel);
    assert NoClobber(moves);
    SequentialIsParallel(moves, regs, regs);
    RunTwo(Const32(target), f.nextReg, mid, V32(target), fuel);
    l1 := mid[f.nextReg := V32(target)];
  }

  // ---------- one block ----------

  lemma {:induction false} StraightTerms(f: Func, src: nat, instrs: seq<Instr>, tail: seq<Instr>)
    requires Straight(instrs)
    ensures EmitTerms(f, src, instrs + tail) == EmitTerms(f, src, tail)
    decreases instrs
  {
    if instrs == [] {
      assert instrs + tail == tail;
    } else {
      assert (instrs + tail)[1..] == instrs[1..] + tail;
      StraightTerms(f, src, instrs[1..], tail);
    }
  }

  /** The code of a closed block is its straight part and its terminator's. */
  lemma BlockCode(f: Func, rt: RegTypes, b: nat)
    requires b < |f.blocks| && Closed(f.blocks[b])
    ensures var instrs := f.blocks[b].instrs;
      var last := instrs[|instrs| - 1];
      EmitBlock(f, rt, b) == EmitInstrs(instrs[..|instrs| - 1] + [last], rt) + EmitTerm(f, b, last)
  {
    var instrs := f.blocks[b].instrs;
    var front, last := instrs[..|instrs| - 1], instrs[|instrs| - 1];
    assert instrs == front + [last];
    StraightTerms(f, b, front, [last]);
    assert EmitTerms(f, b, [last]) == EmitTerm(f, b, last) + [] == EmitTerm(f, b, last);
  }

  /** How a piece of code ends, and the state that stands for: it returned the
      value, or it branched out with the locals and program counter of the state. */
  ghost predicate Simulates(o: Outcome, s: State, f: Func, rt: RegTypes, ret: Ty, depth: nat) {
    match s
    case Done(v) => o == Returned(Box(ret, v))
    case At(b, i, regs) =>
      o.Branch? && o.depth == depth && i == 0 && b < |f.blocks| && Held(regs, rt) &&
      Rel(regs, o.after, rt, f.nextReg) && f.nextReg in o.after && o.after[f.nextReg] == V32(b)
    case Stuck => false
  }

  lemma GoToEscapes(f: Func, src: nat, target: nat, rt: RegTypes, ret: Ty, regs: Regs, l: Locals, fuel: nat)
    requires Ready(f, rt, ret) && target < |f.blocks| && Rel(regs, l, rt, f.nextReg) && Held(regs, rt)
    ensures Simulates(Wasm.Exec(GoTo(f, src, target) + [Escape(1)], l, [], fuel), Jump(f, src, target, regs), f, rt,
      ret, 1)
  {
    var l1 := GoToRuns(f, src, target, rt, ret, regs, l, fuel);
    GoToHasNoLoop(f, src, target);
    ExecConcat(GoTo(f, src, target), [Escape(1)], l, [], fuel);
    assert [Escape(1)] == [Escape(1)] + [];
    ExecSimple(Escape(1), [], l1, [], fuel);
  }

  lemma {:induction false} MovesHaveNoLoop(moves: seq<Move>)
    ensures forall k :: 0 <= k < |EmitMoves(moves)| ==> !EmitMoves(moves)[k].Loop?
    decreases moves
  {
    if moves != [] { MovesHaveNoLoop(moves[1..]); }
  }

  lemma GoToHasNoLoop(f: Func, src: nat, target: nat)
    ensures forall k :: 0 <= k < |GoTo(f, src, target)| ==> !GoTo(f, src, target)[k].Loop?
  {
    if target < |f.blocks| { MovesHaveNoLoop(Moves(f.blocks[target].phis, src)); }
  }

  lemma BranchRuns(f: Func, b: nat, i: Instr, rt: RegTypes, ret: Ty, regs: Regs, l: Locals, fuel: nat)
    requires Ready(f, rt, ret) && b < |f.blocks| && i.Cbr? && LastOk(i, |f.blocks|, rt, ret) && InstrTyped(i, rt)
    requires Rel(regs, l, rt, f.nextReg) && Held(regs, rt)
    ensures Simulates(Wasm.Exec(EmitTerm(f, b, i), l, [], fuel),
                      Jump(f, b, if Read(regs, i.cond) != 0 then i.thn else i.els, regs), f, rt, ret, 1)
  {
    hide Wasm.Exec;
    var thn, els := GoTo(f, b, i.thn), GoTo(f, b, i.els);
    var tail := [If(thn, els)] + [Escape(1)];
    assert EmitTerm(f, b, i) == [Get(i.cond)] + tail;
    ExecSimple(Get(i.cond), tail, l, [], fuel);
    assert [] + [l[i.cond]] == [V32(Read(regs, i.cond))];
    ExecIf(thn, els, [Escape(1)], l, Read(regs, i.cond), fuel);
    var l1 := GoToRuns(f, b, if Read(regs, i.cond) != 0 then i.thn else i.els, rt, ret, regs, l, fuel);
    assert [Escape(1)] == [Escape(1)] + [];
    ExecSimple(Escape(1), [], l1, [], fuel);
  }

  lemma RetRuns(a: nat, l: Locals, fuel: nat)
    requires a in l
    ensures Wasm.Exec([Get(a), Return], l, [], fuel) == Returned(l[a])
  {
    assert [Get(a), Return] == [Get(a)] + [Return] && [Return] == [Return] + [];
    ExecSimple(Get(a), [Return], l, [], fuel);
    ExecSimple(Return, [], l, [l[a]], fuel);
  }

  /** The terminator's code goes where the terminator goes. */
  lemma TermRuns(f: Func, b: nat, i: Instr, rt: RegTypes, ret: Ty, regs: Regs, l: Locals, fuel: nat)
    requires Ready(f, rt, ret) && b < |f.blocks| && LastOk(i, |f.blocks|, rt, ret) && InstrTyped(i, rt) &&
      IsTerminator(i)
    requires Rel(regs, l, rt, f.nextReg) && Held(regs, rt)
    ensures Simulates(Wasm.Exec(EmitInstrs([i], rt) + EmitTerm(f, b, i), l, [], fuel), Leads(f, b, i, regs), f, rt,
      ret, 1)
  {
    hide Wasm.Exec;
    assert EmitInstrs([i], rt) == EmitInstr(i, rt) + [] == EmitInstr(i, rt);
    assert [] + EmitTerm(f, b, i) == EmitTerm(f, b, i) && EmitInstr(i, rt) + [] == EmitInstr(i, rt);
    match i
    case Br(t) => GoToEscapes(f, b, t, rt, ret, regs, l, fuel);
    case Cbr(_, _, _) => BranchRuns(f, b, i, rt, ret, regs, l, fuel);
    case Ret(a) => RetRuns(a, l, fuel);
  }

  /** A ready block: straight-line code, then a terminator that leads where the block does. */
  lemma ReadyBlock(f: Func, b: nat, rt: RegTypes, ret: Ty, regs: Regs)
    requires Ready(f, rt, ret) && b < |f.blocks|
    ensures Closed(f.blocks[b]) && f.blocks[b].instrs != []
    ensures var instrs := f.blocks[b].instrs;
      var front, last := instrs[..|instrs| - 1], instrs[|instrs| - 1];
      Straight(front) && (forall k :: 0 <= k < |front| ==> InstrTyped(front[k], rt)) && InstrTyped(last, rt) &&
      IsTerminator(last) &&
      LastOk(last, |f.blocks|, rt, ret) && AfterBlock(f, b, regs) == Leads(f, b, last, ExecAll(front, regs))
  {
    hide ExecAll, InstrTyped, NoClobber;
    var instrs := f.blocks[b].instrs;
    assert Closed(f.blocks[b]) && BlockTyped(f.blocks[b], rt);
  }

  /** Running a block's code is running the block. */
  lemma BlockRuns(f: Func, b: nat, rt: RegTypes, ret: Ty, regs: Regs, l: Locals, fuel: nat)
    requires Ready(f, rt, ret) && b < |f.blocks| && Rel(regs, l, rt, f.nextReg) && Held(regs, rt)
    ensures Simulates(Wasm.Exec(EmitBlock(f, rt, b), l, [], fuel), AfterBlock(f, b, regs), f, rt, ret, 1)
  {
    hide Wasm.Exec, Ready, Rel, Held, EmitInstrs, EmitTerm, EmitBlock, Simulates, AfterBlock, Leads, ExecAll,
      InstrTyped, LastOk, Closed;
    ReadyBlock(f, b, rt, ret, regs);
    var instrs := f.blocks[b].instrs;
    var front, last := instrs[..|instrs| - 1], instrs[|instrs| - 1];
    BlockCode(f, rt, b);
    var l1 := InstrsRun(front, [last], rt, regs, l, f.nextReg, EmitTerm(f, b, last), fuel);
    TermRuns(f, b, last, rt, ret, ExecAll(front, regs), l1, fuel);
  }

  // ---------- the dispatch loop ----------

  /** The test of a case against the program counter. */
  lemma CaseRuns(f: Func, rt: RegTypes, k: nat, b: nat, rest: seq<W>, l: Locals, fuel: nat)
    requires k < |f.blocks| && f.nextReg in l && l[f.nextReg] == V32(b)
    ensures Wasm.Exec(EmitCase(f, rt, k) + rest, l, [], fuel) ==
            Wasm.Exec([If(EmitBlock(f, rt, k), [])] + rest, l, [V32(if k == b then 1 else 0)], fuel)
  {
    hide EmitBlock, Wasm.Exec;
    var tail := [If(EmitBlock(f, rt, k), [])] + rest;
    var c2 := [Num(0x46)] + tail;
    var c1 := [Const32(k)] + c2;
    assert EmitCase(f, rt, k) + rest == [Get(f.nextReg)] + c1;
    ExecSimple(Get(f.nextReg), c1, l, [], fuel);
    ExecSimple(Const32(k), c2, l, [V32(b)], fuel);
    var both := [V32(b), V32(k)];
    assert [] + [V32(b)] == [V32(b)] && [V32(b)] + [V32(k)] == both;
    assert both[..0] + [Truth32(b == k)] == [Truth32(b == k)];
    ExecSimple(Num(0x46), tail, l, both, fuel);
  }

  /** The cases before block `b` are skipped; its own case runs it and leaves the chain. */
  lemma {:induction false} CasesRun(f: Func, k: nat, b: nat, rt: RegTypes, ret: Ty, regs: Regs, l: Locals, fuel: nat)
    requires Ready(f, rt, ret) && k <= b < |f.blocks| && Rel(regs, l, rt, f.nextReg) && Held(regs, rt)
    requires f.nextReg in l && l[f.nextReg] == V32(b)
    ensures Simulates(Wasm.Exec(EmitCases(f, rt, k), l, [], fuel), AfterBlock(f, b, regs), f, rt, ret, 0)
    decreases b - k
  {
    hide Wasm.Exec, Ready, Rel, Held, AfterBlock, EmitBlock;
    var rest := EmitCases(f, rt, k + 1);
    CaseRuns(f, rt, k, b, rest, l, fuel);
    ExecIf(EmitBlock(f, rt, k), [], rest, l, if k == b then 1 else 0, fuel);
    if k == b {
      BlockRuns(f, b, rt, ret, regs, l, fuel);
    } else {
      EmptyRuns(l, fuel);
      CasesRun(f, k + 1, b, rt, ret, regs, l, fuel);
    }
  }

  lemma EmptyRuns(l: Locals, fuel: nat)
    ensures Wasm.Exec([], l, [], fuel) == Next(l, [])
  {
  }

  /** If the function returns within `n` steps, so does the loop, with the same
      value, given at least `n` passes. */
  lemma {:induction false} LoopRuns(f: Func, b: nat, rt: RegTypes, ret: Ty, regs: Regs, l: Locals, n: nat, fuel: nat)
    requires Ready(f, rt, ret) && b < |f.blocks| && Rel(regs, l, rt, f.nextReg) && Held(regs, rt)
    requires f.nextReg in l && l[f.nextReg] == V32(b) && Steps(f, At(b, 0, regs), n).Done? && fuel >= n
    ensures Wasm.Exec([Loop(EmitCases(f, rt, 0))] + [Unreachable], l, [], fuel) ==
            Returned(Box(ret, Steps(f, At(b, 0, regs), n).v))
    decreases n
  {
    hide Wasm.Exec, Rel, Held, AfterBlock, EmitCases, Steps, Step, BlockTyped, NoClobber, LastOk;
    BlockSteps(f, b, regs, n);
    ExecLoop(EmitCases(f, rt, 0), [Unreachable], l, fuel);
    CasesRun(f, 0, b, rt, ret, regs, l, fuel);
    var next, m := AfterBlock(f, b, regs), n - |f.blocks[b].instrs|;
    match next
    case Done(v) => DoneStays(f, v, m);
    case At(b1, _, regs1) =>
      var l1 := Wasm.Exec(EmitCases(f, rt, 0), l, [], fuel).after;
      LoopRuns(f, b1, rt, ret, regs1, l1, m, fuel - 1);
    case Stuck => StuckStays(f, m);
  }

  /** Where the backend's view of the registers types an instruction, the table it has
      gives the same code. */
  lemma SameInstr(f: Func, params: seq<Ty>, i: Instr)
    requires InstrTyped(i, FuncTypes(f, params))
    ensures EmitInstr(i, BuildRegTypes(f, params)) == EmitInstr(i, FuncTypes(f, params))
  {
  }

  lemma {:induction false} SameInstrs(f: Func, params: seq<Ty>, instrs: seq<Instr>)
    requires forall k :: 0 <= k < |instrs| ==> InstrTyped(instrs[k], FuncTypes(f, params))
    ensures EmitInstrs(instrs, BuildRegTypes(f, params)) == EmitInstrs(instrs, FuncTypes(f, params))
    decreases instrs
  {
    hide FuncTypes, BuildRegTypes, EmitInstr, InstrTyped;
    if instrs != [] {
      SameInstr(f, params, instrs[0]);
      SameInstrs(f, params, instrs[1..]);
    }
  }

  lemma {:induction false} SameCases(f: Func, params: seq<Ty>, b: nat)
    requires b <= |f.blocks| && forall c :: 0 <= c < |f.blocks| ==> BlockTyped(f.blocks[c], FuncTypes(f, params))
    ensures EmitCases(f, BuildRegTypes(f, params), b) == EmitCases(f, FuncTypes(f, params), b)
    decreases |f.blocks| - b
  {
    hide FuncTypes, BuildRegTypes, EmitInstr, InstrTyped;
    if b < |f.blocks| {
      assert BlockTyped(f.blocks[b], FuncTypes(f, params));
      SameInstrs(f, params, f.blocks[b].instrs);
      SameCases(f, params, b + 1);
    }
  }

  lemma BodyEmitted(f: Func, params: seq<Ty>, ret: Ty)
    requires Ready(f, FuncTypes(f, params), ret)
    ensures EmitFuncBody(f, params).Code?
    ensures EmitFuncBody(f, params).code ==
            [Const32(0), Set(f.nextReg)] + ([Loop(EmitCases(f, FuncTypes(f, params), 0))] + [Unreachable])
  {
    hide FuncTypes, BuildRegTypes, EmitCases, BlockTyped, LastOk, NoClobber;
    SameCases(f, params, 0);
    forall b | 0 <= b < |f.blocks| ensures HasTerminator(f.blocks[b]) {
      assert IsTerminator(f.blocks[b].instrs[|f.blocks[b].instrs| - 1]);
    }
  }

  lemma SetPc(regs: Regs, l: Locals, rt: RegTypes, pc: nat, b: nat)
    requires Rel(regs, l, rt, pc)
    ensures Rel(regs, l[pc := V32(b)], rt, pc)
  {
  }

  /** Calling the emitted body with the parameters in its first locals returns what
      the function returns. */
  lemma BodyRuns(f: Func, params: seq<Ty>, ret: Ty, regs: Regs, l: Locals, n: nat, fuel: nat)
    requires Ready(f, FuncTypes(f, params), ret) && f.blocks != []
    requires Rel(regs, l, FuncTypes(f, params), f.nextReg) && Held(regs, FuncTypes(f, params))
    requires Steps(f, At(0, 0, regs), n).Done? && fuel >= n
    ensures EmitFuncBody(f, params).Code?
    ensures Call(EmitFuncBody(f, params).code, l, fuel) == Returned(Box(ret, Steps(f, At(0, 0, regs), n).v))
  {
    hide Wasm.Exec, Ready, Held, EmitCases, EmitFuncBody, FuncTypes, Steps, Step;
    var rt := FuncTypes(f, params);
    var loop := [Loop(EmitCases(f, rt, 0))] + [Unreachable];
    BodyEmitted(f, params, ret);
    RunTwo(Const32(0), f.nextReg, l, V32(0), fuel);
    ExecConcat([Const32(0), Set(f.nextReg)], loop, l, [], fuel);
    SetPc(regs, l, rt, f.nextReg, 0);
    LoopRuns(f, 0, rt, ret, regs, l[f.nextReg := V32(0)], n, fuel);
  }

  lemma {:induction false} StuckStays(f: Func, n: nat)
    ensures Steps(f, Stuck, n) == Stuck
    decreases n
  {
    if n > 0 { StuckStays(f, n - 1); }
  }
}
