/** The function under construction as src/ir.c keeps it: one growing instruction
    array that blocks are ranges of, filled in place by the lowering pass. */
module IrBuild {
  import opened Bits
  import opened Ir
  import opened IrLower
  import opened IrFunction
  import opened IrLowerCorrect

  /** A block is a range of the instruction array. */
  datatype Range = Range(start: nat, end: nat, phis: seq<Phi>)

  datatype Flat = Flat(instrs: seq<Instr>, ranges: seq<Range>, nextReg: nat)

  predicate Bounded(f: Flat) {
    forall b :: 0 <= b < |f.ranges| ==> f.ranges[b].start <= f.ranges[b].end <= |f.instrs|
  }

  /** What the ranges say the blocks contain. */
  function View(f: Flat): (r: Func)
    requires Bounded(f)
  {
    Func(seq(|f.ranges|, b requires 0 <= b < |f.ranges| =>
      Block(f.ranges[b].phis, f.instrs[f.ranges[b].start..f.ranges[b].end])), f.nextReg)
  }

  /** Appending an instruction moves the end of the block's range to the end of the array. */
  function Append(f: Flat, b: nat, i: Instr): Flat
    requires b < |f.ranges|
  {
    var r := f.ranges[b];
    var start := if r.start == r.end then |f.instrs| else r.start;
    f.(instrs := f.instrs + [i], ranges := f.ranges[b := Range(start, |f.instrs| + 1, r.phis)])
  }

  /** A block may be appended to while it is empty or last in the array. */
  predicate Appendable(f: Flat, b: nat)
    requires b < |f.ranges|
  {
    f.ranges[b].start == f.ranges[b].end || f.ranges[b].end == |f.instrs|
  }

  lemma AppendOthers(f: Flat, b: nat, i: Instr, c: nat)
    requires Bounded(f) && b < |f.ranges| && c < |f.ranges| && c != b
    ensures View(Append(f, b, i)).blocks[c] == View(f).blocks[c]
  {
    var r := f.ranges[c];
    assert (f.instrs + [i])[r.start..r.end] == f.instrs[r.start..r.end];
  }

  /** Appending in place does what appending to the block's own list would do
      exactly when the block is empty or last; otherwise its range swallows the
      instructions of later blocks. */
  lemma AppendViewIff(f: Flat, b: nat, i: Instr)
    requires Bounded(f) && b < |f.ranges|
    ensures Bounded(Append(f, b, i))
    ensures View(Append(f, b, i)) == EmitInto(View(f), b, i) <==> Appendable(f, b)
  {
    var r := f.ranges[b];
    var g := Append(f, b, i);
    if Appendable(f, b) {
      forall c | 0 <= c < |f.ranges| ensures View(g).blocks[c] == EmitInto(View(f), b, i).blocks[c] {
        if c != b { AppendOthers(f, b, i, c); }
      }
      assert g.instrs[g.ranges[b].start..g.ranges[b].end] == f.instrs[r.start..r.end] + [i];
      assert View(g).blocks == EmitInto(View(f), b, i).blocks;
    } else {
      assert |View(g).blocks[b].instrs| == |f.instrs| + 1 - r.start;
      assert |EmitInto(View(f), b, i).blocks[b].instrs| == r.end - r.start + 1;
    }
  }

  /** Every emitted instruction lies in the range of exactly one block. */
  ghost predicate Partitioned(f: Flat) {
    Bounded(f) &&
    (forall k :: 0 <= k < |f.instrs| ==> Covered(f, k)) &&
    forall b, c, k :: 0 <= b < |f.ranges| && 0 <= c < |f.ranges| && Holds(f, b, k) && Holds(f, c, k) ==> b == c
  }

  predicate Covered(f: Flat, k: int) { exists b :: 0 <= b < |f.ranges| && Holds(f, b, k) }

  predicate Holds(f: Flat, b: nat, k: int)
    requires b < |f.ranges|
  {
    f.ranges[b].start <= k < f.ranges[b].end
  }

  /** Appending to an appendable block keeps the ranges a partition of the array. */
  lemma AppendPartitioned(f: Flat, b: nat, i: Instr)
    requires Partitioned(f) && b < |f.ranges| && Appendable(f, b)
    ensures Partitioned(Append(f, b, i))
  {
    var g := Append(f, b, i);
    forall k | 0 <= k < |g.instrs| ensures Covered(g, k) {
      if k == |f.instrs| {
        assert Holds(g, b, k);
      } else {
        assert Covered(f, k);
        var c :| 0 <= c < |f.ranges| && Holds(f, c, k);
        assert Holds(g, c, k);
      }
    }
    forall c, d, k | 0 <= c < |g.ranges| && 0 <= d < |g.ranges| && Holds(g, c, k) && Holds(g, d, k) ensures c == d {
      if k < |f.instrs| { assert Holds(f, c, k) && Holds(f, d, k); }
    }
  }

  /** Empty blocks and phis do not disturb the partition. */
  lemma PartitionedFrame(f: Flat, g: Flat)
    requires Partitioned(f) && Bounded(g) && |g.instrs| == |f.instrs| && |f.ranges| <= |g.ranges|
    requires forall c :: 0 <= c < |f.ranges| ==>
      g.ranges[c].start == f.ranges[c].start && g.ranges[c].end == f.ranges[c].end
    requires forall c :: |f.ranges| <= c < |g.ranges| ==> g.ranges[c].start == g.ranges[c].end
    ensures Partitioned(g)
  {
    forall k | 0 <= k < |g.instrs| ensures Covered(g, k) {
      assert Covered(f, k);
      var c :| 0 <= c < |f.ranges| && Holds(f, c, k);
      assert Holds(g, c, k);
    }
    forall c, d, k | 0 <= c < |g.ranges| && 0 <= d < |g.ranges| && Holds(g, c, k) && Holds(g, d, k) ensures c == d {
      assert Holds(f, c, k) && Holds(f, d, k);
    }
  }

  /** The state of a function under construction. */
  class IrFunc {
    var instrs: seq<Instr>
    var ranges: seq<Range>
    var nextReg: nat

    ghost function State(): Flat reads this { Flat(instrs, ranges, nextReg) }

    ghost predicate Valid() reads this { Partitioned(State()) }

    ghost function Blocks(): Func
      requires Valid()
      reads this
    {
      View(State())
    }

    constructor ()
      ensures Valid() && Blocks() == EMPTY
    {
      instrs, ranges, nextReg := [], [], 0;
    }

    /** Append to any block. The block's own list grows by the instruction, and nothing
        else changes, exactly when the block is empty or last. */
    method EmitIntoBlock(b: nat, i: Instr)
      requires Bounded(State()) && b < |ranges|
      modifies this
      ensures State() == Append(old(State()), b, i) && ranges[b].end == |instrs| && Bounded(State())
      ensures View(State()) == EmitInto(old(View(State())), b, i) <==> old(Appendable(State(), b))
      ensures old(Valid() && Appendable(State(), b)) ==> Valid() && Blocks() == EmitInto(old(Blocks()), b, i)
    {
      AppendViewIff(State(), b, i);
      if Partitioned(State()) && Appendable(State(), b) { AppendPartitioned(State(), b, i); }
      instrs := instrs + [i];
      var block := ranges[b];
      if block.start == block.end { block := block.(start := |instrs| - 1); }
      ranges := ranges[b := block.(end := |instrs|)];
    }

    method EmitPhiInto(b: nat, p: Phi)
      requires Valid() && b < |ranges|
      modifies this
      ensures Valid() && Blocks() == EmitPhi(old(Blocks()), b, p)
      ensures instrs == old(instrs) && |ranges| == old(|ranges|)
      ensures forall c :: 0 <= c < |ranges| ==>
        ranges[c].start == old(ranges[c].start) && ranges[c].end == old(ranges[c].end)
    {
      ranges := ranges[b := ranges[b].(phis := ranges[b].phis + [p])];
      PartitionedFrame(old(State()), State());
      assert View(State()).blocks == EmitPhi(old(Blocks()), b, p).blocks;
    }

    method AddNewBlock() returns (b: nat)
      requires Valid()
      modifies this
      ensures Valid() && Blocks() == AddBlock(old(Blocks())) && b == old(|ranges|)
      ensures State() == old(State()).(ranges := old(ranges) + [Range(|instrs|, |instrs|, [])])
    {
      b := |ranges|;
      ranges := ranges + [Range(|instrs|, |instrs|, [])];
      PartitionedFrame(old(State()), State());
      assert instrs[|instrs|..|instrs|] == [];
      assert View(State()).blocks == AddBlock(old(Blocks())).blocks;
    }

    method TakeReg() returns (r: nat)
      requires Valid()
      modifies this
      ensures Valid() && Blocks() == NewReg(old(Blocks())) && r == old(nextReg)
      ensures State() == old(State()).(nextReg := old(nextReg) + 1)
    {
      r := nextReg;
      nextReg := nextReg + 1;
      PartitionedFrame(old(State()), State());
      assert View(State()).blocks == old(Blocks()).blocks;
    }
  }

  // ---------- the lowering pass ----------

  predicate Names(vars: seq<VarEntry>, g: Types) {
    (forall x :: x in g ==> FindVar(vars, x) >= 0) && (forall i :: 0 <= i < |vars| ==> vars[i].name in g)
  }

  predicate LevelsUpTo(vars: seq<VarEntry>, level: nat) { forall i :: 0 <= i < |vars| ==> vars[i].level <= level }

  /** `more` extends `vars` by entries of the given scope level. */
  predicate Grown(vars: seq<VarEntry>, more: seq<VarEntry>, level: nat) {
    vars <= more && forall i :: |vars| <= i < |more| ==> more[i].level == level
  }

  lemma {:induction false} ExitScopeRestores(vars: seq<VarEntry>, more: seq<VarEntry>, level: nat)
    requires Grown(vars, more, level + 1) && LevelsUpTo(vars, level)
    ensures ExitScope(more, level + 1) == vars
    decreases |more|
  {
    if |more| > |vars| {
      ExitScopeRestores(vars, more[..|more| - 1], level);
    } else {
      assert more == vars;
    }
  }

  lemma SetVarNames(vars: seq<VarEntry>, g: Types, x: string, t: Ty, reg: nat, level: nat)
    requires Names(vars, g) && x !in g
    ensures SetVar(vars, x, reg, level) == vars + [VarEntry(x, reg, level)] &&
      Names(SetVar(vars, x, reg, level), g[x := t])
  {
    var more := SetVar(vars, x, reg, level);
    assert more[..|more| - 1] == vars;
  }

  /** The lowering context. */
  class LowerCtx {
    const func: IrFunc
    var current: nat
    var vars: seq<VarEntry>
    var level: nat

    constructor (f: IrFunc)
      ensures func == f && current == 0 && vars == [] && level == 0
    {
      func, current, vars, level := f, 0, [], 0;
    }

    ghost predicate Ready()
      reads this, func
    {
      func.Valid() && current < |func.ranges| && Appendable(func.State(), current) && LevelsUpTo(vars, level)
    }

    ghost function Blocks(): Func
      requires Ready()
      reads this, func
    {
      func.Blocks()
    }

    method Assign(x: string, reg: nat)
      modifies this`vars
      ensures vars == SetVar(old(vars), x, reg, level)
    {
      var i := FindVar(vars, x);
      if i >= 0 {
        vars := vars[i := vars[i].(reg := reg)];
      } else {
        vars := vars + [VarEntry(x, reg, level)];
      }
    }

    method LeaveScope()
      requires level > 0
      modifies this`vars, this`level
      ensures vars == ExitScope(old(vars), old(level)) && level == old(level) - 1
    {
      while vars != [] && vars[|vars| - 1].level == level
        invariant ExitScope(vars, level) == ExitScope(old(vars), old(level)) && level == old(level)
        decreases |vars|
      {
        vars := vars[..|vars| - 1];
      }
      level := level - 1;
    }

    /** Take a register and append its defining instruction to the current block. */
    method Emit(mk: nat -> Instr) returns (dst: nat)
      requires Ready()
      modifies func
      ensures Ready() && Low(Blocks(), current, dst) == Define(old(Blocks()), old(current), mk)
    {
      dst := func.TakeReg();
      func.EmitIntoBlock(current, mk(dst));
    }

    /** Lowering in place produces exactly the blocks of the functional description. */
    method Lower(e: Expr, ghost g: Types) returns (reg: nat)
      requires Ready() && Names(vars, g) && TypeOf(e, g).Some?
      modifies this, func
      ensures Ready() && vars == old(vars) && level == old(level)
      ensures Low(Blocks(), current, reg) == LowerExpr(e, vars, level, old(Blocks()), old(current))
      decreases e, 2
    {
      match e
      case Lit(n) => reg := Emit((d: nat) => Const(d, n));
      case BoolLit(b) => reg := Emit((d: nat) => ConstBool(d, b));
      case Name(x) =>
        var i := FindVar(vars, x);
        reg := vars[i].reg;
      case Binary(op, l, r) =>
        var left := Lower(l, g);
        var right := Lower(r, g);
        reg := Emit((d: nat) => Bin(d, op, left, right));
      case Unary(op, a) =>
        var right := Lower(a, g);
        reg := Emit((d: nat) => Un(d, op, right));
      case Cond(_, _, _, _) => reg := LowerCond(e, g);
      case Let(_, _) => reg := LowerLet(e, g);
    }

    method LowerCond(e: Expr, ghost g: Types) returns (reg: nat)
      requires e.Cond? && Ready() && Names(vars, g) && TypeOf(e, g).Some?
      modifies this, func
      ensures Ready() && vars == old(vars) && level == old(level)
      ensures Low(Blocks(), current, reg) == LowerExpr(e, vars, level, old(Blocks()), old(current))
      decreases e, 1
    {
      hide LowerExpr;
      CondUnfolds(e, vars, level, Blocks(), current);
      var cond := Lower(e.c, g);
      ghost var c := Low(Blocks(), current, cond);
      var thn, merge, els := Branch(cond, e.ty);
      var thenReg, thenEnd := LowerThen(e, g, c, thn, merge);
      reg := LowerElse(e, g, c, merge, els, thenReg, thenEnd);
    }

    static lemma CondUnfolds(e: Expr, vars: seq<VarEntry>, level: nat, f: Func, cur: nat)
      requires e.Cond? && cur < |f.blocks|
      ensures LowerExpr(e, vars, level, f, cur) == LowerArms(e, vars, level, LowerExpr(e.c, vars, level, f, cur))
    {
    }

    /** The then arm, up to its jump to the merge block. */
    method LowerThen(e: Expr, ghost g: Types, ghost c: Low, thn: nat, merge: nat) returns (thenReg: nat, thenEnd: nat)
      requires e.Cond? && Names(vars, g) && TypeOf(e.t, g).Some? && LevelsUpTo(vars, level)
      requires func.Valid() && c.cur < |c.f.blocks| && func.Blocks() == Fork(c, e.ty).f && thn == Fork(c, e.ty).thn &&
        merge == Fork(c, e.ty).merge
      requires thn < |func.ranges| && Appendable(func.State(), thn)
      modifies this, func
      ensures func.Valid() && vars == old(vars) && level == old(level)
      ensures var t := LowerExpr(e.t, vars, level, Fork(c, e.ty).f, thn);
        thenReg == t.reg && thenEnd == t.cur && func.Blocks() == EmitInto(t.f, t.cur, Br(merge))
      decreases e, 0
    {
      hide LowerExpr;
      current := thn;
      thenReg := Lower(e.t, g);
      thenEnd := current;
      func.EmitIntoBlock(current, Br(merge));
    }

    /** The else arm and the merge. */
    method LowerElse(e: Expr, ghost g: Types, ghost c: Low, merge: nat, els: nat, thenReg: nat, thenEnd: nat)
        returns (reg: nat)
      requires e.Cond? && Names(vars, g) && TypeOf(e.els, g).Some? && LevelsUpTo(vars, level)
      requires func.Valid() && c.cur < |c.f.blocks| && els == Fork(c, e.ty).els && merge == Fork(c, e.ty).merge
      requires var t := LowerExpr(e.t, vars, level, Fork(c, e.ty).f, Fork(c, e.ty).thn);
        thenReg == t.reg && thenEnd == t.cur && func.Blocks() == EmitInto(t.f, t.cur, Br(merge))
      modifies this, func
      ensures Ready() && vars == old(vars) && level == old(level)
      ensures Low(Blocks(), current, reg) == LowerArms(e, vars, level, c)
      decreases e, 0
    {
      hide LowerExpr;
      ghost var s := Fork(c, e.ty);
      ghost var t := LowerExpr(e.t, vars, level, s.f, s.thn);
      assert s.f.blocks[s.els] == Block([], []) == s.f.blocks[s.merge];
      assert Extends(s.f, s.thn, t.f, t.cur) && s.els != s.thn && s.merge != s.thn;
      assert t.f.blocks[els] == s.f.blocks[els] && t.f.blocks[merge] == s.f.blocks[merge];
      assert t.cur != els && t.cur != merge;
      assert func.Blocks().blocks[els] == t.f.blocks[els] && func.Blocks().blocks[merge] == t.f.blocks[merge];
      EmptyAppendable(els);
      current := els;
      var elseReg := Lower(e.els, g);
      reg := CloseArms(thenReg, thenEnd, elseReg, merge, e.ty, t, s);
    }

    /** The condition's branch and the three new blocks. */
    method Branch(cond: nat, ghost ty: Ty) returns (thn: nat, merge: nat, els: nat)
      requires Ready()
      modifies func
      ensures func.Valid() && vars == old(vars) && level == old(level) && current == old(current)
      ensures var s := Fork(Low(old(Blocks()), current, cond), ty);
        func.Blocks() == s.f && thn == s.thn && merge == s.merge && els == s.els
      ensures thn < |func.ranges| && Appendable(func.State(), thn)
    {
      thn := func.AddNewBlock();
      merge := func.AddNewBlock();
      els := func.AddNewBlock();
      func.EmitIntoBlock(current, Cbr(cond, thn, els));
    }

    /** Jump from the end of the else arm and merge both values. */
    method CloseArms(thenReg: nat, thenEnd: nat, elseReg: nat, merge: nat, ty: Ty, ghost t: Low, ghost s: Split)
        returns (reg: nat)
      requires Ready() && merge < |func.ranges| && merge != current && func.Blocks().blocks[merge].instrs == []
      requires t.reg == thenReg && t.cur == thenEnd && s.merge == merge && s.ty == ty
      modifies this`current, func
      ensures Ready() && Low(Blocks(), current, reg) == Join(Low(old(Blocks()), old(current), elseReg), t, s)
    {
      var elseEnd := current;
      func.EmitIntoBlock(current, Br(merge));
      EmptyAppendable(merge);
      current := merge;
      reg := func.TakeReg();
      func.EmitPhiInto(merge, Phi(reg, ty, [PhiArg(thenReg, thenEnd), PhiArg(elseReg, elseEnd)]));
    }

    lemma EmptyAppendable(b: nat)
      requires func.Valid() && b < |func.ranges| && func.Blocks().blocks[b].instrs == []
      ensures Appendable(func.State(), b)
    {
      var r := func.ranges[b];
      assert |func.instrs[r.start..r.end]| == 0;
    }

    method LowerLet(e: Expr, ghost g: Types) returns (reg: nat)
      requires e.Let? && Ready() && Names(vars, g) && TypeOf(e, g).Some?
      modifies this, func
      ensures Ready() && vars == old(vars) && level == old(level)
      ensures Low(Blocks(), current, reg) == LowerExpr(e, vars, level, old(Blocks()), old(current))
      decreases e, 0
    {
      ghost var outer := vars;
      level := level + 1;
      LowerBindings(e.binds, g);
      reg := Lower(e.fin, BindTypes(e.binds, g).value);
      ExitScopeRestores(outer, vars, level - 1);
      LeaveScope();
    }

    method LowerBindings(binds: seq<Binding>, ghost g: Types)
      requires Ready() && Names(vars, g) && BindTypes(binds, g).Some?
      modifies this, func
      ensures Ready() && level == old(level) && Grown(old(vars), vars, level)
      ensures Names(vars, BindTypes(binds, g).value)
      ensures (vars, Blocks(), current) == LowerBinds(binds, old(vars), level, old(Blocks()), old(current))
      decreases binds, 3
    {
      if binds != [] {
        LowerBinding(binds[0], g);
        LowerBindings(binds[1..], g[binds[0].x := TypeOf(binds[0].init, g).value]);
      }
    }

    /** A statement `x = init`. */
    method LowerBinding(b: Binding, ghost g: Types)
      requires Ready() && Names(vars, g) && TypeOf(b.init, g).Some? && b.x !in g
      modifies this, func
      ensures Ready() && level == old(level) && Grown(old(vars), vars, level)
      ensures Names(vars, g[b.x := TypeOf(b.init, g).value])
      ensures var v := LowerExpr(b.init, old(vars), level, old(Blocks()), old(current));
        vars == SetVar(old(vars), b.x, v.reg, level) && Blocks() == v.f && current == v.cur
      decreases b, 3
    {
      hide LowerExpr;
      var reg := Lower(b.init, g);
      SetVarNames(vars, g, b.x, TypeOf(b.init, g).value, reg, level);
      Assign(b.x, reg);
    }
  }

  /** Lower a function definition: entry block, parameters, body, return. */
  method LowerDefinition(fn: Function) returns (built: IrFunc)
    requires WellTyped(fn)
    ensures built.Valid() && built.Blocks() == LowerFunction(fn)
  {
    built := new IrFunc();
    var entry := built.AddNewBlock();
    var ctx := new LowerCtx(built);
    ctx.level := ctx.level + 1;
    ghost var g := EnterParams(ctx, fn.params);
    var reg;
    if fn.body.Let? {
      ctx.LowerBindings(fn.body.binds, g);
      g := BindTypes(fn.body.binds, g).value;
      reg := ctx.Lower(fn.body.fin, g);
    } else {
      reg := ctx.Lower(fn.body, g);
    }
    built.EmitIntoBlock(ctx.current, Ret(reg));
  }

  method EnterParams(ctx: LowerCtx, params: seq<Param>) returns (ghost g: Types)
    requires ctx.Ready() && ctx.vars == [] && ctx.level == 1 && ParamTypes(params, map[]).Some?
    modifies ctx, ctx.func
    ensures ctx.Ready() && Names(ctx.vars, g) && ctx.current == old(ctx.current) && ctx.level == 1
    ensures ParamTypes(params, map[]) == Some(g)
    ensures (ctx.vars, ctx.Blocks()) == LowerParams(params, [], old(ctx.Blocks()))
  {
    g := map[];
    var i := 0;
    while i < |params|
      invariant 0 <= i <= |params| && ctx.Ready() && ctx.current == old(ctx.current) && ctx.level == 1
      invariant Names(ctx.vars, g) && ParamTypes(params[i..], g) == ParamTypes(params, map[])
      invariant LowerParams(params[i..], ctx.vars, ctx.Blocks()) == LowerParams(params, [], old(ctx.Blocks()))
    {
      assert params[i..][1..] == params[i + 1..];
      var reg := ctx.func.TakeReg();
      SetVarNames(ctx.vars, g, params[i].x, params[i].t, reg, 1);
      ctx.Assign(params[i].x, reg);
      g := g[params[i].x := params[i].t];
      i := i + 1;
    }
  }
}
