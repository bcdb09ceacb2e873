/** Lowering preserves meaning: running the blocks it produced computes the value
    of the source expression. */
module IrLowerCorrect {
  import opened Bits
  import opened Ir
  import opened IrLower

  /** How a source value looks in a register. */
  function Enc(v: Val): int { match v case I(n) => n case B(b) => Truth(b) }

  predicate HasTy(v: Val, t: Ty) { match v case I(n) => t == Int && -TWO63 <= n < TWO63 case B(_) => t == Bool }

  predicate EnvOk(env: Env, g: Types) { forall x :: x in g ==> x in env && HasTy(env[x], g[x]) }

  /** The variable table knows exactly the visible names and their registers hold
      the variables' values. */
  predicate VarsOk(vars: seq<VarEntry>, g: Types, env: Env, regs: Regs, limit: nat) {
    (forall x :: x in g ==> FindVar(vars, x) >= 0) &&
    (forall i :: 0 <= i < |vars| ==> vars[i].name in g) &&
    forall x :: x in g && x in env && FindVar(vars, x) >= 0 ==>
      vars[FindVar(vars, x)].reg < limit && Read(regs, vars[FindVar(vars, x)].reg) == Enc(env[x])
  }

  // ---------- types are sound ----------

  lemma {:induction false} EvalTyped(e: Expr, g: Types, env: Env)
    requires TypeOf(e, g).Some? && EnvOk(env, g)
    ensures HasTy(Eval(e, env), TypeOf(e, g).value)
    decreases e
  {
    match e
    case Binary(op, l, r) => EvalTyped(l, g, env); EvalTyped(r, g, env);
    case Unary(op, e1) => EvalTyped(e1, g, env);
    case Cond(c, t, f, _) => EvalTyped(t, g, env); EvalTyped(f, g, env);
    case Let(binds, fin) =>
      ExtendTyped(binds, g, env);
      EvalTyped(fin, BindTypes(binds, g).value, Extend(binds, env));
    case _ =>
  }

  lemma {:induction false} ExtendTyped(binds: seq<Binding>, g: Types, env: Env)
    requires BindTypes(binds, g).Some? && EnvOk(env, g)
    ensures EnvOk(Extend(binds, env), BindTypes(binds, g).value)
    decreases binds
  {
    if binds != [] {
      var b := binds[0];
      EvalTyped(b.init, g, env);
      ExtendTyped(binds[1..], g[b.x := TypeOf(b.init, g).value], env[b.x := Eval(b.init, env)]);
    }
  }

  // ---------- operators ----------

  lemma TruthBits(a: bool, b: bool)
    ensures BitAnd(Truth(a) % TWO32, Truth(b) % TWO32) == Truth(a && b)
    ensures BitOr(Truth(a) % TWO32, Truth(b) % TWO32) == Truth(a || b)
    ensures BitXor(Truth(a) % TWO32, 1) == Truth(!a)
  {
    assert BitAnd(1, 1) == 2 * BitAnd(0, 0) + 1;
    assert BitOr(1, 1) == 2 * BitOr(0, 0) + 1 && BitOr(1, 0) == 2 * BitOr(0, 0) + 1 &&
      BitOr(0, 1) == 2 * BitOr(0, 0) + 1;
    assert BitXor(1, 1) == 2 * BitXor(0, 0) && BitXor(0, 1) == 2 * BitXor(0, 0) + 1;
  }

  lemma BinAgrees(op: BinOp, x: Val, y: Val, tx: Ty, ty: Ty)
    requires HasTy(x, tx) && HasTy(y, ty) && OpType(op, tx, ty).Some?
    ensures BinValue(op, Enc(x), Enc(y)) == Enc(BinMeaning(op, x, y))
  {
    match (op, x, y)
    case (And, B(a), B(b)) => TruthBits(a, b);
    case (Or, B(a), B(b)) => TruthBits(a, b);
    case _ =>
  }

  lemma UnAgrees(op: UnOp, x: Val)
    requires HasTy(x, if op.Neg? then Int else Bool)
    ensures UnValue(op, Enc(x)) == Enc(UnMeaning(op, x))
  {
    match (op, x)
    case (Not, B(a)) => TruthBits(a, a);
    case _ =>
  }

  // ---------- a finished function ----------

  /** `F` keeps what lowering from `f` to `f1` produced: blocks it closed are
      final, its last block may still have grown. */
  ghost predicate Completes(F: Func, f: Func, cur: nat, f1: Func, cur1: nat) {
    cur < |f.blocks| <= |f1.blocks| <= |F.blocks| && cur1 < |f1.blocks| &&
    (forall b :: (b == cur || |f.blocks| <= b < |f1.blocks|) && b != cur1 ==> F.blocks[b] == f1.blocks[b]) &&
    (cur1 != cur ==> F.blocks[cur1].phis == f1.blocks[cur1].phis) &&
    f1.blocks[cur1].instrs <= F.blocks[cur1].instrs
  }

  lemma CompletesParts(F: Func, f: Func, cur: nat, f1: Func, cur1: nat, f2: Func, cur2: nat)
    requires Extends(f, cur, f1, cur1) && Extends(f1, cur1, f2, cur2) && Completes(F, f, cur, f2, cur2)
    ensures Completes(F, f, cur, f1, cur1) && Completes(F, f1, cur1, f2, cur2)
  {
    forall b | (b == cur || |f.blocks| <= b < |f1.blocks|) && b != cur1 ensures F.blocks[b] == f1.blocks[b] {
      assert f2.blocks[b] == f1.blocks[b];
    }
  }

  /** End of what has been emitted into the current block. */
  function EndOf(f: Func, cur: nat, regs: Regs): State
    requires cur < |f.blocks|
  {
    At(cur, |f.blocks[cur].instrs|, regs)
  }

  predicate SameBelow(regs: Regs, regs1: Regs, limit: nat) {
    forall q :: 0 <= q < limit ==> Read(regs1, q) == Read(regs, q)
  }

  lemma VarsFrame(vars: seq<VarEntry>, g: Types, env: Env, regs: Regs, regs1: Regs, limit: nat, limit1: nat)
    requires VarsOk(vars, g, env, regs, limit) && SameBelow(regs, regs1, limit) && limit <= limit1
    ensures VarsOk(vars, g, env, regs1, limit1)
  {
  }

  /** One emitted instruction is one step. */
  lemma DefineRuns(f: Func, cur: nat, mk: nat -> Instr, F: Func, regs: Regs)
    requires cur < |f.blocks| && !IsTerminator(mk(f.nextReg))
    requires var r := Define(f, cur, mk); Completes(F, f, cur, r.f, r.cur)
    ensures var r := Define(f, cur, mk);
      Steps(F, EndOf(f, cur, regs), 1) == EndOf(r.f, r.cur, Exec(mk(f.nextReg), regs))
  {
    var r := Define(f, cur, mk);
    assert F.blocks[cur].instrs[|f.blocks[cur].instrs|] == mk(f.nextReg);
    assert Steps(F, EndOf(f, cur, regs), 1) == Steps(F, Step(F, EndOf(f, cur, regs)), 0);
  }

  // ---------- conditionals ----------

  lemma MergeMoves(dst: nat, ty: Ty, a: PhiArg, b: PhiArg)
    requires a.pred != b.pred
    ensures Moves([Phi(dst, ty, [a, b])], a.pred) == [Move(dst, a.reg)]
    ensures Moves([Phi(dst, ty, [a, b])], b.pred) == [Move(dst, b.reg)]
  {
    var p := Phi(dst, ty, [a, b]);
    assert [p][1..] == [];
    assert [a, b][1..] == [b] && [b][1..] == [];
    assert ArgMoves(dst, [b], a.pred) == [] && ArgMoves(dst, [b], b.pred) == [Move(dst, b.reg)];
    assert Moves([], a.pred) == [] && Moves([], b.pred) == [];
  }

  /** The branch at the end of the condition. */
  lemma ForkRuns(F: Func, cond: Low, s: Split, regs: Regs)
    requires cond.cur < |cond.f.blocks| && s == Fork(cond, s.ty)
    requires |s.f.blocks| <= |F.blocks| && s.f.blocks[cond.cur].instrs <= F.blocks[cond.cur].instrs
    requires F.blocks[s.thn].phis == [] && F.blocks[s.els].phis == []
    ensures Steps(F, EndOf(cond.f, cond.cur, regs), 1) == At(if Read(regs, cond.reg) != 0 then s.thn else s.els, 0,
      regs)
  {
    assert F.blocks[cond.cur].instrs[|cond.f.blocks[cond.cur].instrs|] == Cbr(cond.reg, s.thn, s.els);
    assert Steps(F, EndOf(cond.f, cond.cur, regs), 1) == Steps(F, Step(F, EndOf(cond.f, cond.cur, regs)), 0);
    assert Moves([], cond.cur) == [];
  }

  /** The jump at the end of an arm, with the phi's copy. */
  lemma ArmRuns(F: Func, arm: Low, merge: nat, dst: nat, ty: Ty, a: PhiArg, b: PhiArg, regs: Regs)
    requires arm.cur < |arm.f.blocks| && arm.cur < |F.blocks| && merge < |F.blocks| && a.pred != b.pred
    requires EmitInto(arm.f, arm.cur, Br(merge)).blocks[arm.cur].instrs <= F.blocks[arm.cur].instrs
    requires F.blocks[merge].phis == [Phi(dst, ty, [a, b])]
    requires arm.cur == a.pred || arm.cur == b.pred
    ensures Steps(F, EndOf(arm.f, arm.cur, regs), 1) ==
            At(merge, 0, regs[dst := Read(regs, if arm.cur == a.pred then a.reg else b.reg)])
  {
    assert F.blocks[arm.cur].instrs[|arm.f.blocks[arm.cur].instrs|] == Br(merge);
    MergeMoves(dst, ty, a, b);
    var mv := if arm.cur == a.pred then Move(dst, a.reg) else Move(dst, b.reg);
    assert [mv][1..] == [];
    assert Parallel([mv], regs, regs) == Parallel([], regs, regs[dst := Read(regs, mv.src)]);
    assert Steps(F, EndOf(arm.f, arm.cur, regs), 1) == Steps(F, Step(F, EndOf(arm.f, arm.cur, regs)), 0);
  }

  /** Where the pieces of a conditional end up in the finished function: first the
      condition's block and the blocks before the arms. */
  lemma CondCompletesHead(F: Func, f: Func, cur: nat, cond: Low, s: Split, thn: Low, f3: Func, alt: Low)
    requires Extends(f, cur, cond.f, cond.cur) && s == Fork(cond, s.ty)
    requires Extends(s.f, s.thn, thn.f, thn.cur) && f3 == EmitInto(thn.f, thn.cur, Br(s.merge))
    requires Extends(f3, s.els, alt.f, alt.cur)
    requires var r := Join(alt, thn, s); Completes(F, f, cur, r.f, r.cur)
    ensures Completes(F, f, cur, cond.f, cond.cur)
    ensures s.f.blocks[cond.cur].instrs <= F.blocks[cond.cur].instrs
    ensures F.blocks[s.thn].phis == [] && F.blocks[s.els].phis == []
  {
    var r := Join(alt, thn, s);
    var n := |cond.f.blocks|;
    forall b | 0 <= b < n && b != cond.cur
      ensures r.f.blocks[b] == cond.f.blocks[b]
    {
      assert s.f.blocks[b] == cond.f.blocks[b];
      assert thn.f.blocks[b] == s.f.blocks[b];
      assert alt.f.blocks[b] == f3.blocks[b];
    }
    assert thn.f.blocks[cond.cur] == s.f.blocks[cond.cur] && alt.f.blocks[cond.cur] == f3.blocks[cond.cur];
    assert F.blocks[cond.cur] == s.f.blocks[cond.cur];
    assert s.f.blocks[s.els] == Block([], []) && s.f.blocks[s.thn] == Block([], []);
    assert thn.f.blocks[s.els] == s.f.blocks[s.els] && alt.f.blocks[s.thn] == f3.blocks[s.thn];
  }

  /** Then the blocks of the arms. */
  lemma CondCompletesArms(F: Func, f: Func, cur: nat, cond: Low, s: Split, thn: Low, f3: Func, alt: Low)
    requires Extends(f, cur, cond.f, cond.cur) && s == Fork(cond, s.ty)
    requires Extends(s.f, s.thn, thn.f, thn.cur) && f3 == EmitInto(thn.f, thn.cur, Br(s.merge))
    requires Extends(f3, s.els, alt.f, alt.cur)
    requires var r := Join(alt, thn, s); Completes(F, f, cur, r.f, r.cur)
    ensures Completes(F, s.f, s.thn, thn.f, thn.cur) && Completes(F, f3, s.els, alt.f, alt.cur)
    ensures f3.blocks[thn.cur].instrs <= F.blocks[thn.cur].instrs
    ensures EmitInto(alt.f, alt.cur, Br(s.merge)).blocks[alt.cur].instrs <= F.blocks[alt.cur].instrs
    ensures thn.cur != alt.cur && f3.blocks[s.els].instrs == [] == s.f.blocks[s.thn].instrs
  {
    var r := Join(alt, thn, s);
    assert s.f.blocks[s.els] == Block([], []) == s.f.blocks[s.thn];
    assert thn.f.blocks[s.els] == s.f.blocks[s.els];
    forall b | (b == s.thn || |s.f.blocks| <= b < |thn.f.blocks|)
      ensures F.blocks[b] == f3.blocks[b]
    {
      assert alt.f.blocks[b] == f3.blocks[b];
      assert r.f.blocks[b] == alt.f.blocks[b];
    }
    forall b | (b == s.els || |f3.blocks| <= b < |alt.f.blocks|) && b != alt.cur
      ensures F.blocks[b] == alt.f.blocks[b]
    {
      assert r.f.blocks[b] == alt.f.blocks[b];
    }
    assert F.blocks[alt.cur] == r.f.blocks[alt.cur];
  }

  /** And the merge block, which nothing in the arms touches. */
  lemma CondCompletesMerge(F: Func, f: Func, cur: nat, cond: Low, s: Split, thn: Low, f3: Func, alt: Low)
    requires Extends(f, cur, cond.f, cond.cur) && s == Fork(cond, s.ty)
    requires Extends(s.f, s.thn, thn.f, thn.cur) && f3 == EmitInto(thn.f, thn.cur, Br(s.merge))
    requires Extends(f3, s.els, alt.f, alt.cur)
    requires var r := Join(alt, thn, s); Completes(F, f, cur, r.f, r.cur)
    ensures var r := Join(alt, thn, s);
      F.blocks[s.merge].phis == [Phi(r.reg, s.ty, [PhiArg(thn.reg, thn.cur), PhiArg(alt.reg, alt.cur)])] &&
      r.f.blocks[s.merge].instrs == []
  {
    assert s.f.blocks[s.merge] == Block([], []);
    assert thn.f.blocks[s.merge] == s.f.blocks[s.merge];
    assert alt.f.blocks[s.merge] == f3.blocks[s.merge];
  }

  /** The arms of a conditional and its merge block are in place in `F`. */
  ghost predicate ArmsFit(e: Expr, vars: seq<VarEntry>, level: nat, cond: Low, F: Func)
    requires e.Cond? && cond.cur < |cond.f.blocks|
  {
    var s := Fork(cond, e.ty);
      var thn := LowerExpr(e.t, vars, level, s.f, s.thn);
      var f3 := EmitInto(thn.f, thn.cur, Br(s.merge));
      var alt := LowerExpr(e.els, vars, level, f3, s.els);
      Completes(F, s.f, s.thn, thn.f, thn.cur) && Completes(F, f3, s.els, alt.f, alt.cur) && thn.cur != alt.cur &&
      thn.cur < |F.blocks| && f3.blocks[thn.cur].instrs <= F.blocks[thn.cur].instrs &&
      EmitInto(alt.f, alt.cur, Br(s.merge)).blocks[alt.cur].instrs <= F.blocks[alt.cur].instrs &&
      f3.blocks[s.els].instrs == [] == s.f.blocks[s.thn].instrs && s.merge < |F.blocks| &&
      F.blocks[s.merge].phis == [Phi(alt.f.nextReg, e.ty, [PhiArg(thn.reg, thn.cur), PhiArg(alt.reg, alt.cur)])]
  }

  ghost predicate HeadFits(cond: Low, ty: Ty, f: Func, cur: nat, F: Func)
    requires cond.cur < |cond.f.blocks|
  {
    Completes(F, f, cur, cond.f, cond.cur) && |Fork(cond, ty).f.blocks| <= |F.blocks| &&
    Fork(cond, ty).f.blocks[cond.cur].instrs <= F.blocks[cond.cur].instrs &&
    F.blocks[Fork(cond, ty).thn].phis == [] && F.blocks[Fork(cond, ty).els].phis == []
  }

  /** The two arms and the merge, after the condition. */
  function LowerArms(e: Expr, vars: seq<VarEntry>, level: nat, cond: Low): Low
    requires e.Cond? && cond.cur < |cond.f.blocks|
  {
    var s := Fork(cond, e.ty);
    var thn := LowerExpr(e.t, vars, level, s.f, s.thn);
    var f3 := EmitInto(thn.f, thn.cur, Br(s.merge));
    Join(LowerExpr(e.els, vars, level, f3, s.els), thn, s)
  }

  lemma CondFits(e: Expr, vars: seq<VarEntry>, level: nat, f: Func, cur: nat, F: Func)
    requires e.Cond? && cur < |f.blocks|
    requires var r := LowerExpr(e, vars, level, f, cur); Completes(F, f, cur, r.f, r.cur)
    ensures var cond := LowerExpr(e.c, vars, level, f, cur);
      var r := LowerArms(e, vars, level, cond);
      LowerExpr(e, vars, level, f, cur) == r && HeadFits(cond, e.ty, f, cur, F) && ArmsFit(e, vars, level, cond, F) &&
      r.reg < r.f.nextReg && r.cur == Fork(cond, e.ty).merge && r.f.blocks[r.cur].instrs == []
  {
    var cond := LowerExpr(e.c, vars, level, f, cur);
    var s := Fork(cond, e.ty);
    var thn := LowerExpr(e.t, vars, level, s.f, s.thn);
    var f3 := EmitInto(thn.f, thn.cur, Br(s.merge));
    var alt := LowerExpr(e.els, vars, level, f3, s.els);
    CondExtends(f, cur, cond, s, thn, f3, alt);
    CondCompletesHead(F, f, cur, cond, s, thn, f3, alt);
    CondCompletesArms(F, f, cur, cond, s, thn, f3, alt);
    CondCompletesMerge(F, f, cur, cond, s, thn, f3, alt);
  }

  lemma BinaryFits(e: Expr, vars: seq<VarEntry>, level: nat, f: Func, cur: nat, left: Low, right: Low, r: Low, F: Func)
    requires e.Binary? && cur < |f.blocks| && left == LowerExpr(e.l, vars, level, f, cur)
    requires right == LowerExpr(e.r, vars, level, left.f, left.cur)
    requires r == LowerExpr(e, vars, level, f, cur) && Completes(F, f, cur, r.f, r.cur)
    ensures r == Define(right.f, right.cur, (d: nat) => Bin(d, e.op, left.reg, right.reg))
    ensures Completes(F, f, cur, left.f, left.cur) && Completes(F, left.f, left.cur, right.f, right.cur)
    ensures Completes(F, right.f, right.cur, r.f, r.cur) && f.nextReg <= left.f.nextReg <= right.f.nextReg
  {
    ExtendsTrans(f, cur, left.f, left.cur, right.f, right.cur);
    CompletesParts(F, f, cur, right.f, right.cur, r.f, r.cur);
    CompletesParts(F, f, cur, left.f, left.cur, right.f, right.cur);
  }

  lemma UnaryFits(e: Expr, vars: seq<VarEntry>, level: nat, f: Func, cur: nat, right: Low, r: Low, F: Func)
    requires e.Unary? && cur < |f.blocks| && right == LowerExpr(e.e, vars, level, f, cur)
    requires r == LowerExpr(e, vars, level, f, cur) && Completes(F, f, cur, r.f, r.cur)
    ensures r == Define(right.f, right.cur, (d: nat) => Un(d, e.uop, right.reg))
    ensures Completes(F, f, cur, right.f, right.cur) && Completes(F, right.f, right.cur, r.f, r.cur)
    ensures f.nextReg <= right.f.nextReg
  {
    CompletesParts(F, f, cur, right.f, right.cur, r.f, r.cur);
  }

  lemma LetFits(e: Expr, vars: seq<VarEntry>, level: nat, f: Func, cur: nat, low: (seq<VarEntry>, Func, nat), r: Low,
      F: Func)
    requires e.Let? && cur < |f.blocks| && low == LowerBinds(e.binds, vars, level + 1, f, cur)
    requires r == LowerExpr(e, vars, level, f, cur) && Completes(F, f, cur, r.f, r.cur)
    ensures r == LowerExpr(e.fin, low.0, level + 1, low.1, low.2)
    ensures Completes(F, f, cur, low.1, low.2) && Completes(F, low.1, low.2, r.f, r.cur)
    ensures f.nextReg <= low.1.nextReg
  {
    CompletesParts(F, f, cur, low.1, low.2, r.f, r.cur);
  }

  lemma BindsFit(binds: seq<Binding>, vars: seq<VarEntry>, level: nat, f: Func, cur: nat, v: Low,
                 r: (seq<VarEntry>, Func, nat), F: Func)
    requires binds != [] && cur < |f.blocks| && v == LowerExpr(binds[0].init, vars, level, f, cur)
    requires r == LowerBinds(binds, vars, level, f, cur) && Completes(F, f, cur, r.1, r.2)
    ensures r == LowerBinds(binds[1..], SetVar(vars, binds[0].x, v.reg, level), level, v.f, v.cur)
    ensures Completes(F, f, cur, v.f, v.cur) && Completes(F, v.f, v.cur, r.1, r.2)
    ensures f.nextReg <= v.f.nextReg
  {
    CompletesParts(F, f, cur, v.f, v.cur, r.1, r.2);
  }

  // ---------- the theorem ----------

  /** Lowering `e` from the end of block `cur` and running the finished function
      from there reaches the end of the returned block with the returned register
      holding the value of `e`; no older register changes. */
  lemma {:induction false} LowerRuns(e: Expr, g: Types, env: Env, vars: seq<VarEntry>, level: nat,
                                     f: Func, cur: nat, r: Low, F: Func, regs: Regs) returns (n: nat, regs1: Regs)
    requires TypeOf(e, g).Some? && EnvOk(env, g) && cur < |f.blocks| && VarsOk(vars, g, env, regs, f.nextReg)
    requires r == LowerExpr(e, vars, level, f, cur) && Completes(F, f, cur, r.f, r.cur)
    ensures Steps(F, EndOf(f, cur, regs), n) == EndOf(r.f, r.cur, regs1) &&
      Read(regs1, r.reg) == Enc(Eval(e, env)) && r.reg < r.f.nextReg
    ensures SameBelow(regs, regs1, f.nextReg)
    decreases e, 3
  {
    match e
    case Lit(k) =>
      DefineRuns(f, cur, (d: nat) => Const(d, k), F, regs);
      n, regs1 := 1, regs[f.nextReg := k];
    case BoolLit(b) =>
      DefineRuns(f, cur, (d: nat) => ConstBool(d, b), F, regs);
      n, regs1 := 1, regs[f.nextReg := Truth(b)];
    case Name(x) =>
      n, regs1 := 0, regs;
    case Binary(op, a, b) => n, regs1 := BinaryRuns(e, g, env, vars, level, f, cur, r, F, regs);
    case Unary(op, a) => n, regs1 := UnaryRuns(e, g, env, vars, level, f, cur, r, F, regs);
    case Cond(c, t, els, _) => n, regs1 := CondRuns(e, g, env, vars, level, f, cur, r, F, regs);
    case Let(binds, fin) => n, regs1 := LetRuns(e, g, env, vars, level, f, cur, r, F, regs);
  }

  lemma {:induction false} BinaryRuns(e: Expr, g: Types, env: Env, vars: seq<VarEntry>, level: nat,
                                      f: Func, cur: nat, r: Low, F: Func, regs: Regs) returns (n: nat, regs1: Regs)
    requires e.Binary? && TypeOf(e, g).Some? && EnvOk(env, g) && cur < |f.blocks| &&
      VarsOk(vars, g, env, regs, f.nextReg)
    requires r == LowerExpr(e, vars, level, f, cur) && Completes(F, f, cur, r.f, r.cur)
    ensures Steps(F, EndOf(f, cur, regs), n) == EndOf(r.f, r.cur, regs1) &&
      Read(regs1, r.reg) == Enc(Eval(e, env)) && r.reg < r.f.nextReg
    ensures SameBelow(regs, regs1, f.nextReg)
    decreases e, 1
  {
    hide LowerExpr, LowerBinds, Steps, Step;
    var left := LowerExpr(e.l, vars, level, f, cur);
    var right := LowerExpr(e.r, vars, level, left.f, left.cur);
    var mk := (d: nat) => Bin(d, e.op, left.reg, right.reg);
    BinaryFits(e, vars, level, f, cur, left, right, r, F);
    var n1, mid1 := LowerRuns(e.l, g, env, vars, level, f, cur, left, F, regs);
    VarsFrame(vars, g, env, regs, mid1, f.nextReg, left.f.nextReg);
    var n2, mid2 := LowerRuns(e.r, g, env, vars, level, left.f, left.cur, right, F, mid1);
    DefineRuns(right.f, right.cur, mk, F, mid2);
    StepsAdd(F, EndOf(f, cur, regs), n1, n2);
    StepsAdd(F, EndOf(f, cur, regs), n1 + n2, 1);
    n, regs1 := n1 + n2 + 1, Exec(mk(right.f.nextReg), mid2);
    EvalTyped(e.l, g, env);
    EvalTyped(e.r, g, env);
    BinAgrees(e.op, Eval(e.l, env), Eval(e.r, env), TypeOf(e.l, g).value, TypeOf(e.r, g).value);
  }

  lemma {:induction false} UnaryRuns(e: Expr, g: Types, env: Env, vars: seq<VarEntry>, level: nat,
                                     f: Func, cur: nat, r: Low, F: Func, regs: Regs) returns (n: nat, regs1: Regs)
    requires e.Unary? && TypeOf(e, g).Some? && EnvOk(env, g) && cur < |f.blocks| &&
      VarsOk(vars, g, env, regs, f.nextReg)
    requires r == LowerExpr(e, vars, level, f, cur) && Completes(F, f, cur, r.f, r.cur)
    ensures Steps(F, EndOf(f, cur, regs), n) == EndOf(r.f, r.cur, regs1) &&
      Read(regs1, r.reg) == Enc(Eval(e, env)) && r.reg < r.f.nextReg
    ensures SameBelow(regs, regs1, f.nextReg)
    decreases e, 1
  {
    hide LowerExpr, LowerBinds, Steps, Step;
    var right := LowerExpr(e.e, vars, level, f, cur);
    var mk := (d: nat) => Un(d, e.uop, right.reg);
    UnaryFits(e, vars, level, f, cur, right, r, F);
    var n1, mid := LowerRuns(e.e, g, env, vars, level, f, cur, right, F, regs);
    DefineRuns(right.f, right.cur, mk, F, mid);
    StepsAdd(F, EndOf(f, cur, regs), n1, 1);
    n, regs1 := n1 + 1, Exec(mk(right.f.nextReg), mid);
    EvalTyped(e.e, g, env);
    UnAgrees(e.uop, Eval(e.e, env));
  }

  lemma {:induction false} LetRuns(e: Expr, g: Types, env: Env, vars: seq<VarEntry>, level: nat,
                                   f: Func, cur: nat, r: Low, F: Func, regs: Regs) returns (n: nat, regs1: Regs)
    requires e.Let? && TypeOf(e, g).Some? && EnvOk(env, g) && cur < |f.blocks| && VarsOk(vars, g, env, regs, f.nextReg)
    requires r == LowerExpr(e, vars, level, f, cur) && Completes(F, f, cur, r.f, r.cur)
    ensures Steps(F, EndOf(f, cur, regs), n) == EndOf(r.f, r.cur, regs1) &&
      Read(regs1, r.reg) == Enc(Eval(e, env)) && r.reg < r.f.nextReg
    ensures SameBelow(regs, regs1, f.nextReg)
    decreases e, 1
  {
    hide LowerExpr, LowerBinds, Steps, Step;
    var low := LowerBinds(e.binds, vars, level + 1, f, cur);
    LetFits(e, vars, level, f, cur, low, r, F);
    var n1, mid := BindsRun(e.binds, g, env, vars, level + 1, f, cur, low, F, regs);
    ExtendTyped(e.binds, g, env);
    var n2, last := LowerRuns(e.fin, BindTypes(e.binds, g).value, Extend(e.binds, env), low.0, level + 1, low.1, low.2,
      r, F, mid);
    StepsAdd(F, EndOf(f, cur, regs), n1, n2);
    n, regs1 := n1 + n2, last;
  }

  /** The condition and the branch it decides. */
  lemma {:induction false} HeadRuns(e: Expr, g: Types, env: Env, vars: seq<VarEntry>, level: nat,
                                    f: Func, cur: nat, cond: Low, r: Low, F: Func, regs: Regs)
                                      returns (n: nat, mid: Regs)
    requires e.Cond? && TypeOf(e, g).Some? && EnvOk(env, g) && cur < |f.blocks| && VarsOk(vars, g, env, regs, f.nextReg)
    requires cond == LowerExpr(e.c, vars, level, f, cur)
    requires r == LowerExpr(e, vars, level, f, cur) && Completes(F, f, cur, r.f, r.cur)
    ensures var s := Fork(cond, e.ty);
      Steps(F, EndOf(f, cur, regs), n) == At(if Eval(e.c, env) == B(true) then s.thn else s.els, 0, mid)
    ensures SameBelow(regs, mid, f.nextReg)
    decreases e, 0
  {
    hide LowerExpr, LowerBinds, Steps, Step;
    CondFits(e, vars, level, f, cur, F);
    var n1;
    n1, mid := LowerRuns(e.c, g, env, vars, level, f, cur, cond, F, regs);
    ForkRuns(F, cond, Fork(cond, e.ty), mid);
    StepsAdd(F, EndOf(f, cur, regs), n1, 1);
    EvalTyped(e.c, g, env);
    n := n1 + 1;
  }

  /** Whichever arm the condition picked, from its block to the merge block. */
  lemma {:induction false} ArmsRun(e: Expr, g: Types, env: Env, vars: seq<VarEntry>, level: nat,
                                   f: Func, cur: nat, cond: Low, r: Low, F: Func, regs: Regs, mid: Regs)
                                     returns (n: nat, regs1: Regs)
    requires e.Cond? && TypeOf(e, g).Some? && EnvOk(env, g) && cur < |f.blocks| && VarsOk(vars, g, env, regs, f.nextReg)
    requires cond == LowerExpr(e.c, vars, level, f, cur) && SameBelow(regs, mid, f.nextReg)
    requires r == LowerExpr(e, vars, level, f, cur) && Completes(F, f, cur, r.f, r.cur)
    ensures var s := Fork(cond, e.ty);
      Steps(F, At(if Eval(e.c, env) == B(true) then s.thn else s.els, 0, mid), n) == EndOf(r.f, r.cur, regs1)
    ensures Read(regs1, r.reg) == Enc(Eval(e, env)) && r.reg < r.f.nextReg && SameBelow(regs, regs1, f.nextReg)
    decreases e, 0
  {
    CondFits(e, vars, level, f, cur, F);
    var s := Fork(cond, e.ty);
    var thn := LowerExpr(e.t, vars, level, s.f, s.thn);
    var f3 := EmitInto(thn.f, thn.cur, Br(s.merge));
    var alt := LowerExpr(e.els, vars, level, f3, s.els);
    var a, b := PhiArg(thn.reg, thn.cur), PhiArg(alt.reg, alt.cur);
    if Eval(e.c, env) == B(true) {
      VarsFrame(vars, g, env, regs, mid, f.nextReg, s.f.nextReg);
      n, regs1 := TakeArm(e.t, g, env, vars, level, s.f, s.thn, F, mid, s.merge, r.reg, e.ty, a, b);
    } else {
      VarsFrame(vars, g, env, regs, mid, f.nextReg, f3.nextReg);
      n, regs1 := TakeArm(e.els, g, env, vars, level, f3, s.els, F, mid, s.merge, r.reg, e.ty, a, b);
    }
  }

  lemma {:induction false} CondRuns(e: Expr, g: Types, env: Env, vars: seq<VarEntry>, level: nat,
                                    f: Func, cur: nat, r: Low, F: Func, regs: Regs) returns (n: nat, regs1: Regs)
    requires e.Cond? && TypeOf(e, g).Some? && EnvOk(env, g) && cur < |f.blocks| && VarsOk(vars, g, env, regs, f.nextReg)
    requires r == LowerExpr(e, vars, level, f, cur) && Completes(F, f, cur, r.f, r.cur)
    ensures Steps(F, EndOf(f, cur, regs), n) == EndOf(r.f, r.cur, regs1) &&
      Read(regs1, r.reg) == Enc(Eval(e, env)) && r.reg < r.f.nextReg
    ensures SameBelow(regs, regs1, f.nextReg)
    decreases e, 1
  {
    hide *;
    var cond := LowerExpr(e.c, vars, level, f, cur);
    var n1, mid := HeadRuns(e, g, env, vars, level, f, cur, cond, r, F, regs);
    var n2;
    n2, regs1 := ArmsRun(e, g, env, vars, level, f, cur, cond, r, F, regs, mid);
    StepsAdd(F, EndOf(f, cur, regs), n1, n2);
    n := n1 + n2;
  }

  /** Running one arm of a conditional, from its block to the merge block. */
  lemma {:induction false} TakeArm(arm: Expr, g: Types, env: Env, vars: seq<VarEntry>, level: nat,
                                   f: Func, start: nat, F: Func, mid: Regs, merge: nat, dst: nat, ty: Ty, a: PhiArg,
                                     b: PhiArg)
    returns (n: nat, regs1: Regs)
    requires TypeOf(arm, g).Some? && EnvOk(env, g) && start < |f.blocks| && VarsOk(vars, g, env, mid, f.nextReg)
    requires f.blocks[start].instrs == []
    requires var low := LowerExpr(arm, vars, level, f, start);
      Completes(F, f, start, low.f, low.cur) && low.cur < |F.blocks| && merge < |F.blocks| && a.pred != b.pred &&
      EmitInto(low.f, low.cur, Br(merge)).blocks[low.cur].instrs <= F.blocks[low.cur].instrs &&
      F.blocks[merge].phis == [Phi(dst, ty, [a, b])] &&
      (PhiArg(low.reg, low.cur) == a || PhiArg(low.reg, low.cur) == b) &&
      dst >= f.nextReg
    ensures Steps(F, At(start, 0, mid), n) == At(merge, 0, regs1)
    ensures Read(regs1, dst) == Enc(Eval(arm, env)) && SameBelow(mid, regs1, f.nextReg)
    decreases arm, 4
  {
    hide LowerExpr, VarsOk, EnvOk, TypeOf, Eval, Completes;
    var low := LowerExpr(arm, vars, level, f, start);
    var n2, last := LowerRuns(arm, g, env, vars, level, f, start, low, F, mid);
    ArmRuns(F, low, merge, dst, ty, a, b, last);
    StepsAdd(F, At(start, 0, mid), n2, 1);
    n, regs1 := n2 + 1, last[dst := Read(last, low.reg)];
  }

  /** A new name goes to the end of the table. */
  lemma BindVar(vars: seq<VarEntry>, g: Types, env: Env, regs: Regs, limit: nat, x: string, t: Ty, v: Val, reg: nat,
      level: nat)
    requires VarsOk(vars, g, env, regs, limit) && x !in g && reg < limit && Read(regs, reg) == Enc(v)
    ensures VarsOk(SetVar(vars, x, reg, level), g[x := t], env[x := v], regs, limit)
  {
    var vars1 := SetVar(vars, x, reg, level);
    assert vars1 == vars + [VarEntry(x, reg, level)];
    assert vars1[..|vars1| - 1] == vars;
  }

  lemma {:induction false} BindsRun(binds: seq<Binding>, g: Types, env: Env, vars: seq<VarEntry>, level: nat,
                                    f: Func, cur: nat, r: (seq<VarEntry>, Func, nat), F: Func, regs: Regs)
                                      returns (n: nat, regs1: Regs)
    requires BindTypes(binds, g).Some? && EnvOk(env, g) && cur < |f.blocks| && VarsOk(vars, g, env, regs, f.nextReg)
    requires r == LowerBinds(binds, vars, level, f, cur) && Completes(F, f, cur, r.1, r.2)
    ensures Steps(F, EndOf(f, cur, regs), n) == EndOf(r.1, r.2, regs1) &&
      VarsOk(r.0, BindTypes(binds, g).value, Extend(binds, env), regs1, r.1.nextReg)
    ensures SameBelow(regs, regs1, f.nextReg)
    decreases binds, 5
  {
    if binds == [] {
      n, regs1 := 0, regs;
    } else {
      n, regs1 := BindsStep(binds, g, env, vars, level, f, cur, r, F, regs);
    }
  }

  lemma {:induction false} BindsStep(binds: seq<Binding>, g: Types, env: Env, vars: seq<VarEntry>, level: nat,
                                    f: Func, cur: nat, r: (seq<VarEntry>, Func, nat), F: Func, regs: Regs)
                                      returns (n: nat, regs1: Regs)
    requires binds != [] && BindTypes(binds, g).Some? && EnvOk(env, g) && cur < |f.blocks| &&
      VarsOk(vars, g, env, regs, f.nextReg)
    requires r == LowerBinds(binds, vars, level, f, cur) && Completes(F, f, cur, r.1, r.2)
    ensures Steps(F, EndOf(f, cur, regs), n) == EndOf(r.1, r.2, regs1) &&
      VarsOk(r.0, BindTypes(binds, g).value, Extend(binds, env), regs1, r.1.nextReg)
    ensures SameBelow(regs, regs1, f.nextReg)
    decreases binds, 4
  {
    hide LowerExpr, LowerBinds, Steps, Step;
    var b := binds[0];
    var v := LowerExpr(b.init, vars, level, f, cur);
    BindsFit(binds, vars, level, f, cur, v, r, F);
    var n1, mid := BindRuns(b, g, env, vars, level, f, cur, v, F, regs);
    var t, val := TypeOf(b.init, g).value, Eval(b.init, env);
    EvalTyped(b.init, g, env);
    var n2, last := BindsRun(binds[1..], g[b.x := t], env[b.x := val], SetVar(vars, b.x, v.reg, level), level, v.f,
      v.cur, r, F, mid);
    StepsAdd(F, EndOf(f, cur, regs), n1, n2);
    n, regs1 := n1 + n2, last;
  }

  /** One binding: its initialiser runs and the name is entered in the table. */
  lemma {:induction false} BindRuns(b: Binding, g: Types, env: Env, vars: seq<VarEntry>, level: nat,
                                    f: Func, cur: nat, v: Low, F: Func, regs: Regs) returns (n: nat, regs1: Regs)
    requires TypeOf(b.init, g).Some? && b.x !in g && EnvOk(env, g) && cur < |f.blocks| &&
      VarsOk(vars, g, env, regs, f.nextReg)
    requires v == LowerExpr(b.init, vars, level, f, cur) && Completes(F, f, cur, v.f, v.cur)
    ensures Steps(F, EndOf(f, cur, regs), n) == EndOf(v.f, v.cur, regs1) &&
      VarsOk(SetVar(vars, b.x, v.reg, level), g[b.x := TypeOf(b.init, g).value], env[b.x := Eval(b.init, env)], regs1,
        v.f.nextReg)
    ensures SameBelow(regs, regs1, f.nextReg)
    decreases b, 5
  {
    n, regs1 := LowerRuns(b.init, g, env, vars, level, f, cur, v, F, regs);
    VarsFrame(vars, g, env, regs, regs1, f.nextReg, v.f.nextReg);
    BindVar(vars, g, env, regs1, v.f.nextReg, b.x, TypeOf(b.init, g).value, Eval(b.init, env), v.reg, level);
  }
}
