/** Lowering a whole function: parameters, body, return (src/ir_lower.c, the
    function case of lower_stmt), with the properties the IR relies on: the
    function computes what the source says, every register has one definition,
    every block ends in its only terminator. */
module IrFunction {
  import opened Bits
  import opened Ir
  import opened IrLower
  import opened IrLowerCorrect

  datatype Param = Param(x: string, t: Ty)

  datatype Function = Function(params: seq<Param>, body: Expr)

  const EMPTY := Func([], 0)

  /** Enter the parameters in the variable table, one register each. */
  function LowerParams(params: seq<Param>, vars: seq<VarEntry>, f: Func): (r: (seq<VarEntry>, Func))
    ensures r.1.blocks == f.blocks && r.1.nextReg == f.nextReg + |params|
    decreases params
  {
    if params == [] then (vars, f)
    else LowerParams(params[1..], SetVar(vars, params[0].x, f.nextReg, 1), NewReg(f))
  }

  /** A block body's statements share the parameters' scope level. */
  function LowerBody(body: Expr, vars: seq<VarEntry>, f: Func, cur: nat): (r: Low)
    requires cur < |f.blocks|
    ensures Extends(f, cur, r.f, r.cur)
  {
    if body.Let? then
      var (vars1, f1, cur1) := LowerBinds(body.binds, vars, 1, f, cur);
      var r := LowerExpr(body.fin, vars1, 1, f1, cur1);
      ExtendsTrans(f, cur, f1, cur1, r.f, r.cur);
      r
    else LowerExpr(body, vars, 1, f, cur)
  }

  function LowerFunction(fn: Function): Func {
    var (vars, f) := LowerParams(fn.params, [], AddBlock(EMPTY));
    var r := LowerBody(fn.body, vars, f, 0);
    EmitInto(r.f, r.cur, Ret(r.reg))
  }

  function ParamTypes(params: seq<Param>, g: Types): Option<Types>
    decreases params
  {
    if params == [] then Some(g)
    else if params[0].x in g then None
    else ParamTypes(params[1..], g[params[0].x := params[0].t])
  }

  predicate WellTyped(fn: Function) {
    var g := ParamTypes(fn.params, map[]);
    g.Some? && TypeOf(fn.body, g.value).Some?
  }

  function ParamEnv(params: seq<Param>, args: seq<Val>, env: Env): Env
    requires |params| == |args|
    decreases params
  {
    if params == [] then env else ParamEnv(params[1..], args[1..], env[params[0].x := args[0]])
  }

  predicate ArgsOk(params: seq<Param>, args: seq<Val>) {
    |params| == |args| && forall i :: 0 <= i < |params| ==> HasTy(args[i], params[i].t)
  }

  /** The registers on entry: argument `i` in register `i`. */
  function ArgRegs(args: seq<Val>, k: nat, regs: Regs): Regs
    decreases |args| - k
  {
    if k >= |args| then regs else ArgRegs(args, k + 1, regs[k := Enc(args[k])])
  }

  // ---------- the function computes its value ----------

  lemma {:induction false} ArgRegsRead(args: seq<Val>, k: nat, regs: Regs)
    requires k <= |args| && forall i :: 0 <= i < k ==> Read(regs, i) == Enc(args[i])
    ensures forall i :: 0 <= i < |args| ==> Read(ArgRegs(args, k, regs), i) == Enc(args[i])
    decreases |args| - k
  {
    if k < |args| { ArgRegsRead(args, k + 1, regs[k := Enc(args[k])]); }
  }

  lemma {:induction false} ParamsOk(params: seq<Param>, args: seq<Val>, k: nat, g: Types, env: Env,
                                    vars: seq<VarEntry>, f: Func, regs: Regs)
    requires k + |params| == |args| && ArgsOk(params, args[k..]) && ParamTypes(params, g).Some?
    requires EnvOk(env, g) && VarsOk(vars, g, env, regs, f.nextReg) && f.nextReg == k
    requires forall i :: 0 <= i < |args| ==> Read(regs, i) == Enc(args[i])
    ensures var g1, env1, r := ParamTypes(params, g).value, ParamEnv(params, args[k..], env),
      LowerParams(params, vars, f);
      EnvOk(env1, g1) && VarsOk(r.0, g1, env1, regs, r.1.nextReg)
    decreases params
  {
    if params != [] {
      var p := params[0];
      assert args[k..][1..] == args[k + 1..] && args[k..][0] == args[k];
      forall i | 0 <= i < |params[1..]| ensures HasTy(args[k + 1..][i], params[1..][i].t) {
        assert args[k + 1..][i] == args[k..][i + 1] && params[1..][i] == params[i + 1];
      }
      VarsFrame(vars, g, env, regs, regs, k, k + 1);
      BindVar(vars, g, env, regs, k + 1, p.x, p.t, args[k], k, 1);
      ParamsOk(params[1..], args, k + 1, g[p.x := p.t], env[p.x := args[k]], SetVar(vars, p.x, k, 1), NewReg(f), regs);
    }
  }

  /** A block body runs like any other block expression. */
  lemma BodyRuns(body: Expr, g: Types, env: Env, vars: seq<VarEntry>, f: Func, cur: nat, r: Low, F: Func, regs: Regs)
    returns (n: nat, regs1: Regs)
    requires TypeOf(body, g).Some? && EnvOk(env, g) && cur < |f.blocks| && VarsOk(vars, g, env, regs, f.nextReg)
    requires r == LowerBody(body, vars, f, cur) && Completes(F, f, cur, r.f, r.cur)
    ensures Steps(F, EndOf(f, cur, regs), n) == EndOf(r.f, r.cur, regs1) && Read(regs1, r.reg) == Enc(Eval(body, env))
  {
    hide VarsOk, EnvOk, Completes, LowerExpr, LowerBinds, Extend, BindTypes, Steps, EndOf;
    if body.Let? {
      var low := LowerBinds(body.binds, vars, 1, f, cur);
      CompletesParts(F, f, cur, low.1, low.2, r.f, r.cur);
      var n1, mid := BindsRun(body.binds, g, env, vars, 1, f, cur, low, F, regs);
      ExtendTyped(body.binds, g, env);
      var n2, last := LowerRuns(body.fin, BindTypes(body.binds, g).value, Extend(body.binds, env), low.0, 1, low.1,
        low.2, r, F, mid);
      StepsAdd(F, EndOf(f, cur, regs), n1, n2);
      n, regs1 := n1 + n2, last;
    } else {
      n, regs1 := LowerRuns(body, g, env, vars, 1, f, cur, r, F, regs);
    }
  }

  lemma RetRuns(F: Func, f: Func, cur: nat, reg: nat, regs: Regs)
    requires cur < |f.blocks| && F == EmitInto(f, cur, Ret(reg))
    ensures Steps(F, EndOf(f, cur, regs), 1) == Done(Read(regs, reg))
  {
    assert F.blocks[cur].instrs[|f.blocks[cur].instrs|] == Ret(reg);
    assert Steps(F, EndOf(f, cur, regs), 1) == Steps(F, Step(F, EndOf(f, cur, regs)), 0);
  }

  /** Calling the lowered function returns the value of the source function's body. */
  lemma FunctionRuns(fn: Function, args: seq<Val>) returns (n: nat)
    requires WellTyped(fn) && ArgsOk(fn.params, args)
    ensures Steps(LowerFunction(fn), At(0, 0, ArgRegs(args, 0, map[])), n) ==
            Done(Enc(Eval(fn.body, ParamEnv(fn.params, args, map[]))))
  {
    var F := LowerFunction(fn);
    var regs := ArgRegs(args, 0, map[]);
    ArgRegsRead(args, 0, map[]);
    assert args[0..] == args;
    var f0 := AddBlock(EMPTY);
    ParamsOk(fn.params, args, 0, map[], map[], [], f0, regs);
    var p := LowerParams(fn.params, [], f0);
    var r := LowerBody(fn.body, p.0, p.1, 0);
    var n1, last := BodyRuns(fn.body, ParamTypes(fn.params, map[]).value, ParamEnv(fn.params, args, map[]), p.0, p.1,
      0, r, F, regs);
    RetRuns(F, r.f, r.cur, r.reg, last);
    StepsAdd(F, At(0, 0, regs), n1, 1);
    n := n1 + 1;
  }

  // ---------- one definition per register ----------

  function Writes(i: Instr, q: nat): nat { if !IsTerminator(i) && i.dst == q then 1 else 0 }

  function InstrDefs(instrs: seq<Instr>, q: nat): nat {
    if instrs == [] then 0 else InstrDefs(instrs[..|instrs| - 1], q) + Writes(instrs[|instrs| - 1], q)
  }

  function PhiDefs(phis: seq<Phi>, q: nat): nat {
    if phis == [] then 0 else PhiDefs(phis[..|phis| - 1], q) + (if phis[|phis| - 1].dst == q then 1 else 0)
  }

  /** How often the first `k` blocks define register `q`. */
  function DefsIn(blocks: seq<Block>, k: nat, q: nat): nat
    requires k <= |blocks|
  {
    if k == 0 then 0 else DefsIn(blocks, k - 1, q) + PhiDefs(blocks[k - 1].phis, q) + InstrDefs(blocks[k - 1].instrs, q)
  }

  function Defs(f: Func, q: nat): nat { DefsIn(f.blocks, |f.blocks|, q) }

  lemma {:induction false} DefsFrame(bs: seq<Block>, cs: seq<Block>, k: nat, q: nat)
    requires k <= |bs| && k <= |cs| && forall j :: 0 <= j < k ==> bs[j] == cs[j]
    ensures DefsIn(bs, k, q) == DefsIn(cs, k, q)
    decreases k
  {
    if k > 0 { DefsFrame(bs, cs, k - 1, q); }
  }

  lemma {:induction false} DefsUpdate(bs: seq<Block>, b: nat, x: Block, k: nat, q: nat)
    requires b < k <= |bs|
    ensures DefsIn(bs[b := x], k, q) + PhiDefs(bs[b].phis, q) + InstrDefs(bs[b].instrs, q) ==
            DefsIn(bs, k, q) + PhiDefs(x.phis, q) + InstrDefs(x.instrs, q)
    decreases k
  {
    if b == k - 1 { DefsFrame(bs[b := x], bs, k - 1, q); } else { DefsUpdate(bs, b, x, k - 1, q); }
  }

  lemma EmitDefs(f: Func, b: nat, i: Instr, q: nat)
    requires b < |f.blocks|
    ensures Defs(EmitInto(f, b, i), q) == Defs(f, q) + Writes(i, q)
  {
    var ins := f.blocks[b].instrs + [i];
    assert ins[..|ins| - 1] == f.blocks[b].instrs;
    DefsUpdate(f.blocks, b, f.blocks[b].(instrs := ins), |f.blocks|, q);
  }

  lemma PhiDefsGrow(f: Func, b: nat, p: Phi, q: nat)
    requires b < |f.blocks|
    ensures Defs(EmitPhi(f, b, p), q) == Defs(f, q) + (if p.dst == q then 1 else 0)
  {
    var ps := f.blocks[b].phis + [p];
    assert ps[..|ps| - 1] == f.blocks[b].phis;
    DefsUpdate(f.blocks, b, f.blocks[b].(phis := ps), |f.blocks|, q);
  }

  lemma AddBlockDefs(f: Func, q: nat)
    ensures Defs(AddBlock(f), q) == Defs(f, q)
  {
    DefsFrame(AddBlock(f).blocks, f.blocks, |f.blocks|, q);
  }

  function Fresh(f: Func, f1: Func, q: nat): nat { if f.nextReg <= q < f1.nextReg then 1 else 0 }

  lemma DefineDefs(f: Func, cur: nat, mk: nat -> Instr, q: nat)
    requires cur < |f.blocks| && !IsTerminator(mk(f.nextReg)) && mk(f.nextReg).dst == f.nextReg
    ensures var r := Define(f, cur, mk); Defs(r.f, q) == Defs(f, q) + Fresh(f, r.f, q)
  {
    EmitDefs(NewReg(f), cur, mk(f.nextReg), q);
  }

  lemma ForkDefs(cond: Low, ty: Ty, q: nat)
    requires cond.cur < |cond.f.blocks|
    ensures Defs(Fork(cond, ty).f, q) == Defs(cond.f, q) && Fork(cond, ty).f.nextReg == cond.f.nextReg
  {
    var f1, f2 := AddBlock(cond.f), AddBlock(AddBlock(cond.f));
    AddBlockDefs(cond.f, q);
    AddBlockDefs(f1, q);
    AddBlockDefs(f2, q);
    EmitDefs(AddBlock(f2), cond.cur, Cbr(cond.reg, |cond.f.blocks|, |cond.f.blocks| + 2), q);
  }

  lemma JoinDefs(alt: Low, thn: Low, s: Split, q: nat)
    requires alt.cur < |alt.f.blocks| && s.merge < |alt.f.blocks|
    ensures var r := Join(alt, thn, s);
      Defs(r.f, q) == Defs(alt.f, q) + Fresh(alt.f, r.f, q) && r.f.nextReg == alt.f.nextReg + 1
  {
    var f5 := EmitInto(alt.f, alt.cur, Br(s.merge));
    EmitDefs(alt.f, alt.cur, Br(s.merge), q);
    PhiDefsGrow(NewReg(f5), s.merge, Phi(f5.nextReg, s.ty, [PhiArg(thn.reg, thn.cur), PhiArg(alt.reg, alt.cur)]), q);
  }

  /** Lowering defines every register it takes exactly once, and no other. */
  lemma {:induction false} LowerDefs(e: Expr, vars: seq<VarEntry>, level: nat, f: Func, cur: nat, q: nat)
    requires cur < |f.blocks|
    ensures var r := LowerExpr(e, vars, level, f, cur); Defs(r.f, q) == Defs(f, q) + Fresh(f, r.f, q)
    decreases e, 1
  {
    match e
    case Lit(k) => DefineDefs(f, cur, (d: nat) => Const(d, k), q);
    case BoolLit(b) => DefineDefs(f, cur, (d: nat) => ConstBool(d, b), q);
    case Name(_) =>
    case Binary(op, a, b) =>
      var left := LowerExpr(a, vars, level, f, cur);
      var right := LowerExpr(b, vars, level, left.f, left.cur);
      LowerDefs(a, vars, level, f, cur, q);
      LowerDefs(b, vars, level, left.f, left.cur, q);
      DefineDefs(right.f, right.cur, (d: nat) => Bin(d, op, left.reg, right.reg), q);
    case Unary(op, a) =>
      var right := LowerExpr(a, vars, level, f, cur);
      LowerDefs(a, vars, level, f, cur, q);
      DefineDefs(right.f, right.cur, (d: nat) => Un(d, op, right.reg), q);
    case Cond(_, _, _, _) => CondDefs(e, vars, level, f, cur, q);
    case Let(binds, fin) =>
      var low := LowerBinds(binds, vars, level + 1, f, cur);
      BindsDefs(binds, vars, level + 1, f, cur, q);
      LowerDefs(fin, low.0, level + 1, low.1, low.2, q);
  }

  lemma {:induction false} CondDefs(e: Expr, vars: seq<VarEntry>, level: nat, f: Func, cur: nat, q: nat)
    requires e.Cond? && cur < |f.blocks|
    ensures var r := LowerExpr(e, vars, level, f, cur); Defs(r.f, q) == Defs(f, q) + Fresh(f, r.f, q)
    decreases e, 0
  {
    var cond := LowerExpr(e.c, vars, level, f, cur);
    var s := Fork(cond, e.ty);
    var thn := LowerExpr(e.t, vars, level, s.f, s.thn);
    var f3 := EmitInto(thn.f, thn.cur, Br(s.merge));
    var alt := LowerExpr(e.els, vars, level, f3, s.els);
    LowerDefs(e.c, vars, level, f, cur, q);
    ForkDefs(cond, e.ty, q);
    LowerDefs(e.t, vars, level, s.f, s.thn, q);
    EmitDefs(thn.f, thn.cur, Br(s.merge), q);
    LowerDefs(e.els, vars, level, f3, s.els, q);
    JoinDefs(alt, thn, s, q);
  }

  lemma {:induction false} BindsDefs(binds: seq<Binding>, vars: seq<VarEntry>, level: nat, f: Func, cur: nat, q: nat)
    requires cur < |f.blocks|
    ensures var r := LowerBinds(binds, vars, level, f, cur); Defs(r.1, q) == Defs(f, q) + Fresh(f, r.1, q)
    decreases binds, 0
  {
    if binds != [] {
      var v := LowerExpr(binds[0].init, vars, level, f, cur);
      LowerDefs(binds[0].init, vars, level, f, cur, q);
      BindsDefs(binds[1..], SetVar(vars, binds[0].x, v.reg, level), level, v.f, v.cur, q);
    }
  }

  lemma BodyDefs(body: Expr, vars: seq<VarEntry>, f: Func, cur: nat, q: nat)
    requires cur < |f.blocks|
    ensures var r := LowerBody(body, vars, f, cur); Defs(r.f, q) == Defs(f, q) + Fresh(f, r.f, q)
  {
    if body.Let? {
      var low := LowerBinds(body.binds, vars, 1, f, cur);
      BindsDefs(body.binds, vars, 1, f, cur, q);
      LowerDefs(body.fin, low.0, 1, low.1, low.2, q);
    } else {
      LowerDefs(body, vars, 1, f, cur, q);
    }
  }

  /** Single assignment: in a lowered function parameters have no definition, every
      other register below `nextReg` has exactly one, and none lies above. */
  lemma SingleAssignment(fn: Function, q: nat)
    ensures var F := LowerFunction(fn); Defs(F, q) == (if |fn.params| <= q < F.nextReg then 1 else 0)
  {
    var f0 := AddBlock(EMPTY);
    AddBlockDefs(EMPTY, q);
    var p := LowerParams(fn.params, [], f0);
    var r := LowerBody(fn.body, p.0, p.1, 0);
    BodyDefs(fn.body, p.0, p.1, 0, q);
    EmitDefs(r.f, r.cur, Ret(r.reg), q);
    assert Defs(p.1, q) == Defs(f0, q) == 0;
  }

  // ---------- every block ends in its only terminator ----------

  predicate Straight(instrs: seq<Instr>) { forall i :: 0 <= i < |instrs| ==> !IsTerminator(instrs[i]) }

  predicate Closed(b: Block) {
    b.instrs != [] && IsTerminator(b.instrs[|b.instrs| - 1]) && Straight(b.instrs[..|b.instrs| - 1])
  }

  /** From `f` to `f1` every block that was the current one or was added is
      closed, except the new current block, which is still open. */
  predicate Shaped(f: Func, cur: nat, f1: Func, cur1: nat) {
    cur1 < |f1.blocks| && Straight(f1.blocks[cur1].instrs) &&
    forall b :: 0 <= b < |f1.blocks| && (b == cur || b >= |f.blocks|) && b != cur1 ==> Closed(f1.blocks[b])
  }

  lemma ShapedTrans(f: Func, cur: nat, f1: Func, cur1: nat, f2: Func, cur2: nat)
    requires Extends(f, cur, f1, cur1) && Extends(f1, cur1, f2, cur2)
    requires Shaped(f, cur, f1, cur1) && Shaped(f1, cur1, f2, cur2)
    ensures Shaped(f, cur, f2, cur2)
  {
    forall b | 0 <= b < |f2.blocks| && (b == cur || b >= |f.blocks|) && b != cur2 ensures Closed(f2.blocks[b]) {
      if b != cur1 && b < |f1.blocks| { assert f2.blocks[b] == f1.blocks[b]; }
    }
  }

  lemma CloseBlock(f: Func, cur: nat, i: Instr)
    requires cur < |f.blocks| && Straight(f.blocks[cur].instrs) && IsTerminator(i)
    ensures Closed(EmitInto(f, cur, i).blocks[cur])
  {
    var ins := f.blocks[cur].instrs;
    assert (ins + [i])[..|ins|] == ins;
  }

  lemma CondShaped(f: Func, cur: nat, cond: Low, s: Split, thn: Low, f3: Func, alt: Low)
    requires Extends(f, cur, cond.f, cond.cur) && Shaped(f, cur, cond.f, cond.cur) && s == Fork(cond, s.ty)
    requires Extends(s.f, s.thn, thn.f, thn.cur) && Shaped(s.f, s.thn, thn.f, thn.cur)
    requires f3 == EmitInto(thn.f, thn.cur, Br(s.merge))
    requires Extends(f3, s.els, alt.f, alt.cur) && Shaped(f3, s.els, alt.f, alt.cur)
    ensures var r := Join(alt, thn, s); Shaped(f, cur, r.f, r.cur)
  {
    var r := Join(alt, thn, s);
    CloseBlock(AddBlock(AddBlock(AddBlock(cond.f))), cond.cur, Cbr(cond.reg, s.thn, s.els));
    CloseBlock(thn.f, thn.cur, Br(s.merge));
    CloseBlock(alt.f, alt.cur, Br(s.merge));
    assert s.f.blocks[s.merge] == Block([], []);
    forall b | 0 <= b < |r.f.blocks| && (b == cur || b >= |f.blocks|) && b != s.merge ensures Closed(r.f.blocks[b]) {
      assert b != alt.cur ==> r.f.blocks[b] == alt.f.blocks[b];
      if b < |f3.blocks| && b != s.els {
        assert alt.f.blocks[b] == f3.blocks[b];
        if b != thn.cur && b < |s.f.blocks| && b != s.thn {
          assert thn.f.blocks[b] == s.f.blocks[b];
          if b != cond.cur { assert s.f.blocks[b] == cond.f.blocks[b]; }
        }
      }
    }
  }

  lemma {:induction false} LowerShaped(e: Expr, vars: seq<VarEntry>, level: nat, f: Func, cur: nat)
    requires cur < |f.blocks| && Straight(f.blocks[cur].instrs)
    ensures var r := LowerExpr(e, vars, level, f, cur); Shaped(f, cur, r.f, r.cur)
    decreases e, 1
  {
    match e
    case Binary(op, a, b) =>
      var left := LowerExpr(a, vars, level, f, cur);
      var right := LowerExpr(b, vars, level, left.f, left.cur);
      LowerShaped(a, vars, level, f, cur);
      LowerShaped(b, vars, level, left.f, left.cur);
      ShapedTrans(f, cur, left.f, left.cur, right.f, right.cur);
      var r := Define(right.f, right.cur, (d: nat) => Bin(d, op, left.reg, right.reg));
      ExtendsTrans(f, cur, left.f, left.cur, right.f, right.cur);
      ShapedTrans(f, cur, right.f, right.cur, r.f, r.cur);
    case Unary(op, a) =>
      var right := LowerExpr(a, vars, level, f, cur);
      LowerShaped(a, vars, level, f, cur);
      var r := Define(right.f, right.cur, (d: nat) => Un(d, op, right.reg));
      ShapedTrans(f, cur, right.f, right.cur, r.f, r.cur);
    case Cond(_, _, _, _) => CondCase(e, vars, level, f, cur);
    case Let(binds, fin) =>
      var low := LowerBinds(binds, vars, level + 1, f, cur);
      BindsShaped(binds, vars, level + 1, f, cur);
      LowerShaped(fin, low.0, level + 1, low.1, low.2);
      var r := LowerExpr(fin, low.0, level + 1, low.1, low.2);
      ShapedTrans(f, cur, low.1, low.2, r.f, r.cur);
    case _ =>
  }

  lemma {:induction false} CondCase(e: Expr, vars: seq<VarEntry>, level: nat, f: Func, cur: nat)
    requires e.Cond? && cur < |f.blocks| && Straight(f.blocks[cur].instrs)
    ensures var r := LowerExpr(e, vars, level, f, cur); Shaped(f, cur, r.f, r.cur)
    decreases e, 0
  {
    var cond := LowerExpr(e.c, vars, level, f, cur);
    var s := Fork(cond, e.ty);
    var thn := LowerExpr(e.t, vars, level, s.f, s.thn);
    var f3 := EmitInto(thn.f, thn.cur, Br(s.merge));
    var alt := LowerExpr(e.els, vars, level, f3, s.els);
    LowerShaped(e.c, vars, level, f, cur);
    assert s.f.blocks[s.thn] == Block([], []) == s.f.blocks[s.els];
    LowerShaped(e.t, vars, level, s.f, s.thn);
    assert f3.blocks[s.els] == s.f.blocks[s.els];
    LowerShaped(e.els, vars, level, f3, s.els);
    CondShaped(f, cur, cond, s, thn, f3, alt);
  }

  lemma {:induction false} BindsShaped(binds: seq<Binding>, vars: seq<VarEntry>, level: nat, f: Func, cur: nat)
    requires cur < |f.blocks| && Straight(f.blocks[cur].instrs)
    ensures var r := LowerBinds(binds, vars, level, f, cur); Shaped(f, cur, r.1, r.2)
    decreases binds, 0
  {
    if binds != [] {
      var v := LowerExpr(binds[0].init, vars, level, f, cur);
      LowerShaped(binds[0].init, vars, level, f, cur);
      BindsShaped(binds[1..], SetVar(vars, binds[0].x, v.reg, level), level, v.f, v.cur);
      var r := LowerBinds(binds[1..], SetVar(vars, binds[0].x, v.reg, level), level, v.f, v.cur);
      ShapedTrans(f, cur, v.f, v.cur, r.1, r.2);
    }
  }

  /** In a lowered function every block ends in its only terminator. */
  lemma WellTerminated(fn: Function)
    ensures forall b :: 0 <= b < |LowerFunction(fn).blocks| ==> Closed(LowerFunction(fn).blocks[b])
  {
    var p := LowerParams(fn.params, [], AddBlock(EMPTY));
    var f, body := p.1, fn.body;
    var r := LowerBody(body, p.0, f, 0);
    assert f.blocks == [Block([], [])];
    if body.Let? {
      var low := LowerBinds(body.binds, p.0, 1, f, 0);
      BindsShaped(body.binds, p.0, 1, f, 0);
      LowerShaped(body.fin, low.0, 1, low.1, low.2);
      ShapedTrans(f, 0, low.1, low.2, r.f, r.cur);
    } else {
      LowerShaped(body, p.0, 1, f, 0);
    }
    CloseBlock(r.f, r.cur, Ret(r.reg));
  }

  // ---------- running whole blocks ----------

  /** Registers after the instructions of a straight run. */
  function ExecAll(instrs: seq<Instr>, regs: Regs): Regs
    requires Straight(instrs)
    decreases instrs
  {
    if instrs == [] then regs else ExecAll(instrs[1..], Exec(instrs[0], regs))
  }

  /** What running a whole closed block leads to. */
  function AfterBlock(f: Func, b: nat, regs: Regs): State
    requires b < |f.blocks| && Closed(f.blocks[b])
  {
    var instrs := f.blocks[b].instrs;
    var last := |instrs| - 1;
    Step(f, At(b, last, ExecAll(instrs[..last], regs)))
  }

  lemma {:induction false} StraightSteps(f: Func, b: nat, k: nat, n: nat, regs: Regs)
    requires b < |f.blocks| && k + n <= |f.blocks[b].instrs| && Straight(f.blocks[b].instrs[k..k + n])
    ensures Steps(f, At(b, k, regs), n) == At(b, k + n, ExecAll(f.blocks[b].instrs[k..k + n], regs))
    ensures forall m :: 0 <= m <= n ==> Steps(f, At(b, k, regs), m).At?
    decreases n
  {
    var run := f.blocks[b].instrs[k..k + n];
    if n > 0 {
      assert run[0] == f.blocks[b].instrs[k] && run[1..] == f.blocks[b].instrs[k + 1..k + n];
      forall i | 0 <= i < |run[1..]| ensures !IsTerminator(run[1..][i]) { assert run[1..][i] == run[i + 1]; }
      StraightSteps(f, b, k + 1, n - 1, Exec(run[0], regs));
      forall m | 0 <= m <= n ensures Steps(f, At(b, k, regs), m).At? {
        if m > 0 { assert Steps(f, At(b, k, regs), m) == Steps(f, At(b, k + 1, Exec(run[0], regs)), m - 1); }
      }
    }
  }

  /** Single steps through a closed block add up to `AfterBlock`. */
  lemma BlockSteps(f: Func, b: nat, regs: Regs, n: nat)
    requires b < |f.blocks| && Closed(f.blocks[b]) && Steps(f, At(b, 0, regs), n).Done?
    ensures n >= |f.blocks[b].instrs|
    ensures Steps(f, At(b, 0, regs), n) == Steps(f, AfterBlock(f, b, regs), n - |f.blocks[b].instrs|)
  {
    var k := |f.blocks[b].instrs|;
    StraightSteps(f, b, 0, k - 1, regs);
    StepsAdd(f, At(b, 0, regs), k - 1, n - (k - 1));
  }

  lemma {:induction false} DoneStays(f: Func, v: int, n: nat)
    ensures Steps(f, Done(v), n) == Done(v)
    decreases n
  {
    if n > 0 { DoneStays(f, v, n - 1); }
  }

  /** Where a terminator leads. */
  function Leads(f: Func, b: nat, i: Instr, regs: Regs): State
    requires IsTerminator(i)
  {
    match i
    case Br(t) => Jump(f, b, t, regs)
    case Cbr(c, t, e) => Jump(f, b, if Read(regs, c) != 0 then t else e, regs)
    case Ret(a) => Done(Read(regs, a))
  }

  ghost predicate Reaches(f: Func, s: State, t: State) { exists n: nat :: Steps(f, s, n) == t }

  lemma ReachesTrans(f: Func, s: State, t: State, u: State)
    requires Reaches(f, s, t) && Reaches(f, t, u)
    ensures Reaches(f, s, u)
  {
    var m: nat :| Steps(f, s, m) == t;
    var n: nat :| Steps(f, t, n) == u;
    StepsAdd(f, s, m, n);
  }

  /** A block made of a straight run and a terminator goes where the terminator leads. */
  lemma BlockReaches(f: Func, b: nat, front: seq<Instr>, last: Instr, regs: Regs)
    requires b < |f.blocks| && f.blocks[b].instrs == front + [last] && Straight(front) && IsTerminator(last)
    ensures Reaches(f, At(b, 0, regs), Leads(f, b, last, ExecAll(front, regs)))
  {
    var instrs := f.blocks[b].instrs;
    assert instrs[0..|front|] == front && instrs[|front|] == last;
    StraightSteps(f, b, 0, |front|, regs);
    var mid := At(b, |front|, ExecAll(front, regs));
    assert Steps(f, mid, 1) == Steps(f, Step(f, mid), 0);
    StepsAdd(f, At(b, 0, regs), |front|, 1);
  }
}
