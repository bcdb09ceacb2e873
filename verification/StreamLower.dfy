/** Stream generators (section 14 of the Tiq language specification; src/ir_lower.c,
    lower_stream_gen): recurrences over one or two seeds, and the loop they are
    lowered to. */
module StreamLower {
  import opened Bits
  import opened Ir
  import opened IrLower
  import opened IrLowerCorrect
  import opened IrFunction

  // ---------- the source ----------

  /** A generator; the name `i` stands for the index of the term in its rule. */
  datatype Stream = Stream(params: seq<Param>, seeds: seq<Expr>, binders: seq<string>, rule: Expr)

  const INDEX := "i"

  /** What the rule sees: the newest terms first, and the index. */
  function RuleEnv(g: Stream, env: Env, newest: int, older: int, i: int): Env
    requires 1 <= |g.binders| <= 2
  {
    var e1 := env[g.binders[0] := I(newest)];
    (if |g.binders| == 2 then e1[g.binders[1] := I(older)] else e1)[INDEX := I(i)]
  }

  /** The n-th term, by the recurrence. */
  function Term(g: Stream, env: Env, n: nat): int
    requires 1 <= |g.seeds| == |g.binders| <= 2
    decreases n
  {
    if n < |g.seeds| then Enc(Eval(g.seeds[n], env))
    else Enc(Eval(g.rule, RuleEnv(g, env, Term(g, env, n - 1), if |g.seeds| == 2 then Term(g, env, n - 2) else 0, n)))
  }

  function RuleTypes(g: Stream, types: Types): Types
    requires 1 <= |g.binders| <= 2
  {
    var t1 := types[g.binders[0] := Int];
    (if |g.binders| == 2 then t1[g.binders[1] := Int] else t1)[INDEX := Int]
  }

  /** No conditionals, so lowering stays in one block. */
  predicate StraightLine(e: Expr)
    decreases e, 0
  {
    match e
    case Binary(_, l, r) => StraightLine(l) && StraightLine(r)
    case Unary(_, a) => StraightLine(a)
    case Cond(_, _, _, _) => false
    case Let(binds, fin) => StraightBinds(binds) && StraightLine(fin)
    case _ => true
  }

  predicate StraightBinds(binds: seq<Binding>)
    decreases binds, 0
  {
    binds == [] || (StraightLine(binds[0].init) && StraightBinds(binds[1..]))
  }

  /** Accepted generators: integer parameters, seeds and rule, distinct binders, no
      conditionals. A binder called like the index is hidden by it. */
  predicate Accepted(g: Stream) {
    1 <= |g.seeds| <= 2 && |g.binders| == |g.seeds| &&
    (|g.binders| == 2 ==> g.binders[0] != g.binders[1]) &&
    (forall k :: 0 <= k < |g.params| ==> g.params[k].t == Int) && ParamTypes(g.params, map[]).Some? &&
    var types := ParamTypes(g.params, map[]).value;
    (forall k :: 0 <= k < |g.seeds| ==> TypeOf(g.seeds[k], types) == Some(Int) && StraightLine(g.seeds[k])) &&
    TypeOf(g.rule, RuleTypes(g, types)) == Some(Int) && StraightLine(g.rule)
  }

  // ---------- straight-line code ----------

  datatype Code = Code(instrs: seq<Instr>, res: nat, next: nat)

  /** The instructions lowering appends for a straight-line expression, starting from
      register `reg`. */
  function Gen(e: Expr, vars: seq<VarEntry>, level: nat, reg: nat): (c: Code)
    requires StraightLine(e)
    ensures Straight(c.instrs) && reg <= c.next
    decreases e
  {
    match e
    case Lit(n) => Code([Const(reg, n)], reg, reg + 1)
    case BoolLit(b) => Code([ConstBool(reg, b)], reg, reg + 1)
    case Name(x) => var i := FindVar(vars, x); Code([], if i < 0 then 0 else vars[i].reg, reg)
    case Binary(op, l, r) =>
      var a := Gen(l, vars, level, reg);
      var b := Gen(r, vars, level, a.next);
      Code(a.instrs + b.instrs + [Bin(b.next, op, a.res, b.res)], b.next, b.next + 1)
    case Unary(op, a) =>
      var c := Gen(a, vars, level, reg);
      Code(c.instrs + [Un(c.next, op, c.res)], c.next, c.next + 1)
    case Let(binds, fin) =>
      var (vars1, pre, next) := GenBinds(binds, vars, level + 1, reg);
      var c := Gen(fin, vars1, level + 1, next);
      Code(pre + c.instrs, c.res, c.next)
  }

  function GenBinds(binds: seq<Binding>, vars: seq<VarEntry>, level: nat,
      reg: nat): (r: (seq<VarEntry>, seq<Instr>, nat))
    requires StraightBinds(binds)
    ensures Straight(r.1) && reg <= r.2
    decreases binds
  {
    if binds == [] then (vars, [], reg)
    else
      var c := Gen(binds[0].init, vars, level, reg);
      var rest := GenBinds(binds[1..], SetVar(vars, binds[0].x, c.res, level), level, c.next);
      (rest.0, c.instrs + rest.1, rest.2)
  }

  /** A function with more instructions in a block and more registers taken. */
  function Extended(f: Func, cur: nat, instrs: seq<Instr>, next: nat): Func
    requires cur < |f.blocks|
  {
    Func(f.blocks[cur := f.blocks[cur].(instrs := f.blocks[cur].instrs + instrs)], next)
  }

  lemma ExtendedTwice(f: Func, cur: nat, a: seq<Instr>, n: nat, b: seq<Instr>, m: nat)
    requires cur < |f.blocks|
    ensures Extended(Extended(f, cur, a, n), cur, b, m) == Extended(f, cur, a + b, m)
  {
    assert f.blocks[cur].instrs + a + b == f.blocks[cur].instrs + (a + b);
    assert Extended(Extended(f, cur, a, n), cur, b, m).blocks == Extended(f, cur, a + b, m).blocks;
  }

  /** Lowering a straight-line expression appends exactly its generated code to the
      current block. */
  lemma {:induction false} GenIsLower(e: Expr, vars: seq<VarEntry>, level: nat, f: Func, cur: nat)
    requires StraightLine(e) && cur < |f.blocks|
    ensures var c := Gen(e, vars, level, f.nextReg);
      LowerExpr(e, vars, level, f, cur) == Low(Extended(f, cur, c.instrs, c.next), cur, c.res)
    decreases e
  {
    match e
    case Lit(n) =>
    case BoolLit(b) =>
    case Name(x) => assert Extended(f, cur, [], f.nextReg).blocks == f.blocks by
      { assert f.blocks[cur].instrs + [] == f.blocks[cur].instrs; }
    case Binary(op, l, r) =>
      var a := Gen(l, vars, level, f.nextReg);
      var b := Gen(r, vars, level, a.next);
      GenIsLower(l, vars, level, f, cur);
      var fa := Extended(f, cur, a.instrs, a.next);
      GenIsLower(r, vars, level, fa, cur);
      ExtendedTwice(f, cur, a.instrs, a.next, b.instrs, b.next);
      ExtendedTwice(f, cur, a.instrs + b.instrs, b.next, [Bin(b.next, op, a.res, b.res)], b.next + 1);
    case Unary(op, x) =>
      var c := Gen(x, vars, level, f.nextReg);
      GenIsLower(x, vars, level, f, cur);
      ExtendedTwice(f, cur, c.instrs, c.next, [Un(c.next, op, c.res)], c.next + 1);
    case Let(binds, fin) =>
      var p := GenBinds(binds, vars, level + 1, f.nextReg);
      GenBindsIsLower(binds, vars, level + 1, f, cur);
      var fa := Extended(f, cur, p.1, p.2);
      GenIsLower(fin, p.0, level + 1, fa, cur);
      var c := Gen(fin, p.0, level + 1, p.2);
      ExtendedTwice(f, cur, p.1, p.2, c.instrs, c.next);
  }

  lemma {:induction false} GenBindsIsLower(binds: seq<Binding>, vars: seq<VarEntry>, level: nat, f: Func, cur: nat)
    requires StraightBinds(binds) && cur < |f.blocks|
    ensures var p := GenBinds(binds, vars, level, f.nextReg);
      LowerBinds(binds, vars, level, f, cur) == (p.0, Extended(f, cur, p.1, p.2), cur)
    decreases binds
  {
    if binds == [] {
      assert f.blocks[cur].instrs + [] == f.blocks[cur].instrs;
      assert Extended(f, cur, [], f.nextReg).blocks == f.blocks;
    } else {
      var c := Gen(binds[0].init, vars, level, f.nextReg);
      GenIsLower(binds[0].init, vars, level, f, cur);
      var fa := Extended(f, cur, c.instrs, c.next);
      GenBindsIsLower(binds[1..], SetVar(vars, binds[0].x, c.res, level), level, fa, cur);
      var rest := GenBinds(binds[1..], SetVar(vars, binds[0].x, c.res, level), level, c.next);
      ExtendedTwice(f, cur, c.instrs, c.next, rest.1, rest.2);
    }
  }

  lemma {:induction false} ExecAllConcat(a: seq<Instr>, b: seq<Instr>, regs: Regs)
    requires Straight(a) && Straight(b)
    ensures Straight(a + b) && ExecAll(a + b, regs) == ExecAll(b, ExecAll(a, regs))
    decreases a
  {
    if a == [] {
      assert a + b == b;
    } else {
      assert (a + b)[0] == a[0] && (a + b)[1..] == a[1..] + b;
      ExecAllConcat(a[1..], b, Exec(a[0], regs));
    }
  }

  lemma ExecOne(i: Instr, regs: Regs)
    requires !IsTerminator(i)
    ensures Straight([i]) && ExecAll([i], regs) == Exec(i, regs)
  {
    assert [i][1..] == [];
  }

  /** Generated code computes the expression and leaves older registers alone. */
  lemma {:induction false} GenRuns(e: Expr, g: Types, env: Env, vars: seq<VarEntry>, level: nat, reg: nat, regs: Regs)
    requires StraightLine(e) && TypeOf(e, g).Some? && EnvOk(env, g) && VarsOk(vars, g, env, regs, reg)
    ensures var c := Gen(e, vars, level, reg);
      Read(ExecAll(c.instrs, regs), c.res) == Enc(Eval(e, env)) && c.res < c.next &&
      SameBelow(regs, ExecAll(c.instrs, regs), reg)
    decreases e, 1
  {
    var c := Gen(e, vars, level, reg);
    match e
    case Lit(n) => ExecOne(Const(reg, n), regs);
    case BoolLit(b) => ExecOne(ConstBool(reg, b), regs);
    case Name(x) =>
    case Binary(op, l, r) => BinaryGenRuns(e, g, env, vars, level, reg, regs);
    case Unary(op, x) =>
      var a := Gen(x, vars, level, reg);
      GenRuns(x, g, env, vars, level, reg, regs);
      ExecAllConcat(a.instrs, [Un(a.next, op, a.res)], regs);
      ExecOne(Un(a.next, op, a.res), ExecAll(a.instrs, regs));
      EvalTyped(x, g, env);
      UnAgrees(op, Eval(x, env));
    case Let(binds, fin) =>
      var p := GenBinds(binds, vars, level + 1, reg);
      GenBindsRun(binds, g, env, vars, level + 1, reg, regs);
      ExtendTyped(binds, g, env);
      var mid := ExecAll(p.1, regs);
      GenRuns(fin, BindTypes(binds, g).value, Extend(binds, env), p.0, level + 1, p.2, mid);
      ExecAllConcat(p.1, Gen(fin, p.0, level + 1, p.2).instrs, regs);
  }

  lemma {:induction false} BinaryGenRuns(e: Expr, g: Types, env: Env, vars: seq<VarEntry>, level: nat, reg: nat,
      regs: Regs)
    requires e.Binary? && StraightLine(e) && TypeOf(e, g).Some? && EnvOk(env, g) && VarsOk(vars, g, env, regs, reg)
    ensures var c := Gen(e, vars, level, reg);
      Read(ExecAll(c.instrs, regs), c.res) == Enc(Eval(e, env)) && c.res < c.next &&
      SameBelow(regs, ExecAll(c.instrs, regs), reg)
    decreases e, 0
  {
    var a := Gen(e.l, vars, level, reg);
    var b := Gen(e.r, vars, level, a.next);
    GenRuns(e.l, g, env, vars, level, reg, regs);
    var mid := ExecAll(a.instrs, regs);
    VarsFrame(vars, g, env, regs, mid, reg, a.next);
    GenRuns(e.r, g, env, vars, level, a.next, mid);
    var last := Bin(b.next, e.op, a.res, b.res);
    ExecAllConcat(a.instrs, b.instrs, regs);
    ExecAllConcat(a.instrs + b.instrs, [last], regs);
    ExecOne(last, ExecAll(b.instrs, mid));
    EvalTyped(e.l, g, env);
    EvalTyped(e.r, g, env);
    BinAgrees(e.op, Eval(e.l, env), Eval(e.r, env), TypeOf(e.l, g).value, TypeOf(e.r, g).value);
  }

  lemma {:induction false} GenBindsRun(binds: seq<Binding>, g: Types, env: Env, vars: seq<VarEntry>, level: nat,
      reg: nat, regs: Regs)
    requires StraightBinds(binds) && BindTypes(binds, g).Some? && EnvOk(env, g) && VarsOk(vars, g, env, regs, reg)
    ensures var p := GenBinds(binds, vars, level, reg);
      VarsOk(p.0, BindTypes(binds, g).value, Extend(binds, env), ExecAll(p.1, regs), p.2) &&
      SameBelow(regs, ExecAll(p.1, regs), reg)
    decreases binds, 1
  {
    if binds != [] {
      var b := binds[0];
      var c := Gen(b.init, vars, level, reg);
      GenRuns(b.init, g, env, vars, level, reg, regs);
      var mid := ExecAll(c.instrs, regs);
      VarsFrame(vars, g, env, regs, mid, reg, c.next);
      var t, v := TypeOf(b.init, g).value, Eval(b.init, env);
      BindVar(vars, g, env, mid, c.next, b.x, t, v, c.res, level);
      EvalTyped(b.init, g, env);
      GenBindsRun(binds[1..], g[b.x := t], env[b.x := v], SetVar(vars, b.x, c.res, level), level, c.next, mid);
      ExecAllConcat(c.instrs, GenBinds(binds[1..], SetVar(vars, b.x, c.res, level), level, c.next).1, regs);
    }
  }
}
