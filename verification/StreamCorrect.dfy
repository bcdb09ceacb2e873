/** The function a stream generator is lowered to returns the indexed term
    (src/ir_lower.c, lower_stream_gen; src/emit_c.c, emit_stream_gen_def). */
module StreamCorrect {
  import opened Bits
  import opened Ir
  import opened IrLower
  import opened IrLowerCorrect
  import opened IrFunction
  import opened StreamLower

  /** A table entry for the window and the index, in the order lowering sets them. */
  function SetWindow(g: Stream, vars: seq<VarEntry>, newest: nat, older: nat, i: nat): seq<VarEntry>
    requires 1 <= |g.binders| <= 2
  {
    var v1 := SetVar(vars, g.binders[0], newest, 1);
    SetVar(if |g.binders| == 2 then SetVar(v1, g.binders[1], older, 1) else v1, INDEX, i, 1)
  }

  function ParamVars(g: Stream): seq<VarEntry> { LowerParams(g.params, [], EMPTY).0 }

  // ---------- the blocks ----------

  /** Registers and code of a one-seed generator; the index parameter is register `n`. */
  datatype One = One(n: nat, seed: Code, rule: Code)
  {
    function Zero(): nat { n + 1 }
    function Neg(): nat { n + 2 }
    function Unit(): nat { n + 3 }
    function Eq(): nat { seed.next }
    function I(): nat { seed.next + 1 }
    function X(): nat { seed.next + 2 }
    function Le(): nat { seed.next + 3 }
    function IncX(): nat { rule.next }
    function NextI(): nat { rule.next + 1 }
  }

  function OneOf(g: Stream): (o: One)
    requires Accepted(g) && |g.seeds| == 1
    ensures o.n == |g.params| && o.n + 4 <= o.seed.next && o.seed.next + 4 <= o.rule.next
    ensures Straight(o.seed.instrs) && Straight(o.rule.instrs)
  {
    var n := |g.params|;
    var seed := Gen(g.seeds[0], ParamVars(g), 1, n + 4);
    var vars := SetWindow(g, ParamVars(g), seed.next + 2, 0, seed.next + 1);
    One(n, seed, Gen(g.rule, vars, 1, seed.next + 4))
  }

  /** Entry test, guard with the seed, loop header, body, increment, exits. */
  function OneBlocks(o: One): (r: seq<Block>)
    ensures |r| == 8
  {
    [Block([], [Const(o.Zero(), 0), Bin(o.Neg(), CmpLt, o.n, o.Zero()), Cbr(o.Neg(), 1, 2)]),
     Block([], [Ret(o.Zero())]),
     Block([], [Const(o.Unit(), 1)] + o.seed.instrs + [Bin(o.Eq(), CmpEq, o.n, o.Zero())] + [Cbr(o.Eq(), 3, 4)]),
     Block([], [Ret(o.seed.res)]),
     Block([Phi(o.I(), Int, [PhiArg(o.Unit(), 2), PhiArg(o.NextI(), 6)]),
       Phi(o.X(), Int, [PhiArg(o.seed.res, 2), PhiArg(o.IncX(), 6)])],
           [Bin(o.Le(), CmpLe, o.I(), o.n), Cbr(o.Le(), 5, 7)]),
     Block([], o.rule.instrs + [Br(6)]),
     Block([], [Copy(o.IncX(), o.rule.res), Bin(o.NextI(), Add, o.I(), o.Unit()), Br(4)]),
     Block([], [Ret(o.X())])]
  }

  /** Registers and code of a two-seed generator. The seeds are evaluated once for each
      use: on their own exits, and again before the loop. */
  datatype Two = Two(n: nat, exit0: Code, exit1: Code, newest: Code, older: Code, rule: Code)
  {
    function Zero(): nat { n + 1 }
    function Neg(): nat { n + 2 }
    function Unit(): nat { n + 3 }
    function Eq0(): nat { n + 4 }
    function Eq1(): nat { exit0.next }
    function Pair(): nat { older.next }
    function I(): nat { older.next + 1 }
    function A(): nat { older.next + 2 }
    function B(): nat { older.next + 3 }
    function Le(): nat { older.next + 4 }
    function NextB(): nat { rule.next }
    function NextA(): nat { rule.next + 1 }
    function IncA(): nat { rule.next + 2 }
    function IncB(): nat { rule.next + 3 }
    function NextI(): nat { rule.next + 4 }
  }

  function TwoOf(g: Stream): (t: Two)
    requires Accepted(g) && |g.seeds| == 2
    ensures t.n == |g.params| && t.n + 5 <= t.exit0.next &&
      t.exit0.next + 1 <= t.exit1.next <= t.newest.next <= t.older.next
    ensures t.older.next + 5 <= t.rule.next && Straight(t.exit0.instrs) && Straight(t.exit1.instrs)
    ensures Straight(t.newest.instrs) && Straight(t.older.instrs) && Straight(t.rule.instrs)
  {
    var n := |g.params|;
    var exit0 := Gen(g.seeds[0], ParamVars(g), 1, n + 5);
    var exit1 := Gen(g.seeds[1], ParamVars(g), 1, exit0.next + 1);
    var newest := Gen(g.seeds[1], ParamVars(g), 1, exit1.next);
    var older := Gen(g.seeds[0], ParamVars(g), 1, newest.next);
    var vars := SetWindow(g, ParamVars(g), older.next + 2, older.next + 3, older.next + 1);
    Two(n, exit0, exit1, newest, older, Gen(g.rule, vars, 1, older.next + 5))
  }

  function TwoBlocks(t: Two): (r: seq<Block>)
    ensures |r| == 11
  {
    [Block([], [Const(t.Zero(), 0), Bin(t.Neg(), CmpLt, t.n, t.Zero()), Cbr(t.Neg(), 1, 2)]),
     Block([], [Ret(t.Zero())]),
     Block([], [Const(t.Unit(), 1), Bin(t.Eq0(), CmpEq, t.n, t.Zero()), Cbr(t.Eq0(), 3, 4)]),
     Block([], t.exit0.instrs + [Ret(t.exit0.res)]),
     Block([], [Bin(t.Eq1(), CmpEq, t.n, t.Unit()), Cbr(t.Eq1(), 5, 6)]),
     Block([], t.exit1.instrs + [Ret(t.exit1.res)]),
     Block([], t.newest.instrs + t.older.instrs + [Const(t.Pair(), 2)] + [Br(7)]),
     Block([Phi(t.I(), Int, [PhiArg(t.Pair(), 6), PhiArg(t.NextI(), 9)]),
            Phi(t.A(), Int, [PhiArg(t.newest.res, 6), PhiArg(t.IncA(), 9)]),
            Phi(t.B(), Int, [PhiArg(t.older.res, 6), PhiArg(t.IncB(), 9)])],
           [Bin(t.Le(), CmpLe, t.I(), t.n), Cbr(t.Le(), 8, 10)]),
     Block([], t.rule.instrs + [Copy(t.NextB(), t.A()), Copy(t.NextA(), t.rule.res)] + [Br(9)]),
     Block([], [Copy(t.IncA(), t.NextA()), Copy(t.IncB(), t.NextB()), Bin(t.NextI(), Add, t.I(), t.Unit()), Br(7)]),
     Block([], [Ret(t.A())])]
  }

  function StreamFunc(g: Stream): Func
    requires Accepted(g)
  {
    if |g.seeds| == 1 then Func(OneBlocks(OneOf(g)), OneOf(g).NextI() + 1)
    else Func(TwoBlocks(TwoOf(g)), TwoOf(g).NextI() + 1)
  }

  // ---------- tables and environments ----------

  lemma {:induction false} FindSameNames(u: seq<VarEntry>, v: seq<VarEntry>, x: string)
    requires |u| == |v| && forall i :: 0 <= i < |u| ==> u[i].name == v[i].name
    ensures FindVar(u, x) == FindVar(v, x)
    decreases |u|
  {
    if u != [] { FindSameNames(u[..|u| - 1], v[..|v| - 1], x); }
  }

  lemma SetVarUpdates(vars: seq<VarEntry>, x: string, reg: nat)
    requires FindVar(vars, x) >= 0
    ensures SetVar(vars, x, reg, 1) == vars[FindVar(vars, x) := vars[FindVar(vars, x)].(reg := reg)]
  {
  }

  lemma UpdateVarOk(vars: seq<VarEntry>, g: Types, env: Env, regs: Regs, limit: nat, x: string, t: Ty, v: Val, reg: nat)
    requires VarsOk(vars, g, env, regs, limit) && reg < limit && Read(regs, reg) == Enc(v) && FindVar(vars, x) >= 0
    ensures VarsOk(SetVar(vars, x, reg, 1), g[x := t], env[x := v], regs, limit)
  {
    hide FindVar, SetVar;
    var i := FindVar(vars, x);
    var more := vars[i := vars[i].(reg := reg)];
    SetVarUpdates(vars, x, reg);
    assert x in g by { assert vars[i].name == x; }
    forall y ensures FindVar(more, y) == FindVar(vars, y) { FindSameNames(vars, more, y); }
    forall y | y in g && y in env[x := v]
      ensures FindVar(more, y) >= 0 && more[FindVar(more, y)].reg < limit &&
        Read(regs, more[FindVar(more, y)].reg) == Enc(env[x := v][y])
    {
      var j := FindVar(vars, y);
      assert FindVar(more, y) == j && j >= 0 && vars[j].name == y;
      if y != x { assert j != i; }
    }
    forall k | 0 <= k < |more| ensures more[k].name in g[x := t] { assert vars[k].name in g; }
    forall y | y in g[x := t] ensures FindVar(more, y) >= 0 { assert FindVar(more, y) == FindVar(vars, y); }
  }

  /** Entering or updating a name. */
  lemma SetVarOk(vars: seq<VarEntry>, g: Types, env: Env, regs: Regs, limit: nat, x: string, t: Ty, v: Val, reg: nat)
    requires VarsOk(vars, g, env, regs, limit) && reg < limit && Read(regs, reg) == Enc(v)
    ensures VarsOk(SetVar(vars, x, reg, 1), g[x := t], env[x := v], regs, limit)
  {
    if FindVar(vars, x) >= 0 {
      UpdateVarOk(vars, g, env, regs, limit, x, t, v, reg);
    } else {
      BindVar(vars, g, env, regs, limit, x, t, v, reg, 1);
    }
  }

  lemma WindowOk(g: Stream, types: Types, env: Env, vars: seq<VarEntry>, regs: Regs, limit: nat,
                 newest: nat, older: nat, i: nat, vn: int, vo: int, vi: int)
    requires 1 <= |g.binders| <= 2 && VarsOk(vars, types, env, regs, limit) && EnvOk(env, types)
    requires newest < limit && older < limit && i < limit
    requires Read(regs, newest) == vn && Read(regs, i) == vi && (|g.binders| == 2 ==> Read(regs, older) == vo)
    requires -TWO63 <= vn < TWO63 && -TWO63 <= vi < TWO63 && -TWO63 <= vo < TWO63
    ensures VarsOk(SetWindow(g, vars, newest, older, i), RuleTypes(g, types), RuleEnv(g, env, vn, vo, vi), regs, limit)
    ensures EnvOk(RuleEnv(g, env, vn, vo, vi), RuleTypes(g, types))
  {
    hide VarsOk, SetVar;
    SetVarOk(vars, types, env, regs, limit, g.binders[0], Int, Val.I(vn), newest);
    var v1, t1, e1 := SetVar(vars, g.binders[0], newest, 1), types[g.binders[0] := Int], env[g.binders[0] := Val.I(vn)];
    if |g.binders| == 2 {
      SetVarOk(v1, t1, e1, regs, limit, g.binders[1], Int, Val.I(vo), older);
      SetVarOk(SetVar(v1, g.binders[1], older, 1), t1[g.binders[1] := Int], e1[g.binders[1] := Val.I(vo)], regs, limit,
        INDEX, Int, Val.I(vi), i);
    } else {
      SetVarOk(v1, t1, e1, regs, limit, INDEX, Int, Val.I(vi), i);
    }
  }

  /** Every term is a 64-bit value. */
  lemma {:induction false} TermFits(g: Stream, env: Env, n: nat)
    requires Accepted(g) && EnvOk(env, ParamTypes(g.params, map[]).value) && n < TWO63
    ensures -TWO63 <= Term(g, env, n) < TWO63
    decreases n
  {
    var types := ParamTypes(g.params, map[]).value;
    if n < |g.seeds| {
      EvalTyped(g.seeds[n], types, env);
    } else {
      TermFits(g, env, n - 1);
      var older := if |g.seeds| == 2 then Term(g, env, n - 2) else 0;
      if |g.seeds| == 2 { TermFits(g, env, n - 2); }
      EvalTyped(g.rule, RuleTypes(g, types), RuleEnv(g, env, Term(g, env, n - 1), older, n));
    }
  }

  // ---------- phis with two arguments ----------

  lemma PairMoves(p: Phi, a: PhiArg, b: PhiArg, rest: seq<Phi>, pred: nat)
    requires p.args == [a, b] && a.pred != b.pred && (pred == a.pred || pred == b.pred)
    ensures Moves([p] + rest, pred) == [Move(p.dst, if pred == a.pred then a.reg else b.reg)] + Moves(rest, pred)
  {
    assert ([p] + rest)[1..] == rest;
    assert p.args[1..] == [b] && [b][1..] == [];
    assert ArgMoves(p.dst, [], pred) == [];
    assert ArgMoves(p.dst, [b], pred) == if pred == b.pred then [Move(p.dst, b.reg)] else [];
  }

  lemma ParallelTwo(m: Move, n: Move, regs: Regs)
    ensures Parallel([m] + ([n] + []), regs, regs) == regs[m.dst := Read(regs, m.src)][n.dst := Read(regs, n.src)]
  {
    assert ([m] + ([n] + []))[1..] == [n] && [n][1..] == [];
    var r1 := regs[m.dst := Read(regs, m.src)];
    assert Parallel([n], regs, r1) == Parallel([], regs, r1[n.dst := Read(regs, n.src)]);
  }

  lemma ParallelThree(m: Move, n: Move, o: Move, regs: Regs)
    ensures Parallel([m] + ([n] + ([o] + [])), regs, regs) ==
            regs[m.dst := Read(regs, m.src)][n.dst := Read(regs, n.src)][o.dst := Read(regs, o.src)]
  {
    assert ([m] + ([n] + ([o] + [])))[1..] == [n] + ([o] + []);
    assert ([n] + ([o] + []))[1..] == [o] && [o][1..] == [];
    var r1 := regs[m.dst := Read(regs, m.src)];
    var r2 := r1[n.dst := Read(regs, n.src)];
    assert Parallel([n] + ([o] + []), regs, r1) == Parallel([o], regs, r2);
    assert Parallel([o], regs, r2) == Parallel([], regs, r2[o.dst := Read(regs, o.src)]);
  }

  // ---------- one seed ----------

  lemma Shape(g: Stream)
    requires Accepted(g)
    ensures 1 <= |g.seeds| == |g.binders| <= 2 && ParamTypes(g.params, map[]).Some?
  {
  }

  lemma NoMoves(pred: nat)
    ensures Moves([], pred) == []
  {
  }

  /** The registers when the header is about to test index `k`: the last term is in
      place, parameters and the index bound are untouched. */
  predicate OneAt(g: Stream, env: Env, regs: Regs, k: nat, n: nat)
    requires Accepted(g) && |g.seeds| == 1
  {
    var o := OneOf(g);
    1 <= k <= n + 1 && VarsOk(ParamVars(g), ParamTypes(g.params, map[]).value, env, regs, o.n) &&
    Read(regs, o.n) == n && Read(regs, o.Unit()) == 1 && Read(regs, o.I()) == k &&
    Read(regs, o.X()) == Term(g, env, k - 1)
  }

  lemma ExecTwo(a: Instr, b: Instr, regs: Regs)
    requires !IsTerminator(a) && !IsTerminator(b)
    ensures Straight([a, b]) && ExecAll([a, b], regs) == Exec(b, Exec(a, regs))
  {
    assert [a, b][1..] == [b] && [b][1..] == [];
    assert ExecAll([b], Exec(a, regs)) == ExecAll([], Exec(b, Exec(a, regs)));
  }

  predicate OneShape(o: One) {
    o.n + 4 <= o.seed.next && o.seed.next + 4 <= o.rule.next && Straight(o.seed.instrs) && Straight(o.rule.instrs)
  }

  /** Header test. */
  lemma OneTest(o: One, F: Func, regs: Regs)
    requires OneShape(o) && F.blocks == OneBlocks(o)
    ensures Reaches(F, At(4, 0, regs), At(if Read(regs, o.I()) <= Read(regs, o.n) then 5 else 7, 0,
                                          regs[o.Le() := Truth(Read(regs, o.I()) <= Read(regs, o.n))]))
  {
    hide Reaches;
    var test := Bin(o.Le(), CmpLe, o.I(), o.n);
    assert F.blocks[4].instrs == [test] + [Cbr(o.Le(), 5, 7)];
    ExecOne(test, regs);
    BlockReaches(F, 4, [test], Cbr(o.Le(), 5, 7), regs);
    NoMoves(4);
  }

  lemma OneBody(o: One, F: Func, regs: Regs)
    requires OneShape(o) && F.blocks == OneBlocks(o)
    ensures Reaches(F, At(5, 0, regs), At(6, 0, ExecAll(o.rule.instrs, regs)))
  {
    hide Reaches;
    BlockReaches(F, 5, o.rule.instrs, Br(6), regs);
    NoMoves(5);
  }

  function OneAfter(o: One, regs: Regs): Regs {
    var v, j := Read(regs, o.rule.res), Wrap64(Read(regs, o.I()) + Read(regs, o.Unit()));
    regs[o.IncX() := v][o.NextI() := j][o.I() := j][o.X() := v]
  }

  /** The increment block and the phis on the back edge. */
  lemma OneBack(o: One, F: Func, regs: Regs)
    requires OneShape(o) && F.blocks == OneBlocks(o)
    ensures Reaches(F, At(6, 0, regs), At(4, 0, OneAfter(o, regs)))
  {
    hide Reaches;
    var copy, add := Copy(o.IncX(), o.rule.res), Bin(o.NextI(), Add, o.I(), o.Unit());
    assert F.blocks[6].instrs == [copy, add] + [Br(4)];
    ExecTwo(copy, add, regs);
    BlockReaches(F, 6, [copy, add], Br(4), regs);
    OneMoves(o, Exec(add, Exec(copy, regs)), 6);
  }

  /** The copies on the edges into the header. */
  lemma OneMoves(o: One, regs: Regs, pred: nat)
    requires OneShape(o) && (pred == 2 || pred == 6)
    ensures Parallel(Moves(OneBlocks(o)[4].phis, pred), regs, regs) ==
            (if pred == 6 then regs[o.I() := Read(regs, o.NextI())][o.X() := Read(regs, o.IncX())]
             else regs[o.I() := Read(regs, o.Unit())][o.X() := Read(regs, o.seed.res)])
  {
    var phis := OneBlocks(o)[4].phis;
    assert phis == [phis[0]] + ([phis[1]] + []);
    NoMoves(pred);
    PairMoves(phis[0], PhiArg(o.Unit(), 2), PhiArg(o.NextI(), 6), [phis[1]] + [], pred);
    PairMoves(phis[1], PhiArg(o.seed.res, 2), PhiArg(o.IncX(), 6), [], pred);
    if pred == 6 {
      ParallelTwo(Move(o.I(), o.NextI()), Move(o.X(), o.IncX()), regs);
    } else {
      ParallelTwo(Move(o.I(), o.Unit()), Move(o.X(), o.seed.res), regs);
    }
  }

  lemma ReachesThree(f: Func, s: State, t: State, u: State, v: State)
    requires Reaches(f, s, t) && Reaches(f, t, u) && Reaches(f, u, v)
    ensures Reaches(f, s, v)
  {
    ReachesTrans(f, s, t, u);
    ReachesTrans(f, s, u, v);
  }

  /** The rule computes the next term from the window. */
  lemma OneRule(g: Stream, env: Env, regs: Regs, k: nat, n: nat, r1: Regs)
    requires Accepted(g) && |g.seeds| == 1 && OneAt(g, env, regs, k, n) && k <= n < TWO63
    requires EnvOk(env, ParamTypes(g.params, map[]).value) && SameBelow(regs, r1, OneOf(g).Le())
    ensures var o := OneOf(g);
      var r2 := ExecAll(o.rule.instrs, r1);
      Read(r2, o.rule.res) == Term(g, env, k) && SameBelow(regs, r2, o.Le())
  {
    hide VarsOk, Gen, RuleTypes, RuleEnv, SetWindow, ExecAll, TypeOf, StraightLine;
    var o, types := OneOf(g), ParamTypes(g.params, map[]).value;
    VarsFrame(ParamVars(g), types, env, regs, r1, o.n, o.Le() + 1);
    TermFits(g, env, k - 1);
    WindowOk(g, types, env, ParamVars(g), r1, o.Le() + 1, o.X(), 0, o.I(), Term(g, env, k - 1), 0, k);
    var vars := SetWindow(g, ParamVars(g), o.X(), 0, o.I());
    GenRuns(g.rule, RuleTypes(g, types), RuleEnv(g, env, Term(g, env, k - 1), 0, k), vars, 1, o.Le() + 1, r1);
  }

  lemma OneAdvances(g: Stream, env: Env, regs: Regs, k: nat, n: nat, r2: Regs)
    requires Accepted(g) && |g.seeds| == 1 && OneAt(g, env, regs, k, n) && k <= n && n + 1 < TWO63
    requires SameBelow(regs, r2, OneOf(g).Le()) && Read(r2, OneOf(g).rule.res) == Term(g, env, k)
    ensures OneAt(g, env, OneAfter(OneOf(g), r2), k + 1, n)
  {
    hide Accepted, VarsOk, OneOf, Term, OneAfter, Gen, TypeOf, ExecAll, Read, ParamTypes;
    Shape(g);
    var o := OneOf(g);
    OneAfterReads(o, r2);
    assert Wrap64(k + 1) == k + 1;
    VarsFrame(ParamVars(g), ParamTypes(g.params, map[]).value, env, regs, OneAfter(o, r2), o.n, o.n);
  }

  lemma OneAfterReads(o: One, regs: Regs)
    requires OneShape(o)
    ensures SameBelow(regs, OneAfter(o, regs), o.n + 4)
    ensures Read(OneAfter(o, regs), o.I()) == Wrap64(Read(regs, o.I()) + Read(regs, o.Unit()))
    ensures Read(OneAfter(o, regs), o.X()) == Read(regs, o.rule.res)
  {
  }

  /** One pass around the loop moves on to the next term. */
  lemma OnePass(g: Stream, env: Env, regs: Regs, k: nat, n: nat) returns (r4: Regs)
    requires Accepted(g) && |g.seeds| == 1 && OneAt(g, env, regs, k, n) && k <= n && n + 1 < TWO63
    requires EnvOk(env, ParamTypes(g.params, map[]).value)
    ensures Reaches(StreamFunc(g), At(4, 0, regs), At(4, 0, r4)) && OneAt(g, env, r4, k + 1, n)
  {
    var o, F := OneOf(g), StreamFunc(g);
    var r1 := regs[o.Le() := Truth(k <= n)];
    var r2 := ExecAll(o.rule.instrs, r1);
    r4 := OneAfter(o, r2);
    hide Accepted, OneOf, Reaches, Term, ExecAll, OneBlocks, VarsOk, OneAfter;
    OneRule(g, env, regs, k, n, r1);
    OneAdvances(g, env, regs, k, n, r2);
    OneTest(o, F, regs);
    OneBody(o, F, r1);
    OneBack(o, F, r2);
    ReachesThree(F, At(4, 0, regs), At(5, 0, r1), At(6, 0, r2), At(4, 0, r4));
  }

  /** From the header with index `k` the function returns the n-th term. */
  lemma {:induction false} OneLoop(g: Stream, env: Env, regs: Regs, k: nat, n: nat)
    requires Accepted(g) && |g.seeds| == 1 && OneAt(g, env, regs, k, n) && n + 1 < TWO63
    requires EnvOk(env, ParamTypes(g.params, map[]).value)
    ensures Reaches(StreamFunc(g), At(4, 0, regs), Done(Term(g, env, n)))
    decreases n + 1 - k
  {
    Shape(g);
    var o, F := OneOf(g), StreamFunc(g);
    hide Accepted, Reaches, Term, VarsOk, OneOf, Gen;
    if k <= n {
      var r4 := OnePass(g, env, regs, k, n);
      OneLoop(g, env, r4, k + 1, n);
      ReachesTrans(F, At(4, 0, regs), At(4, 0, r4), Done(Term(g, env, n)));
    } else {
      OneTest(o, F, regs);
      var r1 := regs[o.Le() := Truth(false)];
      assert [] + [Ret(o.X())] == [Ret(o.X())];
      BlockReaches(F, 7, [], Ret(o.X()), r1);
      ReachesTrans(F, At(4, 0, regs), At(7, 0, r1), Done(Term(g, env, n)));
    }
  }

  // ---------- the way into the loop ----------

  /** The entry block sends negative indices to the zero exit. */
  lemma EntryRuns(F: Func, n: nat, regs: Regs)
    requires |F.blocks| > 2 && F.blocks[2].phis == []
    requires F.blocks[0] == Block([], [Const(n + 1, 0), Bin(n + 2, CmpLt, n, n + 1), Cbr(n + 2, 1, 2)])
    requires F.blocks[1] == Block([], [Ret(n + 1)])
    ensures Reaches(F, At(0, 0, regs),
                    if Read(regs, n) < 0 then Done(0) else At(2, 0, regs[n + 1 := 0][n + 2 := Truth(false)]))
  {
    hide Reaches;
    var zero, test := Const(n + 1, 0), Bin(n + 2, CmpLt, n, n + 1);
    assert F.blocks[0].instrs == [zero, test] + [Cbr(n + 2, 1, 2)];
    ExecTwo(zero, test, regs);
    BlockReaches(F, 0, [zero, test], Cbr(n + 2, 1, 2), regs);
    NoMoves(0);
    if Read(regs, n) < 0 {
      var r1: Regs := regs[n + 1 := 0][n + 2 := Truth(true)];
      assert [] + [Ret(n + 1)] == [Ret(n + 1)];
      BlockReaches(F, 1, [], Ret(n + 1), r1);
      ReachesTrans(F, At(0, 0, regs), At(1, 0, r1), Done(0));
    }
  }

  /** The guard: the unit constant, the seed, the comparison with zero. */
  function OneGuard(o: One, regs: Regs): Regs
    requires OneShape(o)
  {
    var r := ExecAll(o.seed.instrs, regs[o.Unit() := 1]);
    r[o.Eq() := Truth(Read(r, o.n) == Read(r, o.Zero()))]
  }

  lemma OneGuardRuns(o: One, F: Func, regs: Regs)
    requires OneShape(o) && F.blocks == OneBlocks(o)
    ensures var r := OneGuard(o, regs);
      Reaches(F, At(2, 0, regs), if Read(r, o.Eq()) != 0 then Done(Read(r, o.seed.res))
                                 else At(4, 0, OneReady(o, r)))
  {
    hide Reaches;
    var unit, test := Const(o.Unit(), 1), Bin(o.Eq(), CmpEq, o.n, o.Zero());
    ExecOne(unit, regs);
    ExecAllConcat([unit], o.seed.instrs, regs);
    ExecOne(test, ExecAll(o.seed.instrs, regs[o.Unit() := 1]));
    ExecAllConcat([unit] + o.seed.instrs, [test], regs);
    BlockReaches(F, 2, [unit] + o.seed.instrs + [test], Cbr(o.Eq(), 3, 4), regs);
    var r := OneGuard(o, regs);
    NoMoves(2);
    OneMoves(o, r, 2);
    if Read(r, o.Eq()) != 0 {
      assert [] + [Ret(o.seed.res)] == [Ret(o.seed.res)];
      BlockReaches(F, 3, [], Ret(o.seed.res), r);
      ReachesTrans(F, At(2, 0, regs), At(3, 0, r), Done(Read(r, o.seed.res)));
    }
  }

  /** After the guard the seed is computed and the loop can start at index one. */
  lemma OneGuarded(g: Stream, env: Env, regs: Regs, n: nat)
    requires Accepted(g) && |g.seeds| == 1 && EnvOk(env, ParamTypes(g.params, map[]).value)
    requires VarsOk(ParamVars(g), ParamTypes(g.params, map[]).value, env, regs, OneOf(g).n)
    requires Read(regs, OneOf(g).n) == n && Read(regs, OneOf(g).Zero()) == 0
    ensures var o := OneOf(g);
      var r := OneGuard(o, regs);
      Read(r, o.Eq()) == Truth(n == 0) && Read(r, o.seed.res) == Term(g, env, 0) &&
      (n > 0 ==> OneAt(g, env, OneReady(o, r), 1, n))
  {
    var o := OneOf(g);
    OneSeedValue(g, env, regs, n);
    Shape(g);
    OneGuardReads(o, regs);
    var r := OneGuard(o, regs);
    hide Accepted, OneOf, VarsOk, ExecAll, Gen, Term, OneGuard, Read;
    VarsFrame(ParamVars(g), ParamTypes(g.params, map[]).value, env, regs, OneReady(o, r), o.n, o.n);
  }

  /** The copies on the edge from the guard to the header. */
  function OneReady(o: One, r: Regs): Regs { r[o.I() := Read(r, o.Unit())][o.X() := Read(r, o.seed.res)] }

  lemma OneGuardReads(o: One, regs: Regs)
    requires OneShape(o) && o.seed.res < o.seed.next
    ensures var s, r := ExecAll(o.seed.instrs, regs[o.Unit() := 1]), OneGuard(o, regs);
      Read(r, o.Eq()) == Truth(Read(s, o.n) == Read(s, o.Zero())) && Read(r, o.seed.res) == Read(s, o.seed.res) &&
      Read(OneReady(o, r), o.I()) == Read(s, o.Unit()) && Read(OneReady(o, r), o.X()) == Read(s, o.seed.res) &&
      SameBelow(s, OneReady(o, r), o.seed.next)
  {
  }

  lemma OneSeedValue(g: Stream, env: Env, regs: Regs, n: nat)
    requires Accepted(g) && |g.seeds| == 1 && EnvOk(env, ParamTypes(g.params, map[]).value)
    requires VarsOk(ParamVars(g), ParamTypes(g.params, map[]).value, env, regs, OneOf(g).n)
    requires Read(regs, OneOf(g).n) == n && Read(regs, OneOf(g).Zero()) == 0
    ensures var o := OneOf(g);
      var r := ExecAll(o.seed.instrs, regs[o.Unit() := 1]);
      Read(r, o.seed.res) == Term(g, env, 0) && o.seed.res < o.seed.next &&
      Read(r, o.n) == n && Read(r, o.Zero()) == 0 && Read(r, o.Unit()) == 1 && SameBelow(regs, r, o.n)
  {
    hide TypeOf, ParamTypes, SetWindow, RuleTypes, Gen, ExecAll, ParamVars, VarsOk;
    var o, types := OneOf(g), ParamTypes(g.params, map[]).value;
    var r0: Regs := regs[o.Unit() := 1];
    VarsFrame(ParamVars(g), types, env, regs, r0, o.n, o.n + 4);
    GenRuns(g.seeds[0], types, env, ParamVars(g), 1, o.n + 4, r0);
  }

  /** Registers on entry: the arguments and the index. */
  function EntryRegs(args: seq<Val>, n: int): Regs { ArgRegs(args + [Val.I(n)], 0, map[]) }

  lemma EntryReads(g: Stream, args: seq<Val>, n: int)
    requires Accepted(g) && ArgsOk(g.params, args)
    ensures var env := ParamEnv(g.params, args, map[]);
      EnvOk(env, ParamTypes(g.params, map[]).value) && Read(EntryRegs(args, n), |g.params|) == n &&
      VarsOk(ParamVars(g), ParamTypes(g.params, map[]).value, env, EntryRegs(args, n), |g.params|)
  {
    var all := args + [Val.I(n)];
    ArgRegsRead(all, 0, map[]);
    assert all[|args|] == Val.I(n);
    StreamParamsOk(g.params, args, n, 0, map[], map[], [], EMPTY);
    assert args[0..] == args;
  }

  lemma {:induction false} StreamParamsOk(params: seq<Param>, args: seq<Val>, n: int, k: nat, g: Types, env: Env,
      vars: seq<VarEntry>, f: Func)
    requires k + |params| == |args| && ArgsOk(params, args[k..]) && ParamTypes(params, g).Some?
    requires EnvOk(env, g) && VarsOk(vars, g, env, EntryRegs(args, n), k) && f.nextReg == k
    ensures var env1 := ParamEnv(params, args[k..], env);
      EnvOk(env1, ParamTypes(params, g).value) &&
      VarsOk(LowerParams(params, vars, f).0, ParamTypes(params, g).value, env1, EntryRegs(args, n), |args|)
    decreases params
  {
    if params != [] {
      var p, regs := params[0], EntryRegs(args, n);
      assert args[k..][1..] == args[k + 1..] && args[k..][0] == args[k];
      forall i | 0 <= i < |params[1..]| ensures HasTy(args[k + 1..][i], params[1..][i].t) {
        assert args[k + 1..][i] == args[k..][i + 1] && params[1..][i] == params[i + 1];
      }
      ArgRegsRead(args + [Val.I(n)], 0, map[]);
      assert (args + [Val.I(n)])[k] == args[k];
      VarsFrame(vars, g, env, regs, regs, k, k + 1);
      BindVar(vars, g, env, regs, k + 1, p.x, p.t, args[k], k, 1);
      StreamParamsOk(params[1..], args, n, k + 1, g[p.x := p.t], env[p.x := args[k]], SetVar(vars, p.x, k, 1),
        NewReg(f));
    }
  }

  /** From the entry with the arguments in place to the guard, or to the zero exit. */
  lemma EntryToGuard(g: Stream, F: Func, args: seq<Val>, n: int) returns (r1: Regs)
    requires Accepted(g) && ArgsOk(g.params, args)
    requires |F.blocks| > 2 && F.blocks[2].phis == [] && F.blocks[1] == Block([], [Ret(|g.params| + 1)])
    requires F.blocks[0] ==
      Block([], [Const(|g.params| + 1, 0), Bin(|g.params| + 2, CmpLt, |g.params|, |g.params| + 1),
      Cbr(|g.params| + 2, 1, 2)])
    ensures Reaches(F, At(0, 0, EntryRegs(args, n)), if n < 0 then Done(0) else At(2, 0, r1))
    ensures var types, env := ParamTypes(g.params, map[]).value, ParamEnv(g.params, args, map[]);
      EnvOk(env, types) && VarsOk(ParamVars(g), types, env, r1, |g.params|) && Read(r1, |g.params|) == n &&
      Read(r1, |g.params| + 1) == 0
  {
    hide Reaches, Accepted, ParamTypes, ParamEnv, EntryRegs, VarsOk;
    Shape(g);
    var p, regs := |g.params|, EntryRegs(args, n);
    EntryReads(g, args, n);
    EntryRuns(F, p, regs);
    r1 := regs[p + 1 := 0][p + 2 := Truth(false)];
    VarsFrame(ParamVars(g), ParamTypes(g.params, map[]).value, ParamEnv(g.params, args, map[]), regs, r1, p, p);
  }

  lemma OneFromGuard(g: Stream, env: Env, regs: Regs, n: nat)
    requires Accepted(g) && |g.seeds| == 1 && EnvOk(env, ParamTypes(g.params, map[]).value) && n + 1 < TWO63
    requires VarsOk(ParamVars(g), ParamTypes(g.params, map[]).value, env, regs, OneOf(g).n)
    requires Read(regs, OneOf(g).n) == n && Read(regs, OneOf(g).Zero()) == 0
    ensures Reaches(StreamFunc(g), At(2, 0, regs), Done(Term(g, env, n)))
  {
    Shape(g);
    var o, F := OneOf(g), StreamFunc(g);
    OneGuarded(g, env, regs, n);
    OneGuardRuns(o, F, regs);
    var r := OneGuard(o, regs);
    hide Accepted, OneOf, VarsOk, Term, OneAt, Reaches, OneGuard, OneReady, Read;
    if n > 0 {
      OneLoop(g, env, OneReady(o, r), 1, n);
      ReachesTrans(F, At(2, 0, regs), At(4, 0, OneReady(o, r)), Done(Term(g, env, n)));
    }
  }

  /** A lowered one-seed generator returns its n-th term, and zero for negative indices. */
  lemma OneSeedRuns(g: Stream, args: seq<Val>, n: int)
    requires Accepted(g) && |g.seeds| == 1 && ArgsOk(g.params, args) && n + 1 < TWO63
    ensures Reaches(StreamFunc(g), At(0, 0, EntryRegs(args, n)),
                    Done(if n < 0 then 0 else Term(g, ParamEnv(g.params, args, map[]), n)))
  {
    OneBlocksStart(OneOf(g));
    hide Accepted, ParamTypes, ParamEnv, EntryRegs, VarsOk, EnvOk, OneBlocks, Reaches, OneOf, Term;
    Shape(g);
    var env, F, s := ParamEnv(g.params, args, map[]), StreamFunc(g), At(0, 0, EntryRegs(args, n));
    var r1 := EntryToGuard(g, F, args, n);
    if n >= 0 {
      OneFromGuard(g, env, r1, n);
      ReachesTrans(F, s, At(2, 0, r1), Done(Term(g, env, n)));
    }
  }

  lemma OneBlocksStart(o: One)
    ensures OneBlocks(o)[0] == Block([], [Const(o.Zero(), 0), Bin(o.Neg(), CmpLt, o.n, o.Zero()), Cbr(o.Neg(), 1, 2)])
    ensures OneBlocks(o)[1] == Block([], [Ret(o.Zero())]) && OneBlocks(o)[2].phis == []
  {
  }
}
