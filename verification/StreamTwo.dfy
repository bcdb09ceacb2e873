/** Two-seed generators: the lowered loop slides a window of two terms. */
module StreamTwo {
  import opened Bits
  import opened Ir
  import opened IrLower
  import opened IrLowerCorrect
  import opened IrFunction
  import opened StreamLower
  import opened StreamCorrect

  predicate TwoShape(t: Two) {
    t.n + 5 <= t.exit0.next && t.exit0.next + 1 <= t.exit1.next <= t.newest.next <= t.older.next &&
    t.older.next + 5 <= t.rule.next && Straight(t.exit0.instrs) && Straight(t.exit1.instrs) &&
    Straight(t.newest.instrs) && Straight(t.older.instrs) && Straight(t.rule.instrs)
  }

  /** The registers when the header is about to test index `k`: the window holds the
      last two terms. */
  predicate TwoAt(g: Stream, env: Env, regs: Regs, k: nat, n: nat)
    requires Accepted(g) && |g.seeds| == 2
  {
    var t := TwoOf(g);
    2 <= k <= n + 1 && VarsOk(ParamVars(g), ParamTypes(g.params, map[]).value, env, regs, t.n) &&
    Read(regs, t.n) == n && Read(regs, t.Unit()) == 1 && Read(regs, t.I()) == k &&
    Read(regs, t.A()) == Term(g, env, k - 1) && Read(regs, t.B()) == Term(g, env, k - 2)
  }

  // ---------- the loop's blocks ----------

  lemma TwoTest(t: Two, F: Func, regs: Regs)
    requires TwoShape(t) && F.blocks == TwoBlocks(t)
    ensures Reaches(F, At(7, 0, regs), At(if Read(regs, t.I()) <= Read(regs, t.n) then 8 else 10, 0,
                                          regs[t.Le() := Truth(Read(regs, t.I()) <= Read(regs, t.n))]))
  {
    hide Reaches;
    var test := Bin(t.Le(), CmpLe, t.I(), t.n);
    assert F.blocks[7].instrs == [test] + [Cbr(t.Le(), 8, 10)];
    ExecOne(test, regs);
    BlockReaches(F, 7, [test], Cbr(t.Le(), 8, 10), regs);
    NoMoves(7);
  }

  function TwoSaved(t: Two, x: Regs): Regs {
    var y := x[t.NextB() := Read(x, t.A())];
    y[t.NextA() := Read(y, t.rule.res)]
  }

  /** The body: the rule's code, then both next values are saved. */
  lemma TwoBody(t: Two, F: Func, regs: Regs)
    requires TwoShape(t) && F.blocks == TwoBlocks(t)
    ensures Reaches(F, At(8, 0, regs), At(9, 0, TwoSaved(t, ExecAll(t.rule.instrs, regs))))
  {
    hide Reaches;
    var b, a := Copy(t.NextB(), t.A()), Copy(t.NextA(), t.rule.res);
    ExecTwo(b, a, ExecAll(t.rule.instrs, regs));
    ExecAllConcat(t.rule.instrs, [b, a], regs);
    BlockReaches(F, 8, t.rule.instrs + [b, a], Br(9), regs);
    NoMoves(8);
  }

  lemma ExecThree(a: Instr, b: Instr, c: Instr, regs: Regs)
    requires !IsTerminator(a) && !IsTerminator(b) && !IsTerminator(c)
    ensures Straight([a, b, c]) && ExecAll([a, b, c], regs) == Exec(c, Exec(b, Exec(a, regs)))
  {
    ExecTwo(a, b, regs);
    ExecOne(c, Exec(b, Exec(a, regs)));
    ExecAllConcat([a, b], [c], regs);
    assert [a, b] + [c] == [a, b, c];
  }

  /** The copies on the edges into the header. */
  lemma TwoMoves(t: Two, regs: Regs, pred: nat)
    requires TwoShape(t) && (pred == 6 || pred == 9)
    ensures Parallel(Moves(TwoBlocks(t)[7].phis, pred), regs, regs) ==
            (if pred == 9 then regs[t.I() := Read(regs, t.NextI())][t.A() := Read(regs, t.IncA())][t.B() := Read(regs,
              t.IncB())]
             else regs[t.I() := Read(regs, t.Pair())][t.A() := Read(regs, t.newest.res)][t.B() := Read(regs,
               t.older.res)])
  {
    var phis := TwoBlocks(t)[7].phis;
    assert phis == [phis[0]] + ([phis[1]] + ([phis[2]] + []));
    NoMoves(pred);
    PairMoves(phis[0], PhiArg(t.Pair(), 6), PhiArg(t.NextI(), 9), [phis[1]] + ([phis[2]] + []), pred);
    PairMoves(phis[1], PhiArg(t.newest.res, 6), PhiArg(t.IncA(), 9), [phis[2]] + [], pred);
    PairMoves(phis[2], PhiArg(t.older.res, 6), PhiArg(t.IncB(), 9), [], pred);
    if pred == 9 {
      ParallelThree(Move(t.I(), t.NextI()), Move(t.A(), t.IncA()), Move(t.B(), t.IncB()), regs);
    } else {
      ParallelThree(Move(t.I(), t.Pair()), Move(t.A(), t.newest.res), Move(t.B(), t.older.res), regs);
    }
  }

  function TwoInced(t: Two, y: Regs): Regs {
    var z := y[t.IncA() := Read(y, t.NextA())];
    var w := z[t.IncB() := Read(z, t.NextB())];
    w[t.NextI() := Wrap64(Read(w, t.I()) + Read(w, t.Unit()))]
  }

  /** The registers back at the header after a pass whose rule left `x`. */
  function TwoAfter(t: Two, x: Regs): Regs {
    var w := TwoInced(t, TwoSaved(t, x));
    w[t.I() := Read(w, t.NextI())][t.A() := Read(w, t.IncA())][t.B() := Read(w, t.IncB())]
  }

  lemma TwoBack(t: Two, F: Func, x: Regs)
    requires TwoShape(t) && F.blocks == TwoBlocks(t)
    ensures Reaches(F, At(9, 0, TwoSaved(t, x)), At(7, 0, TwoAfter(t, x)))
  {
    hide Reaches;
    var y := TwoSaved(t, x);
    var a, b, i := Copy(t.IncA(), t.NextA()), Copy(t.IncB(), t.NextB()), Bin(t.NextI(), Add, t.I(), t.Unit());
    assert F.blocks[9].instrs == [a, b, i] + [Br(7)];
    ExecThree(a, b, i, y);
    assert Exec(i, Exec(b, Exec(a, y))) == TwoInced(t, y);
    BlockReaches(F, 9, [a, b, i], Br(7), y);
    TwoMoves(t, TwoInced(t, y), 9);
  }

  /** The window slides: the newest term becomes the older one. */
  lemma TwoAfterReads(t: Two, x: Regs)
    requires TwoShape(t) && t.rule.res < t.rule.next
    ensures SameBelow(x, TwoAfter(t, x), t.n + 4)
    ensures Read(TwoAfter(t, x), t.I()) == Wrap64(Read(x, t.I()) + Read(x, t.Unit()))
    ensures Read(TwoAfter(t, x), t.A()) == Read(x, t.rule.res) && Read(TwoAfter(t, x), t.B()) == Read(x, t.A())
  {
    var y := TwoSaved(t, x);
    assert Read(y, t.NextA()) == Read(x, t.rule.res) && Read(y, t.NextB()) == Read(x, t.A()) &&
      SameBelow(x, y, t.rule.next);
    var w := TwoInced(t, y);
    assert Read(w, t.IncA()) == Read(y, t.NextA()) && Read(w, t.IncB()) == Read(y, t.NextB()) &&
      SameBelow(y, w, t.rule.next);
  }

  // ---------- the loop ----------

  lemma TwoRule(g: Stream, env: Env, regs: Regs, k: nat, n: nat, r1: Regs)
    requires Accepted(g) && |g.seeds| == 2 && TwoAt(g, env, regs, k, n) && k <= n < TWO63
    requires EnvOk(env, ParamTypes(g.params, map[]).value) && SameBelow(regs, r1, TwoOf(g).Le())
    ensures var t := TwoOf(g);
      var x := ExecAll(t.rule.instrs, r1);
      Read(x, t.rule.res) == Term(g, env, k) && t.rule.res < t.rule.next && SameBelow(regs, x, t.Le())
  {
    hide VarsOk, Gen, RuleTypes, RuleEnv, SetWindow, ExecAll, TypeOf, StraightLine;
    var t, types := TwoOf(g), ParamTypes(g.params, map[]).value;
    VarsFrame(ParamVars(g), types, env, regs, r1, t.n, t.Le() + 1);
    TermFits(g, env, k - 1);
    TermFits(g, env, k - 2);
    WindowOk(g, types, env, ParamVars(g), r1, t.Le() + 1, t.A(), t.B(), t.I(), Term(g, env, k - 1),
      Term(g, env, k - 2), k);
    var vars := SetWindow(g, ParamVars(g), t.A(), t.B(), t.I());
    GenRuns(g.rule, RuleTypes(g, types), RuleEnv(g, env, Term(g, env, k - 1), Term(g, env, k - 2), k), vars, 1,
      t.Le() + 1, r1);
  }

  lemma TwoAdvances(g: Stream, env: Env, regs: Regs, k: nat, n: nat, x: Regs)
    requires Accepted(g) && |g.seeds| == 2 && TwoAt(g, env, regs, k, n) && k <= n && n + 1 < TWO63
    requires SameBelow(regs, x, TwoOf(g).Le()) && Read(x, TwoOf(g).rule.res) == Term(g, env, k) &&
      TwoOf(g).rule.res < TwoOf(g).rule.next
    ensures TwoAt(g, env, TwoAfter(TwoOf(g), x), k + 1, n)
  {
    hide Accepted, VarsOk, TwoOf, Term, TwoAfter, Gen, TypeOf, ExecAll, Read, ParamTypes;
    Shape(g);
    var t := TwoOf(g);
    TwoAfterReads(t, x);
    assert Wrap64(k + 1) == k + 1;
    VarsFrame(ParamVars(g), ParamTypes(g.params, map[]).value, env, regs, TwoAfter(t, x), t.n, t.n);
  }

  lemma TwoPass(g: Stream, env: Env, regs: Regs, k: nat, n: nat) returns (r4: Regs)
    requires Accepted(g) && |g.seeds| == 2 && TwoAt(g, env, regs, k, n) && k <= n && n + 1 < TWO63
    requires EnvOk(env, ParamTypes(g.params, map[]).value)
    ensures Reaches(StreamFunc(g), At(7, 0, regs), At(7, 0, r4)) && TwoAt(g, env, r4, k + 1, n)
  {
    var t, F := TwoOf(g), StreamFunc(g);
    var r1 := regs[t.Le() := Truth(k <= n)];
    var x := ExecAll(t.rule.instrs, r1);
    r4 := TwoAfter(t, x);
    hide Accepted, TwoOf, Reaches, Term, ExecAll, TwoBlocks, VarsOk, TwoAfter, TwoSaved;
    TwoRule(g, env, regs, k, n, r1);
    TwoAdvances(g, env, regs, k, n, x);
    TwoTest(t, F, regs);
    TwoBody(t, F, r1);
    TwoBack(t, F, x);
    ReachesThree(F, At(7, 0, regs), At(8, 0, r1), At(9, 0, TwoSaved(t, x)), At(7, 0, r4));
  }

  lemma TwoExit(t: Two, F: Func, regs: Regs)
    requires TwoShape(t) && F.blocks == TwoBlocks(t) && Read(regs, t.I()) > Read(regs, t.n)
    ensures Reaches(F, At(7, 0, regs), Done(Read(regs, t.A())))
  {
    hide Reaches;
    TwoTest(t, F, regs);
    var r1 := regs[t.Le() := Truth(false)];
    assert [] + [Ret(t.A())] == [Ret(t.A())];
    BlockReaches(F, 10, [], Ret(t.A()), r1);
    ReachesTrans(F, At(7, 0, regs), At(10, 0, r1), Done(Read(r1, t.A())));
  }

  lemma {:induction false} TwoLoop(g: Stream, env: Env, regs: Regs, k: nat, n: nat)
    requires Accepted(g) && |g.seeds| == 2 && TwoAt(g, env, regs, k, n) && n + 1 < TWO63
    requires EnvOk(env, ParamTypes(g.params, map[]).value)
    ensures Reaches(StreamFunc(g), At(7, 0, regs), Done(Term(g, env, n)))
    decreases n + 1 - k
  {
    if k <= n {
      hide Accepted, Reaches, VarsOk, TwoOf, Gen, EnvOk, TypeOf;
      Shape(g);
      var r4 := TwoPass(g, env, regs, k, n);
      TwoLoop(g, env, r4, k + 1, n);
      ReachesTrans(StreamFunc(g), At(7, 0, regs), At(7, 0, r4), Done(Term(g, env, n)));
    } else {
      hide Reaches, VarsOk, Gen, EnvOk, TypeOf, TwoBlocks, Term, Accepted, TwoOf;
      TwoExit(TwoOf(g), StreamFunc(g), regs);
    }
  }

  // ---------- the way into the loop ----------

  function TwoGuard(t: Two, regs: Regs): Regs {
    var r := regs[t.Unit() := 1];
    r[t.Eq0() := Truth(Read(r, t.n) == Read(r, t.Zero()))]
  }

  lemma TwoGuardRuns(t: Two, F: Func, regs: Regs)
    requires TwoShape(t) && F.blocks == TwoBlocks(t)
    ensures Reaches(F, At(2, 0, regs), At(if Read(TwoGuard(t, regs), t.Eq0()) != 0 then 3 else 4, 0, TwoGuard(t, regs)))
  {
    hide Reaches;
    var unit, test := Const(t.Unit(), 1), Bin(t.Eq0(), CmpEq, t.n, t.Zero());
    assert F.blocks[2].instrs == [unit, test] + [Cbr(t.Eq0(), 3, 4)];
    ExecTwo(unit, test, regs);
    BlockReaches(F, 2, [unit, test], Cbr(t.Eq0(), 3, 4), regs);
    NoMoves(2);
  }

  lemma TwoGuardReads(t: Two, regs: Regs)
    requires TwoShape(t)
    ensures var r := TwoGuard(t, regs);
      SameBelow(regs, r, t.Unit()) && Read(r, t.Unit()) == 1 &&
      Read(r, t.Eq0()) == Truth(Read(regs, t.n) == Read(regs, t.Zero()))
  {
  }

  lemma TwoSecondRuns(t: Two, F: Func, regs: Regs)
    requires TwoShape(t) && F.blocks == TwoBlocks(t)
    ensures var r := regs[t.Eq1() := Truth(Read(regs, t.n) == Read(regs, t.Unit()))];
      Reaches(F, At(4, 0, regs), At(if Read(r, t.Eq1()) != 0 then 5 else 6, 0, r))
  {
    hide Reaches;
    var test := Bin(t.Eq1(), CmpEq, t.n, t.Unit());
    assert F.blocks[4].instrs == [test] + [Cbr(t.Eq1(), 5, 6)];
    ExecOne(test, regs);
    BlockReaches(F, 4, [test], Cbr(t.Eq1(), 5, 6), regs);
    NoMoves(4);
  }

  /** The registers at the header after the seeds have been loaded from `y`. */
  function TwoReady(t: Two, y: Regs): Regs {
    var r := y[t.Pair() := 2];
    r[t.I() := Read(r, t.Pair())][t.A() := Read(r, t.newest.res)][t.B() := Read(r, t.older.res)]
  }

  lemma TwoSeedsRun(t: Two, F: Func, regs: Regs)
    requires TwoShape(t) && F.blocks == TwoBlocks(t)
    ensures Reaches(F, At(6, 0, regs), At(7, 0, TwoReady(t, ExecAll(t.older.instrs, ExecAll(t.newest.instrs, regs)))))
  {
    hide Reaches;
    var y := ExecAll(t.older.instrs, ExecAll(t.newest.instrs, regs));
    ExecAllConcat(t.newest.instrs, t.older.instrs, regs);
    ExecOne(Const(t.Pair(), 2), y);
    ExecAllConcat(t.newest.instrs + t.older.instrs, [Const(t.Pair(), 2)], regs);
    BlockReaches(F, 6, t.newest.instrs + t.older.instrs + [Const(t.Pair(), 2)], Br(7), regs);
    TwoMoves(t, y[t.Pair() := 2], 6);
  }

  lemma TwoReadyReads(t: Two, y: Regs)
    requires TwoShape(t) && t.newest.res < t.older.next && t.older.res < t.older.next
    ensures var r := TwoReady(t, y);
      Read(r, t.I()) == 2 && Read(r, t.A()) == Read(y, t.newest.res) && Read(r, t.B()) == Read(y, t.older.res) &&
      SameBelow(y, r, t.older.next)
  {
  }

  /** A seed's code, wherever it is emitted, computes the seed. */
  lemma SeedRuns(g: Stream, env: Env, s: nat, reg: nat, regs: Regs)
    requires Accepted(g) && s < |g.seeds| && EnvOk(env, ParamTypes(g.params, map[]).value) && |g.params| <= reg
    requires VarsOk(ParamVars(g), ParamTypes(g.params, map[]).value, env, regs, |g.params|)
    ensures var c := Gen(g.seeds[s], ParamVars(g), 1, reg);
      var r := ExecAll(c.instrs, regs);
      Read(r, c.res) == Term(g, env, s) && c.res < c.next && SameBelow(regs, r, reg) &&
      VarsOk(ParamVars(g), ParamTypes(g.params, map[]).value, env, r, |g.params|)
  {
    var types := ParamTypes(g.params, map[]).value;
    hide VarsOk, Gen, ExecAll;
    VarsFrame(ParamVars(g), types, env, regs, regs, |g.params|, reg);
    GenRuns(g.seeds[s], types, env, ParamVars(g), 1, reg, regs);
    var r := ExecAll(Gen(g.seeds[s], ParamVars(g), 1, reg).instrs, regs);
    VarsFrame(ParamVars(g), types, env, regs, r, |g.params|, |g.params|);
  }

  /** An exit that returns a seed. */
  lemma ExitRuns(g: Stream, env: Env, s: nat, F: Func, b: nat, reg: nat, regs: Regs)
    requires Accepted(g) && s < |g.seeds| && EnvOk(env, ParamTypes(g.params, map[]).value) && |g.params| <= reg
    requires VarsOk(ParamVars(g), ParamTypes(g.params, map[]).value, env, regs, |g.params|)
    requires var c := Gen(g.seeds[s], ParamVars(g), 1, reg);
      b < |F.blocks| && F.blocks[b].instrs == c.instrs + [Ret(c.res)]
    ensures Reaches(F, At(b, 0, regs), Done(Term(g, env, s)))
  {
    var c := Gen(g.seeds[s], ParamVars(g), 1, reg);
    SeedRuns(g, env, s, reg, regs);
    hide Gen, Accepted, Reaches, VarsOk;
    BlockReaches(F, b, c.instrs, Ret(c.res), regs);
  }

  /** Loading the window before the loop. */
  lemma TwoLoaded(g: Stream, env: Env, regs: Regs, n: nat)
    requires Accepted(g) && |g.seeds| == 2 && EnvOk(env, ParamTypes(g.params, map[]).value) && n >= 2
    requires VarsOk(ParamVars(g), ParamTypes(g.params, map[]).value, env, regs, TwoOf(g).n)
    requires Read(regs, TwoOf(g).n) == n && Read(regs, TwoOf(g).Unit()) == 1
    ensures var t := TwoOf(g);
      TwoAt(g, env, TwoReady(t, ExecAll(t.older.instrs, ExecAll(t.newest.instrs, regs))), 2, n)
  {
    var t := TwoOf(g);
    SeedRuns(g, env, 1, t.exit1.next, regs);
    var mid := ExecAll(t.newest.instrs, regs);
    SeedRuns(g, env, 0, t.newest.next, mid);
    var y := ExecAll(t.older.instrs, mid);
    Shape(g);
    hide Accepted, TwoOf, VarsOk, Gen, ExecAll, Term;
    assert Read(y, t.newest.res) == Read(mid, t.newest.res);
    TwoReadyReads(t, y);
    hide Read;
    VarsFrame(ParamVars(g), ParamTypes(g.params, map[]).value, env, y, TwoReady(t, y), t.n, t.n);
  }

  lemma SecondExitRuns(g: Stream, env: Env, regs: Regs)
    requires Accepted(g) && |g.seeds| == 2 && EnvOk(env, ParamTypes(g.params, map[]).value)
    requires VarsOk(ParamVars(g), ParamTypes(g.params, map[]).value, env, regs, |g.params|)
    ensures Reaches(StreamFunc(g), At(5, 0, regs), Done(Term(g, env, 1)))
  {
    hide *;
    SecondExit(g);
    ExitRuns(g, env, 1, StreamFunc(g), 5, TwoOf(g).exit0.next + 1, regs);
  }

  lemma TwoFromSecond(g: Stream, env: Env, regs: Regs, n: nat)
    requires Accepted(g) && |g.seeds| == 2 && EnvOk(env, ParamTypes(g.params, map[]).value) && 1 <= n && n + 1 < TWO63
    requires VarsOk(ParamVars(g), ParamTypes(g.params, map[]).value, env, regs, TwoOf(g).n)
    requires Read(regs, TwoOf(g).n) == n && Read(regs, TwoOf(g).Unit()) == 1
    ensures Reaches(StreamFunc(g), At(4, 0, regs), Done(Term(g, env, n)))
  {
    hide TwoOf, Accepted, VarsOk, Reaches, Gen, EnvOk, Term, TwoBlocks, ParamTypes, TypeOf;
    Shape(g);
    var t, F := TwoOf(g), StreamFunc(g);
    var r: Regs := regs[t.Eq1() := Truth(n == 1)];
    TwoSecondRuns(t, F, regs);
    VarsFrame(ParamVars(g), ParamTypes(g.params, map[]).value, env, regs, r, t.n, t.n);
    if n == 1 {
      SecondExitRuns(g, env, r);
      ReachesTrans(F, At(4, 0, regs), At(5, 0, r), Done(Term(g, env, n)));
    } else {
      TwoFromLoad(g, env, r, n);
      ReachesTrans(F, At(4, 0, regs), At(6, 0, r), Done(Term(g, env, n)));
    }
  }

  lemma SecondExit(g: Stream)
    requires Accepted(g) && |g.seeds| == 2
    ensures var c := Gen(g.seeds[1], ParamVars(g), 1, TwoOf(g).exit0.next + 1);
      |StreamFunc(g).blocks| == 11 && StreamFunc(g).blocks[5].instrs == c.instrs + [Ret(c.res)]
  {
    hide Accepted, Gen, TypeOf, StraightLine, EnvOk;
    var t := TwoOf(g);
    assert TwoBlocks(t)[5] == Block([], t.exit1.instrs + [Ret(t.exit1.res)]) && |TwoBlocks(t)| == 11;
    assert StreamFunc(g).blocks == TwoBlocks(t);
  }

  lemma TwoFromLoad(g: Stream, env: Env, regs: Regs, n: nat)
    requires Accepted(g) && |g.seeds| == 2 && EnvOk(env, ParamTypes(g.params, map[]).value) && 2 <= n && n + 1 < TWO63
    requires VarsOk(ParamVars(g), ParamTypes(g.params, map[]).value, env, regs, TwoOf(g).n)
    requires Read(regs, TwoOf(g).n) == n && Read(regs, TwoOf(g).Unit()) == 1
    ensures Reaches(StreamFunc(g), At(6, 0, regs), Done(Term(g, env, n)))
  {
    var t, F := TwoOf(g), StreamFunc(g);
    TwoLoaded(g, env, regs, n);
    TwoSeedsRun(t, F, regs);
    var r2 := TwoReady(t, ExecAll(t.older.instrs, ExecAll(t.newest.instrs, regs)));
    Shape(g);
    hide Accepted, TwoOf, VarsOk, Term, TwoAt, Reaches, TwoReady, ExecAll;
    TwoLoop(g, env, r2, 2, n);
    ReachesTrans(F, At(6, 0, regs), At(7, 0, r2), Done(Term(g, env, n)));
  }

  lemma FirstExitRuns(g: Stream, env: Env, regs: Regs)
    requires Accepted(g) && |g.seeds| == 2 && EnvOk(env, ParamTypes(g.params, map[]).value)
    requires VarsOk(ParamVars(g), ParamTypes(g.params, map[]).value, env, regs, |g.params|)
    ensures Reaches(StreamFunc(g), At(3, 0, regs), Done(Term(g, env, 0)))
  {
    hide *;
    FirstExit(g);
    ExitRuns(g, env, 0, StreamFunc(g), 3, TwoOf(g).n + 5, regs);
  }

  lemma FirstExit(g: Stream)
    requires Accepted(g) && |g.seeds| == 2
    ensures var c := Gen(g.seeds[0], ParamVars(g), 1, TwoOf(g).n + 5);
      |StreamFunc(g).blocks| == 11 && StreamFunc(g).blocks[3].instrs == c.instrs + [Ret(c.res)]
  {
    hide Accepted, Gen, TypeOf, StraightLine, EnvOk;
    var t := TwoOf(g);
    assert TwoBlocks(t)[3] == Block([], t.exit0.instrs + [Ret(t.exit0.res)]) && |TwoBlocks(t)| == 11;
    assert StreamFunc(g).blocks == TwoBlocks(t);
  }

  lemma TwoFromGuard(g: Stream, env: Env, regs: Regs, n: nat)
    requires Accepted(g) && |g.seeds| == 2 && EnvOk(env, ParamTypes(g.params, map[]).value) && n + 1 < TWO63
    requires VarsOk(ParamVars(g), ParamTypes(g.params, map[]).value, env, regs, TwoOf(g).n)
    requires Read(regs, TwoOf(g).n) == n && Read(regs, TwoOf(g).Zero()) == 0
    ensures Reaches(StreamFunc(g), At(2, 0, regs), Done(Term(g, env, n)))
  {
    hide TwoOf, Accepted, VarsOk, Reaches, Gen, EnvOk, Term, TwoBlocks, ParamTypes, TypeOf, TwoGuard, Read;
    Shape(g);
    var t, F := TwoOf(g), StreamFunc(g);
    var r := TwoGuard(t, regs);
    TwoGuardRuns(t, F, regs);
    TwoGuardReads(t, regs);
    VarsFrame(ParamVars(g), ParamTypes(g.params, map[]).value, env, regs, r, t.n, t.n);
    if n == 0 {
      FirstExitRuns(g, env, r);
      ReachesTrans(F, At(2, 0, regs), At(3, 0, r), Done(Term(g, env, n)));
    } else {
      TwoFromSecond(g, env, r, n);
      ReachesTrans(F, At(2, 0, regs), At(4, 0, r), Done(Term(g, env, n)));
    }
  }

  lemma TwoSeedRuns(g: Stream, args: seq<Val>, n: int)
    requires Accepted(g) && |g.seeds| == 2 && ArgsOk(g.params, args) && n + 1 < TWO63
    ensures Reaches(StreamFunc(g), At(0, 0, EntryRegs(args, n)),
                    Done(if n < 0 then 0 else Term(g, ParamEnv(g.params, args, map[]), n)))
  {
    TwoBlocksStart(TwoOf(g));
    hide Accepted, ParamTypes, ParamEnv, EntryRegs, VarsOk, EnvOk, TwoBlocks, Reaches, TwoOf, Term;
    Shape(g);
    var env, F, s := ParamEnv(g.params, args, map[]), StreamFunc(g), At(0, 0, EntryRegs(args, n));
    var r1 := EntryToGuard(g, F, args, n);
    if n >= 0 {
      TwoFromGuard(g, env, r1, n);
      ReachesTrans(F, s, At(2, 0, r1), Done(Term(g, env, n)));
    }
  }

  lemma TwoBlocksStart(t: Two)
    ensures TwoBlocks(t)[0] == Block([], [Const(t.Zero(), 0), Bin(t.Neg(), CmpLt, t.n, t.Zero()), Cbr(t.Neg(), 1, 2)])
    ensures TwoBlocks(t)[1] == Block([], [Ret(t.Zero())]) && TwoBlocks(t)[2].phis == []
  {
  }

  /** A lowered generator returns its n-th term for every index below the largest
      64-bit integer, and zero for negative indices. */
  lemma StreamRuns(g: Stream, args: seq<Val>, n: int)
    requires Accepted(g) && ArgsOk(g.params, args) && n + 1 < TWO63
    ensures Reaches(StreamFunc(g), At(0, 0, EntryRegs(args, n)),
                    Done(if n < 0 then 0 else Term(g, ParamEnv(g.params, args, map[]), n)))
  {
    if |g.seeds| == 1 { OneSeedRuns(g, args, n); } else { TwoSeedRuns(g, args, n); }
  }
}
