/** Building a two-seed generator's function in place (src/ir_lower.c,
    lower_stream_gen, the second half). */
module StreamBuildTwo {
  import opened Bits
  import opened Ir
  import opened IrLower
  import opened IrLowerCorrect
  import opened IrFunction
  import opened IrBuild
  import opened StreamLower
  import opened StreamCorrect
  import opened StreamTwo
  import opened StreamBuild

  // ---------- the exits for the seeds ----------

  /** The guard compares the index with zero. */
  method TwoGuards(ctx: LowerCtx, ghost t: Two, n: nat, zero: nat) returns (unit: nat)
    requires n == t.n && zero == t.Zero() && On(ctx, EntryBlocks(n), n + 3, 1)
    modifies ctx.func
    ensures unit == t.Unit() && On(ctx, TwoBlocks(t)[..3] + [NONE] + [NONE], n + 5, 2)
  {
    hide On;
    ghost var pre := EntryBlocks(n)[..2];
    assert EntryBlocks(n) == pre + [NONE] + [];
    unit := Reg(ctx, EntryBlocks(n), n + 3, 1);
    var eq := Reg(ctx, EntryBlocks(n), n + 4, 1);
    ghost var front := [Const(unit, 1), Bin(eq, CmpEq, n, zero)];
    FillEmpty(ctx, 2, [Const(unit, 1), Bin(eq, CmpEq, n, zero)], pre, [], [], n + 5, 1);
    assert pre + [Block([], front)] + [] == pre + [Block([], front)];
    var ret0, guard := BranchTwo(ctx, eq, pre, [], front, n + 5);
    assert front + [Cbr(eq, 3, 4)] == TwoBlocks(t)[2].instrs;
    assert pre + [Block([], front + [Cbr(eq, 3, 4)])] == TwoBlocks(t)[..3];
  }

  /** A block that returns a seed. */
  method SeedExit(ctx: LowerCtx, e: Expr, b: nat, ghost c: Code, ghost types: Types, ghost pre: seq<Block>,
      ghost post: seq<Block>,
                  ghost regs: nat, ghost last: nat)
    requires On(ctx, pre + [NONE] + post, regs, last) && b == |pre| && StraightLine(e)
    requires Names(ctx.vars, types) && TypeOf(e, types).Some? && LevelsUpTo(ctx.vars, 1) && ctx.level == 1
    requires c == Gen(e, ctx.vars, 1, regs)
    modifies ctx, ctx.func
    ensures ctx.vars == old(ctx.vars) && ctx.level == 1 && LevelsUpTo(ctx.vars, 1)
    ensures On(ctx, pre + [Block([], c.instrs + [Ret(c.res)])] + post, c.next, b)
  {
    hide On, Names, LevelsUpTo, TypeOf, Gen, StraightLine;
    var r := Expression(ctx, e, b, types, pre + [NONE] + post, regs, last);
    AddedEmpty(pre, [], post, c.instrs);
    FillMore(ctx, b, [Ret(r)], pre, [], c.instrs, post, c.next);
  }

  /** The second guard compares the index with one. */
  method TwoSecond(ctx: LowerCtx, ghost t: Two, n: nat, unit: nat)
    requires n == t.n && unit == t.Unit() && On(ctx, TwoBlocks(t)[..4] + [NONE], t.exit0.next, 3)
    modifies ctx.func
    ensures On(ctx, TwoBlocks(t)[..5] + [NONE] + [NONE], t.exit0.next + 1, 4)
  {
    hide On;
    ghost var pre := TwoBlocks(t)[..4];
    var eq := Reg(ctx, pre + [NONE], t.exit0.next, 3);
    assert pre + [NONE] == pre + [NONE] + [];
    FillEmpty(ctx, 4, [Bin(eq, CmpEq, n, unit)], pre, [], [], t.exit0.next + 1, 3);
    assert pre + [Block([], [Bin(eq, CmpEq, n, unit)])] + [] == pre + [Block([], [Bin(eq, CmpEq, n, unit)])];
    var ret1, load := BranchTwo(ctx, eq, pre, [], [Bin(eq, CmpEq, n, unit)], t.exit0.next + 1);
    assert [Bin(eq, CmpEq, n, unit)] + [Cbr(eq, 5, 6)] == TwoBlocks(t)[4].instrs;
    assert pre + [Block([], [Bin(eq, CmpEq, n, unit)] + [Cbr(eq, 5, 6)])] == TwoBlocks(t)[..5];
  }

  /** Both seeds again, then the starting index and the jump to the header. */
  method TwoLoad(ctx: LowerCtx, g: Stream, ghost t: Two, ghost types: Types) returns (newest: nat, older: nat, two: nat)
    requires |g.seeds| == 2 && StraightLine(g.seeds[0]) && StraightLine(g.seeds[1])
    requires TypeOf(g.seeds[0], types).Some? && TypeOf(g.seeds[1], types).Some?
    requires Names(ctx.vars, types) && LevelsUpTo(ctx.vars, 1) && ctx.level == 1
    requires t.newest == Gen(g.seeds[1], ctx.vars, 1, t.exit1.next) &&
      t.older == Gen(g.seeds[0], ctx.vars, 1, t.newest.next)
    requires On(ctx, TwoBlocks(t)[..6] + [NONE], t.exit1.next, 5)
    modifies ctx, ctx.func
    ensures ctx.vars == old(ctx.vars) && ctx.level == 1 && LevelsUpTo(ctx.vars, 1)
    ensures newest == t.newest.res && older == t.older.res && two == t.Pair()
    ensures On(ctx, TwoBlocks(t)[..7] + [NONE], t.Pair() + 1, 6)
  {
    hide On, Names, LevelsUpTo, TypeOf, Gen, StraightLine;
    ghost var pre := TwoBlocks(t)[..6];
    assert pre + [NONE] == pre + [NONE] + [];
    newest := Expression(ctx, g.seeds[1], 6, types, pre + [NONE] + [], t.exit1.next, 5);
    AddedEmpty(pre, [], [], t.newest.instrs);
    older := Expression(ctx, g.seeds[0], 6, types, pre + [Block([], t.newest.instrs)] + [], t.newest.next, 6);
    AddedMore(pre, [], [], t.newest.instrs, t.older.instrs);
    two := TwoJump(ctx, t, pre);
  }

  method TwoJump(ctx: LowerCtx, ghost t: Two, ghost pre: seq<Block>) returns (two: nat)
    requires pre == TwoBlocks(t)[..6] &&
      On(ctx, pre + [Block([], t.newest.instrs + t.older.instrs)] + [], t.older.next, 6)
    modifies ctx.func
    ensures two == t.Pair() && On(ctx, TwoBlocks(t)[..7] + [NONE], t.Pair() + 1, 6)
  {
    hide On;
    ghost var seeds := t.newest.instrs + t.older.instrs;
    two := Reg(ctx, pre + [Block([], seeds)] + [], t.older.next, 6);
    FillMore(ctx, 6, [Const(two, 2)], pre, [], seeds, [], two + 1);
    var header := NewBlock(ctx, pre + [Block([], seeds + [Const(two, 2)])] + [], two + 1, 6);
    assert pre + [Block([], seeds + [Const(two, 2)])] + [] + [NONE] == pre + [Block([], seeds + [Const(two, 2)])] +
      [NONE];
    FillMore(ctx, 6, [Br(7)], pre, [], seeds + [Const(two, 2)], [NONE], two + 1);
    assert pre + [Block([], seeds + [Const(two, 2)] + [Br(7)])] == TwoBlocks(t)[..7];
  }

  // ---------- the loop ----------

  function TwoHeadBlock(t: Two): Block { Block([], [Bin(t.Le(), CmpLe, t.I(), t.n), Cbr(t.Le(), 8, 10)]) }

  method TwoHeader(ctx: LowerCtx, g: Stream, ghost t: Two, n: nat, ghost types: Types) returns (i: nat, a: nat, b: nat)
    requires |g.binders| == 2 && n == t.n && Names(ctx.vars, types) && LevelsUpTo(ctx.vars, 1) && ctx.level == 1
    requires On(ctx, TwoBlocks(t)[..7] + [NONE], t.Pair() + 1, 6)
    modifies ctx, ctx.func
    ensures i == t.I() && a == t.A() && b == t.B() && ctx.level == 1
    ensures ctx.vars == SetWindow(g, old(ctx.vars), a, b, i) && Names(ctx.vars, RuleTypes(g, types)) &&
      LevelsUpTo(ctx.vars, 1)
    ensures On(ctx, TwoBlocks(t)[..7] + [TwoHeadBlock(t)] + [NONE, NONE, NONE], t.Le() + 1, 7)
  {
    hide On, Names, LevelsUpTo, SetWindow, RuleTypes;
    ghost var pre := TwoBlocks(t)[..7];
    i := Reg(ctx, pre + [NONE], t.Pair() + 1, 6);
    a := Reg(ctx, pre + [NONE], i + 1, 6);
    b := Reg(ctx, pre + [NONE], a + 1, 6);
    WindowFrame(ctx, g, a, b, i, types, pre + [NONE], b + 1, 6);
    Header(ctx, i, n, b + 1, pre, 6);
  }

  /** The rule's block saves both next values. */
  method TwoRuleBlock(ctx: LowerCtx, g: Stream, ghost t: Two, a: nat, ghost ruleTypes: Types, ghost pre: seq<Block>)
    returns (nextB: nat, nextA: nat)
    requires Names(ctx.vars, ruleTypes) && LevelsUpTo(ctx.vars, 1) && ctx.level == 1
    requires TypeOf(g.rule, ruleTypes).Some? && StraightLine(g.rule) && t.rule == Gen(g.rule, ctx.vars, 1, t.Le() + 1)
    requires a == t.A() && |pre| == 8 && On(ctx, pre + [NONE, NONE, NONE], t.Le() + 1, 7)
    modifies ctx, ctx.func
    ensures nextB == t.NextB() && nextA == t.NextA() && On(ctx, pre + [TwoBlocks(t)[8]] + [NONE] + [NONE], nextA + 1, 8)
  {
    hide On, Names, LevelsUpTo, TypeOf, Gen, StraightLine;
    assert pre + [NONE, NONE, NONE] == pre + [Block([], [])] + [NONE, NONE];
    var rule := Expression(ctx, g.rule, 8, ruleTypes, pre + [NONE] + [NONE, NONE], t.Le() + 1, 7);
    AddedEmpty(pre, [], [NONE, NONE], t.rule.instrs);
    nextB := Reg(ctx, pre + [Block([], t.rule.instrs)] + [NONE, NONE], t.rule.next, 8);
    nextA := Reg(ctx, pre + [Block([], t.rule.instrs)] + [NONE, NONE], t.rule.next + 1, 8);
    FillMore(ctx, 8, [Copy(nextB, a), Copy(nextA, rule), Br(9)], pre, [], t.rule.instrs, [NONE, NONE], nextA + 1);
    assert t.rule.instrs + [Copy(nextB, a), Copy(nextA, rule), Br(9)] == TwoBlocks(t)[8].instrs;
    assert pre + [TwoBlocks(t)[8]] + [NONE, NONE] == pre + [TwoBlocks(t)[8]] + [NONE] + [NONE];
  }

  method TwoEnd(ctx: LowerCtx, ghost t: Two, nextB: nat, nextA: nat, i: nat, a: nat, unit: nat, ghost pre: seq<Block>)
    returns (incA: nat, incB: nat, nextI: nat)
    requires |pre| == 9 && On(ctx, pre + [NONE] + [NONE], nextA + 1, 8)
    requires nextB == t.NextB() && nextA == t.NextA() && i == t.I() && a == t.A() && unit == t.Unit()
    modifies ctx.func
    ensures incA == t.IncA() && incB == t.IncB() && nextI == t.NextI()
    ensures On(ctx, pre + [TwoBlocks(t)[9]] + [TwoBlocks(t)[10]], nextI + 1, 10)
  {
    hide On;
    incA := Reg(ctx, pre + [NONE] + [NONE], nextA + 1, 8);
    incB := Reg(ctx, pre + [NONE] + [NONE], incA + 1, 8);
    nextI := Reg(ctx, pre + [NONE] + [NONE], incB + 1, 8);
    FillEmpty(ctx, 9, [Copy(incA, nextA), Copy(incB, nextB), Bin(nextI, Add, i, unit), Br(7)], pre, [], [NONE],
      nextI + 1, 8);
    ghost var lead := pre + [TwoBlocks(t)[9]];
    assert lead + [NONE] == lead + [Block([], [])] + [];
    FillEmpty(ctx, 10, [Ret(a)], lead, [], [], nextI + 1, 9);
    assert lead + [Block([], [Ret(a)])] + [] == pre + [TwoBlocks(t)[9]] + [TwoBlocks(t)[10]];
  }

  method TwoPhis(ctx: LowerCtx, ghost t: Two, i: nat, a: nat, b: nat, two: nat, newest: nat, older: nat, nextI: nat,
      incA: nat, incB: nat)
    requires i == t.I() && a == t.A() && b == t.B() && two == t.Pair() && newest == t.newest.res && older == t.older.res
    requires nextI == t.NextI() && incA == t.IncA() && incB == t.IncB()
    requires On(ctx, TwoBlocks(t)[..7] + [TwoHeadBlock(t)] + TwoBlocks(t)[8..], nextI + 1, 10)
    modifies ctx.func
    ensures On(ctx, TwoBlocks(t), nextI + 1, 10)
  {
    hide On;
    ghost var pre, head, post := TwoBlocks(t)[..7], TwoHeadBlock(t), TwoBlocks(t)[8..];
    ghost var p0, p1 := Phi(i, Int, [PhiArg(two, 6), PhiArg(nextI, 9)]),
        Phi(a, Int, [PhiArg(newest, 6), PhiArg(incA, 9)]);
    ghost var p2 := Phi(b, Int, [PhiArg(older, 6), PhiArg(incB, 9)]);
    MergeAt(pre, head, post, p0);
    Merge(ctx, 7, Phi(i, Int, [PhiArg(two, 6), PhiArg(nextI, 9)]), pre + [head] + post, nextI + 1, 10);
    ghost var h1 := Block([] + [p0], head.instrs);
    MergeAt(pre, h1, post, p1);
    Merge(ctx, 7, Phi(a, Int, [PhiArg(newest, 6), PhiArg(incA, 9)]), pre + [h1] + post, nextI + 1, 10);
    ghost var h2 := Block([] + [p0] + [p1], head.instrs);
    MergeAt(pre, h2, post, p2);
    Merge(ctx, 7, Phi(b, Int, [PhiArg(older, 6), PhiArg(incB, 9)]), pre + [h2] + post, nextI + 1, 10);
    assert [] + [p0] + [p1] + [p2] == TwoBlocks(t)[7].phis;
    assert pre + [Block([] + [p0] + [p1] + [p2], head.instrs)] + post == TwoBlocks(t);
  }

  // ---------- all of it ----------

  lemma TwoParts(g: Stream)
    requires Accepted(g) && |g.seeds| == 2
    ensures var t, types := TwoOf(g), ParamTypes(g.params, map[]).value;
      |g.binders| == 2 && TypeOf(g.rule, RuleTypes(g, types)).Some? && StraightLine(g.rule) &&
      t.rule == Gen(g.rule, SetWindow(g, ParamVars(g), t.A(), t.B(), t.I()), 1, t.Le() + 1) &&
      StreamFunc(g) == Func(TwoBlocks(t), t.NextI() + 1)
    ensures var t, types := TwoOf(g), ParamTypes(g.params, map[]).value;
      StraightLine(g.seeds[0]) && StraightLine(g.seeds[1]) && TypeOf(g.seeds[0], types).Some? &&
      TypeOf(g.seeds[1], types).Some? &&
      t.exit0 == Gen(g.seeds[0], ParamVars(g), 1, t.n + 5) &&
      t.exit1 == Gen(g.seeds[1], ParamVars(g), 1, t.exit0.next + 1) &&
      t.newest == Gen(g.seeds[1], ParamVars(g), 1, t.exit1.next) &&
      t.older == Gen(g.seeds[0], ParamVars(g), 1, t.newest.next)
  {
    hide TypeOf, StraightLine, ParamTypes, SetWindow, RuleTypes, Gen, TwoBlocks;
  }

  method TwoStart(ctx: LowerCtx, g: Stream, ghost t: Two, n: nat, zero: nat, ghost types: Types)
    returns (unit: nat, newest: nat, older: nat, two: nat)
    requires |g.seeds| == 2 && n == t.n && zero == t.Zero() && On(ctx, EntryBlocks(n), n + 3, 1)
    requires Names(ctx.vars, types) && LevelsUpTo(ctx.vars, 1) && ctx.level == 1
    requires StraightLine(g.seeds[0]) && StraightLine(g.seeds[1]) && TypeOf(g.seeds[0], types).Some? &&
      TypeOf(g.seeds[1], types).Some?
    requires t.exit0 == Gen(g.seeds[0], ctx.vars, 1, t.n + 5) &&
      t.exit1 == Gen(g.seeds[1], ctx.vars, 1, t.exit0.next + 1)
    requires t.newest == Gen(g.seeds[1], ctx.vars, 1, t.exit1.next) &&
      t.older == Gen(g.seeds[0], ctx.vars, 1, t.newest.next)
    modifies ctx, ctx.func
    ensures ctx.vars == old(ctx.vars) && ctx.level == 1 && LevelsUpTo(ctx.vars, 1)
    ensures unit == t.Unit() && newest == t.newest.res && older == t.older.res && two == t.Pair()
    ensures On(ctx, TwoBlocks(t)[..7] + [NONE], t.Pair() + 1, 6)
  {
    hide On, Names, LevelsUpTo, TypeOf, Gen, StraightLine, EntryBlocks;
    unit := TwoGuards(ctx, t, n, zero);
    SeedExit(ctx, g.seeds[0], 3, t.exit0, types, TwoBlocks(t)[..3], [NONE], n + 5, 2);
    assert TwoBlocks(t)[..3] + [Block([], t.exit0.instrs + [Ret(t.exit0.res)])] == TwoBlocks(t)[..4];
    TwoSecond(ctx, t, n, unit);
    SeedExit(ctx, g.seeds[1], 5, t.exit1, types, TwoBlocks(t)[..5], [NONE], t.exit0.next + 1, 4);
    assert TwoBlocks(t)[..5] + [Block([], t.exit1.instrs + [Ret(t.exit1.res)])] == TwoBlocks(t)[..6];
    newest, older, two := TwoLoad(ctx, g, t, types);
  }

  method TwoRest(ctx: LowerCtx, g: Stream, ghost t: Two, n: nat, unit: nat, newest: nat, older: nat, two: nat,
                 ghost types: Types, ghost ruleTypes: Types)
    requires |g.binders| == 2 && n == t.n && Names(ctx.vars, types) && LevelsUpTo(ctx.vars, 1) && ctx.level == 1
    requires unit == t.Unit() && newest == t.newest.res && older == t.older.res && two == t.Pair() &&
      ruleTypes == RuleTypes(g, types)
    requires TypeOf(g.rule, ruleTypes).Some? && StraightLine(g.rule)
    requires t.rule == Gen(g.rule, SetWindow(g, ctx.vars, t.A(), t.B(), t.I()), 1, t.Le() + 1)
    requires On(ctx, TwoBlocks(t)[..7] + [NONE], t.Pair() + 1, 6)
    modifies ctx, ctx.func
    ensures On(ctx, TwoBlocks(t), t.NextI() + 1, 10)
  {
    hide On, Names, LevelsUpTo, SetWindow, RuleTypes, TypeOf, Gen, StraightLine, TwoHeadBlock;
    var i, a, b := TwoHeader(ctx, g, t, n, types);
    ghost var pre := TwoBlocks(t)[..7] + [TwoHeadBlock(t)];
    var nextB, nextA := TwoRuleBlock(ctx, g, t, a, ruleTypes, pre);
    var incA, incB, nextI := TwoEnd(ctx, t, nextB, nextA, i, a, unit, pre + [TwoBlocks(t)[8]]);
    assert pre + [TwoBlocks(t)[8]] + [TwoBlocks(t)[9]] + [TwoBlocks(t)[10]] == pre + TwoBlocks(t)[8..];
    TwoPhis(ctx, t, i, a, b, two, newest, older, nextI, incA, incB);
  }

  method BuildTwo(ctx: LowerCtx, g: Stream)
    requires ctx.Ready() && ctx.vars == [] && ctx.level == 1 && ctx.Blocks() == AddBlock(EMPTY) && ctx.current == 0
    requires Accepted(g) && |g.seeds| == 2
    modifies ctx, ctx.func
    ensures ctx.func.Valid() && ctx.func.Blocks() == StreamFunc(g)
  {
    hide On, StreamFunc, Accepted, TwoOf, TypeOf, Gen, StraightLine, Names, LevelsUpTo, SetWindow, RuleTypes,
      TwoBlocks, EntryBlocks, ParamTypes;
    TwoParts(g);
    ghost var t := TwoOf(g);
    TwoN(g);
    var n, zero, types := Entry(ctx, g);
    var unit, newest, older, two := TwoStart(ctx, g, t, n, zero, types);
    TwoRest(ctx, g, t, n, unit, newest, older, two, types, RuleTypes(g, types));
    OnIs(ctx, TwoBlocks(t), t.NextI() + 1, 10);
  }

  lemma TwoN(g: Stream)
    requires Accepted(g) && |g.seeds| == 2
    ensures TwoOf(g).n == |g.params| && TwoOf(g).Zero() == |g.params| + 1
  {
    hide TypeOf, StraightLine, ParamTypes, SetWindow, RuleTypes, Gen;
  }

  /** Lower a stream generator: the blocks built in place are the function whose
      runs return the generator's terms. */
  method LowerStreamGen(g: Stream) returns (built: IrFunc)
    requires Accepted(g)
    ensures built.Valid() && built.Blocks() == StreamFunc(g)
  {
    built := new IrFunc();
    var entry := built.AddNewBlock();
    var ctx := new LowerCtx(built);
    ctx.level := ctx.level + 1;
    if |g.seeds| == 1 { BuildOne(ctx, g); } else { BuildTwo(ctx, g); }
  }
}
