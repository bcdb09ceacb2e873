/** Building a stream generator's function in place (src/ir_lower.c,
    lower_stream_gen). */
module StreamBuild {
  import opened Bits
  import opened Ir
  import opened IrLower
  import opened IrLowerCorrect
  import opened IrFunction
  import opened IrBuild
  import opened StreamLower
  import opened StreamCorrect
  import opened StreamTwo

  /** The function under construction has these blocks and registers, and `last` is
      the block that was filled last. */
  ghost predicate On(ctx: LowerCtx, blocks: seq<Block>, regs: nat, last: nat)
    reads ctx, ctx.func
  {
    ctx.func.Valid() && ctx.func.Blocks() == Func(blocks, regs) && |ctx.func.ranges| == |blocks| && last < |blocks| &&
    Appendable(ctx.func.State(), last)
  }

  lemma OnIs(ctx: LowerCtx, blocks: seq<Block>, regs: nat, last: nat)
    requires On(ctx, blocks, regs, last)
    ensures ctx.func.Valid() && ctx.func.Blocks() == Func(blocks, regs)
  {
  }

  function Added(blocks: seq<Block>, b: nat, instrs: seq<Instr>): seq<Block>
    requires b < |blocks|
  {
    blocks[b := Block(blocks[b].phis, blocks[b].instrs + instrs)]
  }

  method Put(ctx: LowerCtx, b: nat, i: Instr, ghost blocks: seq<Block>, ghost regs: nat, ghost last: nat)
    requires On(ctx, blocks, regs, last) && b < |blocks| && (b == last || blocks[b].instrs == [])
    modifies ctx.func
    ensures On(ctx, Added(blocks, b, [i]), regs, b)
  {
    if b != last { ctx.EmptyAppendable(b); }
    ctx.func.EmitIntoBlock(b, i);
  }

  /** Append several instructions to a block. */
  method Fill(ctx: LowerCtx, b: nat, instrs: seq<Instr>, ghost blocks: seq<Block>, ghost regs: nat, ghost last: nat)
    requires On(ctx, blocks, regs, last) && b < |blocks| && (b == last || blocks[b].instrs == []) && instrs != []
    modifies ctx.func
    ensures On(ctx, Added(blocks, b, instrs), regs, b)
  {
    Put(ctx, b, instrs[0], blocks, regs, last);
    var k := 1;
    assert instrs[..1] == [instrs[0]];
    while k < |instrs|
      invariant 1 <= k <= |instrs| && On(ctx, Added(blocks, b, instrs[..k]), regs, b)
    {
      AddedTwice(blocks, b, instrs[..k], [instrs[k]]);
      assert instrs[..k + 1] == instrs[..k] + [instrs[k]];
      Put(ctx, b, instrs[k], Added(blocks, b, instrs[..k]), regs, b);
      k := k + 1;
    }
    assert instrs[..k] == instrs;
  }

  lemma AddedTwice(blocks: seq<Block>, b: nat, x: seq<Instr>, y: seq<Instr>)
    requires b < |blocks|
    ensures Added(Added(blocks, b, x), b, y) == Added(blocks, b, x + y)
  {
    assert blocks[b].instrs + x + y == blocks[b].instrs + (x + y);
  }

  /** Filling an empty block of a list. */
  lemma AddedEmpty(pre: seq<Block>, phis: seq<Phi>, post: seq<Block>, instrs: seq<Instr>)
    ensures Added(pre + [Block(phis, [])] + post, |pre|, instrs) == pre + [Block(phis, instrs)] + post
  {
    assert [] + instrs == instrs;
  }

  /** Adding to a block that already has instructions. */
  lemma AddedMore(pre: seq<Block>, phis: seq<Phi>, post: seq<Block>, x: seq<Instr>, y: seq<Instr>)
    ensures Added(pre + [Block(phis, x)] + post, |pre|, y) == pre + [Block(phis, x + y)] + post
  {
  }

  method NewBlock(ctx: LowerCtx, ghost blocks: seq<Block>, ghost regs: nat, ghost last: nat) returns (b: nat)
    requires On(ctx, blocks, regs, last)
    modifies ctx.func
    ensures b == |blocks| && On(ctx, blocks + [Block([], [])], regs, last)
  {
    b := ctx.func.AddNewBlock();
  }

  method Reg(ctx: LowerCtx, ghost blocks: seq<Block>, ghost regs: nat, ghost last: nat) returns (r: nat)
    requires On(ctx, blocks, regs, last)
    modifies ctx.func
    ensures r == regs && On(ctx, blocks, regs + 1, last)
  {
    r := ctx.func.TakeReg();
  }

  method Merge(ctx: LowerCtx, b: nat, p: Phi, ghost blocks: seq<Block>, ghost regs: nat, ghost last: nat)
    requires On(ctx, blocks, regs, last) && b < |blocks|
    modifies ctx.func
    ensures On(ctx, blocks[b := Block(blocks[b].phis + [p], blocks[b].instrs)], regs, last)
  {
    ctx.func.EmitPhiInto(b, p);
  }

  const NONE := Block([], [])

  /** End block `b`, the last one, with a branch to two new blocks. */
  method BranchTwo(ctx: LowerCtx, cond: nat, ghost pre: seq<Block>, ghost phis: seq<Phi>, ghost code: seq<Instr>,
      ghost regs: nat)
    returns (yes: nat, no: nat)
    requires On(ctx, pre + [Block(phis, code)], regs, |pre|)
    modifies ctx.func
    ensures yes == |pre| + 1 && no == |pre| + 2
    ensures On(ctx, pre + [Block(phis, code + [Cbr(cond, |pre| + 1, |pre| + 2)])] + [NONE] + [NONE], regs, |pre|)
  {
    hide On;
    ghost var b := pre + [Block(phis, code)];
    yes := NewBlock(ctx, b, regs, |pre|);
    no := NewBlock(ctx, b + [NONE], regs, |pre|);
    Put(ctx, yes - 1, Cbr(cond, yes, no), b + [NONE] + [NONE], regs, |pre|);
    assert b + [NONE] + [NONE] == pre + [Block(phis, code)] + [NONE, NONE];
    AddedMore(pre, phis, [NONE, NONE], code, [Cbr(cond, yes, no)]);
    assert pre + [Block(phis, code + [Cbr(cond, yes, no)])] + [NONE, NONE] ==
           pre + [Block(phis, code + [Cbr(cond, yes, no)])] + [NONE] + [NONE];
  }

  /** Fill an empty block. */
  method FillEmpty(ctx: LowerCtx, b: nat, instrs: seq<Instr>, ghost pre: seq<Block>, ghost phis: seq<Phi>,
      ghost post: seq<Block>,
                   ghost regs: nat, ghost last: nat)
    requires On(ctx, pre + [Block(phis, [])] + post, regs, last) && b == |pre| && instrs != []
    modifies ctx.func
    ensures On(ctx, pre + [Block(phis, instrs)] + post, regs, b)
  {
    AddedEmpty(pre, phis, post, instrs);
    Fill(ctx, b, instrs, pre + [Block(phis, [])] + post, regs, last);
  }

  /** Add to the block that was filled last. */
  method FillMore(ctx: LowerCtx, b: nat, instrs: seq<Instr>, ghost pre: seq<Block>, ghost phis: seq<Phi>,
      ghost code: seq<Instr>,
                  ghost post: seq<Block>, ghost regs: nat)
    requires On(ctx, pre + [Block(phis, code)] + post, regs, b) && b == |pre| && instrs != []
    modifies ctx.func
    ensures On(ctx, pre + [Block(phis, code + instrs)] + post, regs, b)
  {
    AddedMore(pre, phis, post, code, instrs);
    Fill(ctx, b, instrs, pre + [Block(phis, code)] + post, regs, b);
  }

  /** Lower a straight-line expression into block `b`. */
  method Expression(ctx: LowerCtx, e: Expr, b: nat, ghost types: Types, ghost blocks: seq<Block>, ghost regs: nat,
      ghost last: nat)
    returns (res: nat)
    requires On(ctx, blocks, regs, last) && b < |blocks| && (b == last || blocks[b].instrs == []) && StraightLine(e)
    requires Names(ctx.vars, types) && TypeOf(e, types).Some? && LevelsUpTo(ctx.vars, ctx.level)
    modifies ctx, ctx.func
    ensures ctx.vars == old(ctx.vars) && ctx.level == old(ctx.level) && LevelsUpTo(ctx.vars, ctx.level)
    ensures var c := Gen(e, ctx.vars, ctx.level, regs);
      res == c.res && On(ctx, Added(blocks, b, c.instrs), c.next, b)
  {
    if b != last { ctx.EmptyAppendable(b); }
    ctx.current := b;
    GenIsLower(e, ctx.vars, ctx.level, ctx.func.Blocks(), b);
    res := ctx.Lower(e, types);
  }

  /** Parameters, the index register, and the entry test. */
  function EntryBlocks(n: nat): seq<Block> {
    [Block([], [Const(n + 1, 0), Bin(n + 2, CmpLt, n, n + 1), Cbr(n + 2, 1, 2)]), Block([], [Ret(n + 1)]),
      Block([], [])]
  }

  method Entry(ctx: LowerCtx, g: Stream) returns (n: nat, zero: nat, ghost types: Types)
    requires ctx.Ready() && ctx.vars == [] && ctx.level == 1 && ctx.Blocks() == AddBlock(EMPTY) && ctx.current == 0 &&
      Accepted(g)
    modifies ctx, ctx.func
    ensures n == |g.params| && zero == n + 1 && types == ParamTypes(g.params, map[]).value
    ensures ctx.vars == ParamVars(g) && Names(ctx.vars, types) && LevelsUpTo(ctx.vars, ctx.level) && ctx.level == 1
    ensures On(ctx, EntryBlocks(n), n + 3, 1)
  {
    types := EnterParams(ctx, g.params);
    ParamVarsFrom(g.params, [], EMPTY, AddBlock(EMPTY));
    n, zero := EntryTest(ctx, |g.params|);
  }

  method EntryTest(ctx: LowerCtx, ghost count: nat) returns (n: nat, zero: nat)
    requires On(ctx, [NONE], count, 0)
    modifies ctx.func
    ensures n == count && zero == n + 1 && On(ctx, EntryBlocks(n), n + 3, 1)
  {
    hide On;
    n := Reg(ctx, [NONE], count, 0);
    zero := Reg(ctx, [NONE], n + 1, 0);
    var neg := Reg(ctx, [NONE], n + 2, 0);
    ghost var front := [Const(zero, 0), Bin(neg, CmpLt, n, zero)];
    assert [] + [Block([], [])] + [] == [NONE];
    FillEmpty(ctx, 0, [Const(zero, 0), Bin(neg, CmpLt, n, zero)], [], [], [], n + 3, 0);
    assert [] + [Block([], front)] + [] == [] + [Block([], front)];
    var ret0, guard := BranchTwo(ctx, neg, [], [], front, n + 3);
    ghost var lead := [] + [Block([], front + [Cbr(neg, 1, 2)])];
    FillEmpty(ctx, ret0, [Ret(zero)], lead, [], [NONE], n + 3, 0);
    assert front + [Cbr(neg, 1, 2)] == EntryBlocks(n)[0].instrs;
    assert lead + [Block([], [Ret(zero)])] + [NONE] == EntryBlocks(n);
  }

  /** The variable table of the parameters does not depend on the blocks so far. */
  lemma {:induction false} ParamVarsFrom(params: seq<Param>, vars: seq<VarEntry>, f: Func, h: Func)
    requires f.nextReg == h.nextReg
    ensures LowerParams(params, vars, f).0 == LowerParams(params, vars, h).0
    decreases params
  {
    if params != [] { ParamVarsFrom(params[1..], SetVar(vars, params[0].x, f.nextReg, 1), NewReg(f), NewReg(h)); }
  }

  lemma WindowNames(g: Stream, types: Types, vars: seq<VarEntry>, newest: nat, older: nat, i: nat)
    requires 1 <= |g.binders| <= 2 && Names(vars, types) && LevelsUpTo(vars, 1)
    ensures var more := SetWindow(g, vars, newest, older, i); Names(more, RuleTypes(g, types)) && LevelsUpTo(more, 1)
  {
    NamesSet(vars, types, g.binders[0], newest);
    var v1, t1 := SetVar(vars, g.binders[0], newest, 1), types[g.binders[0] := Int];
    if |g.binders| == 2 {
      NamesSet(v1, t1, g.binders[1], older);
      NamesSet(SetVar(v1, g.binders[1], older, 1), t1[g.binders[1] := Int], INDEX, i);
    } else {
      NamesSet(v1, t1, INDEX, i);
    }
  }

  lemma NamesSet(vars: seq<VarEntry>, types: Types, x: string, reg: nat)
    requires Names(vars, types) && LevelsUpTo(vars, 1)
    ensures Names(SetVar(vars, x, reg, 1), types[x := Int]) && LevelsUpTo(SetVar(vars, x, reg, 1), 1)
  {
    var more := SetVar(vars, x, reg, 1);
    if FindVar(vars, x) >= 0 {
      forall y ensures FindVar(more, y) == FindVar(vars, y) { FindSameNames(vars, more, y); }
    } else {
      assert more[..|more| - 1] == vars;
    }
  }

  method Window(ctx: LowerCtx, g: Stream, newest: nat, older: nat, i: nat, ghost types: Types)
    requires 1 <= |g.binders| <= 2 && Names(ctx.vars, types) && LevelsUpTo(ctx.vars, 1) && ctx.level == 1
    modifies ctx`vars
    ensures ctx.vars == SetWindow(g, old(ctx.vars), newest, older, i)
    ensures Names(ctx.vars, RuleTypes(g, types)) && LevelsUpTo(ctx.vars, 1)
  {
    WindowNames(g, types, ctx.vars, newest, older, i);
    ctx.Assign(g.binders[0], newest);
    if |g.binders| == 2 { ctx.Assign(g.binders[1], older); }
    ctx.Assign(INDEX, i);
  }

  // ---------- one seed ----------

  function OneGuardBlocks(o: One): seq<Block> {
    [Block([], [Const(o.Zero(), 0), Bin(o.Neg(), CmpLt, o.n, o.Zero()), Cbr(o.Neg(), 1, 2)]),
     Block([], [Ret(o.Zero())]),
     Block([], [Const(o.Unit(), 1)] + o.seed.instrs + [Bin(o.Eq(), CmpEq, o.n, o.Zero())] + [Cbr(o.Eq(), 3, 4)]),
     Block([], [Ret(o.seed.res)]),
     Block([], [])]
  }

  method BuildOneGuard(ctx: LowerCtx, g: Stream, n: nat, zero: nat, ghost types: Types) returns (unit: nat, seed: nat)
    requires Accepted(g) && |g.seeds| == 1 && n == |g.params| && zero == n + 1 &&
      types == ParamTypes(g.params, map[]).value
    requires ctx.vars == ParamVars(g) && Names(ctx.vars, types) && LevelsUpTo(ctx.vars, 1) && ctx.level == 1
    requires On(ctx, EntryBlocks(n), n + 3, 1)
    modifies ctx, ctx.func
    ensures ctx.vars == old(ctx.vars) && ctx.level == 1 && unit == OneOf(g).Unit() && seed == OneOf(g).seed.res
    ensures On(ctx, OneGuardBlocks(OneOf(g)), OneOf(g).Eq() + 1, 3)
  {
    ghost var o := OneOf(g);
    hide Accepted, TypeOf, Gen, On, StraightLine, Names, LevelsUpTo, OneOf, ParamTypes;
    ghost var pre := EntryBlocks(n)[..2];
    assert EntryBlocks(n) == pre + [NONE] + [];
    unit := Reg(ctx, EntryBlocks(n), n + 3, 1);
    FillEmpty(ctx, 2, [Const(unit, 1)], pre, [], [], n + 4, 1);
    var eq;
    seed, eq := OneSeedCode(ctx, g, n, zero, unit, types, pre);
    OneSeedExit(ctx, o, n, zero, unit, seed, eq);
  }

  method OneSeedExit(ctx: LowerCtx, ghost o: One, ghost n: nat, ghost zero: nat, ghost unit: nat, seed: nat, eq: nat)
    requires n == o.n && zero == o.Zero() && unit == o.Unit() && seed == o.seed.res && eq == o.Eq()
    requires On(ctx, EntryBlocks(n)[..2] + [Block([], [Const(unit, 1)] + o.seed.instrs + [Bin(eq, CmpEq, n, zero)])] +
      [], eq + 1, 2)
    modifies ctx.func
    ensures On(ctx, OneGuardBlocks(o), eq + 1, 3)
  {
    hide On;
    ghost var pre, code := EntryBlocks(n)[..2], [Const(unit, 1)] + o.seed.instrs + [Bin(eq, CmpEq, n, zero)];
    assert pre + [Block([], code)] + [] == pre + [Block([], code)];
    var retx, header := BranchTwo(ctx, eq, pre, [], code, eq + 1);
    ghost var lead := pre + [Block([], code + [Cbr(eq, retx, header)])];
    FillEmpty(ctx, retx, [Ret(seed)], lead, [], [NONE], eq + 1, 2);
    assert lead + [Block([], [Ret(seed)])] + [NONE] == OneGuardBlocks(o);
  }

  method OneSeedCode(ctx: LowerCtx, g: Stream, n: nat, zero: nat, unit: nat, ghost types: Types, ghost pre: seq<Block>)
    returns (seed: nat, eq: nat)
    requires Accepted(g) && |g.seeds| == 1 && n == |g.params| && zero == n + 1 &&
      types == ParamTypes(g.params, map[]).value
    requires ctx.vars == ParamVars(g) && Names(ctx.vars, types) && LevelsUpTo(ctx.vars, 1) && ctx.level == 1 &&
      |pre| == 2
    requires On(ctx, pre + [Block([], [Const(unit, 1)])] + [], n + 4, 2)
    modifies ctx, ctx.func
    ensures ctx.vars == old(ctx.vars) && ctx.level == 1 && seed == OneOf(g).seed.res && eq == OneOf(g).Eq()
    ensures On(ctx, pre + [Block([], [Const(unit, 1)] + OneOf(g).seed.instrs + [Bin(eq, CmpEq, n, zero)])] + [],
      eq + 1, 2)
  {
    ghost var c := OneOf(g).seed;
    assert TypeOf(g.seeds[0], types).Some? && StraightLine(g.seeds[0]);
    hide Accepted, TypeOf, Gen, On, StraightLine, Names, LevelsUpTo;
    ghost var code := [Const(unit, 1)];
    seed := Expression(ctx, g.seeds[0], 2, types, pre + [Block([], code)] + [], n + 4, 2);
    AddedMore(pre, [], [], code, c.instrs);
    eq := Reg(ctx, pre + [Block([], code + c.instrs)] + [], c.next, 2);
    FillMore(ctx, 2, [Bin(eq, CmpEq, n, zero)], pre, [], code + c.instrs, [], eq + 1);
  }

  function OneHeadBlock(o: One): Block { Block([], [Bin(o.Le(), CmpLe, o.I(), o.n), Cbr(o.Le(), 5, 7)]) }

  /** The window's registers, the loop's blocks and the header's test. */
  method BuildOneHeader(ctx: LowerCtx, g: Stream, ghost o: One, n: nat, ghost types: Types) returns (i: nat, x: nat)
    requires |g.binders| == 1 && n == o.n && Names(ctx.vars, types) && LevelsUpTo(ctx.vars, 1) && ctx.level == 1
    requires On(ctx, OneGuardBlocks(o), o.Eq() + 1, 3)
    modifies ctx, ctx.func
    ensures i == o.I() && x == o.X() && ctx.level == 1
    ensures ctx.vars == SetWindow(g, old(ctx.vars), x, 0, i) && Names(ctx.vars, RuleTypes(g, types)) &&
      LevelsUpTo(ctx.vars, 1)
    ensures On(ctx, OneGuardBlocks(o)[..4] + [OneHeadBlock(o)] + [NONE, NONE, NONE], o.Le() + 1, 4)
  {
    hide On, Names, LevelsUpTo, SetWindow, RuleTypes;
    ghost var all, pre := OneGuardBlocks(o), OneGuardBlocks(o)[..4];
    i := Reg(ctx, all, o.Eq() + 1, 3);
    x := Reg(ctx, all, i + 1, 3);
    WindowFrame(ctx, g, x, 0, i, types, all, x + 1, 3);
    assert all == pre + [NONE];
    Header(ctx, i, n, x + 1, pre, 3);
  }

  /** The loop's three blocks and the header's test. */
  method Header(ctx: LowerCtx, i: nat, n: nat, ghost regs: nat, ghost pre: seq<Block>, ghost last: nat)
    requires On(ctx, pre + [NONE], regs, last) && last < |pre|
    modifies ctx.func
    ensures On(ctx, pre + [Block([], [Bin(regs, CmpLe, i, n), Cbr(regs, |pre| + 1, |pre| + 3)])] + [NONE, NONE, NONE],
      regs + 1, |pre|)
  {
    hide On;
    var body := NewBlock(ctx, pre + [NONE], regs, last);
    var inc := NewBlock(ctx, pre + [NONE] + [NONE], regs, last);
    var exit := NewBlock(ctx, pre + [NONE] + [NONE] + [NONE], regs, last);
    assert pre + [NONE] + [NONE] + [NONE] + [NONE] == pre + [NONE] + [NONE, NONE, NONE];
    var le := Reg(ctx, pre + [NONE] + [NONE, NONE, NONE], regs, last);
    FillEmpty(ctx, body - 1, [Bin(le, CmpLe, i, n), Cbr(le, body, exit)], pre, [], [NONE, NONE, NONE], regs + 1, last);
  }

  method WindowFrame(ctx: LowerCtx, g: Stream, newest: nat, older: nat, i: nat, ghost types: Types,
                     ghost blocks: seq<Block>, ghost regs: nat, ghost last: nat)
    requires 1 <= |g.binders| <= 2 && Names(ctx.vars, types) && LevelsUpTo(ctx.vars, 1) && ctx.level == 1
    requires On(ctx, blocks, regs, last)
    modifies ctx`vars
    ensures ctx.vars == SetWindow(g, old(ctx.vars), newest, older, i) && On(ctx, blocks, regs, last)
    ensures Names(ctx.vars, RuleTypes(g, types)) && LevelsUpTo(ctx.vars, 1)
  {
    Window(ctx, g, newest, older, i, types);
  }

  /** Body, increment and exit. */
  method BuildOneLoop(ctx: LowerCtx, g: Stream, ghost o: One, i: nat, x: nat, unit: nat, ghost ruleTypes: Types,
      ghost pre: seq<Block>)
    returns (incX: nat, nextI: nat)
    requires Names(ctx.vars, ruleTypes) && LevelsUpTo(ctx.vars, 1) && ctx.level == 1
    requires TypeOf(g.rule, ruleTypes).Some? && StraightLine(g.rule) && o.rule == Gen(g.rule, ctx.vars, 1, o.Le() + 1)
    requires i == o.I() && x == o.X() && unit == o.Unit() && |pre| == 5
    requires On(ctx, pre + [NONE, NONE, NONE], o.Le() + 1, 4)
    modifies ctx, ctx.func
    ensures incX == o.IncX() && nextI == o.NextI() && On(ctx, pre + OneBlocks(o)[5..], nextI + 1, 7)
  {
    hide On, Names, LevelsUpTo, TypeOf, Gen, StraightLine;
    assert pre + [NONE, NONE, NONE] == pre + [Block([], [])] + [NONE, NONE];
    var rule := Expression(ctx, g.rule, 5, ruleTypes, pre + [NONE] + [NONE, NONE], o.Le() + 1, 4);
    AddedEmpty(pre, [], [NONE, NONE], o.rule.instrs);
    incX, nextI := BuildOneTail(ctx, o, rule, i, x, unit, pre);
  }

  method BuildOneTail(ctx: LowerCtx, ghost o: One, rule: nat, i: nat, x: nat, unit: nat, ghost pre: seq<Block>)
    returns (incX: nat, nextI: nat)
    requires |pre| == 5 && On(ctx, pre + [Block([], o.rule.instrs)] + [NONE, NONE], o.rule.next, 5)
    requires rule == o.rule.res && i == o.I() && x == o.X() && unit == o.Unit()
    modifies ctx.func
    ensures incX == o.IncX() && nextI == o.NextI() && On(ctx, pre + OneBlocks(o)[5..], nextI + 1, 7)
  {
    hide On;
    FillMore(ctx, 5, [Br(6)], pre, [], o.rule.instrs, [NONE, NONE], o.rule.next);
    ghost var body := pre + [Block([], o.rule.instrs + [Br(6)])];
    assert body + [NONE, NONE] == body + [NONE] + [NONE];
    incX := Reg(ctx, body + [NONE] + [NONE], o.rule.next, 5);
    nextI := Reg(ctx, body + [NONE] + [NONE], o.rule.next + 1, 5);
    BuildOneEnd(ctx, o, rule, incX, nextI, i, x, unit, body);
    assert body + [OneBlocks(o)[6]] + [OneBlocks(o)[7]] == pre + OneBlocks(o)[5..];
  }

  method BuildOneEnd(ctx: LowerCtx, ghost o: One, rule: nat, incX: nat, nextI: nat, i: nat, x: nat, unit: nat,
      ghost body: seq<Block>)
    requires |body| == 6 && On(ctx, body + [NONE] + [NONE], nextI + 1, 5)
    requires rule == o.rule.res && incX == o.IncX() && nextI == o.NextI() && i == o.I() && x == o.X() &&
      unit == o.Unit()
    modifies ctx.func
    ensures On(ctx, body + [OneBlocks(o)[6]] + [OneBlocks(o)[7]], nextI + 1, 7)
  {
    hide On;
    FillEmpty(ctx, 6, [Copy(incX, rule), Bin(nextI, Add, i, unit), Br(4)], body, [], [NONE], nextI + 1, 5);
    ghost var lead := body + [OneBlocks(o)[6]];
    assert lead + [NONE] == lead + [Block([], [])] + [];
    FillEmpty(ctx, 7, [Ret(x)], lead, [], [], nextI + 1, 6);
    assert lead + [Block([], [Ret(x)])] + [] == body + [OneBlocks(o)[6]] + [OneBlocks(o)[7]];
  }

  /** The header's phis complete the function. */
  method BuildOnePhis(ctx: LowerCtx, ghost o: One, i: nat, x: nat, unit: nat, seed: nat, incX: nat, nextI: nat)
    requires i == o.I() && x == o.X() && unit == o.Unit() && seed == o.seed.res && incX == o.IncX() &&
      nextI == o.NextI()
    requires On(ctx, (OneGuardBlocks(o)[..4] + [OneHeadBlock(o)]) + OneBlocks(o)[5..], nextI + 1, 7)
    modifies ctx.func
    ensures On(ctx, OneBlocks(o), nextI + 1, 7)
  {
    hide On;
    ghost var pre, head, post := OneGuardBlocks(o)[..4], OneHeadBlock(o), OneBlocks(o)[5..];
    ghost var p0, p1 := Phi(i, Int, [PhiArg(unit, 2), PhiArg(nextI, 6)]),
        Phi(x, Int, [PhiArg(seed, 2), PhiArg(incX, 6)]);
    Merge(ctx, 4, Phi(i, Int, [PhiArg(unit, 2), PhiArg(nextI, 6)]), pre + [head] + post, nextI + 1, 7);
    ghost var h1 := Block([p0], head.instrs);
    MergeAt(pre, head, post, p0);
    assert [] + [p0] == [p0];
    Merge(ctx, 4, Phi(x, Int, [PhiArg(seed, 2), PhiArg(incX, 6)]), pre + [h1] + post, nextI + 1, 7);
    MergeAt(pre, h1, post, p1);
    assert [p0] + [p1] == [p0, p1];
    assert pre + [Block([p0, p1], head.instrs)] + post == OneBlocks(o);
  }

  lemma MergeAt(pre: seq<Block>, b: Block, post: seq<Block>, p: Phi)
    ensures var all := pre + [b] + post;
      all[|pre| := Block(all[|pre|].phis + [p], all[|pre|].instrs)] == pre + [Block(b.phis + [p], b.instrs)] + post
  {
  }

  lemma OneParts(g: Stream)
    requires Accepted(g) && |g.seeds| == 1
    ensures var o, types := OneOf(g), ParamTypes(g.params, map[]).value;
      |g.binders| == 1 && TypeOf(g.rule, RuleTypes(g, types)).Some? && StraightLine(g.rule) &&
      o.rule == Gen(g.rule, SetWindow(g, ParamVars(g), o.X(), 0, o.I()), 1, o.Le() + 1) &&
      StreamFunc(g) == Func(OneBlocks(o), o.NextI() + 1)
  {
    hide TypeOf, StraightLine, ParamTypes, SetWindow, RuleTypes, Gen, OneBlocks;
  }

  /** The blocks before the loop. */
  method BuildOneStart(ctx: LowerCtx, g: Stream) returns (n: nat, unit: nat, seed: nat, ghost types: Types)
    requires ctx.Ready() && ctx.vars == [] && ctx.level == 1 && ctx.Blocks() == AddBlock(EMPTY) && ctx.current == 0
    requires Accepted(g) && |g.seeds| == 1
    modifies ctx, ctx.func
    ensures n == OneOf(g).n && unit == OneOf(g).Unit() && seed == OneOf(g).seed.res &&
      types == ParamTypes(g.params, map[]).value
    ensures ctx.vars == ParamVars(g) && Names(ctx.vars, types) && LevelsUpTo(ctx.vars, 1) && ctx.level == 1
    ensures On(ctx, OneGuardBlocks(OneOf(g)), OneOf(g).Eq() + 1, 3)
  {
    hide Names, LevelsUpTo, TypeOf, Gen, StraightLine, OneBlocks, EntryBlocks, OneGuardBlocks;
    var zero;
    n, zero, types := Entry(ctx, g);
    unit, seed := BuildOneGuard(ctx, g, n, zero, types);
  }

  /** The loop, added to the blocks before it. */
  method BuildOneRest(ctx: LowerCtx, g: Stream, ghost o: One, n: nat, unit: nat, seed: nat, ghost types: Types,
      ghost ruleTypes: Types)
    requires |g.binders| == 1 && n == o.n && Names(ctx.vars, types) && LevelsUpTo(ctx.vars, 1) && ctx.level == 1
    requires unit == o.Unit() && seed == o.seed.res && ruleTypes == RuleTypes(g, types)
    requires TypeOf(g.rule, ruleTypes).Some? && StraightLine(g.rule)
    requires o.rule == Gen(g.rule, SetWindow(g, ctx.vars, o.X(), 0, o.I()), 1, o.Le() + 1)
    requires On(ctx, OneGuardBlocks(o), o.Eq() + 1, 3)
    modifies ctx, ctx.func
    ensures On(ctx, OneBlocks(o), o.NextI() + 1, 7)
  {
    hide On, Names, LevelsUpTo, SetWindow, RuleTypes, TypeOf, Gen, StraightLine, OneBlocks, OneHeadBlock;
    var i, x := BuildOneHeader(ctx, g, o, n, types);
    ghost var pre := OneGuardBlocks(o)[..4] + [OneHeadBlock(o)];
    var incX, nextI := BuildOneLoop(ctx, g, o, i, x, unit, ruleTypes, pre);
    BuildOnePhis(ctx, o, i, x, unit, seed, incX, nextI);
  }

  /** A one-seed generator, built step by step. */
  method BuildOne(ctx: LowerCtx, g: Stream)
    requires ctx.Ready() && ctx.vars == [] && ctx.level == 1 && ctx.Blocks() == AddBlock(EMPTY) && ctx.current == 0
    requires Accepted(g) && |g.seeds| == 1
    modifies ctx, ctx.func
    ensures ctx.func.Valid() && ctx.func.Blocks() == StreamFunc(g)
  {
    hide On, StreamFunc, Accepted, OneOf, TypeOf, Gen, StraightLine, Names, LevelsUpTo, SetWindow, RuleTypes,
      OneBlocks, OneGuardBlocks, ParamTypes;
    OneParts(g);
    ghost var o := OneOf(g);
    var n, unit, seed, types := BuildOneStart(ctx, g);
    BuildOneRest(ctx, g, o, n, unit, seed, types, RuleTypes(g, types));
    OnIs(ctx, OneBlocks(o), o.NextI() + 1, 7);
  }
}
