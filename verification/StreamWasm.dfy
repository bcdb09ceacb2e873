/** Lowered stream generators through the WebAssembly backend: the loop header's
    several phis are copied one after the other without harm, so the compiled
    function returns the terms of the recurrence. */
module StreamWasm {
  import opened Bits
  import opened Ir
  import opened IrLower
  import opened IrLowerCorrect
  import opened IrFunction
  import opened StreamLower
  import opened StreamCorrect
  import opened StreamTwo
  import Wasm
  import opened WasmEmit
  import opened WasmCorrect
  import opened WasmLower

  // ---------- copies into the header ----------

  /** No copy into a header reads a register that an earlier copy on the same edge
      wrote: the sources lie outside the header's own registers. */
  lemma OneNoClobber(o: One, p: nat)
    requires OneShape(o) && o.seed.res < o.seed.next
    ensures NoClobber(Moves(OneBlocks(o)[4].phis, p))
  {
    var phis := OneBlocks(o)[4].phis;
    assert phis == [phis[0]] + ([phis[1]] + []);
    NoMoves(p);
    if p == 2 || p == 6 {
      PairMoves(phis[0], PhiArg(o.Unit(), 2), PhiArg(o.NextI(), 6), [phis[1]] + [], p);
      PairMoves(phis[1], PhiArg(o.seed.res, 2), PhiArg(o.IncX(), 6), [], p);
    } else {
      NoArgs(phis[0], PhiArg(o.Unit(), 2), PhiArg(o.NextI(), 6), [phis[1]] + [], p);
      NoArgs(phis[1], PhiArg(o.seed.res, 2), PhiArg(o.IncX(), 6), [], p);
    }
  }

  lemma NoArgs(phi: Phi, a: PhiArg, b: PhiArg, rest: seq<Phi>, pred: nat)
    requires phi.args == [a, b] && pred != a.pred && pred != b.pred
    ensures Moves([phi] + rest, pred) == Moves(rest, pred)
  {
    assert ([phi] + rest)[1..] == rest;
    assert phi.args[1..] == [b] && [b][1..] == [];
    assert ArgMoves(phi.dst, [b], pred) == [] + ArgMoves(phi.dst, [], pred) == [];
    assert ArgMoves(phi.dst, phi.args, pred) == [] + ArgMoves(phi.dst, [b], pred) == [];
  }

  lemma TwoNoClobber(t: Two, p: nat)
    requires TwoShape(t) && t.newest.res < t.older.next && t.older.res < t.older.next
    ensures NoClobber(Moves(TwoBlocks(t)[7].phis, p))
  {
    var phis := TwoBlocks(t)[7].phis;
    var last := [phis[2]] + [];
    assert phis == [phis[0]] + ([phis[1]] + last);
    NoMoves(p);
    if p == 6 || p == 9 {
      PairMoves(phis[0], PhiArg(t.Pair(), 6), PhiArg(t.NextI(), 9), [phis[1]] + last, p);
      PairMoves(phis[1], PhiArg(t.newest.res, 6), PhiArg(t.IncA(), 9), last, p);
      PairMoves(phis[2], PhiArg(t.older.res, 6), PhiArg(t.IncB(), 9), [], p);
    } else {
      NoArgs(phis[0], PhiArg(t.Pair(), 6), PhiArg(t.NextI(), 9), [phis[1]] + last, p);
      NoArgs(phis[1], PhiArg(t.newest.res, 6), PhiArg(t.IncA(), 9), last, p);
      NoArgs(phis[2], PhiArg(t.older.res, 6), PhiArg(t.IncB(), 9), [], p);
    }
  }

  // ---------- register types ----------

  /** The table types exactly the registers below `n`. */
  ghost predicate Upto(k: RegTypes, n: nat) { forall r: nat :: r in k <==> r < n }

  predicate InstrsTyped(instrs: seq<Instr>, k: RegTypes) { forall j :: 0 <= j < |instrs| ==> InstrTyped(instrs[j], k) }

  /** Generated code on its own, as the only block of a function. */
  function Alone(reg: nat): Func { Func([Block([], [])], reg) }

  lemma AloneCode(e: Expr, vars: seq<VarEntry>, reg: nat)
    requires StraightLine(e)
    ensures var c, r := Gen(e, vars, 1, reg), LowerExpr(e, vars, 1, Alone(reg), 0);
      r.f == Func([Block([], c.instrs)], c.next) && r.reg == c.res
  {
    var c := Gen(e, vars, 1, reg);
    GenIsLower(e, vars, 1, Alone(reg), 0);
    assert [] + c.instrs == c.instrs;
    assert Alone(reg).blocks[0 := Block([], c.instrs)] == [Block([], c.instrs)];
  }

  lemma CodeDefines(e: Expr, vars: seq<VarEntry>, reg: nat, q: nat)
    requires StraightLine(e) && reg <= q < Gen(e, vars, 1, reg).next
    ensures InstrDefs(Gen(e, vars, 1, reg).instrs, q) > 0
  {
    var f, r := Alone(reg), LowerExpr(e, vars, 1, Alone(reg), 0);
    AloneCode(e, vars, reg);
    LowerDefs(e, vars, 1, f, 0, q);
    hide LowerExpr, Gen;
    assert Defs(f, q) == DefsIn(f.blocks, 0, q) + PhiDefs([], q) + InstrDefs([], q) == 0;
    assert Defs(r.f, q) == DefsIn(r.f.blocks, 0, q) + PhiDefs([], q) + InstrDefs(r.f.blocks[0].instrs, q);
  }

  /** Generated code is used at the types of its registers. */
  lemma CodeTyped(e: Expr, g: Types, vars: seq<VarEntry>, reg: nat, k: RegTypes) returns (k1: RegTypes)
    requires StraightLine(e) && TypeOf(e, g).Some? && VarsTyped(vars, g, k) && Upto(k, reg)
    ensures var c := Gen(e, vars, 1, reg);
      Upto(k1, c.next) && Within(k, k1) && InstrsTyped(c.instrs, k1) && Has(k1, c.res, TypeOf(e, g).value) &&
      c.res < c.next
  {
    AloneCode(e, vars, reg);
    var r := LowerExpr(e, vars, 1, Alone(reg), 0);
    hide LowerExpr, Gen, TypeOf;
    k1 := LowerTyped(e, g, vars, 1, Alone(reg), 0, r, k);
    assert BlockOk(r.f.blocks[0], k1, 1);
  }

  lemma TypedGrow(instrs: seq<Instr>, k: RegTypes, k1: RegTypes)
    requires InstrsTyped(instrs, k) && Within(k, k1)
    ensures InstrsTyped(instrs, k1)
  {
    forall j | 0 <= j < |instrs| ensures InstrTyped(instrs[j], k1) { assert InstrTyped(instrs[j], k); }
  }

  lemma {:induction false} DefsConcat(a: seq<Instr>, b: seq<Instr>, q: nat)
    ensures InstrDefs(a + b, q) == InstrDefs(a, q) + InstrDefs(b, q)
    decreases |b|
  {
    if b == [] {
      assert a + b == a;
    } else {
      assert (a + b)[..|a + b| - 1] == a + b[..|b| - 1];
      DefsConcat(a, b[..|b| - 1], q);
    }
  }

  lemma {:induction false} DefsAt(blocks: seq<Block>, n: nat, b: nat, q: nat)
    requires b < n <= |blocks| && PhiDefs(blocks[b].phis, q) + InstrDefs(blocks[b].instrs, q) > 0
    ensures DefsIn(blocks, n, q) > 0
    decreases n
  {
    if b < n - 1 { DefsAt(blocks, n - 1, b, q); }
  }

  lemma {:induction false} DefinedAt(instrs: seq<Instr>, j: nat, q: nat)
    requires j < |instrs| && !IsTerminator(instrs[j]) && instrs[j].dst == q
    ensures InstrDefs(instrs, q) > 0
    decreases |instrs|
  {
    if j < |instrs| - 1 { DefinedAt(instrs[..|instrs| - 1], j, q); }
  }

  lemma {:induction false} PhiDefinedAt(phis: seq<Phi>, j: nat, q: nat)
    requires j < |phis| && phis[j].dst == q
    ensures PhiDefs(phis, q) > 0
    decreases |phis|
  {
    if j < |phis| - 1 { PhiDefinedAt(phis[..|phis| - 1], j, q); }
  }

  // ---------- the table of a generator ----------

  /** Type the next register. */
  lemma Extend1(k0: RegTypes, k: RegTypes, n: nat, t: Ty) returns (k1: RegTypes)
    requires Upto(k, n) && Within(k0, k)
    ensures Upto(k1, n + 1) && Within(k, k1) && Within(k0, k1) && Has(k1, n, t)
  {
    k1 := k[n := t];
  }

  lemma WithinTrans(a: RegTypes, b: RegTypes, c: RegTypes)
    requires Within(a, b) && Within(b, c)
    ensures Within(a, c)
  {
  }

  /** Parameters and the index. */
  lemma ParamTable(g: Stream) returns (k: RegTypes)
    requires Accepted(g)
    ensures Upto(k, |g.params| + 1) && VarsTyped(ParamVars(g), ParamTypes(g.params, map[]).value, k)
    ensures forall j: nat :: j <= |g.params| ==> Has(k, j, Int)
  {
    var k0 := ParamsTyped(g.params, map[], [], EMPTY, map[]);
    var n := |g.params|;
    k := Extend1(k0, k0, n, Int);
    VarsGrow(ParamVars(g), ParamTypes(g.params, map[]).value, k0, k);
    forall j: nat | j <= n ensures Has(k, j, Int) {
      if j < n { assert Has(k0, 0 + j, g.params[j].t); }
    }
  }

  lemma SetTyped(vars: seq<VarEntry>, types: Types, k: RegTypes, x: string, reg: nat)
    requires VarsTyped(vars, types, k) && Has(k, reg, Int)
    ensures VarsTyped(SetVar(vars, x, reg, 1), types[x := Int], k)
  {
    var more := SetVar(vars, x, reg, 1);
    var i := FindVar(vars, x);
    if i >= 0 {
      forall y ensures FindVar(more, y) == FindVar(vars, y) { FindSameNames(vars, more, y); }
      forall y | y in types[x := Int] ensures FindVar(more, y) >= 0 &&
        Has(k, more[FindVar(more, y)].reg, types[x := Int][y]) {
        assert vars[i].name == x;
        if y != x { assert vars[FindVar(vars, y)].name == y; }
      }
    } else {
      VarTyped(vars, types, k, x, Int, reg, 1);
    }
  }

  lemma WindowTyped(g: Stream, vars: seq<VarEntry>, types: Types, k: RegTypes, newest: nat, older: nat, i: nat)
    requires 1 <= |g.binders| <= 2 && VarsTyped(vars, types, k) && Has(k, newest, Int) && Has(k, i, Int)
    requires |g.binders| == 2 ==> Has(k, older, Int)
    ensures VarsTyped(SetWindow(g, vars, newest, older, i), RuleTypes(g, types), k)
  {
    hide VarsTyped, SetVar;
    SetTyped(vars, types, k, g.binders[0], newest);
    var v1, t1 := SetVar(vars, g.binders[0], newest, 1), types[g.binders[0] := Int];
    if |g.binders| == 2 {
      SetTyped(v1, t1, k, g.binders[1], older);
      SetTyped(SetVar(v1, g.binders[1], older, 1), t1[g.binders[1] := Int], k, INDEX, i);
    } else {
      SetTyped(v1, t1, k, INDEX, i);
    }
  }

  predicate OneTyped(o: One, k: RegTypes) {
    Has(k, o.n, Int) && Has(k, o.Zero(), Int) && Has(k, o.Neg(), Bool) && Has(k, o.Unit(), Int) &&
    InstrsTyped(o.seed.instrs, k) && Has(k, o.seed.res, Int) && Has(k, o.Eq(), Bool) && Has(k, o.I(), Int) &&
    Has(k, o.X(), Int) &&
    Has(k, o.Le(), Bool) && InstrsTyped(o.rule.instrs, k) && Has(k, o.rule.res, Int) && Has(k, o.IncX(), Int) &&
    Has(k, o.NextI(), Int)
  }

  /** The registers before the window, and the seed's code. */
  lemma OneTableSeed(g: Stream, o: One) returns (k: RegTypes)
    requires Accepted(g) && |g.seeds| == 1 && o == OneOf(g)
    ensures Upto(k, o.seed.next) && VarsTyped(ParamVars(g), ParamTypes(g.params, map[]).value, k) &&
      Has(k, o.n, Int) && Has(k, o.Zero(), Int) && Has(k, o.Neg(), Bool) && Has(k, o.Unit(), Int) &&
      InstrsTyped(o.seed.instrs, k) && Has(k, o.seed.res, Int) && o.seed.res < o.seed.next
    ensures forall j: nat :: j <= |g.params| ==> Has(k, j, Int)
  {
    hide InstrsTyped, Gen, TypeOf, VarsTyped, Accepted, StraightLine, Upto, OneOf, ParamTypes;
    OneFacts(g);
    Shape(g);
    var types := ParamTypes(g.params, map[]).value;
    var k0 := ParamTable(g);
    var k1 := Extend1(k0, k0, o.Zero(), Int);
    var k2 := Extend1(k0, k1, o.Neg(), Bool);
    var k3 := Extend1(k0, k2, o.Unit(), Int);
    VarsGrow(ParamVars(g), types, k0, k3);
    assert Has(k0, o.n, Int);
    k := CodeTyped(g.seeds[0], types, ParamVars(g), o.n + 4, k3);
    VarsGrow(ParamVars(g), types, k3, k);
    WithinTrans(k0, k3, k);
    forall j: nat | j <= |g.params| ensures Has(k, j, Int) { assert Has(k0, j, Int); }
  }

  lemma OneFacts(g: Stream)
    requires Accepted(g) && |g.seeds| == 1
    ensures var o, types := OneOf(g), ParamTypes(g.params, map[]).value;
      |g.binders| == 1 && TypeOf(g.rule, RuleTypes(g, types)) == Some(Int) && StraightLine(g.rule) &&
      o.rule == Gen(g.rule, SetWindow(g, ParamVars(g), o.X(), 0, o.I()), 1, o.Le() + 1)
    ensures var o, types := OneOf(g), ParamTypes(g.params, map[]).value;
      TypeOf(g.seeds[0], types) == Some(Int) && StraightLine(g.seeds[0]) &&
      o.seed == Gen(g.seeds[0], ParamVars(g), 1, o.n + 4)
  {
    hide TypeOf, StraightLine, ParamTypes, SetWindow, RuleTypes, Gen;
  }

  lemma OneTable(g: Stream, o: One) returns (k: RegTypes)
    requires Accepted(g) && |g.seeds| == 1 && o == OneOf(g)
    ensures Upto(k, o.NextI() + 1) && OneTyped(o, k) && o.seed.res < o.seed.next
    ensures forall j: nat :: j <= |g.params| ==> Has(k, j, Int)
  {
    hide Accepted, InstrsTyped, VarsTyped, Upto, OneTyped, TypeOf, Gen, StraightLine, OneOf, RuleTypes, ParamTypes;
    OneFacts(g);
    Shape(g);
    var types := ParamTypes(g.params, map[]).value;
    var k0 := OneTableSeed(g, o);
    var k4, k5 := OneTableRule(g, o, k0, types);
    k := OneTableEnd(o, k0, k4, k5);
    WithinTrans(k0, k4, k);
    forall j: nat | j <= |g.params| ensures Has(k, j, Int) { assert Has(k0, j, Int); }
  }

  lemma OneTableRule(g: Stream, o: One, k0: RegTypes, types: Types) returns (k4: RegTypes, k5: RegTypes)
    requires |g.binders| == 1 && Upto(k0, o.seed.next) && VarsTyped(ParamVars(g), types, k0)
    requires TypeOf(g.rule, RuleTypes(g, types)) == Some(Int) && StraightLine(g.rule)
    requires o.rule == Gen(g.rule, SetWindow(g, ParamVars(g), o.X(), 0, o.I()), 1, o.Le() + 1)
    ensures Upto(k5, o.rule.next) && Within(k0, k4) && Within(k4, k5) && InstrsTyped(o.rule.instrs, k5) &&
      Has(k5, o.rule.res, Int)
    ensures Has(k4, o.Eq(), Bool) && Has(k4, o.I(), Int) && Has(k4, o.X(), Int) && Has(k4, o.Le(), Bool)
  {
    hide InstrsTyped, VarsTyped, TypeOf, Gen, StraightLine, RuleTypes, SetWindow, ParamTypes;
    k4 := OneTableWindow(g, o, k0, ParamVars(g), types);
    k5 := CodeTyped(g.rule, RuleTypes(g, types), SetWindow(g, ParamVars(g), o.X(), 0, o.I()), o.Le() + 1, k4);
  }

  lemma OneTableWindow(g: Stream, o: One, k0: RegTypes, vars: seq<VarEntry>, types: Types) returns (k4: RegTypes)
    requires |g.binders| == 1 && Upto(k0, o.seed.next) && VarsTyped(vars, types, k0)
    ensures Upto(k4, o.Le() + 1) && Within(k0, k4) &&
      VarsTyped(SetWindow(g, vars, o.X(), 0, o.I()), RuleTypes(g, types), k4)
    ensures Has(k4, o.Eq(), Bool) && Has(k4, o.I(), Int) && Has(k4, o.X(), Int) && Has(k4, o.Le(), Bool)
  {
    hide VarsTyped, SetWindow, RuleTypes, Upto;
    var k1 := Extend1(k0, k0, o.Eq(), Bool);
    var k2 := Extend1(k0, k1, o.I(), Int);
    var k3 := Extend1(k0, k2, o.X(), Int);
    k4 := Extend1(k0, k3, o.Le(), Bool);
    VarsGrow(vars, types, k0, k4);
    WindowTyped(g, vars, types, k4, o.X(), 0, o.I());
  }

  lemma OneTableEnd(o: One, k0: RegTypes, k4: RegTypes, k5: RegTypes) returns (k: RegTypes)
    requires Upto(k5, o.rule.next) && Within(k0, k4) && Within(k4, k5) && InstrsTyped(o.rule.instrs, k5) &&
      Has(k5, o.rule.res, Int)
    requires Has(k0, o.n, Int) && Has(k0, o.Zero(), Int) && Has(k0, o.Neg(), Bool) && Has(k0, o.Unit(), Int)
    requires InstrsTyped(o.seed.instrs, k0) && Has(k0, o.seed.res, Int)
    requires Has(k4, o.Eq(), Bool) && Has(k4, o.I(), Int) && Has(k4, o.X(), Int) && Has(k4, o.Le(), Bool)
    ensures Upto(k, o.NextI() + 1) && Within(k4, k) && OneTyped(o, k)
  {
    hide InstrsTyped;
    var k6 := Extend1(k5, k5, o.IncX(), Int);
    k := Extend1(k5, k6, o.NextI(), Int);
    WithinTrans(k4, k5, k);
    WithinTrans(k0, k4, k);
    TypedGrow(o.seed.instrs, k0, k);
    TypedGrow(o.rule.instrs, k5, k);
  }

  // ---------- every block is in order ----------

  predicate BlockFine(b: Block, k: RegTypes, n: nat) {
    Closed(b) && BlockTyped(b, k) && LastOk(b.instrs[|b.instrs| - 1], n, k, Int)
  }

  lemma BlockIs(b: Block, front: seq<Instr>, last: Instr, k: RegTypes, n: nat)
    requires b.instrs == front + [last] && Straight(front) && IsTerminator(last)
    requires InstrsTyped(front, k) && InstrTyped(last, k) && LastOk(last, n, k, Int)
    requires forall j :: 0 <= j < |b.phis| ==> PhiTyped(b.phis[j], k)
    ensures BlockFine(b, k, n)
  {
    assert b.instrs[..|b.instrs| - 1] == front;
  }

  lemma OneBlocksFine(o: One, k: RegTypes, b: nat)
    requires OneShape(o) && OneTyped(o, k) && b < 8
    ensures BlockFine(OneBlocks(o)[b], k, 8)
  {
    var blk := OneBlocks(o)[b];
    if b == 2 {
      var unit, test := Const(o.Unit(), 1), Bin(o.Eq(), CmpEq, o.n, o.Zero());
      BlockIs(blk, [unit] + o.seed.instrs + [test], Cbr(o.Eq(), 3, 4), k, 8);
    } else if b == 5 {
      BlockIs(blk, o.rule.instrs, Br(6), k, 8);
    } else {
      var m := |blk.instrs| - 1;
      assert blk.instrs == blk.instrs[..m] + [blk.instrs[m]];
      BlockIs(blk, blk.instrs[..m], blk.instrs[m], k, 8);
    }
  }

  // ---------- every register is defined ----------

  /** Every register after the parameters has a definition in some block. */
  lemma OneDefined(g: Stream, q: nat)
    requires Accepted(g) && |g.seeds| == 1 && |g.params| < q <= OneOf(g).NextI()
    ensures Defs(StreamFunc(g), q) > 0
  {
    hide Accepted, Gen, TypeOf, StraightLine, OneOf, OneBlocks, SetWindow;
    OneFacts(g);
    var o, F := OneOf(g), StreamFunc(g);
    var b := OneDefinedIn(g, o, q);
    DefsAt(F.blocks, 8, b, q);
  }

  lemma OneDefinedIn(g: Stream, o: One, q: nat) returns (b: nat)
    requires OneShape(o) && o.n < q <= o.NextI() && |g.seeds| == 1 == |g.binders| && StraightLine(g.seeds[0]) &&
      StraightLine(g.rule)
    requires o.seed == Gen(g.seeds[0], ParamVars(g), 1, o.n + 4)
    requires o.rule == Gen(g.rule, SetWindow(g, ParamVars(g), o.X(), 0, o.I()), 1, o.Le() + 1)
    ensures b < 8 && PhiDefs(OneBlocks(o)[b].phis, q) + InstrDefs(OneBlocks(o)[b].instrs, q) > 0
  {
    hide OneBlocks, InstrDefs, PhiDefs, Gen, StraightLine;
    if q <= o.Neg() {
      b := 0;
      OneEntryDefines(o, q);
    } else if q <= o.Eq() {
      b := 2;
      OneGuardDefines(g, o, q);
    } else if q < o.IncX() && q > o.Le() {
      b := 5;
      OneRuleDefines(g, o, q);
    } else {
      b := OneLoopDefines(o, q);
    }
  }

  lemma OneEntryDefines(o: One, q: nat)
    requires o.n < q <= o.Neg()
    ensures InstrDefs(OneBlocks(o)[0].instrs, q) > 0
  {
    DefinedAt(OneBlocks(o)[0].instrs, q - o.Zero(), q);
  }

  lemma OneRuleDefines(g: Stream, o: One, q: nat)
    requires OneShape(o) && o.Le() < q < o.IncX() && |g.binders| == 1 && StraightLine(g.rule)
    requires o.rule == Gen(g.rule, SetWindow(g, ParamVars(g), o.X(), 0, o.I()), 1, o.Le() + 1)
    ensures InstrDefs(OneBlocks(o)[5].instrs, q) > 0
  {
    hide Gen, StraightLine, SetWindow;
    CodeDefines(g.rule, SetWindow(g, ParamVars(g), o.X(), 0, o.I()), o.Le() + 1, q);
    DefsConcat(o.rule.instrs, [Br(6)], q);
  }

  lemma OneLoopDefines(o: One, q: nat) returns (b: nat)
    requires OneShape(o) && (o.Eq() < q <= o.Le() || o.IncX() <= q <= o.NextI())
    ensures b < 8 && PhiDefs(OneBlocks(o)[b].phis, q) + InstrDefs(OneBlocks(o)[b].instrs, q) > 0
  {
    var blocks := OneBlocks(o);
    if q <= o.X() {
      b := 4;
      PhiDefinedAt(blocks[4].phis, q - o.I(), q);
    } else if q == o.Le() {
      b := 4;
      DefinedAt(blocks[4].instrs, 0, q);
    } else {
      b := 6;
      DefinedAt(blocks[6].instrs, q - o.IncX(), q);
    }
  }

  /** A definition in one of four pieces of code is one in the whole. */
  lemma DefinedInPieces(a: seq<Instr>, b: seq<Instr>, c: seq<Instr>, d: seq<Instr>, q: nat)
    requires InstrDefs(a, q) + InstrDefs(b, q) + InstrDefs(c, q) > 0
    ensures InstrDefs(a + b + c + d, q) > 0
  {
    hide InstrDefs;
    DefsConcat(a + b + c, d, q);
    DefsConcat(a + b, c, q);
    DefsConcat(a, b, q);
  }

  lemma OneGuardCode(o: One)
    ensures OneBlocks(o)[2].instrs ==
      [Const(o.Unit(), 1)] + o.seed.instrs + [Bin(o.Eq(), CmpEq, o.n, o.Zero())] + [Cbr(o.Eq(), 3, 4)]
  {
  }

  lemma OneGuardDefines(g: Stream, o: One, q: nat)
    requires OneShape(o) && o.Neg() < q <= o.Eq() && |g.seeds| == 1 && StraightLine(g.seeds[0])
    requires o.seed == Gen(g.seeds[0], ParamVars(g), 1, o.n + 4)
    ensures InstrDefs(OneBlocks(o)[2].instrs, q) > 0
  {
    hide OneBlocks, InstrDefs, Gen, StraightLine;
    var unit, test := [Const(o.Unit(), 1)], [Bin(o.Eq(), CmpEq, o.n, o.Zero())];
    if q == o.Unit() {
      DefinedAt(unit, 0, q);
    } else if q == o.Eq() {
      DefinedAt(test, 0, q);
    } else {
      CodeDefines(g.seeds[0], ParamVars(g), o.n + 4, q);
    }
    OneGuardCode(o);
    DefinedInPieces(unit, o.seed.instrs, test, [Cbr(o.Eq(), 3, 4)], q);
  }

  /** The parameters and the index are integers. */
  function StreamTypes(g: Stream): (r: seq<Ty>)
    ensures |r| == |g.params| + 1 && forall j :: 0 <= j < |r| ==> r[j] == Int
  {
    seq(|g.params| + 1, _ => Int)
  }

  lemma ReadyFrom(F: Func, k: RegTypes, params: seq<Ty>)
    requires Upto(k, F.nextReg) && |params| <= F.nextReg && |params| <= MAX_REGS && forall r: nat :: r < |params| ==>
      Has(k, r, params[r])
    requires forall b :: 0 <= b < |F.blocks| ==> BlockFine(F.blocks[b], k, |F.blocks|)
    requires forall b, p: nat :: 0 <= b < |F.blocks| ==> NoClobber(Moves(F.blocks[b].phis, p))
    requires forall q: nat :: |params| <= q < F.nextReg ==> Defs(F, q) > 0
    ensures Ready(F, k, Int) && (BoolsFit(F) ==> FuncTypes(F, params) == k)
  {
    forall b | 0 <= b < |F.blocks|
      ensures Closed(F.blocks[b]) && BlockTyped(F.blocks[b], k) &&
        LastOk(F.blocks[b].instrs[|F.blocks[b].instrs| - 1], |F.blocks|, k, Int)
    {
      assert BlockFine(F.blocks[b], k, |F.blocks|);
    }
    hide BlockFine, Closed, BlockTyped, LastOk, Moves, NoClobber, Defs, BoolsFit, FuncTypes;
    TableIs(F, params, k);
  }

  lemma OneTranslates(g: Stream) returns (k: RegTypes)
    requires Accepted(g) && |g.seeds| == 1 && |g.params| < MAX_REGS
    ensures (BoolsFit(StreamFunc(g)) ==> k == FuncTypes(StreamFunc(g), StreamTypes(g))) &&
      Ready(StreamFunc(g), k, Int) && Upto(k, StreamFunc(g).nextReg)
    ensures forall j: nat :: j <= |g.params| ==> Has(k, j, Int)
  {
    var o, F := OneOf(g), StreamFunc(g);
    k := OneTable(g, o);
    hide Accepted, OneTyped, Upto;
    forall q: nat | |g.params| + 1 <= q < F.nextReg ensures Defs(F, q) > 0 { OneDefined(g, q); }
    OneAllFine(o, F, k);
    ReadyFrom(F, k, StreamTypes(g));
  }

  lemma OneAllFine(o: One, F: Func, k: RegTypes)
    requires OneShape(o) && o.seed.res < o.seed.next && OneTyped(o, k) && F.blocks == OneBlocks(o)
    ensures forall b :: 0 <= b < |F.blocks| ==> BlockFine(F.blocks[b], k, |F.blocks|)
    ensures forall b, p: nat :: 0 <= b < |F.blocks| ==> NoClobber(Moves(F.blocks[b].phis, p))
  {
    hide OneTyped, BlockFine, NoClobber;
    forall b | 0 <= b < |F.blocks| ensures BlockFine(F.blocks[b], k, |F.blocks|) { OneBlocksFine(o, k, b); }
    forall b, p: nat | 0 <= b < |F.blocks| ensures NoClobber(Moves(F.blocks[b].phis, p)) {
      if b == 4 {
        OneNoClobber(o, p);
      } else {
        assert F.blocks[b].phis == [];
        NothingClobbers(p);
      }
    }
  }

  lemma NothingClobbers(p: nat)
    ensures NoClobber(Moves([], p))
  {
  }
}
