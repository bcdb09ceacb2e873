/** Two-seed generators through the WebAssembly backend, and the theorem for all
    generators. */
module StreamWasmTwo {
  import opened Bits
  import opened Ir
  import opened IrLower
  import opened IrLowerCorrect
  import opened IrFunction
  import opened StreamLower
  import opened StreamCorrect
  import opened StreamTwo
  import Wasm
  import opened WasmEmit
  import opened WasmCorrect
  import opened WasmLower
  import opened StreamWasm

  predicate TwoTyped(t: Two, k: RegTypes) {
    Has(k, t.n, Int) && Has(k, t.Zero(), Int) && Has(k, t.Neg(), Bool) && Has(k, t.Unit(), Int) &&
    Has(k, t.Eq0(), Bool) &&
    InstrsTyped(t.exit0.instrs, k) && Has(k, t.exit0.res, Int) && Has(k, t.Eq1(), Bool) &&
    InstrsTyped(t.exit1.instrs, k) && Has(k, t.exit1.res, Int) && InstrsTyped(t.newest.instrs, k) &&
    Has(k, t.newest.res, Int) &&
    InstrsTyped(t.older.instrs, k) && Has(k, t.older.res, Int) && Has(k, t.Pair(), Int) && Has(k, t.I(), Int) &&
    Has(k, t.A(), Int) && Has(k, t.B(), Int) && Has(k, t.Le(), Bool) && InstrsTyped(t.rule.instrs, k) &&
    Has(k, t.rule.res, Int) &&
    Has(k, t.NextB(), Int) && Has(k, t.NextA(), Int) && Has(k, t.IncA(), Int) && Has(k, t.IncB(), Int) &&
    Has(k, t.NextI(), Int)
  }

  lemma TwoFacts(g: Stream)
    requires Accepted(g) && |g.seeds| == 2
    ensures var t, types := TwoOf(g), ParamTypes(g.params, map[]).value;
      |g.binders| == 2 && TypeOf(g.rule, RuleTypes(g, types)) == Some(Int) && StraightLine(g.rule) &&
      t.rule == Gen(g.rule, SetWindow(g, ParamVars(g), t.A(), t.B(), t.I()), 1, t.Le() + 1)
  {
    hide TypeOf, StraightLine, ParamTypes, SetWindow, RuleTypes, Gen;
  }

  lemma TwoSeedFacts(g: Stream)
    requires Accepted(g) && |g.seeds| == 2
    ensures var types := ParamTypes(g.params, map[]).value;
      TypeOf(g.seeds[0], types) == Some(Int) && StraightLine(g.seeds[0]) && TypeOf(g.seeds[1], types) == Some(Int) &&
      StraightLine(g.seeds[1])
  {
  }

  lemma TwoCodeFacts(g: Stream)
    requires Accepted(g) && |g.seeds| == 2 && StraightLine(g.seeds[0]) && StraightLine(g.seeds[1])
    ensures var t := TwoOf(g);
      t.exit0 == Gen(g.seeds[0], ParamVars(g), 1, t.n + 5) &&
      t.exit1 == Gen(g.seeds[1], ParamVars(g), 1, t.exit0.next + 1) &&
      t.newest == Gen(g.seeds[1], ParamVars(g), 1, t.exit1.next) &&
      t.older == Gen(g.seeds[0], ParamVars(g), 1, t.newest.next)
  {
    hide Accepted, Gen, TypeOf, StraightLine;
  }

  // ---------- the table ----------

  /** A seed's code, typed on top of a table. */
  lemma SeedTyped(g: Stream, s: nat, types: Types, reg: nat, k0: RegTypes, k: RegTypes) returns (k1: RegTypes)
    requires s < |g.seeds| && TypeOf(g.seeds[s], types) == Some(Int) && StraightLine(g.seeds[s])
    requires VarsTyped(ParamVars(g), types, k0) && Within(k0, k) && Upto(k, reg)
    ensures var c := Gen(g.seeds[s], ParamVars(g), 1, reg);
      Upto(k1, c.next) && Within(k, k1) && Within(k0, k1) && InstrsTyped(c.instrs, k1) && Has(k1, c.res, Int) &&
      c.res < c.next
  {
    hide VarsTyped, TypeOf, StraightLine, Upto, Gen, InstrsTyped;
    VarsGrow(ParamVars(g), types, k0, k);
    k1 := CodeTyped(g.seeds[s], types, ParamVars(g), reg, k);
    WithinTrans(k0, k, k1);
  }

  /** Up to the second exit. */
  lemma TwoTableExits(g: Stream, t: Two, types: Types, k0: RegTypes) returns (k: RegTypes)
    requires |g.seeds| == 2 && TypeOf(g.seeds[0], types) == Some(Int) && StraightLine(g.seeds[0])
    requires TypeOf(g.seeds[1], types) == Some(Int) && StraightLine(g.seeds[1])
    requires t.exit0 == Gen(g.seeds[0], ParamVars(g), 1, t.n + 5) &&
      t.exit1 == Gen(g.seeds[1], ParamVars(g), 1, t.exit0.next + 1)
    requires VarsTyped(ParamVars(g), types, k0) && Upto(k0, t.n + 1)
    ensures Upto(k, t.exit1.next) && Within(k0, k)
    ensures Has(k, t.Zero(), Int) && Has(k, t.Neg(), Bool) && Has(k, t.Unit(), Int) && Has(k, t.Eq0(), Bool) &&
      Has(k, t.Eq1(), Bool)
    ensures InstrsTyped(t.exit0.instrs, k) && Has(k, t.exit0.res, Int) && InstrsTyped(t.exit1.instrs, k) &&
      Has(k, t.exit1.res, Int)
  {
    hide VarsTyped, TypeOf, StraightLine, Upto, Gen, InstrsTyped;
    var k1 := Extend1(k0, k0, t.Zero(), Int);
    var k2 := Extend1(k0, k1, t.Neg(), Bool);
    var k3 := Extend1(k0, k2, t.Unit(), Int);
    var k4 := Extend1(k0, k3, t.Eq0(), Bool);
    var k5 := SeedTyped(g, 0, types, t.n + 5, k0, k4);
    var k6 := Extend1(k0, k5, t.Eq1(), Bool);
    k := SeedTyped(g, 1, types, t.exit0.next + 1, k0, k6);
    WithinTrans(k5, k6, k);
    TypedGrow(t.exit0.instrs, k5, k);
  }

  /** The loaded window and the header's registers. */
  lemma TwoTableLoad(g: Stream, t: Two, types: Types, k0: RegTypes, k: RegTypes) returns (k1: RegTypes)
    requires |g.seeds| == 2 && TypeOf(g.seeds[0], types) == Some(Int) && StraightLine(g.seeds[0])
    requires TypeOf(g.seeds[1], types) == Some(Int) && StraightLine(g.seeds[1])
    requires t.newest == Gen(g.seeds[1], ParamVars(g), 1, t.exit1.next) &&
      t.older == Gen(g.seeds[0], ParamVars(g), 1, t.newest.next)
    requires VarsTyped(ParamVars(g), types, k0) && Within(k0, k) && Upto(k, t.exit1.next)
    ensures Upto(k1, t.Le() + 1) && Within(k, k1) && Within(k0, k1)
    ensures InstrsTyped(t.newest.instrs, k1) && Has(k1, t.newest.res, Int) && InstrsTyped(t.older.instrs, k1) &&
      Has(k1, t.older.res, Int)
    ensures t.newest.res < t.older.next && t.older.res < t.older.next
    ensures Has(k1, t.Pair(), Int) && Has(k1, t.I(), Int) && Has(k1, t.A(), Int) && Has(k1, t.B(), Int) &&
      Has(k1, t.Le(), Bool)
  {
    hide VarsTyped, TypeOf, StraightLine, Upto, Gen, InstrsTyped;
    var ka := SeedTyped(g, 1, types, t.exit1.next, k0, k);
    var kb := SeedTyped(g, 0, types, t.newest.next, k0, ka);
    WithinTrans(k, ka, kb);
    TypedGrow(t.newest.instrs, ka, kb);
    var kc := Extend1(kb, kb, t.Pair(), Int);
    var kd := Extend1(kb, kc, t.I(), Int);
    var ke := Extend1(kb, kd, t.A(), Int);
    var kf := Extend1(kb, ke, t.B(), Int);
    k1 := Extend1(kb, kf, t.Le(), Bool);
    TypedGrow(t.newest.instrs, kb, k1);
    TypedGrow(t.older.instrs, kb, k1);
    WithinTrans(k, kb, k1);
    WithinTrans(k0, kb, k1);
  }

  /** The rule and the registers of the back edge. */
  lemma TwoTableRule(g: Stream, t: Two, types: Types, k0: RegTypes, k: RegTypes) returns (k1: RegTypes)
    requires |g.binders| == 2 && VarsTyped(ParamVars(g), types, k0) && Within(k0, k) && Upto(k, t.Le() + 1)
    requires Has(k, t.A(), Int) && Has(k, t.B(), Int) && Has(k, t.I(), Int)
    requires TypeOf(g.rule, RuleTypes(g, types)) == Some(Int) && StraightLine(g.rule)
    requires t.rule == Gen(g.rule, SetWindow(g, ParamVars(g), t.A(), t.B(), t.I()), 1, t.Le() + 1)
    ensures Upto(k1, t.NextI() + 1) && Within(k, k1) && InstrsTyped(t.rule.instrs, k1) && Has(k1, t.rule.res, Int) &&
      t.rule.res < t.rule.next
    ensures Has(k1, t.NextB(), Int) && Has(k1, t.NextA(), Int) && Has(k1, t.IncA(), Int) && Has(k1, t.IncB(), Int) &&
      Has(k1, t.NextI(), Int)
  {
    hide VarsTyped, TypeOf, StraightLine, Upto, Gen, InstrsTyped, SetWindow, RuleTypes;
    VarsGrow(ParamVars(g), types, k0, k);
    WindowTyped(g, ParamVars(g), types, k, t.A(), t.B(), t.I());
    var ka := CodeTyped(g.rule, RuleTypes(g, types), SetWindow(g, ParamVars(g), t.A(), t.B(), t.I()), t.Le() + 1, k);
    var kb := Extend1(ka, ka, t.NextB(), Int);
    var kc := Extend1(ka, kb, t.NextA(), Int);
    var kd := Extend1(ka, kc, t.IncA(), Int);
    var ke := Extend1(ka, kd, t.IncB(), Int);
    k1 := Extend1(ka, ke, t.NextI(), Int);
    TypedGrow(t.rule.instrs, ka, k1);
    WithinTrans(k, ka, k1);
  }

  lemma TwoTable(g: Stream, t: Two) returns (k: RegTypes)
    requires Accepted(g) && |g.seeds| == 2 && t == TwoOf(g)
    ensures Upto(k, t.NextI() + 1) && TwoTyped(t, k) && t.newest.res < t.older.next && t.older.res < t.older.next
    ensures forall j: nat :: j <= |g.params| ==> Has(k, j, Int)
  {
    hide Accepted, InstrsTyped, VarsTyped, Upto, TwoTyped, TypeOf, Gen, StraightLine, TwoOf, RuleTypes, ParamTypes,
      SetWindow;
    TwoFacts(g);
    TwoSeedFacts(g);
    TwoCodeFacts(g);
    Shape(g);
    var types := ParamTypes(g.params, map[]).value;
    var k0 := ParamTable(g);
    var ka := TwoTableExits(g, t, types, k0);
    var kb := TwoTableLoad(g, t, types, k0, ka);
    k := TwoTableRule(g, t, types, k0, kb);
    assert Has(k0, t.n, Int);
    TwoTableJoin(t, k0, ka, kb, k);
    forall j: nat | j <= |g.params| ensures Has(k, j, Int) { assert Has(k0, j, Int); }
  }

  lemma TwoTableJoin(t: Two, k0: RegTypes, ka: RegTypes, kb: RegTypes, k: RegTypes)
    requires Within(k0, ka) && Within(ka, kb) && Within(kb, k) && Has(k0, t.n, Int)
    requires Has(ka, t.Zero(), Int) && Has(ka, t.Neg(), Bool) && Has(ka, t.Unit(), Int) && Has(ka, t.Eq0(), Bool) &&
      Has(ka, t.Eq1(), Bool)
    requires InstrsTyped(t.exit0.instrs, ka) && Has(ka, t.exit0.res, Int) && InstrsTyped(t.exit1.instrs, ka) &&
      Has(ka, t.exit1.res, Int)
    requires InstrsTyped(t.newest.instrs, kb) && Has(kb, t.newest.res, Int) && InstrsTyped(t.older.instrs, kb) &&
      Has(kb, t.older.res, Int)
    requires Has(kb, t.Pair(), Int) && Has(kb, t.I(), Int) && Has(kb, t.A(), Int) && Has(kb, t.B(), Int) &&
      Has(kb, t.Le(), Bool)
    requires InstrsTyped(t.rule.instrs, k) && Has(k, t.rule.res, Int)
    requires Has(k, t.NextB(), Int) && Has(k, t.NextA(), Int) && Has(k, t.IncA(), Int) && Has(k, t.IncB(), Int) &&
      Has(k, t.NextI(), Int)
    ensures TwoTyped(t, k) && Within(k0, k)
  {
    hide InstrsTyped;
    WithinTrans(ka, kb, k);
    WithinTrans(k0, ka, k);
    TypedGrow(t.exit0.instrs, ka, k);
    TypedGrow(t.exit1.instrs, ka, k);
    TypedGrow(t.newest.instrs, kb, k);
    TypedGrow(t.older.instrs, kb, k);
  }

  // ---------- blocks ----------

  lemma TwoBlocksFine(t: Two, k: RegTypes, b: nat)
    requires TwoShape(t) && TwoTyped(t, k) && b < 11
    ensures BlockFine(TwoBlocks(t)[b], k, 11)
  {
    var blk := TwoBlocks(t)[b];
    if b == 3 {
      BlockIs(blk, t.exit0.instrs, Ret(t.exit0.res), k, 11);
    } else if b == 5 {
      BlockIs(blk, t.exit1.instrs, Ret(t.exit1.res), k, 11);
    } else if b == 6 {
      BlockIs(blk, t.newest.instrs + t.older.instrs + [Const(t.Pair(), 2)], Br(7), k, 11);
    } else if b == 8 {
      BlockIs(blk, t.rule.instrs + [Copy(t.NextB(), t.A()), Copy(t.NextA(), t.rule.res)], Br(9), k, 11);
    } else {
      TwoSmallFine(t, k, b);
    }
  }

  lemma TwoSmallFine(t: Two, k: RegTypes, b: nat)
    requires TwoShape(t) && TwoTyped(t, k) && b in {0, 1, 2, 4, 7, 9, 10}
    ensures BlockFine(TwoBlocks(t)[b], k, 11)
  {
    if b in {7, 9} { TwoLoopFine(t, k, b); } else { TwoGuardFine(t, k, b); }
  }

  lemma TwoGuardFine(t: Two, k: RegTypes, b: nat)
    requires TwoShape(t) && TwoTyped(t, k) && b in {0, 1, 2, 4, 10}
    ensures BlockFine(TwoBlocks(t)[b], k, 11)
  {
    var blk := TwoBlocks(t)[b];
    var m := |blk.instrs| - 1;
    assert blk.instrs == blk.instrs[..m] + [blk.instrs[m]];
    BlockIs(blk, blk.instrs[..m], blk.instrs[m], k, 11);
  }

  lemma TwoLoopFine(t: Two, k: RegTypes, b: nat)
    requires TwoShape(t) && TwoTyped(t, k) && b in {7, 9}
    ensures BlockFine(TwoBlocks(t)[b], k, 11)
  {
    var blk := TwoBlocks(t)[b];
    var m := |blk.instrs| - 1;
    assert blk.instrs == blk.instrs[..m] + [blk.instrs[m]];
    BlockIs(blk, blk.instrs[..m], blk.instrs[m], k, 11);
  }

  lemma TwoAllFine(t: Two, F: Func, k: RegTypes)
    requires TwoShape(t) && t.newest.res < t.older.next && t.older.res < t.older.next && TwoTyped(t, k) &&
      F.blocks == TwoBlocks(t)
    ensures forall b :: 0 <= b < |F.blocks| ==> BlockFine(F.blocks[b], k, |F.blocks|)
    ensures forall b, p: nat :: 0 <= b < |F.blocks| ==> NoClobber(Moves(F.blocks[b].phis, p))
  {
    hide TwoTyped, BlockFine, NoClobber;
    forall b | 0 <= b < |F.blocks| ensures BlockFine(F.blocks[b], k, |F.blocks|) { TwoBlocksFine(t, k, b); }
    forall b, p: nat | 0 <= b < |F.blocks| ensures NoClobber(Moves(F.blocks[b].phis, p)) {
      if b == 7 {
        TwoNoClobber(t, p);
      } else {
        assert F.blocks[b].phis == [];
        NothingClobbers(p);
      }
    }
  }

  // ---------- every register is defined ----------

  lemma TwoDefined(g: Stream, q: nat)
    requires Accepted(g) && |g.seeds| == 2 && |g.params| < q <= TwoOf(g).NextI()
    ensures Defs(StreamFunc(g), q) > 0
  {
    hide Accepted, Gen, TypeOf, StraightLine, TwoOf, TwoBlocks, SetWindow;
    TwoFacts(g);
    TwoSeedFacts(g);
    TwoCodeFacts(g);
    var t, F := TwoOf(g), StreamFunc(g);
    var b := TwoDefinedIn(g, t, q);
    DefsAt(F.blocks, 11, b, q);
  }

  lemma TwoDefinedIn(g: Stream, t: Two, q: nat) returns (b: nat)
    requires TwoShape(t) && t.n < q <= t.NextI() && |g.seeds| == 2 == |g.binders|
    requires StraightLine(g.seeds[0]) && StraightLine(g.seeds[1]) && StraightLine(g.rule)
    requires t.exit0 == Gen(g.seeds[0], ParamVars(g), 1, t.n + 5) &&
      t.exit1 == Gen(g.seeds[1], ParamVars(g), 1, t.exit0.next + 1)
    requires t.newest == Gen(g.seeds[1], ParamVars(g), 1, t.exit1.next) &&
      t.older == Gen(g.seeds[0], ParamVars(g), 1, t.newest.next)
    requires t.rule == Gen(g.rule, SetWindow(g, ParamVars(g), t.A(), t.B(), t.I()), 1, t.Le() + 1)
    ensures b < 11 && PhiDefs(TwoBlocks(t)[b].phis, q) + InstrDefs(TwoBlocks(t)[b].instrs, q) > 0
  {
    hide TwoBlocks, InstrDefs, PhiDefs, Gen, StraightLine, SetWindow;
    if t.Eq0() < q < t.exit0.next {
      b := 3;
      ExitDefines(t, 3, t.exit0);
      CodeDefines(g.seeds[0], ParamVars(g), t.n + 5, q);
      DefsConcat(t.exit0.instrs, [Ret(t.exit0.res)], q);
    } else if t.Eq1() < q < t.exit1.next {
      b := 5;
      ExitDefines(t, 5, t.exit1);
      CodeDefines(g.seeds[1], ParamVars(g), t.exit0.next + 1, q);
      DefsConcat(t.exit1.instrs, [Ret(t.exit1.res)], q);
    } else if t.exit1.next <= q <= t.Pair() {
      b := 6;
      TwoLoadDefines(g, t, q);
    } else if t.Le() < q <= t.NextA() {
      b := 8;
      TwoRuleDefines(g, t, q);
    } else {
      b := TwoPlainDefines(t, q);
    }
  }

  lemma ExitDefines(t: Two, b: nat, c: Code)
    requires (b == 3 && c == t.exit0) || (b == 5 && c == t.exit1)
    ensures TwoBlocks(t)[b].instrs == c.instrs + [Ret(c.res)]
  {
  }

  lemma TwoLoadDefines(g: Stream, t: Two, q: nat)
    requires TwoShape(t) && t.exit1.next <= q <= t.Pair() && |g.seeds| == 2 && StraightLine(g.seeds[0]) &&
      StraightLine(g.seeds[1])
    requires t.newest == Gen(g.seeds[1], ParamVars(g), 1, t.exit1.next) &&
      t.older == Gen(g.seeds[0], ParamVars(g), 1, t.newest.next)
    ensures InstrDefs(TwoBlocks(t)[6].instrs, q) > 0
  {
    hide Gen, StraightLine;
    var seeds, two := t.newest.instrs + t.older.instrs, Const(t.Pair(), 2);
    DefsConcat(seeds + [two], [Br(7)], q);
    DefsConcat(seeds, [two], q);
    DefsConcat(t.newest.instrs, t.older.instrs, q);
    if q < t.newest.next {
      CodeDefines(g.seeds[1], ParamVars(g), t.exit1.next, q);
    } else if q < t.older.next {
      CodeDefines(g.seeds[0], ParamVars(g), t.newest.next, q);
    } else {
      DefinedAt([two], 0, q);
    }
  }

  lemma TwoRuleDefines(g: Stream, t: Two, q: nat)
    requires TwoShape(t) && t.Le() < q <= t.NextA() && |g.binders| == 2 && StraightLine(g.rule)
    requires t.rule == Gen(g.rule, SetWindow(g, ParamVars(g), t.A(), t.B(), t.I()), 1, t.Le() + 1)
    ensures InstrDefs(TwoBlocks(t)[8].instrs, q) > 0
  {
    hide Gen, StraightLine, SetWindow;
    var saves := [Copy(t.NextB(), t.A()), Copy(t.NextA(), t.rule.res)];
    DefsConcat(t.rule.instrs + saves, [Br(9)], q);
    DefsConcat(t.rule.instrs, saves, q);
    if q < t.rule.next {
      CodeDefines(g.rule, SetWindow(g, ParamVars(g), t.A(), t.B(), t.I()), t.Le() + 1, q);
    } else {
      DefinedAt(saves, q - t.NextB(), q);
    }
  }

  /** Registers defined outside generated code. */
  lemma TwoPlainDefines(t: Two, q: nat) returns (b: nat)
    requires TwoShape(t) && (t.n < q <= t.Eq0() || q == t.Eq1() || t.Pair() < q <= t.Le() || t.NextA() < q <= t.NextI())
    ensures b < 11 && PhiDefs(TwoBlocks(t)[b].phis, q) + InstrDefs(TwoBlocks(t)[b].instrs, q) > 0
  {
    var blocks := TwoBlocks(t);
    if q <= t.Neg() {
      b := 0;
      DefinedAt(blocks[0].instrs, q - t.Zero(), q);
    } else if q <= t.Eq0() {
      b := 2;
      DefinedAt(blocks[2].instrs, q - t.Unit(), q);
    } else if q == t.Eq1() {
      b := 4;
      DefinedAt(blocks[4].instrs, 0, q);
    } else if q <= t.B() {
      b := 7;
      PhiDefinedAt(blocks[7].phis, q - t.I(), q);
    } else if q == t.Le() {
      b := 7;
      DefinedAt(blocks[7].instrs, 0, q);
    } else {
      b := 9;
      DefinedAt(blocks[9].instrs, q - t.IncA(), q);
    }
  }

  lemma TwoTranslates(g: Stream) returns (k: RegTypes)
    requires Accepted(g) && |g.seeds| == 2 && |g.params| < MAX_REGS
    ensures (BoolsFit(StreamFunc(g)) ==> k == FuncTypes(StreamFunc(g), StreamTypes(g))) &&
      Ready(StreamFunc(g), k, Int) && Upto(k, StreamFunc(g).nextReg)
    ensures forall j: nat :: j <= |g.params| ==> Has(k, j, Int)
  {
    hide Accepted, TwoTyped, Upto;
    var t, F := TwoOf(g), StreamFunc(g);
    k := TwoTable(g, t);
    forall q: nat | |g.params| + 1 <= q < F.nextReg ensures Defs(F, q) > 0 { TwoDefined(g, q); }
    TwoAllFine(t, F, k);
    ReadyFrom(F, k, StreamTypes(g));
  }

  // ---------- the theorem ----------

  /** A lowered generator, too, is one the backend translates faithfully if and only if
      it defines no Boolean past the end of the register table. */
  lemma StreamReadyIff(g: Stream)
    requires Accepted(g) && |g.params| < MAX_REGS
    ensures Ready(StreamFunc(g), FuncTypes(StreamFunc(g), StreamTypes(g)), Int) <==> BoolsFit(StreamFunc(g))
  {
    Shape(g);
    hide Accepted, StreamFunc, BoolsFit, FuncTypes, Ready;
    var k;
    if |g.seeds| == 1 { k := OneTranslates(g); } else { k := TwoTranslates(g); }
    if Ready(StreamFunc(g), FuncTypes(StreamFunc(g), StreamTypes(g)), Int)
      { ReadyFits(StreamFunc(g), StreamTypes(g), Int); }
  }

  /** Calling the compiled generator with arguments and an index returns that term,
      and zero for a negative index. */
  lemma CompiledStreamRuns(g: Stream, args: seq<IrLower.Val>, n: int) returns (passes: nat)
    requires Accepted(g) && ArgsOk(g.params, args) && -TWO63 <= n && n + 1 < TWO63 && |g.params| < MAX_REGS &&
      BoolsFit(StreamFunc(g))
    ensures var F, types := StreamFunc(g), StreamTypes(g);
      |types| <= F.nextReg && EmitFuncBody(F, types).Code? &&
      forall fuel: nat :: fuel >= passes ==>
        Wasm.Call(EmitFuncBody(F, types).code, EntryLocals(LocalTypes(F, types), args + [IrLower.Val.I(n)]), fuel) ==
        Wasm.Returned(Wasm.V64(if n < 0 then 0 else Term(g, ParamEnv(g.params, args, map[]), n)))
  {
    var F, types, all := StreamFunc(g), StreamTypes(g), args + [IrLower.Val.I(n)];
    var v := if n < 0 then 0 else Term(g, ParamEnv(g.params, args, map[]), n);
    StreamRuns(g, args, n);
    hide Accepted, StreamFunc, Term, BoolsFit;
    var k;
    if |g.seeds| == 1 { k := OneTranslates(g); } else { Shape(g); k := TwoTranslates(g); }
    assert Has(k, |g.params|, Int);
    passes :| Steps(F, At(0, 0, EntryRegs(args, n)), passes) == Done(v);
    StreamEntry(g, F, k, args, n);
    CallReturns(F, types, k, EntryRegs(args, n), EntryLocals(LocalTypes(F, types), all), passes, v);
  }

  lemma CallReturns(F: Func, types: seq<Ty>, k: RegTypes, regs: Regs, l: Wasm.Locals, passes: nat, v: int)
    requires k == FuncTypes(F, types) && Ready(F, k, Int) && F.blocks != [] && Rel(regs, l, k, F.nextReg) &&
      Held(regs, k)
    requires Steps(F, At(0, 0, regs), passes) == Done(v)
    ensures EmitFuncBody(F, types).Code?
    ensures forall fuel: nat :: fuel >= passes ==>
      Wasm.Call(EmitFuncBody(F, types).code, l, fuel) == Wasm.Returned(Wasm.V64(v))
  {
    hide Ready, Rel, Held, FuncTypes, EmitFuncBody, Steps;
    BodyEmitted(F, types, Int);
    forall fuel: nat | fuel >= passes
      ensures Wasm.Call(EmitFuncBody(F, types).code, l, fuel) == Wasm.Returned(Wasm.V64(v)) {
      WasmCorrect.BodyRuns(F, types, Int, regs, l, passes, fuel);
    }
  }

  lemma StreamEntry(g: Stream, F: Func, k: RegTypes, args: seq<IrLower.Val>, n: int)
    requires (forall j :: 0 <= j < |g.params| ==> g.params[j].t == Int) && ArgsOk(g.params, args) && -TWO63 <= n < TWO63
    requires k == FuncTypes(F, StreamTypes(g)) && Upto(k, F.nextReg) && forall j: nat :: j <= |g.params| ==>
      Has(k, j, Int)
    ensures |g.params| < F.nextReg
    ensures Held(EntryRegs(args, n), k)
    ensures Rel(EntryRegs(args, n), EntryLocals(LocalTypes(F, StreamTypes(g)), args + [IrLower.Val.I(n)]), k, F.nextReg)
  {
    assert Has(k, |g.params|, Int);
    var all, params, types := args + [IrLower.Val.I(n)], g.params + [Param("", Int)], LocalTypes(F, StreamTypes(g));
    forall j | 0 <= j < |params| ensures HasTy(all[j], params[j].t) && Has(k, j, params[j].t) {
      if j < |args| { assert HasTy(args[j], g.params[j].t); }
      assert Has(k, j, Int);
    }
    forall r | r in k
      ensures Fits(k[r], Read(EntryRegs(args, n), r)) && r < F.nextReg && r in EntryLocals(types, all) &&
        EntryLocals(types, all)[r] == Box(k[r], Read(EntryRegs(args, n), r))
    {
      EntryAt(F, k, params, all, types, r);
    }
  }
}
