/** A function the WebAssembly backend miscompiles: its register table ends before the
    register of a comparison, which it then takes for a 64-bit integer. */
module WasmTable {
  import opened Bits
  import opened Ir
  import opened IrLower
  import opened IrLowerCorrect
  import opened IrFunction
  import opened StreamLower
  import opened Wasm
  import opened WasmEmit
  import opened WasmCorrect
  import opened WasmLower

  /** `0 + 0 + … + 0` with `n` additions. */
  function Sum(n: nat): Expr { if n == 0 then IrLower.Lit(0) else IrLower.Binary(Add, Sum(n - 1), IrLower.Lit(0)) }

  /** `0 + … + 0 == 0`. */
  function Test(n: nat): Function { Function([], IrLower.Binary(CmpEq, Sum(n), IrLower.Lit(0))) }

  /** Constants and additions into consecutive registers from `k`. */
  predicate Additive(instrs: seq<Instr>, k: nat) { forall j :: 0 <= j < |instrs| ==> AdditiveAt(instrs[j], k, k + j) }

  predicate AdditiveAt(i: Instr, k: nat, d: nat) {
    match i
    case Const(r, n) => r == d && n == 0
    case Bin(r, op, a, b) => r == d && op == Add && k <= a < d && k <= b < d
    case _ => false
  }

  lemma AdditivePush(instrs: seq<Instr>, i: Instr, k: nat)
    requires Additive(instrs, k) && AdditiveAt(i, k, k + |instrs|)
    ensures Additive(instrs + [i], k)
  {
    hide AdditiveAt;
  }

  lemma AddMeans(e: Expr)
    requires StraightLine(e) && TypeOf(e, map[]) == Option.Some(Int) && Eval(e, map[]) == IrLower.Val.I(0)
    ensures var a := IrLower.Binary(Add, e, IrLower.Lit(0));
      StraightLine(a) && TypeOf(a, map[]) == Option.Some(Int) && Eval(a, map[]) == IrLower.Val.I(0)
  {
    assert Eval(IrLower.Lit(0), map[]) == IrLower.Val.I(0) && TypeOf(IrLower.Lit(0), map[]) == Option.Some(Int);
  }

  lemma SumIs(n: nat)
    ensures n == 0 ==> Sum(n) == IrLower.Lit(0)
    ensures n > 0 ==> Sum(n) == IrLower.Binary(Add, Sum(n - 1), IrLower.Lit(0))
  {
  }

  lemma ZeroMeans()
    ensures StraightLine(IrLower.Lit(0)) && TypeOf(IrLower.Lit(0), map[]) == Option.Some(Int) &&
      Eval(IrLower.Lit(0), map[]) == IrLower.Val.I(0)
  {
  }

  lemma {:induction false} SumMeans(n: nat)
    ensures StraightLine(Sum(n)) && TypeOf(Sum(n), map[]) == Option.Some(Int) && Eval(Sum(n), map[]) == IrLower.Val.I(0)
    decreases n
  {
    hide StraightLine, TypeOf, Eval, Sum;
    SumIs(n);
    if n > 0 {
      SumMeans(n - 1);
      AddMeans(Sum(n - 1));
    } else {
      ZeroMeans();
    }
  }

  /** An operation on an expression and zero. */
  lemma GenOp(op: BinOp, l: Expr, k: nat)
    requires StraightLine(l)
    ensures var a := Gen(l, [], 1, k);
      var e := IrLower.Binary(op, l, IrLower.Lit(0));
      StraightLine(e) &&
      Gen(e, [], 1, k) == StreamLower.Code.Code(a.instrs + [Const(a.next, 0)] + [Bin(a.next + 1, op, a.res, a.next)],
        a.next + 1, a.next + 2)
  {
    var e := IrLower.Binary(op, l, IrLower.Lit(0));
    var a := Gen(l, [], 1, k);
    GenLit(a.next);
    assert StraightLine(e);
    assert Gen(e, [], 1, k).instrs == a.instrs + [Const(a.next, 0)] + [Bin(a.next + 1, op, a.res, a.next)];
  }

  lemma {:induction false} SumCode(n: nat, k: nat)
    ensures StraightLine(Sum(n))
    ensures var c := Gen(Sum(n), [], 1, k);
      |c.instrs| == 2 * n + 1 && c.next == k + 2 * n + 1 && c.res == k + 2 * n && Additive(c.instrs, k)
    decreases n
  {
    hide Gen, Additive, Sum;
    SumMeans(n);
    SumIs(n);
    if n > 0 {
      SumCode(n - 1, k);
      var a := Gen(Sum(n - 1), [], 1, k);
      GenOp(Add, Sum(n - 1), k);
      AdditivePush(a.instrs, Const(a.next, 0), k);
      AdditivePush(a.instrs + [Const(a.next, 0)], Bin(a.next + 1, Add, a.res, a.next), k);
    } else {
      GenLit(k);
    }
  }

  lemma GenLit(k: nat)
    ensures StraightLine(IrLower.Lit(0)) &&
      Gen(IrLower.Lit(0), [], 1, k) == StreamLower.Code.Code([Const(k, 0)], k, k + 1)
    ensures Additive([Const(k, 0)], k)
  {
  }

  /** The code of the function: the sum, the zero, the comparison, the return. */
  function TestCode(n: nat): (r: seq<Instr>)
    ensures |r| == 2 * n + 4
  {
    SumCode(n, 0);
    Front(n) + Tail(n)
  }

  function Front(n: nat): (r: seq<Instr>)
    ensures |r| == 2 * n + 2 && Additive(r, 0)
  {
    SumCode(n, 0);
    AdditivePush(Gen(Sum(n), [], 1, 0).instrs, Const(2 * n + 1, 0), 0);
    Gen(Sum(n), [], 1, 0).instrs + [Const(2 * n + 1, 0)]
  }

  function Tail(n: nat): seq<Instr> { [Bin(2 * n + 2, CmpEq, 2 * n, 2 * n + 1), Ret(2 * n + 2)] }

  lemma CompareMeans(e: Expr)
    requires StraightLine(e) && TypeOf(e, map[]) == Option.Some(Int) && Eval(e, map[]) == IrLower.Val.I(0)
    ensures var c := IrLower.Binary(CmpEq, e, IrLower.Lit(0));
      TypeOf(c, map[]) == Option.Some(Bool) && Eval(c, map[]) == IrLower.Val.B(true)
  {
    assert Eval(IrLower.Lit(0), map[]) == IrLower.Val.I(0) && TypeOf(IrLower.Lit(0), map[]) == Option.Some(Int);
  }

  lemma TestMeans(n: nat)
    ensures WellTyped(Test(n)) && Eval(Test(n).body, map[]) == IrLower.Val.B(true)
  {
    hide StraightLine, TypeOf, Eval;
    SumMeans(n);
    CompareMeans(Sum(n));
  }

  lemma TestLowered(n: nat)
    ensures LowerFunction(Test(n)) == Func([Block([], TestCode(n))], 2 * n + 3)
  {
    hide Sum, Gen, StraightLine, Additive, LowerExpr;
    SumCode(n, 0);
    var e := Test(n).body;
    var f := AddBlock(EMPTY);
    var code := Front(n) + [Bin(2 * n + 2, CmpEq, 2 * n, 2 * n + 1)];
    GenOp(CmpEq, Sum(n), 0);
    GenIsLower(e, [], 1, f, 0);
    assert f == Func([Block([], [])], 0) && [] + code == code;
    assert LowerBody(e, [], f, 0) == Low(Func([Block([], code)], 2 * n + 3), 0, 2 * n + 2);
    assert code + [Ret(2 * n + 2)] == TestCode(n);
  }

  /** The comparison's register is past the table. */
  lemma TestDoesNotFit(n: nat)
    requires 2 * n + 2 >= MAX_REGS
    ensures !BoolsFit(LowerFunction(Test(n)))
  {
    TestLowered(n);
    var b := LowerFunction(Test(n)).blocks[0];
    assert b.instrs[2 * n + 2] == Tail(n)[0];
    assert !BlockFits(b);
  }

  // ---------- every register is taken for an integer ----------

  predicate AllInt(rt: RegTypes) { forall r :: r in rt ==> rt[r] == Int }

  /** Comparisons in the table's reach would be noted; this function has none. */
  lemma {:induction false} NotesInts(rt: RegTypes, instrs: seq<Instr>)
    requires AllInt(rt)
    requires forall j :: 0 <= j < |instrs| ==>
      IsTerminator(instrs[j]) || DefTy(instrs[j]) == Int || instrs[j].dst >= MAX_REGS
    ensures AllInt(NoteInstrs(rt, instrs))
    decreases instrs
  {
    if instrs != [] {
      NotesInts(if IsTerminator(instrs[0]) then rt else Note(rt, instrs[0].dst, DefTy(instrs[0])), instrs[1..]);
    }
  }

  lemma TestInts(n: nat)
    requires 2 * n + 2 >= MAX_REGS
    ensures forall j :: 0 <= j < |TestCode(n)| ==>
      IsTerminator(TestCode(n)[j]) || DefTy(TestCode(n)[j]) == Int || TestCode(n)[j].dst >= MAX_REGS
  {
    forall j | 0 <= j < |TestCode(n)|
      ensures IsTerminator(TestCode(n)[j]) || DefTy(TestCode(n)[j]) == Int || TestCode(n)[j].dst >= MAX_REGS
    {
      if j < |Front(n)| {
        assert TestCode(n)[j] == Front(n)[j] && AdditiveAt(Front(n)[j], 0, j);
      } else {
        assert TestCode(n)[j] == Tail(n)[j - |Front(n)|];
      }
    }
  }

  lemma OneTable(F: Func, code: seq<Instr>)
    requires F.blocks == [Block([], code)]
    ensures BuildRegTypes(F, []) == NoteInstrs(map[], code)
  {
    hide NoteInstrs;
    assert F.blocks[1..] == [];
    assert NotePhis(map[], []) == map[] && NoteParams(map[], 0, []) == map[];
    assert NoteBlocks(NoteInstrs(map[], code), []) == NoteInstrs(map[], code);
  }

  lemma TestTable(n: nat)
    requires 2 * n + 2 >= MAX_REGS
    ensures var F := LowerFunction(Test(n));
      AllInt(BuildRegTypes(F, [])) && AllInt(FuncTypes(F, [])) && forall r: nat :: r < 2 * n + 3 ==>
        r in FuncTypes(F, [])
  {
    TestLowered(n);
    hide LowerFunction, NoteInstrs, Additive;
    var F := LowerFunction(Test(n));
    TestInts(n);
    NotesInts(map[], TestCode(n));
    OneTable(F, TestCode(n));
  }

  lemma {:induction false} SameCode(rt: RegTypes, rt1: RegTypes, instrs: seq<Instr>)
    requires AllInt(rt) && AllInt(rt1)
    ensures EmitInstrs(instrs, rt) == EmitInstrs(instrs, rt1)
    decreases instrs
  {
    if instrs != [] {
      assert EmitInstr(instrs[0], rt) == EmitInstr(instrs[0], rt1);
      SameCode(rt, rt1, instrs[1..]);
    }
  }

  // ---------- the run ----------

  /** Setting a local to a value of the other type traps. */
  lemma FourTrap(p: W, q: W, opcode: nat, d: nat, rest: seq<W>, l: Locals, x: Wasm.Val, y: Wasm.Val, v: Wasm.Val,
      fuel: nat)
    requires !p.If? && !p.Loop? && Simple(p, l, []) == Next(l, [x])
    requires !q.If? && !q.Loop? && Simple(q, l, [x]) == Next(l, [x, y])
    requires NumValue(opcode, x, y) == [v] && d in l && l[d].V64? != v.V64?
    ensures Wasm.Exec([p, q, Num(opcode), Set(d)] + rest, l, [], fuel) == Trap
  {
    hide Wasm.Exec, NumValue;
    var c3 := [Set(d)] + rest;
    var c2 := [Num(opcode)] + c3;
    var c1 := [q] + c2;
    assert [p, q, Num(opcode), Set(d)] + rest == [p] + c1;
    ExecSimple(p, c1, l, [], fuel);
    ExecSimple(q, c2, l, [x], fuel);
    assert [x, y][..0] + [v] == [v];
    ExecSimple(Num(opcode), c3, l, [x, y], fuel);
    ExecSimple(Set(d), rest, l, [v], fuel);
  }

  lemma TailCode(n: nat, rt: RegTypes)
    requires AllInt(rt)
    ensures EmitInstrs(Tail(n), rt) ==
            [Get(2 * n), Get(2 * n + 1), Num(0x51), Set(2 * n + 2)] + EmitInstrs([Ret(2 * n + 2)], rt)
  {
    assert Tail(n)[1..] == [Ret(2 * n + 2)];
  }

  /** Setting an integer local to the comparison's result traps. */
  lemma CompareTraps(n: nat, rt: RegTypes, regs: Regs, l: Locals, rest: seq<W>, fuel: nat)
    requires AllInt(rt) && (forall r: nat :: r < 2 * n + 3 ==> r in rt) && Rel(regs, l, rt, 2 * n + 3)
    ensures Wasm.Exec(EmitInstrs(Tail(n), rt) + rest, l, [], fuel) == Trap
  {
    hide Wasm.Exec, EmitInstrs;
    assert 2 * n in rt && 2 * n + 1 in rt && 2 * n + 2 in rt;
    var x, y := Read(regs, 2 * n), Read(regs, 2 * n + 1);
    TailCode(n, rt);
    var four, more := [Get(2 * n), Get(2 * n + 1), Num(0x51), Set(2 * n + 2)], EmitInstrs([Ret(2 * n + 2)], rt);
    assert four + more + rest == four + (more + rest);
    FourTrap(Get(2 * n), Get(2 * n + 1), 0x51, 2 * n + 2, more + rest, l, V64(x), V64(y), Truth32(x == y), fuel);
  }

  lemma FrontTyped(n: nat, rt: RegTypes)
    requires AllInt(rt) && forall r: nat :: r < 2 * n + 3 ==> r in rt
    ensures Straight(Front(n)) && forall k :: 0 <= k < |Front(n)| ==> InstrTyped(Front(n)[k], rt)
  {
    forall k | 0 <= k < |Front(n)| ensures !IsTerminator(Front(n)[k]) && InstrTyped(Front(n)[k], rt) {
      assert AdditiveAt(Front(n)[k], 0, 0 + k);
    }
  }

  lemma TestBlockTraps(n: nat, l: Locals, fuel: nat)
    requires 2 * n + 2 >= MAX_REGS
    requires var F := LowerFunction(Test(n)); Rel(map[], l, FuncTypes(F, []), 2 * n + 3) && |F.blocks| == 1
    ensures var F := LowerFunction(Test(n)); Wasm.Exec(EmitBlock(F, BuildRegTypes(F, []), 0), l, [], fuel) == Trap
  {
    hide Wasm.Exec, EmitInstrs, EmitTerms, FuncTypes, BuildRegTypes, LowerFunction, Rel, Additive, InstrTyped;
    TestTable(n);
    TestLowered(n);
    var F, code := LowerFunction(Test(n)), TestCode(n);
    var rt, terms := FuncTypes(F, []), EmitTerms(F, 0, code);
    SameCode(BuildRegTypes(F, []), rt, code);
    FrontTyped(n, rt);
    assert Held(map[], rt);
    var l1 := InstrsRun(Front(n), Tail(n), rt, map[], l, 2 * n + 3, terms, fuel);
    CompareTraps(n, rt, ExecAll(Front(n), map[]), l1, terms, fuel);
  }

  /** With 2047 additions or more the emitted code of the test never returns: the
      comparison's value does not fit the local declared for it, so the program is
      not even valid. The source value is true. */
  lemma TestTraps(n: nat, fuel: nat)
    requires n >= 2047
    ensures WellTyped(Test(n)) && Eval(Test(n).body, map[]) == IrLower.Val.B(true)
    ensures !BoolsFit(LowerFunction(Test(n)))
    ensures var F := LowerFunction(Test(n));
      EmitFuncBody(F, []).Code? && Wasm.Call(EmitFuncBody(F, []).code, EntryLocals(LocalTypes(F, []), []), fuel) == Trap
  {
    hide Wasm.Exec, EmitCases, EmitCase, EmitBlock, FuncTypes, BuildRegTypes, LowerFunction, Test, EntryLocals,
      LocalTypes, Sum, Rel, TestCode,
      EmitFuncBody, WellTyped, Eval, BoolsFit;
    TestMeans(n);
    TestDoesNotFit(n);
    TestLowered(n);
    var F := LowerFunction(Test(n));
    var rt, pc := BuildRegTypes(F, []), F.nextReg;
    var l := EntryLocals(LocalTypes(F, []), []);
    TestEntry(n, l);
    TestBody(n, F);
    var cases := EmitCases(F, rt, 0);
    var loop := [Loop(cases)] + [Unreachable];
    EntryCounter(n, l);
    RunTwo(Const32(0), pc, l, V32(0), fuel);
    ExecConcat([Const32(0), Set(pc)], loop, l, [], fuel);
    var l1 := l[pc := V32(0)];
    SetPc(map[], l, FuncTypes(F, []), pc, 0);
    OneCase(F, rt);
    CaseRuns(F, rt, 0, 0, [], l1, fuel);
    ExecIf(EmitBlock(F, rt, 0), [], [], l1, 1, fuel);
    TestBlockTraps(n, l1, fuel);
    assert EmitCase(F, rt, 0) + [] == EmitCase(F, rt, 0);
    ExecLoop(cases, [Unreachable], l1, fuel);
  }

  lemma TestBody(n: nat, F: Func)
    requires F == LowerFunction(Test(n))
    ensures EmitFuncBody(F, []).Code? &&
      EmitFuncBody(F, []).code == [Const32(0), Set(F.nextReg)] +
        ([Loop(EmitCases(F, BuildRegTypes(F, []), 0))] + [Unreachable])
  {
    hide EmitCases, BuildRegTypes;
    TestLowered(n);
    var code := TestCode(n);
    assert code[|code| - 1] == Tail(n)[1];
    assert HasTerminator(F.blocks[0]);
  }

  lemma EntryCounter(n: nat, l: Locals)
    requires l == EntryLocals(LocalTypes(LowerFunction(Test(n)), []), [])
    ensures 2 * n + 3 in l && l[2 * n + 3].V32?
  {
    TestLowered(n);
    var types := LocalTypes(LowerFunction(Test(n)), []);
    assert types[2 * n + 3] == Bool;
  }

  lemma OneCase(F: Func, rt: RegTypes)
    requires |F.blocks| == 1
    ensures EmitCases(F, rt, 0) == EmitCase(F, rt, 0)
  {
    assert EmitCases(F, rt, 1) == [];
  }

  /** On entry every register's local is the integer zero. */
  lemma TestEntry(n: nat, l: Locals)
    requires 2 * n + 2 >= MAX_REGS && l == EntryLocals(LocalTypes(LowerFunction(Test(n)), []), [])
    ensures Rel(map[], l, FuncTypes(LowerFunction(Test(n)), []), 2 * n + 3)
  {
    TestLowered(n);
    TestTable(n);
    var F := LowerFunction(Test(n));
    var types := LocalTypes(F, []);
    forall r | r in FuncTypes(F, []) ensures r < 2 * n + 3 && r in l && l[r] == V64(0) {
      assert types[r] == TyOf(BuildRegTypes(F, []), r);
    }
  }
}
