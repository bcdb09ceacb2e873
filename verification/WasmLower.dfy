/** Functions produced by the lowering pass are functions the WebAssembly backend
    translates faithfully: from source expression to WebAssembly. */
module WasmLower {
  import opened Bits
  import opened Ir
  import opened IrLower
  import opened IrLowerCorrect
  import opened IrFunction
  import Wasm
  import opened WasmEmit
  import opened WasmCorrect

  // ---------- the register table is right ----------

  predicate Agrees(rt: RegTypes, k: RegTypes) { forall r :: r in rt ==> r in k && rt[r] == k[r] }

  lemma {:induction false} NotePhisAgrees(rt: RegTypes, phis: seq<Phi>, k: RegTypes)
    requires Agrees(rt, k) && forall j :: 0 <= j < |phis| ==> PhiTyped(phis[j], k)
    ensures Agrees(NotePhis(rt, phis), k) && rt.Keys <= NotePhis(rt, phis).Keys
    ensures forall j :: 0 <= j < |phis| && phis[j].dst < MAX_REGS ==> phis[j].dst in NotePhis(rt, phis)
    decreases phis
  {
    if phis != [] {
      var rt1 := Note(rt, phis[0].dst, phis[0].ty);
      NotePhisAgrees(rt1, phis[1..], k);
      forall j | 0 <= j < |phis| && phis[j].dst < MAX_REGS ensures phis[j].dst in NotePhis(rt, phis) {
        if j == 0 { assert phis[0].dst in rt1; } else { assert phis[1..][j - 1] == phis[j]; }
      }
    }
  }

  lemma {:induction false} NoteInstrsAgrees(rt: RegTypes, instrs: seq<Instr>, k: RegTypes)
    requires Agrees(rt, k) && forall j :: 0 <= j < |instrs| ==> InstrTyped(instrs[j], k)
    ensures Agrees(NoteInstrs(rt, instrs), k) && rt.Keys <= NoteInstrs(rt, instrs).Keys
    ensures forall j :: 0 <= j < |instrs| && !IsTerminator(instrs[j]) && instrs[j].dst < MAX_REGS ==>
      instrs[j].dst in NoteInstrs(rt, instrs)
    decreases instrs
  {
    if instrs != [] {
      var i := instrs[0];
      var rt1 := if IsTerminator(i) then rt else Note(rt, i.dst, DefTy(i));
      NoteInstrsAgrees(rt1, instrs[1..], k);
      forall j | 0 <= j < |instrs| && !IsTerminator(instrs[j]) && instrs[j].dst < MAX_REGS
        ensures instrs[j].dst in NoteInstrs(rt, instrs) {
        if j == 0 { assert i.dst in rt1; } else { assert instrs[1..][j - 1] == instrs[j]; }
      }
    }
  }

  lemma {:induction false} InstrDefined(instrs: seq<Instr>, q: nat) returns (j: nat)
    requires InstrDefs(instrs, q) > 0
    ensures j < |instrs| && !IsTerminator(instrs[j]) && instrs[j].dst == q
    decreases |instrs|
  {
    var last := |instrs| - 1;
    if Writes(instrs[last], q) > 0 { j := last; } else { j := InstrDefined(instrs[..last], q); }
  }

  lemma {:induction false} PhiDefined(phis: seq<Phi>, q: nat) returns (j: nat)
    requires PhiDefs(phis, q) > 0
    ensures j < |phis| && phis[j].dst == q
    decreases |phis|
  {
    var last := |phis| - 1;
    if phis[last].dst == q { j := last; } else { j := PhiDefined(phis[..last], q); }
  }

  lemma {:induction false} BlockDefined(blocks: seq<Block>, n: nat, q: nat) returns (b: nat)
    requires n <= |blocks| && DefsIn(blocks, n, q) > 0
    ensures b < n && PhiDefs(blocks[b].phis, q) + InstrDefs(blocks[b].instrs, q) > 0
    decreases n
  {
    if DefsIn(blocks, n - 1, q) > 0 { b := BlockDefined(blocks, n - 1, q); } else { b := n - 1; }
  }

  function NoteBlock(rt: RegTypes, b: Block): RegTypes { NoteInstrs(NotePhis(rt, b.phis), b.instrs) }

  lemma NoteBlockAgrees(rt: RegTypes, b: Block, k: RegTypes)
    requires Agrees(rt, k) && BlockTyped(b, k)
    ensures Agrees(NoteBlock(rt, b), k) && rt.Keys <= NoteBlock(rt, b).Keys
    ensures forall q: nat :: q < MAX_REGS && PhiDefs(b.phis, q) + InstrDefs(b.instrs, q) > 0 ==> q in NoteBlock(rt, b)
  {
    NotePhisAgrees(rt, b.phis, k);
    var rt1 := NotePhis(rt, b.phis);
    NoteInstrsAgrees(rt1, b.instrs, k);
    forall q: nat | q < MAX_REGS && PhiDefs(b.phis, q) + InstrDefs(b.instrs, q) > 0 ensures q in NoteBlock(rt, b) {
      if PhiDefs(b.phis, q) > 0 {
        var j := PhiDefined(b.phis, q);
        assert q in rt1.Keys;
      } else {
        var j := InstrDefined(b.instrs, q);
      }
    }
  }

  lemma {:induction false} NoteBlocksAgrees(rt: RegTypes, blocks: seq<Block>, k: RegTypes)
    requires Agrees(rt, k) && forall b :: 0 <= b < |blocks| ==> BlockTyped(blocks[b], k)
    ensures Agrees(NoteBlocks(rt, blocks), k) && rt.Keys <= NoteBlocks(rt, blocks).Keys
    ensures forall b, q: nat :: 0 <= b < |blocks| && q < MAX_REGS ==>
      PhiDefs(blocks[b].phis, q) + InstrDefs(blocks[b].instrs, q) > 0 ==> q in NoteBlocks(rt, blocks)
    decreases blocks
  {
    if blocks != [] {
      NoteBlockAgrees(rt, blocks[0], k);
      NoteBlocksAgrees(NoteBlock(rt, blocks[0]), blocks[1..], k);
      forall b, q: nat | 0 <= b < |blocks| && q < MAX_REGS &&
        PhiDefs(blocks[b].phis, q) + InstrDefs(blocks[b].instrs, q) > 0
        ensures q in NoteBlocks(rt, blocks)
      {
        if b == 0 {
          assert q in NoteBlock(rt, blocks[0]).Keys;
        } else {
          assert blocks[1..][b - 1] == blocks[b];
        }
      }
    }
  }

  lemma {:induction false} NoteParamsAre(rt: RegTypes, n: nat, params: seq<Ty>)
    requires forall r :: r in rt ==> r < n
    ensures forall r :: r in NoteParams(rt, n, params) ==> r < n + |params| && (r in rt || n <= r)
    ensures forall r :: r in rt ==> r in NoteParams(rt, n, params) && NoteParams(rt, n, params)[r] == rt[r]
    ensures forall r: nat :: n <= r < n + |params| ==>
      r in NoteParams(rt, n, params) && NoteParams(rt, n, params)[r] == params[r - n]
    decreases params
  {
    if params != [] { NoteParamsAre(rt[n := params[0]], n + 1, params[1..]); }
  }

  /** A table `k` that types every definition is what the backend takes the registers
      for, as long as those past its own table are integers. */
  lemma TableIs(f: Func, params: seq<Ty>, k: RegTypes)
    requires forall b :: 0 <= b < |f.blocks| ==> BlockTyped(f.blocks[b], k)
    requires forall r: nat :: r in k <==> r < f.nextReg
    requires |params| <= f.nextReg && |params| <= MAX_REGS && forall r: nat :: r < |params| ==> Has(k, r, params[r])
    requires forall q: nat :: |params| <= q < f.nextReg ==> Defs(f, q) > 0
    ensures BoolsFit(f) ==> FuncTypes(f, params) == k
  {
    hide BlockTyped, PhiDefs, InstrDefs, DefsIn, NoteParams, NoteBlocks, NoteBlock, BoolsFit, Defs;
    NoteParamsAre(map[], 0, params);
    var rt0 := NoteParams(map[], 0, params);
    assert Agrees(rt0, k) by {
      forall r | r in rt0 ensures r in k && rt0[r] == k[r] {
        assert rt0[r] == params[r - 0] && Has(k, r, params[r]);
      }
    }
    NoteBlocksAgrees(rt0, f.blocks, k);
    var rt := NoteBlocks(rt0, f.blocks);
    if BoolsFit(f) {
      forall q: nat | q < f.nextReg ensures TyOf(rt, q) == k[q] {
        if q < |params| {
          assert q in rt0.Keys;
        } else {
          var b := DefinedIn(f, q);
          if q >= MAX_REGS {
            TableEnds(rt0, f.blocks);
            PastTable(f, k, b, q);
          }
        }
      }
    }
  }

  /** The block that defines a register. */
  lemma DefinedIn(f: Func, q: nat) returns (b: nat)
    requires Defs(f, q) > 0
    ensures b < |f.blocks| && PhiDefs(f.blocks[b].phis, q) + InstrDefs(f.blocks[b].instrs, q) > 0
  {
    b := BlockDefined(f.blocks, |f.blocks|, q);
  }

  /** No Boolean is defined past the end of the backend's register table. */
  predicate BoolsFit(f: Func) {
    forall b :: 0 <= b < |f.blocks| ==> BlockFits(f.blocks[b])
  }

  predicate BlockFits(b: Block) {
    (forall j :: 0 <= j < |b.phis| && b.phis[j].ty == Bool ==> b.phis[j].dst < 4096) &&
    forall j :: 0 <= j < |b.instrs| && !IsTerminator(b.instrs[j]) && DefTy(b.instrs[j]) == Bool ==>
      b.instrs[j].dst < 4096
  }

  lemma PastTable(f: Func, k: RegTypes, b: nat, q: nat)
    requires b < |f.blocks| && BlockTyped(f.blocks[b], k) && BoolsFit(f) && q >= MAX_REGS
    requires PhiDefs(f.blocks[b].phis, q) + InstrDefs(f.blocks[b].instrs, q) > 0
    ensures Has(k, q, Int)
  {
    hide PhiDefs, InstrDefs;
    assert BlockFits(f.blocks[b]);
    if PhiDefs(f.blocks[b].phis, q) > 0 {
      var j := PhiDefined(f.blocks[b].phis, q);
      assert PhiTyped(f.blocks[b].phis[j], k);
    } else {
      var j := InstrDefined(f.blocks[b].instrs, q);
      assert InstrTyped(f.blocks[b].instrs[j], k);
    }
  }

  /** Nothing past the end is ever entered in the table. */
  lemma {:induction false} TableEnds(rt: RegTypes, blocks: seq<Block>)
    requires forall r :: r in rt ==> r < MAX_REGS
    ensures forall r :: r in NoteBlocks(rt, blocks) ==> r < MAX_REGS
    decreases blocks
  {
    if blocks != [] {
      PhiTableEnds(rt, blocks[0].phis);
      InstrTableEnds(NotePhis(rt, blocks[0].phis), blocks[0].instrs);
      TableEnds(NoteInstrs(NotePhis(rt, blocks[0].phis), blocks[0].instrs), blocks[1..]);
    }
  }

  lemma {:induction false} PhiTableEnds(rt: RegTypes, phis: seq<Phi>)
    requires forall r :: r in rt ==> r < MAX_REGS
    ensures forall r :: r in NotePhis(rt, phis) ==> r < MAX_REGS
    decreases phis
  {
    if phis != [] { PhiTableEnds(Note(rt, phis[0].dst, phis[0].ty), phis[1..]); }
  }

  lemma {:induction false} InstrTableEnds(rt: RegTypes, instrs: seq<Instr>)
    requires forall r :: r in rt ==> r < MAX_REGS
    ensures forall r :: r in NoteInstrs(rt, instrs) ==> r < MAX_REGS
    decreases instrs
  {
    if instrs != [] {
      InstrTableEnds(if IsTerminator(instrs[0]) then rt else Note(rt, instrs[0].dst, DefTy(instrs[0])), instrs[1..]);
    }
  }

  /** A function typed by what the backend takes its registers for defines no Boolean
      past the end. */
  lemma ReadyFits(f: Func, params: seq<Ty>, ret: Ty)
    requires |params| <= MAX_REGS && Ready(f, FuncTypes(f, params), ret)
    ensures BoolsFit(f)
  {
    hide NoteParams, NoteBlocks;
    NoteParamsAre(map[], 0, params);
    TableEnds(NoteParams(map[], 0, params), f.blocks);
    var k := FuncTypes(f, params);
    forall b | 0 <= b < |f.blocks| ensures BlockFits(f.blocks[b]) {
      assert BlockTyped(f.blocks[b], k);
      var blk := f.blocks[b];
      forall j | 0 <= j < |blk.phis| && blk.phis[j].ty == Bool
        ensures blk.phis[j].dst < MAX_REGS { assert PhiTyped(blk.phis[j], k); }
      forall j | 0 <= j < |blk.instrs| && !IsTerminator(blk.instrs[j]) && DefTy(blk.instrs[j]) == Bool
        ensures blk.instrs[j].dst < MAX_REGS {
        assert InstrTyped(blk.instrs[j], k);
      }
    }
  }

  // ---------- lowering produces typed code ----------

  predicate TargetsIn(b: Block, n: nat) {
    forall j :: 0 <= j < |b.instrs| ==>
      match b.instrs[j]
      case Br(t) => t < n
      case Cbr(_, t, e) => t < n && e < n
      case _ => true
  }

  predicate NoReturn(b: Block) { forall j :: 0 <= j < |b.instrs| ==> !b.instrs[j].Ret? }

  /** At most one phi, and at most one argument of it per edge. */
  predicate OnePhi(b: Block) {
    b.phis == [] ||
    (|b.phis| == 1 && |b.phis[0].args| == 2 && b.phis[0].args[0].pred != b.phis[0].args[1].pred)
  }

  predicate BlockOk(b: Block, k: RegTypes, n: nat) { BlockTyped(b, k) && TargetsIn(b, n) && NoReturn(b) && OnePhi(b) }

  /** `k` types exactly the registers taken so far and every block is in order. */
  predicate Typed(f: Func, k: RegTypes) {
    (forall r: nat :: r < f.nextReg ==> r in k) && (forall r :: r in k ==> r < f.nextReg) &&
    forall b :: 0 <= b < |f.blocks| ==> BlockOk(f.blocks[b], k, |f.blocks|)
  }

  predicate Within(k: RegTypes, k1: RegTypes) { forall r :: r in k ==> r in k1 && k1[r] == k[r] }

  predicate VarsTyped(vars: seq<VarEntry>, g: Types, k: RegTypes) {
    (forall i :: 0 <= i < |vars| ==> vars[i].name in g) &&
    forall x :: x in g ==> FindVar(vars, x) >= 0 && Has(k, vars[FindVar(vars, x)].reg, g[x])
  }

  lemma BlockGrows(b: Block, k: RegTypes, k1: RegTypes, n: nat, n1: nat)
    requires BlockOk(b, k, n) && Within(k, k1) && n <= n1
    ensures BlockOk(b, k1, n1)
  {
    forall j | 0 <= j < |b.instrs| ensures InstrTyped(b.instrs[j], k1) { assert InstrTyped(b.instrs[j], k); }
    forall j | 0 <= j < |b.phis| ensures PhiTyped(b.phis[j], k1) { assert PhiTyped(b.phis[j], k); }
  }

  lemma EmitTyped(f: Func, k: RegTypes, b: nat, i: Instr)
    requires Typed(f, k) && b < |f.blocks| && InstrTyped(i, k) && !i.Ret?
    requires i.Br? ==> i.target < |f.blocks|
    requires i.Cbr? ==> i.thn < |f.blocks| && i.els < |f.blocks|
    ensures Typed(EmitInto(f, b, i), k)
  {
    assert BlockOk(f.blocks[b], k, |f.blocks|);
  }

  lemma NewRegTyped(f: Func, k: RegTypes, t: Ty)
    requires Typed(f, k)
    ensures Typed(NewReg(f), k[f.nextReg := t]) && Within(k, k[f.nextReg := t])
  {
    forall b | 0 <= b < |f.blocks| ensures BlockOk(f.blocks[b], k[f.nextReg := t], |f.blocks|) {
      BlockGrows(f.blocks[b], k, k[f.nextReg := t], |f.blocks|, |f.blocks|);
    }
  }

  lemma AddBlockTyped(f: Func, k: RegTypes)
    requires Typed(f, k)
    ensures Typed(AddBlock(f), k)
  {
    forall b | 0 <= b < |f.blocks| + 1 ensures BlockOk(AddBlock(f).blocks[b], k, |f.blocks| + 1) {
      if b < |f.blocks| { BlockGrows(f.blocks[b], k, k, |f.blocks|, |f.blocks| + 1); }
    }
  }

  lemma DefineTyped(f: Func, cur: nat, mk: nat -> Instr, k: RegTypes)
    requires Typed(f, k) && cur < |f.blocks| && !IsTerminator(mk(f.nextReg)) && mk(f.nextReg).dst == f.nextReg
    requires InstrTyped(mk(f.nextReg), k[f.nextReg := DefTy(mk(f.nextReg))])
    ensures Typed(Define(f, cur, mk).f, k[f.nextReg := DefTy(mk(f.nextReg))])
    ensures Within(k, k[f.nextReg := DefTy(mk(f.nextReg))])
  {
    var t := DefTy(mk(f.nextReg));
    NewRegTyped(f, k, t);
    EmitTyped(NewReg(f), k[f.nextReg := t], cur, mk(f.nextReg));
  }

  lemma VarsGrow(vars: seq<VarEntry>, g: Types, k: RegTypes, k1: RegTypes)
    requires VarsTyped(vars, g, k) && Within(k, k1)
    ensures VarsTyped(vars, g, k1)
  {
  }

  lemma VarTyped(vars: seq<VarEntry>, g: Types, k: RegTypes, x: string, t: Ty, reg: nat, level: nat)
    requires VarsTyped(vars, g, k) && x !in g && Has(k, reg, t)
    ensures VarsTyped(SetVar(vars, x, reg, level), g[x := t], k)
  {
    var more := SetVar(vars, x, reg, level);
    assert more == vars + [VarEntry(x, reg, level)] && more[..|more| - 1] == vars;
  }

  lemma ForkTyped(cond: Low, ty: Ty, k: RegTypes)
    requires cond.cur < |cond.f.blocks| && Typed(cond.f, k) && Has(k, cond.reg, Bool)
    ensures var s := Fork(cond, ty); Typed(s.f, k) && s.f.nextReg == cond.f.nextReg
    ensures var s := Fork(cond, ty); s.f.blocks[s.merge].phis == []
  {
    AddBlockTyped(cond.f, k);
    AddBlockTyped(AddBlock(cond.f), k);
    AddBlockTyped(AddBlock(AddBlock(cond.f)), k);
    var f1 := AddBlock(AddBlock(AddBlock(cond.f)));
    EmitTyped(f1, k, cond.cur, Cbr(cond.reg, |cond.f.blocks|, |cond.f.blocks| + 2));
  }

  lemma JoinTyped(alt: Low, thn: Low, s: Split, k: RegTypes)
    requires alt.cur < |alt.f.blocks| && s.merge < |alt.f.blocks| && alt.cur != s.merge && alt.cur != thn.cur
    requires Typed(alt.f, k) && Has(k, thn.reg, s.ty) && Has(k, alt.reg, s.ty) && alt.f.blocks[s.merge].phis == []
    ensures var r := Join(alt, thn, s);
      Typed(r.f, k[r.reg := s.ty]) && Within(k, k[r.reg := s.ty]) && r.reg == alt.f.nextReg
  {
    EmitTyped(alt.f, k, alt.cur, Br(s.merge));
    var f5 := EmitInto(alt.f, alt.cur, Br(s.merge));
    NewRegTyped(f5, k, s.ty);
    var k1 := k[f5.nextReg := s.ty];
    var r := Join(alt, thn, s);
    forall b | 0 <= b < |r.f.blocks| ensures BlockOk(r.f.blocks[b], k1, |r.f.blocks|) {
      assert BlockOk(NewReg(f5).blocks[b], k1, |r.f.blocks|);
    }
  }

  /** Lowering keeps every instruction at its register types, every branch inside the
      function and at most one copy per edge; the result register has the
      expression's type. */
  lemma {:induction false} LowerTyped(e: Expr, g: Types, vars: seq<VarEntry>, level: nat, f: Func, cur: nat, r: Low,
      k: RegTypes)
    returns (k1: RegTypes)
    requires TypeOf(e, g).Some? && cur < |f.blocks| && Typed(f, k) && VarsTyped(vars, g, k)
    requires r == LowerExpr(e, vars, level, f, cur)
    ensures Typed(r.f, k1) && Within(k, k1) && Has(k1, r.reg, TypeOf(e, g).value)
    decreases e, 2
  {
    match e
    case Lit(n) =>
      DefineTyped(f, cur, (d: nat) => Const(d, n), k);
      k1 := k[f.nextReg := Int];
    case BoolLit(b) =>
      DefineTyped(f, cur, (d: nat) => ConstBool(d, b), k);
      k1 := k[f.nextReg := Bool];
    case Name(x) => k1 := k;
    case Binary(op, a, b) => k1 := BinaryTyped(e, g, vars, level, f, cur, r, k);
    case Unary(op, a) =>
      var right := LowerExpr(a, vars, level, f, cur);
      k1 := LowerTyped(a, g, vars, level, f, cur, right, k);
      var mk := (d: nat) => Un(d, op, right.reg);
      DefineTyped(right.f, right.cur, mk, k1);
      k1 := k1[right.f.nextReg := DefTy(mk(right.f.nextReg))];
    case Cond(_, _, _, _) => k1 := CondTyped(e, g, vars, level, f, cur, r, k);
    case Let(binds, fin) => k1 := LetTyped(e, g, vars, level, f, cur, r, k);
  }

  lemma {:induction false} BinaryTyped(e: Expr, g: Types, vars: seq<VarEntry>, level: nat, f: Func, cur: nat, r: Low,
      k: RegTypes)
    returns (k1: RegTypes)
    requires e.Binary? && TypeOf(e, g).Some? && cur < |f.blocks| && Typed(f, k) && VarsTyped(vars, g, k)
    requires r == LowerExpr(e, vars, level, f, cur)
    ensures Typed(r.f, k1) && Within(k, k1) && Has(k1, r.reg, TypeOf(e, g).value)
    decreases e, 1
  {
    var left := LowerExpr(e.l, vars, level, f, cur);
    var right := LowerExpr(e.r, vars, level, left.f, left.cur);
    var ka := LowerTyped(e.l, g, vars, level, f, cur, left, k);
    VarsGrow(vars, g, k, ka);
    var kb := LowerTyped(e.r, g, vars, level, left.f, left.cur, right, ka);
    var mk := (d: nat) => Bin(d, e.op, left.reg, right.reg);
    DefineTyped(right.f, right.cur, mk, kb);
    k1 := kb[right.f.nextReg := DefTy(mk(right.f.nextReg))];
  }

  lemma {:induction false} LetTyped(e: Expr, g: Types, vars: seq<VarEntry>, level: nat, f: Func, cur: nat, r: Low,
      k: RegTypes)
    returns (k1: RegTypes)
    requires e.Let? && TypeOf(e, g).Some? && cur < |f.blocks| && Typed(f, k) && VarsTyped(vars, g, k)
    requires r == LowerExpr(e, vars, level, f, cur)
    ensures Typed(r.f, k1) && Within(k, k1) && Has(k1, r.reg, TypeOf(e, g).value)
    decreases e, 1
  {
    var low := LowerBinds(e.binds, vars, level + 1, f, cur);
    var ka := BindsTyped(e.binds, g, vars, level + 1, f, cur, low, k);
    k1 := LowerTyped(e.fin, BindTypes(e.binds, g).value, low.0, level + 1, low.1, low.2, r, ka);
  }

  lemma {:induction false} BindsTyped(binds: seq<Binding>, g: Types, vars: seq<VarEntry>, level: nat, f: Func, cur: nat,
                                      r: (seq<VarEntry>, Func, nat), k: RegTypes) returns (k1: RegTypes)
    requires BindTypes(binds, g).Some? && cur < |f.blocks| && Typed(f, k) && VarsTyped(vars, g, k)
    requires r == LowerBinds(binds, vars, level, f, cur)
    ensures Typed(r.1, k1) && Within(k, k1) && VarsTyped(r.0, BindTypes(binds, g).value, k1)
    decreases binds, 3
  {
    if binds == [] {
      k1 := k;
    } else {
      var b := binds[0];
      var v := LowerExpr(b.init, vars, level, f, cur);
      var ka := LowerTyped(b.init, g, vars, level, f, cur, v, k);
      VarsGrow(vars, g, k, ka);
      var t := TypeOf(b.init, g).value;
      VarTyped(vars, g, ka, b.x, t, v.reg, level);
      k1 := BindsTyped(binds[1..], g[b.x := t], SetVar(vars, b.x, v.reg, level), level, v.f, v.cur, r, ka);
    }
  }

  lemma {:induction false} CondTyped(e: Expr, g: Types, vars: seq<VarEntry>, level: nat, f: Func, cur: nat, r: Low,
      k: RegTypes)
    returns (k1: RegTypes)
    requires e.Cond? && TypeOf(e, g).Some? && cur < |f.blocks| && Typed(f, k) && VarsTyped(vars, g, k)
    requires r == LowerExpr(e, vars, level, f, cur)
    ensures Typed(r.f, k1) && Within(k, k1) && Has(k1, r.reg, TypeOf(e, g).value)
    decreases e, 1
  {
    var cond := LowerExpr(e.c, vars, level, f, cur);
    var s := Fork(cond, e.ty);
    var thn := LowerExpr(e.t, vars, level, s.f, s.thn);
    var f3 := EmitInto(thn.f, thn.cur, Br(s.merge));
    var alt := LowerExpr(e.els, vars, level, f3, s.els);
    var ka := LowerTyped(e.c, g, vars, level, f, cur, cond, k);
    ForkTyped(cond, e.ty, ka);
    VarsGrow(vars, g, k, ka);
    var kb := LowerTyped(e.t, g, vars, level, s.f, s.thn, thn, ka);
    EmitTyped(thn.f, kb, thn.cur, Br(s.merge));
    VarsGrow(vars, g, ka, kb);
    var kc := LowerTyped(e.els, g, vars, level, f3, s.els, alt, kb);
    assert thn.f.blocks[s.merge] == s.f.blocks[s.merge] && alt.f.blocks[s.merge] == f3.blocks[s.merge];
    JoinTyped(alt, thn, s, kc);
    k1 := kc[alt.f.nextReg := e.ty];
  }

  // ---------- whole functions ----------

  function TypesOf(params: seq<Param>): (r: seq<Ty>)
    ensures |r| == |params|
  {
    seq(|params|, i requires 0 <= i < |params| => params[i].t)
  }

  function ResultTy(fn: Function): Ty
    requires WellTyped(fn)
  {
    TypeOf(fn.body, ParamTypes(fn.params, map[]).value).value
  }

  lemma {:induction false} ParamsTyped(params: seq<Param>, g: Types, vars: seq<VarEntry>, f: Func, k: RegTypes)
      returns (k1: RegTypes)
    requires ParamTypes(params, g).Some? && Typed(f, k) && VarsTyped(vars, g, k)
    ensures var r := LowerParams(params, vars, f); Typed(r.1, k1) && VarsTyped(r.0, ParamTypes(params, g).value, k1)
    ensures Within(k, k1) && forall j :: 0 <= j < |params| ==> Has(k1, f.nextReg + j, params[j].t)
    decreases params
  {
    if params == [] {
      k1 := k;
    } else {
      var p := params[0];
      var ka := k[f.nextReg := p.t];
      NewRegTyped(f, k, p.t);
      VarsGrow(vars, g, k, ka);
      VarTyped(vars, g, ka, p.x, p.t, f.nextReg, 1);
      k1 := ParamsTyped(params[1..], g[p.x := p.t], SetVar(vars, p.x, f.nextReg, 1), NewReg(f), ka);
      forall j | 0 <= j < |params| ensures Has(k1, f.nextReg + j, params[j].t) {
        if j == 0 { assert Has(ka, f.nextReg, p.t); } else { assert params[1..][j - 1] == params[j]; }
      }
    }
  }

  lemma BodyTyped(body: Expr, g: Types, vars: seq<VarEntry>, f: Func, r: Low, k: RegTypes) returns (k1: RegTypes)
    requires TypeOf(body, g).Some? && f.blocks != [] && Typed(f, k) && VarsTyped(vars, g, k)
    requires r == LowerBody(body, vars, f, 0)
    ensures Typed(r.f, k1) && Within(k, k1) && Has(k1, r.reg, TypeOf(body, g).value)
  {
    if body.Let? {
      var low := LowerBinds(body.binds, vars, 1, f, 0);
      var ka := BindsTyped(body.binds, g, vars, 1, f, 0, low, k);
      k1 := LowerTyped(body.fin, BindTypes(body.binds, g).value, low.0, 1, low.1, low.2, r, ka);
    } else {
      k1 := LowerTyped(body, g, vars, 1, f, 0, r, k);
    }
  }

  lemma OneMove(b: Block, pred: nat)
    requires OnePhi(b)
    ensures NoClobber(Moves(b.phis, pred))
  {
    if b.phis != [] {
      var p := b.phis[0];
      assert b.phis[1..] == [] && Moves([], pred) == [];
      assert p.args[1..] == [p.args[1]] && p.args[1..][1..] == [] && ArgMoves(p.dst, [], pred) == [];
      assert |ArgMoves(p.dst, p.args, pred)| <= 1;
    }
  }

  lemma RetReady(f: Func, cur: nat, reg: nat, k: RegTypes, ret: Ty)
    requires Typed(f, k) && cur < |f.blocks| && Has(k, reg, ret)
    requires var F := EmitInto(f, cur, Ret(reg)); forall b :: 0 <= b < |F.blocks| ==> Closed(F.blocks[b])
    ensures Ready(EmitInto(f, cur, Ret(reg)), k, ret)
  {
    var F := EmitInto(f, cur, Ret(reg));
    forall b | 0 <= b < |F.blocks|
      ensures BlockTyped(F.blocks[b], k) && LastOk(F.blocks[b].instrs[|F.blocks[b].instrs| - 1], |F.blocks|, k, ret)
    {
      assert BlockOk(f.blocks[b], k, |f.blocks|);
    }
    forall b, p: nat | 0 <= b < |F.blocks| ensures NoClobber(Moves(F.blocks[b].phis, p)) {
      assert BlockOk(f.blocks[b], k, |f.blocks|);
      OneMove(f.blocks[b], p);
    }
  }

  lemma RetTyped(f: Func, cur: nat, reg: nat, k: RegTypes)
    requires Typed(f, k) && cur < |f.blocks| && reg in k
    ensures var F := EmitInto(f, cur, Ret(reg));
      (forall b :: 0 <= b < |F.blocks| ==> BlockTyped(F.blocks[b], k)) && F.nextReg == f.nextReg && forall r: nat ::
        r in k <==> r < F.nextReg
  {
    var F := EmitInto(f, cur, Ret(reg));
    forall b | 0 <= b < |F.blocks| ensures BlockTyped(F.blocks[b], k) {
      assert BlockOk(f.blocks[b], k, |f.blocks|);
    }
  }

  /** A table that types the lowered function. */
  lemma LoweredTable(fn: Function) returns (k: RegTypes)
    requires WellTyped(fn)
    ensures var F := LowerFunction(fn);
      Ready(F, k, ResultTy(fn)) && (forall b :: 0 <= b < |F.blocks| ==> BlockTyped(F.blocks[b], k)) &&
      (forall r: nat :: r in k <==> r < F.nextReg) && |fn.params| <= F.nextReg
    ensures forall j: nat :: j < |fn.params| ==> Has(k, j, fn.params[j].t)
  {
    var g, f0 := ParamTypes(fn.params, map[]).value, AddBlock(EMPTY);
    var ka := ParamsTyped(fn.params, map[], [], f0, map[]);
    var p := LowerParams(fn.params, [], f0);
    var r := LowerBody(fn.body, p.0, p.1, 0);
    k := BodyTyped(fn.body, g, p.0, p.1, r, ka);
    WellTerminated(fn);
    assert LowerFunction(fn) == EmitInto(r.f, r.cur, Ret(r.reg));
    hide LowerFunction, LowerBody, LowerParams, BlockOk, TypeOf, Closed, Ready;
    RetReady(r.f, r.cur, r.reg, k, ResultTy(fn));
    RetTyped(r.f, r.cur, r.reg, k);
    forall j: nat | j < |fn.params| ensures Has(k, j, fn.params[j].t) {
      assert Has(ka, 0 + j, fn.params[j].t);
    }
    if |fn.params| > 0 { assert Has(k, |fn.params| - 1, fn.params[|fn.params| - 1].t); }
  }

  /** A lowered function is one the backend translates faithfully if and only if it
      defines no Boolean past the end of the register table. */
  lemma LoweredReady(fn: Function)
    requires WellTyped(fn) && |fn.params| <= MAX_REGS
    ensures Ready(LowerFunction(fn), FuncTypes(LowerFunction(fn), TypesOf(fn.params)), ResultTy(fn)) <==>
      BoolsFit(LowerFunction(fn))
    ensures BoolsFit(LowerFunction(fn)) ==>
      forall j :: 0 <= j < |fn.params| ==> Has(FuncTypes(LowerFunction(fn), TypesOf(fn.params)), j, fn.params[j].t)
    ensures |fn.params| <= LowerFunction(fn).nextReg
  {
    hide FuncTypes, BoolsFit, LowerFunction, BlockTyped, ResultTy, Ready, WellTyped, Defs;
    var F := LowerFunction(fn);
    var k := LoweredTable(fn);
    forall q: nat | |fn.params| <= q < F.nextReg ensures Defs(F, q) > 0 { SingleAssignment(fn, q); }
    TableIs(F, TypesOf(fn.params), k);
    if Ready(F, FuncTypes(F, TypesOf(fn.params)), ResultTy(fn)) { ReadyFits(F, TypesOf(fn.params), ResultTy(fn)); }
  }

  function BoxVal(v: IrLower.Val): Wasm.Val { match v case I(n) => Wasm.V64(n) case B(b) => Wasm.Truth32(b) }

  /** Locals on entry: the arguments, then zeros of the declared types. */
  function EntryLocals(types: seq<Ty>, args: seq<IrLower.Val>): Wasm.Locals
    requires |args| <= |types|
  {
    map i: nat | i < |types| :: if i < |args| then BoxVal(args[i]) else Box(types[i], 0)
  }

  lemma {:induction false} ArgRegsElsewhere(args: seq<IrLower.Val>, k: nat, regs: Regs, r: nat)
    requires k <= |args| && r >= |args|
    ensures Read(ArgRegs(args, k, regs), r) == Read(regs, r)
    decreases |args| - k
  {
    if k < |args| { ArgRegsElsewhere(args, k + 1, regs[k := Enc(args[k])], r); }
  }

  lemma EntryAt(F: Func, rt: RegTypes, params: seq<Param>, args: seq<IrLower.Val>, types: seq<Ty>, r: nat)
    requires ArgsOk(params, args) && |params| <= F.nextReg && |types| == F.nextReg + 1 && r < F.nextReg && r in rt
    requires forall j :: 0 <= j < |params| ==> Has(rt, j, params[j].t)
    requires r >= |params| ==> types[r] == TyOf(rt, r)
    ensures var regs, l := ArgRegs(args, 0, map[]), EntryLocals(types, args);
      Fits(rt[r], Read(regs, r)) && r in l && l[r] == Box(rt[r], Read(regs, r))
  {
    ArgRegsRead(args, 0, map[]);
    if r < |args| {
      assert HasTy(args[r], params[r].t) && Has(rt, r, params[r].t);
    } else {
      ArgRegsElsewhere(args, 0, map[], r);
    }
  }

  lemma EntryRel(fn: Function, args: seq<IrLower.Val>)
    requires WellTyped(fn) && ArgsOk(fn.params, args) && |fn.params| <= MAX_REGS && BoolsFit(LowerFunction(fn))
    ensures var F := LowerFunction(fn);
      var rt := FuncTypes(F, TypesOf(fn.params));
      |fn.params| <= F.nextReg && Held(ArgRegs(args, 0, map[]), rt) &&
      Rel(ArgRegs(args, 0, map[]), EntryLocals(LocalTypes(F, TypesOf(fn.params)), args), rt, F.nextReg)
  {
    var F := LowerFunction(fn);
    LoweredReady(fn);
    hide LowerFunction, BuildRegTypes, Ready, ArgRegs, BoolsFit;
    var rt := FuncTypes(F, TypesOf(fn.params));
    var types := LocalTypes(F, TypesOf(fn.params));
    forall r | r in rt
      ensures var regs, l := ArgRegs(args, 0, map[]), EntryLocals(types, args);
        Fits(rt[r], Read(regs, r)) && r < F.nextReg && r in l && l[r] == Box(rt[r], Read(regs, r))
    {
      EntryAt(F, rt, fn.params, args, types, r);
    }
  }

  /** Compiling a function to WebAssembly preserves its meaning: calling the emitted
      body on any arguments of the declared types returns the value of the source
      body, given enough passes of the dispatch loop. */
  lemma CompiledFunctionRuns(fn: Function, args: seq<IrLower.Val>) returns (passes: nat)
    requires WellTyped(fn) && ArgsOk(fn.params, args) && |fn.params| <= MAX_REGS && BoolsFit(LowerFunction(fn))
    ensures var F, types := LowerFunction(fn), TypesOf(fn.params);
      |types| <= F.nextReg && EmitFuncBody(F, types).Code? &&
      forall fuel: nat :: fuel >= passes ==>
        Wasm.Call(EmitFuncBody(F, types).code, EntryLocals(LocalTypes(F, types), args), fuel) ==
        Wasm.Returned(BoxVal(Eval(fn.body, ParamEnv(fn.params, args, map[]))))
  {
    var F, types := LowerFunction(fn), TypesOf(fn.params);
    var regs, env := ArgRegs(args, 0, map[]), ParamEnv(fn.params, args, map[]);
    passes := FunctionRuns(fn, args);
    LoweredReady(fn);
    EntryRel(fn, args);
    var l := EntryLocals(LocalTypes(F, types), args);
    ParamEnvTyped(fn.params, args, map[], map[]);
    EvalTyped(fn.body, ParamTypes(fn.params, map[]).value, env);
    forall fuel: nat | fuel >= passes
      ensures EmitFuncBody(F, types).Code? &&
        Wasm.Call(EmitFuncBody(F, types).code, l, fuel) == Wasm.Returned(BoxVal(Eval(fn.body, env)))
    {
      WasmCorrect.BodyRuns(F, types, ResultTy(fn), regs, l, passes, fuel);
    }
    WasmCorrect.BodyEmitted(F, types, ResultTy(fn));
  }

  lemma {:induction false} ParamEnvTyped(params: seq<Param>, args: seq<IrLower.Val>, g: Types, env: Env)
    requires ArgsOk(params, args) && ParamTypes(params, g).Some? && EnvOk(env, g)
    ensures EnvOk(ParamEnv(params, args, env), ParamTypes(params, g).value)
    decreases params
  {
    if params != [] {
      assert HasTy(args[0], params[0].t);
      forall i | 0 <= i < |params[1..]| ensures HasTy(args[1..][i], params[1..][i].t) {
        assert args[1..][i] == args[i + 1] && params[1..][i] == params[i + 1];
      }
      ParamEnvTyped(params[1..], args[1..], g[params[0].x := params[0].t], env[params[0].x := args[0]]);
    }
  }
}
