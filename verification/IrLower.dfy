/** Lowering pure expressions to the IR (src/ir_lower.c, lower_expr and the
    expression-bodied case of lower_stmt), and why it preserves meaning. */
module IrLower {
  import opened Bits
  import opened Ir

  // ---------- the source language ----------

  datatype Expr =
    | Lit(n: int)
    | BoolLit(b: bool)
    | Name(x: string)
    | Binary(op: BinOp, l: Expr, r: Expr)
    | Unary(uop: UnOp, e: Expr)
    | Cond(c: Expr, t: Expr, els: Expr, ty: Ty)
    | Let(binds: seq<Binding>, fin: Expr)

  /** A statement `x = init` of a block. */
  datatype Binding = Binding(x: string, init: Expr)

  datatype Val = I(n: int) | B(b: bool)

  type Env = map<string, Val>

  type Types = map<string, Ty>

  datatype Option<T> = None | Some(value: T)

  function OpType(op: BinOp, l: Ty, r: Ty): Option<Ty> {
    match op
    case Add => if l == Int && r == Int then Some(Int) else None
    case Sub => if l == Int && r == Int then Some(Int) else None
    case Mul => if l == Int && r == Int then Some(Int) else None
    case And => if l == Bool && r == Bool then Some(Bool) else None
    case Or => if l == Bool && r == Bool then Some(Bool) else None
    case CmpEq => if l == r then Some(Bool) else None
    case CmpNe => if l == r then Some(Bool) else None
    case _ => if l == Int && r == Int then Some(Bool) else None
  }

  /** Type checking; a binding may not reuse a visible name. */
  function TypeOf(e: Expr, g: Types): Option<Ty>
    decreases e
  {
    match e
    case Lit(n) => if -TWO63 <= n < TWO63 then Some(Int) else None
    case BoolLit(_) => Some(Bool)
    case Name(x) => if x in g then Some(g[x]) else None
    case Binary(op, l, r) =>
      var tl, tr := TypeOf(l, g), TypeOf(r, g);
      if tl.Some? && tr.Some? then OpType(op, tl.value, tr.value) else None
    case Unary(op, e) => if TypeOf(e, g) == Some(if op.Neg? then Int else Bool) then TypeOf(e, g) else None
    case Cond(c, t, f, ty) =>
      if TypeOf(c, g) == Some(Bool) && TypeOf(t, g) == Some(ty) == TypeOf(f, g) then Some(ty) else None
    case Let(binds, fin) =>
      var g1 := BindTypes(binds, g);
      if g1.Some? then TypeOf(fin, g1.value) else None
  }

  function BindTypes(binds: seq<Binding>, g: Types): Option<Types>
    decreases binds
  {
    if binds == [] then Some(g)
    else
      var t := TypeOf(binds[0].init, g);
      if t.Some? && binds[0].x !in g then BindTypes(binds[1..], g[binds[0].x := t.value]) else None
  }

  /** `&&` and `||` look at their right operand only when they have to; every
      expression here is total, so that cannot be observed. */
  function BinMeaning(op: BinOp, x: Val, y: Val): Val {
    match (op, x, y)
    case (Add, I(a), I(b)) => I(Wrap64(a + b))
    case (Sub, I(a), I(b)) => I(Wrap64(a - b))
    case (Mul, I(a), I(b)) => I(Wrap64(a * b))
    case (CmpLt, I(a), I(b)) => B(a < b)
    case (CmpLe, I(a), I(b)) => B(a <= b)
    case (CmpGt, I(a), I(b)) => B(a > b)
    case (CmpGe, I(a), I(b)) => B(a >= b)
    case (CmpEq, _, _) => B(x == y)
    case (CmpNe, _, _) => B(x != y)
    case (And, B(a), B(b)) => B(a && b)
    case (Or, B(a), B(b)) => B(a || b)
    case _ => I(0)
  }

  function UnMeaning(op: UnOp, x: Val): Val {
    match (op, x)
    case (Neg, I(a)) => I(Wrap64(-a))
    case (Not, B(a)) => B(!a)
    case _ => I(0)
  }

  function Eval(e: Expr, env: Env): Val
    decreases e
  {
    match e
    case Lit(n) => I(n)
    case BoolLit(b) => B(b)
    case Name(x) => if x in env then env[x] else I(0)
    case Binary(op, l, r) => BinMeaning(op, Eval(l, env), Eval(r, env))
    case Unary(op, e) => UnMeaning(op, Eval(e, env))
    case Cond(c, t, f, _) => if Eval(c, env) == B(true) then Eval(t, env) else Eval(f, env)
    case Let(binds, fin) => Eval(fin, Extend(binds, env))
  }

  function Extend(binds: seq<Binding>, env: Env): Env
    decreases binds
  {
    if binds == [] then env else Extend(binds[1..], env[binds[0].x := Eval(binds[0].init, env)])
  }

  // ---------- lowering ----------

  datatype VarEntry = VarEntry(name: string, reg: nat, level: nat)

  /** The variable table, searched from its end. */
  function FindVar(vars: seq<VarEntry>, x: string): (i: int)
    ensures -1 <= i < |vars|
    ensures i >= 0 ==> vars[i].name == x
  {
    if vars == [] then -1
    else if vars[|vars| - 1].name == x then |vars| - 1
    else FindVar(vars[..|vars| - 1], x)
  }

  function SetVar(vars: seq<VarEntry>, x: string, reg: nat, level: nat): seq<VarEntry> {
    var i := FindVar(vars, x);
    if i >= 0 then vars[i := vars[i].(reg := reg)] else vars + [VarEntry(x, reg, level)]
  }

  function ExitScope(vars: seq<VarEntry>, level: nat): seq<VarEntry> {
    if vars != [] && vars[|vars| - 1].level == level then ExitScope(vars[..|vars| - 1], level) else vars
  }

  /** Lowering state: function so far and block being filled. */
  datatype Low = Low(f: Func, cur: nat, reg: nat)

  /** What lowering does to the function: it appends to the current block, leaves
      every other existing block alone, and ends in the current block or in one
      it added. */
  predicate Extends(f: Func, cur: nat, f1: Func, cur1: nat) {
    cur < |f.blocks| <= |f1.blocks| && cur1 < |f1.blocks| && f.nextReg <= f1.nextReg &&
    (cur1 == cur || cur1 >= |f.blocks|) &&
    (forall b :: 0 <= b < |f.blocks| && b != cur ==> f1.blocks[b] == f.blocks[b]) &&
    f1.blocks[cur].phis == f.blocks[cur].phis && f.blocks[cur].instrs <= f1.blocks[cur].instrs
  }

  lemma ExtendsTrans(f: Func, cur: nat, f1: Func, cur1: nat, f2: Func, cur2: nat)
    requires Extends(f, cur, f1, cur1) && Extends(f1, cur1, f2, cur2)
    ensures Extends(f, cur, f2, cur2)
  {
  }

  lemma CondExtends(f: Func, cur: nat, cond: Low, s: Split, thn: Low, f3: Func, alt: Low)
    requires Extends(f, cur, cond.f, cond.cur) && s == Fork(cond, s.ty)
    requires Extends(s.f, s.thn, thn.f, thn.cur) && f3 == EmitInto(thn.f, thn.cur, Br(s.merge))
    requires Extends(f3, s.els, alt.f, alt.cur)
    ensures var r := Join(alt, thn, s); Extends(f, cur, r.f, r.cur)
  {
    var r := Join(alt, thn, s);
    forall b | 0 <= b < |f.blocks| && b != cur ensures r.f.blocks[b] == f.blocks[b] {
      assert cond.f.blocks[b] == f.blocks[b];
      assert s.f.blocks[b] == cond.f.blocks[b];
      assert thn.f.blocks[b] == s.f.blocks[b];
      assert alt.f.blocks[b] == f3.blocks[b];
    }
    var start := cond.f.blocks[cur];
    assert s.f.blocks[cur].phis == start.phis && start.instrs <= s.f.blocks[cur].instrs;
    assert thn.f.blocks[cur] == s.f.blocks[cur];
    assert alt.f.blocks[cur] == f3.blocks[cur] == thn.f.blocks[cur];
  }

  /** Append an instruction that writes a new register. */
  function Define(f: Func, cur: nat, mk: nat -> Instr): (r: Low)
    requires cur < |f.blocks|
    ensures Extends(f, cur, r.f, r.cur) && r.reg < r.f.nextReg
  {
    Low(EmitInto(NewReg(f), cur, mk(f.nextReg)), cur, f.nextReg)
  }

  function LowerExpr(e: Expr, vars: seq<VarEntry>, level: nat, f: Func, cur: nat): (r: Low)
    requires cur < |f.blocks|
    ensures Extends(f, cur, r.f, r.cur)
    decreases e
  {
    match e
    case Lit(n) => Define(f, cur, (d: nat) => Const(d, n))
    case BoolLit(b) => Define(f, cur, (d: nat) => ConstBool(d, b))
    case Name(x) => var i := FindVar(vars, x); Low(f, cur, if i < 0 then 0 else vars[i].reg)
    case Binary(op, l, r) =>
      var left := LowerExpr(l, vars, level, f, cur);
      var right := LowerExpr(r, vars, level, left.f, left.cur);
      ExtendsTrans(f, cur, left.f, left.cur, right.f, right.cur);
      Define(right.f, right.cur, (d: nat) => Bin(d, op, left.reg, right.reg))
    case Unary(op, e) =>
      var right := LowerExpr(e, vars, level, f, cur);
      Define(right.f, right.cur, (d: nat) => Un(d, op, right.reg))
    case Cond(c, t, els, ty) =>
      var cond := LowerExpr(c, vars, level, f, cur);
      var s := Fork(cond, ty);
      var thn := LowerExpr(t, vars, level, s.f, s.thn);
      var f3 := EmitInto(thn.f, thn.cur, Br(s.merge));
      var alt := LowerExpr(els, vars, level, f3, s.els);
      CondExtends(f, cur, cond, s, thn, f3, alt);
      Join(alt, thn, s)
    case Let(binds, fin) =>
      var (vars1, f1, cur1) := LowerBinds(binds, vars, level + 1, f, cur);
      var r := LowerExpr(fin, vars1, level + 1, f1, cur1);
      ExtendsTrans(f, cur, f1, cur1, r.f, r.cur);
      r
  }

  /** Bindings of a block; the block's variables are dropped on its exit. */
  function LowerBinds(binds: seq<Binding>, vars: seq<VarEntry>, level: nat, f: Func,
      cur: nat): (r: (seq<VarEntry>, Func, nat))
    requires cur < |f.blocks|
    ensures Extends(f, cur, r.1, r.2)
    decreases binds
  {
    if binds == [] then (vars, f, cur)
    else
      var v := LowerExpr(binds[0].init, vars, level, f, cur);
      var r := LowerBinds(binds[1..], SetVar(vars, binds[0].x, v.reg, level), level, v.f, v.cur);
      ExtendsTrans(f, cur, v.f, v.cur, r.1, r.2);
      r
  }

  /** The three blocks of a conditional, in the order they are added, and its type. */
  datatype Split = Split(f: Func, thn: nat, merge: nat, els: nat, ty: Ty)

  function Fork(cond: Low, ty: Ty): (s: Split)
    requires cond.cur < |cond.f.blocks|
    ensures var n := |cond.f.blocks|; s.thn == n && s.merge == n + 1 && s.els == n + 2 && |s.f.blocks| == n + 3
    ensures Extends(cond.f, cond.cur, s.f, s.thn)
  {
    var n := |cond.f.blocks|;
    var f1 := AddBlock(AddBlock(AddBlock(cond.f)));
    Split(EmitInto(f1, cond.cur, Cbr(cond.reg, n, n + 2)), n, n + 1, n + 2, ty)
  }

  /** Close the else branch and merge the two values in a phi. */
  function Join(alt: Low, thn: Low, s: Split): (r: Low)
    requires alt.cur < |alt.f.blocks| && s.merge < |alt.f.blocks|
  {
    var f5 := EmitInto(alt.f, alt.cur, Br(s.merge));
    var dst := f5.nextReg;
    Low(EmitPhi(NewReg(f5), s.merge, Phi(dst, s.ty, [PhiArg(thn.reg, thn.cur), PhiArg(alt.reg, alt.cur)])), s.merge,
      dst)
  }
}
