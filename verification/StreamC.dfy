/** The function the C backend emits for a stream generator (src/emit_c.c,
    emit_stream_gen_def), with the names it declares, and exactly which names a
    program may use so that the emitted function returns the generator's terms. */
module StreamC {
  import opened Bits
  import opened Ir
  import opened IrLower
  import opened IrLowerCorrect

  // ---------- the source ----------

  /** A generator as written; the index binder is optional. Everything is an `int`. */
  datatype Generator = Generator(params: seq<string>, seeds: seq<Expr>, binders: seq<string>, index: Option<string>,
    rule: Expr)

  function Names(s: seq<string>): set<string> { set x | x in s }

  function Ints(names: set<string>): Types { map x | x in names :: Int }

  predicate Distinct(s: seq<string>) { forall i, j :: 0 <= i < j < |s| ==> s[i] != s[j] }

  function RuleNames(g: Generator): set<string> {
    Names(g.params) + Names(g.binders) + if g.index.Some? then {g.index.value} else {}
  }

  /** The backend rejects blocks with statements inside expressions. */
  predicate Emittable(e: Expr) {
    match e
    case Binary(_, l, r) => Emittable(l) && Emittable(r)
    case Unary(_, a) => Emittable(a)
    case Cond(c, t, f, _) => Emittable(c) && Emittable(t) && Emittable(f)
    case Let(_, _) => false
    case _ => true
  }

  /** What the names of a generator must satisfy to be accepted. */
  predicate NamesAccepted(params: seq<string>, binders: seq<string>, index: Option<string>) {
    1 <= |binders| <= 2 && Distinct(params) && Distinct(binders) && (index.Some? ==> index.value !in binders)
  }

  predicate Checked(g: Generator) {
    NamesAccepted(g.params, g.binders, g.index) && |g.seeds| == |g.binders| &&
    (forall k :: 0 <= k < |g.seeds| ==>
      TypeOf(g.seeds[k], Ints(Names(g.params))) == Some(Int) && Emittable(g.seeds[k])) &&
    TypeOf(g.rule, Ints(RuleNames(g))) == Some(Int) && Emittable(g.rule)
  }

  /** What the rule sees, by the scoping of the language. */
  function SourceEnv(g: Generator, env: Env, newest: int, older: int, i: int): Env
    requires 1 <= |g.binders| <= 2
  {
    var e1 := env[g.binders[0] := I(newest)];
    var e2 := if |g.binders| == 2 then e1[g.binders[1] := I(older)] else e1;
    if g.index.Some? then e2[g.index.value := I(i)] else e2
  }

  /** The n-th term. */
  function SourceTerm(g: Generator, env: Env, n: nat): int
    requires 1 <= |g.seeds| == |g.binders| <= 2
    decreases n
  {
    if n < |g.seeds| then Enc(Eval(g.seeds[n], env))
    else
      Enc(Eval(g.rule, SourceEnv(g, env, SourceTerm(g, env, n - 1), if |g.seeds| == 2 then SourceTerm(g, env, n - 2)
        else 0, n)))
  }

  // ---------- the emitted C ----------

  /** `For` is `for (int64_t x = from; x <= limit; x++) { body }`. */
  datatype CStmt =
    | ReturnIf(c: Expr, e: Expr)
    | Decl(x: string, e: Expr)
    | Store(x: string, e: Expr)
    | For(x: string, from: int, limit: Expr, body: seq<CStmt>)
    | Return(e: Expr)

  datatype CFunc = CFunc(params: seq<string>, body: seq<CStmt>)

  const COUNT: Expr := Name("n")

  function CountIs(op: BinOp, k: int): Expr { Binary(op, COUNT, Lit(k)) }

  function WindowLoop(g: Generator): CStmt
    requires 1 <= |g.binders| <= 2
  {
    if |g.binders| == 1 then For("i", 1, COUNT, [Store(g.binders[0], g.rule)])
    else
      For("i", 2, COUNT, [Decl("t", g.rule), Store(g.binders[1], Name(g.binders[0])), Store(g.binders[0], Name("t"))])
  }

  function EmitStreamGen(g: Generator): CFunc
    requires 1 <= |g.seeds| == |g.binders| <= 2
  {
    CFunc(g.params + ["n"],
          if |g.seeds| == 1 then
            [ReturnIf(CountIs(CmpLt, 0), Lit(0)), Decl(g.binders[0], g.seeds[0]),
             ReturnIf(CountIs(CmpEq, 0), Name(g.binders[0])), WindowLoop(g), Return(Name(g.binders[0]))]
          else
            [ReturnIf(CountIs(CmpLt, 0), Lit(0)), ReturnIf(CountIs(CmpEq, 0), g.seeds[0]),
              ReturnIf(CountIs(CmpEq, 1), g.seeds[1]),
             Decl(g.binders[0], g.seeds[1]), Decl(g.binders[1], g.seeds[0]), WindowLoop(g), Return(Name(g.binders[0]))])
  }

  // ---------- the C compiler's scope rules ----------

  predicate Sees(e: Expr, vis: set<string>) {
    match e
    case Name(x) => x in vis
    case Binary(_, l, r) => Sees(l, vis) && Sees(r, vis)
    case Unary(_, a) => Sees(a, vis)
    case Cond(c, t, f, _) => Sees(c, vis) && Sees(t, vis) && Sees(f, vis)
    case _ => true
  }

  /** Every name is declared where it is used, and no name twice in one scope. A
      variable is in scope in its own initialiser; `own` are the names declared in
      the scope the statements sit in. */
  predicate Compiles(ss: seq<CStmt>, vis: set<string>, own: set<string>)
    decreases ss
  {
    ss == [] ||
    match ss[0]
    case ReturnIf(c, e) => Sees(c, vis) && Sees(e, vis) && Compiles(ss[1..], vis, own)
    case Decl(x, e) => x !in own && Sees(e, vis + {x}) && Compiles(ss[1..], vis + {x}, own + {x})
    case Store(x, e) => x in vis && Sees(e, vis) && Compiles(ss[1..], vis, own)
    case For(x, _, limit, body) =>
      Sees(limit, vis + {x}) && Compiles(body, vis + {x}, {}) && Compiles(ss[1..], vis, own)
    case Return(e) => Sees(e, vis) && Compiles(ss[1..], vis, own)
  }

  /** Parameters share the scope of the body's outermost declarations. */
  predicate FuncCompiles(f: CFunc) { Distinct(f.params) && Compiles(f.body, Names(f.params), Names(f.params)) }

  // ---------- running it ----------

  datatype CVar = CVar(name: string, val: int)

  datatype Out = Next(vars: seq<CVar>, decls: nat) | Returned(v: int) | OutOfFuel

  /** What an uninitialised variable holds, by how many were declared before it. */
  type Junk = nat -> int

  /** The innermost variable of each name. */
  function EnvOf(vars: seq<CVar>): Env
    decreases |vars|
  {
    if vars == [] then map[]
    else
      var k := |vars| - 1;
      EnvOf(vars[..k])[vars[k].name := I(vars[k].val)]
  }

  function Value(e: Expr, vars: seq<CVar>): int { Enc(Eval(e, EnvOf(vars))) }

  function Put(vars: seq<CVar>, x: string, v: int): seq<CVar>
    decreases |vars|
  {
    if vars == [] then []
    else
      var k := |vars| - 1;
      if vars[k].name == x then vars[..k] + [CVar(x, v)] else Put(vars[..k], x, v) + [vars[k]]
  }

  function Cut(vars: seq<CVar>, n: nat): seq<CVar> { if n <= |vars| then vars[..n] else vars }

  function Exec(s: CStmt, vars: seq<CVar>, decls: nat, junk: Junk, fuel: nat): Out
    decreases fuel, s, 1
  {
    match s
    case ReturnIf(c, e) => if Value(c, vars) != 0 then Returned(Value(e, vars)) else Next(vars, decls)
    case Decl(x, e) => Next(vars + [CVar(x, Value(e, vars + [CVar(x, junk(decls))]))], decls + 1)
    case Store(x, e) => Next(Put(vars, x, Value(e, vars)), decls)
    case For(x, from, _, _) =>
      var out := Iterate(s, vars + [CVar(x, from)], decls, junk, fuel);
      if out.Next? then Next(Cut(out.vars, |vars|), out.decls) else out
    case Return(e) => Returned(Value(e, vars))
  }

  function Iterate(s: CStmt, vars: seq<CVar>, decls: nat, junk: Junk, fuel: nat): Out
    requires s.For?
    decreases fuel, s, 0
  {
    if fuel == 0 then OutOfFuel
    else if Value(Name(s.x), vars) > Value(s.limit, vars) then Next(vars, decls)
    else
      var out := ExecAll(s.body, vars, decls, junk, fuel);
      if out.Next? then
        var v := Cut(out.vars, |vars|);
        Iterate(s, Put(v, s.x, Wrap64(Value(Name(s.x), v) + 1)), out.decls, junk, fuel - 1)
      else out
  }

  function ExecAll(ss: seq<CStmt>, vars: seq<CVar>, decls: nat, junk: Junk, fuel: nat): Out
    decreases fuel, ss, 0
  {
    if ss == [] then Next(vars, decls)
    else
      var out := Exec(ss[0], vars, decls, junk, fuel);
      if out.Next? then ExecAll(ss[1..], out.vars, out.decls, junk, fuel) else out
  }

  function Bound(params: seq<string>, args: seq<int>): seq<CVar>
    requires |params| == |args|
  {
    seq(|params|, i requires 0 <= i < |params| => CVar(params[i], args[i]))
  }

  function Call(f: CFunc, args: seq<int>, junk: Junk, fuel: nat): Out
    requires |args| == |f.params|
  {
    ExecAll(f.body, Bound(f.params, args), 0, junk, fuel)
  }

  /** The emitted function compiles and returns the generator's n-th term. */
  ghost predicate Works(g: Generator, args: seq<int>, n: int, junk: Junk, fuel: nat)
    requires Checked(g) && |args| == |g.params|
  {
    FuncCompiles(EmitStreamGen(g)) &&
    Call(EmitStreamGen(g), args + [n], junk, fuel) ==
      Returned(if n < 0 then 0 else SourceTerm(g, EnvOf(Bound(g.params, args)), n))
  }

  // ---------- values depend on the visible names only ----------

  lemma {:induction false} SameValue(e: Expr, g: Types, e1: Env, e2: Env)
    requires TypeOf(e, g).Some? && Emittable(e)
    requires forall x :: x in g ==> x in e1 && x in e2 && e1[x] == e2[x]
    ensures Eval(e, e1) == Eval(e, e2)
    decreases e
  {
    match e
    case Binary(_, l, r) => SameValue(l, g, e1, e2); SameValue(r, g, e1, e2);
    case Unary(_, a) => SameValue(a, g, e1, e2);
    case Cond(c, t, f, _) => SameValue(c, g, e1, e2); SameValue(t, g, e1, e2); SameValue(f, g, e1, e2);
    case _ =>
  }

  lemma {:induction false} TypedSees(e: Expr, g: Types, vis: set<string>)
    requires TypeOf(e, g).Some? && Emittable(e) && g.Keys <= vis
    ensures Sees(e, vis)
    decreases e
  {
    match e
    case Binary(_, l, r) => TypedSees(l, g, vis); TypedSees(r, g, vis);
    case Unary(_, a) => TypedSees(a, g, vis);
    case Cond(c, t, f, _) => TypedSees(c, g, vis); TypedSees(t, g, vis); TypedSees(f, g, vis);
    case _ =>
  }

  // ---------- variables ----------

  lemma Push(vars: seq<CVar>, v: CVar)
    ensures EnvOf(vars + [v]) == EnvOf(vars)[v.name := I(v.val)]
    ensures Cut(vars + [v], |vars|) == vars
  {
    assert (vars + [v])[..|vars|] == vars;
  }

  lemma PutPush(vars: seq<CVar>, v: CVar, x: string, a: int)
    ensures Put(vars + [v], x, a) == if v.name == x then vars + [CVar(x, a)] else Put(vars, x, a) + [v]
  {
    assert (vars + [v])[..|vars|] == vars;
  }

  lemma NameValue(x: string, vars: seq<CVar>)
    requires x in EnvOf(vars)
    ensures Value(Name(x), vars) == Enc(EnvOf(vars)[x])
  {
  }

  lemma NamesPush(s: seq<string>, x: string)
    ensures Names(s + [x]) == Names(s) + {x}
  {
    forall y ensures y in s + [x] <==> y in s || y == x {}
  }

  lemma {:induction false} BoundEnv(params: seq<string>, args: seq<int>)
    requires |params| == |args| && Distinct(params)
    ensures EnvOf(Bound(params, args)).Keys == Names(params)
    ensures forall i :: 0 <= i < |params| ==> EnvOf(Bound(params, args))[params[i]] == I(args[i])
    decreases |params|
  {
    hide Names;
    if params == [] {
      EmptyNames();
    } else {
      var k := |params| - 1;
      var ps, given := params[..k], args[..k];
      BoundEnv(ps, given);
      assert params == ps + [params[k]] && args == given + [args[k]];
      BoundPush(ps, given, params[k], args[k]);
      NamesPush(ps, params[k]);
    }
  }

  lemma EmptyNames()
    ensures Names([]) == {}
  {
  }

  lemma BoundPush(params: seq<string>, args: seq<int>, x: string, a: int)
    requires |params| == |args|
    ensures EnvOf(Bound(params + [x], args + [a])) == EnvOf(Bound(params, args))[x := I(a)]
  {
    assert Bound(params + [x], args + [a]) == Bound(params, args) + [CVar(x, a)];
    Push(Bound(params, args), CVar(x, a));
  }

  /** The parameters and the count. */
  function Start(params: seq<string>, args: seq<int>, n: int): seq<CVar>
    requires |params| == |args|
  {
    Bound(params, args) + [CVar("n", n)]
  }

  lemma StartIs(params: seq<string>, args: seq<int>, n: int)
    requires |params| == |args|
    ensures Bound(params + ["n"], args + [n]) == Start(params, args, n)
  {
  }
}
