/** Which names a generator may use with the C backend. */
module StreamNames {
  import opened Bits
  import opened Ir
  import opened IrLower
  import opened IrLowerCorrect
  import opened StreamC

  /** The emitted function declares `n`, `i` and, for two seeds, `t`; binders share a
      scope with the parameters; an index binder has to be called `i`. */
  predicate NamesApart(params: seq<string>, binders: seq<string>, index: Option<string>) {
    "n" !in params && (forall b :: b in binders ==> b !in params && b != "n" && b != "i") &&
    (|binders| == 2 ==> "t" !in params && "t" !in binders) &&
    ("i" in params ==> index == Some("i")) && (index.Some? ==> index.value == "i")
  }

  predicate Apart(g: Generator) { NamesApart(g.params, g.binders, g.index) }

  /** The binders are apart from everything the emitted function declares. */
  predicate BindersApart(g: Generator) {
    "n" !in g.params && forall k :: 0 <= k < |g.binders| ==>
      g.binders[k] !in g.params && g.binders[k] != "n" && g.binders[k] != "i" &&
      (|g.binders| == 2 ==> g.binders[k] != "t")
  }

  lemma ApartBinders(g: Generator)
    requires Apart(g)
    ensures BindersApart(g)
  {
    forall k | 0 <= k < |g.binders| ensures g.binders[k] in g.binders {}
  }

  // ---------- compiling ----------

  lemma ApartCompiles(g: Generator)
    requires Checked(g) && Apart(g)
    ensures FuncCompiles(EmitStreamGen(g))
  {
    var f := EmitStreamGen(g);
    var vis := Names(f.params);
    assert vis == Names(g.params) + {"n"} by {
      forall x ensures x in vis <==> x in Names(g.params) || x == "n"
        { assert x in f.params <==> x in g.params || x == "n"; }
    }
    var b0 := g.binders[0];
    assert b0 in g.binders;
    TypedSees(g.seeds[0], Ints(Names(g.params)), vis);
    if |g.seeds| == 1 {
      TypedSees(g.seeds[0], Ints(Names(g.params)), vis + {b0});
      assert Names(g.binders) == {b0};
      TypedSees(g.rule, Ints(RuleNames(g)), vis + {b0} + {"i"});
      OneCompiles(g, vis);
    } else {
      var b1 := g.binders[1];
      assert b1 in g.binders && Names(g.binders) == {b0, b1};
      TypedSees(g.seeds[1], Ints(Names(g.params)), vis);
      TypedSees(g.seeds[1], Ints(Names(g.params)), vis + {b0});
      TypedSees(g.seeds[0], Ints(Names(g.params)), vis + {b0} + {b1});
      TypedSees(g.rule, Ints(RuleNames(g)), vis + {b0} + {b1} + {"i"} + {"t"});
      TwoCompiles(g, vis);
    }
  }

  lemma OneCompiles(g: Generator, vis: set<string>)
    requires |g.seeds| == |g.binders| == 1 && "n" in vis && g.binders[0] !in vis
    requires Sees(g.seeds[0], vis + {g.binders[0]}) && Sees(g.rule, vis + {g.binders[0]} + {"i"})
    ensures Compiles(EmitStreamGen(g).body, vis, vis)
  {
    var body := EmitStreamGen(g).body;
    var b0 := g.binders[0];
    var vis1 := vis + {b0};
    assert Compiles(WindowLoop(g).body, vis1 + {"i"}, {}) by {
      assert WindowLoop(g).body == [Store(b0, g.rule)];
    }
    assert body[1..][1..][1..][1..] == [Return(Name(b0))];
    assert Compiles([Return(Name(b0))], vis1, vis1);
    assert body[1..][1..][1..][0] == WindowLoop(g);
    assert Compiles(body[1..][1..][1..], vis1, vis1);
    assert Compiles(body[1..][1..], vis1, vis1);
    assert Compiles(body[1..], vis, vis);
  }

  lemma TwoCompiles(g: Generator, vis: set<string>)
    requires |g.seeds| == |g.binders| == 2 && "n" in vis && g.binders[0] !in vis && g.binders[1] !in vis &&
      g.binders[0] != g.binders[1]
    requires Sees(g.seeds[0], vis) && Sees(g.seeds[1], vis)
    requires Sees(g.seeds[1], vis + {g.binders[0]}) && Sees(g.seeds[0], vis + {g.binders[0]} + {g.binders[1]})
    requires Sees(g.rule, vis + {g.binders[0]} + {g.binders[1]} + {"i"} + {"t"})
    ensures Compiles(EmitStreamGen(g).body, vis, vis)
  {
    var body := EmitStreamGen(g).body;
    var b0, b1 := g.binders[0], g.binders[1];
    var vis1 := vis + {b0};
    var vis2 := vis1 + {b1};
    var loop := WindowLoop(g).body;
    assert loop[1..][1..] == [Store(b0, Name("t"))] && loop[1..][0] == Store(b1, Name(b0));
    assert Compiles(loop[1..][1..], vis2 + {"i"} + {"t"}, {} + {"t"});
    assert Compiles(loop[1..], vis2 + {"i"} + {"t"}, {} + {"t"});
    assert Compiles(loop, vis2 + {"i"}, {});
    var tail := body[1..][1..][1..];
    assert tail[0] == Decl(b0, g.seeds[1]) && tail[1..][0] == Decl(b1, g.seeds[0]) &&
      tail[1..][1..][0] == WindowLoop(g);
    assert tail[1..][1..][1..] == [Return(Name(b0))];
    assert Compiles([Return(Name(b0))], vis2, vis2);
    assert Compiles(tail[1..][1..], vis2, vis2);
    assert Compiles(tail[1..], vis1, vis1);
    assert Compiles(tail, vis, vis);
    assert Compiles(body[1..][1..], vis, vis);
    assert Compiles(body[1..], vis, vis);
  }

  // ---------- values ----------

  function Given(g: Generator, args: seq<int>): Env
    requires |args| == |g.params|
  {
    EnvOf(Bound(g.params, args))
  }

  /** The parameters are visible. */
  predicate ShowsParams(g: Generator, args: seq<int>, vars: seq<CVar>)
    requires |args| == |g.params|
  {
    forall x :: x in g.params ==> x in Given(g, args) && x in EnvOf(vars) && EnvOf(vars)[x] == Given(g, args)[x]
  }

  lemma SeedValue(g: Generator, k: nat, args: seq<int>, vars: seq<CVar>)
    requires Checked(g) && |args| == |g.params| && k < |g.seeds| && ShowsParams(g, args, vars)
    ensures Value(g.seeds[k], vars) == Enc(Eval(g.seeds[k], Given(g, args)))
  {
    SameValue(g.seeds[k], Ints(Names(g.params)), EnvOf(vars), Given(g, args));
  }

  lemma StartShows(g: Generator, args: seq<int>, n: int)
    requires Checked(g) && |args| == |g.params| && "n" !in g.params
    ensures var v := Start(g.params, args, n);
      ShowsParams(g, args, v) && Value(COUNT, v) == n && EnvOf(v) == Given(g, args)["n" := I(n)]
  {
    BoundEnv(g.params, args);
    Push(Bound(g.params, args), CVar("n", n));
  }

  /** The tests of the count before the loop. */
  lemma CountTests(vars: seq<CVar>, n: int, k: int)
    requires "n" in EnvOf(vars) && EnvOf(vars)["n"] == I(n)
    ensures Value(CountIs(CmpLt, k), vars) == Truth(n < k) && Value(CountIs(CmpEq, k), vars) == Truth(n == k)
  {
    assert Eval(COUNT, EnvOf(vars)) == I(n) && Eval(Lit(k), EnvOf(vars)) == I(k);
  }

  lemma CutAll(vars: seq<CVar>)
    ensures Cut(vars, |vars|) == vars
  {
  }

  /** The values the emitted loop goes through: the rule sees the variables of the
      emitted function, `t` among them before it has a value. */
  function EmittedTerm(g: Generator, args: seq<int>, n: int, junk: Junk, k: nat): int
    requires 1 <= |g.seeds| == |g.binders| <= 2 && |args| == |g.params|
    decreases k
  {
    if k < |g.seeds| then Enc(Eval(g.seeds[k], Given(g, args)))
    else if |g.seeds| == 1 then Value(g.rule, OneVars(g, args, n, EmittedTerm(g, args, n, junk, k - 1), k))
    else
      var x, y := EmittedTerm(g, args, n, junk, k - 1), EmittedTerm(g, args, n, junk, k - 2);
      Value(g.rule, TwoVars(g, args, n, x, y, k) + [CVar("t", junk(k))])
  }

  // ---------- one seed ----------

  function OneVars(g: Generator, args: seq<int>, n: int, x: int, i: int): seq<CVar>
    requires |g.binders| == 1 && |args| == |g.params|
  {
    Start(g.params, args, n) + [CVar(g.binders[0], x)] + [CVar("i", i)]
  }

  lemma OneEnv(g: Generator, args: seq<int>, n: int, x: int, i: int)
    requires Checked(g) && BindersApart(g) && |g.binders| == 1 && |args| == |g.params|
    ensures EnvOf(OneVars(g, args, n, x, i)) == Given(g, args)["n" := I(n)][g.binders[0] := I(x)]["i" := I(i)]
  {
    hide Checked;
    var v0 := Start(g.params, args, n);
    Push(Bound(g.params, args), CVar("n", n));
    Push(v0, CVar(g.binders[0], x));
    Push(v0 + [CVar(g.binders[0], x)], CVar("i", i));
  }

  lemma OneReads(g: Generator, args: seq<int>, n: int, x: int, i: int)
    requires Checked(g) && BindersApart(g) && |g.binders| == 1 && |args| == |g.params|
    ensures var v := OneVars(g, args, n, x, i); Value(Name("i"), v) == i && Value(COUNT, v) == n
  {
    hide EnvOf, TypeOf, Emittable, OneVars;
    OneEnv(g, args, n, x, i);
    NameValue("i", OneVars(g, args, n, x, i));
    NameValue("n", OneVars(g, args, n, x, i));
  }

  lemma OneRule(g: Generator, args: seq<int>, n: int, x: int, i: int)
    requires Checked(g) && Apart(g) && |g.binders| == 1 && |args| == |g.params|
    ensures var v := OneVars(g, args, n, x, i);
      Value(g.rule, v) == Enc(Eval(g.rule, SourceEnv(g, Given(g, args), x, 0, i)))
  {
    hide EnvOf, TypeOf, Emittable, OneVars;
    ApartBinders(g);
    var b0 := g.binders[0];
    OneEnv(g, args, n, x, i);
    BoundEnv(g.params, args);
    var e1, e2 := EnvOf(OneVars(g, args, n, x, i)), SourceEnv(g, Given(g, args), x, 0, i);
    forall y | y in RuleNames(g) ensures y in e1 && y in e2 && e1[y] == e2[y] {
      if y in g.binders { assert y == b0; }
    }
    SameValue(g.rule, Ints(RuleNames(g)), e1, e2);
  }

  lemma OnePut(g: Generator, args: seq<int>, n: int, x: int, i: int, a: int)
    requires Checked(g) && BindersApart(g) && |g.binders| == 1 && |args| == |g.params|
    ensures Put(OneVars(g, args, n, x, i), g.binders[0], a) == OneVars(g, args, n, a, i)
    ensures Put(OneVars(g, args, n, x, i), "i", a) == OneVars(g, args, n, x, a)
  {
    hide Put, Checked, NamesApart;
    var b0 := g.binders[0];
    var v0 := Start(g.params, args, n);
    PutPush(v0 + [CVar(b0, x)], CVar("i", i), b0, a);
    PutPush(v0, CVar(b0, x), b0, a);
    PutPush(v0 + [CVar(b0, x)], CVar("i", i), "i", a);
  }

  lemma OneBody(g: Generator, args: seq<int>, n: int, x: int, i: int, d: nat, junk: Junk, fuel: nat)
    requires Checked(g) && BindersApart(g) && |g.binders| == 1 && |args| == |g.params|
    ensures ExecAll(WindowLoop(g).body, OneVars(g, args, n, x, i), d, junk, fuel) ==
            Next(OneVars(g, args, n, Value(g.rule, OneVars(g, args, n, x, i)), i), d)
  {
    hide Eval, EnvOf, Checked, Put, OneVars;
    OnePut(g, args, n, x, i, Value(g.rule, OneVars(g, args, n, x, i)));
    assert WindowLoop(g).body[1..] == [];
  }

  lemma {:induction false} OneLoop(g: Generator, args: seq<int>, n: nat, k: nat, d: nat, junk: Junk, fuel: nat)
    requires Checked(g) && BindersApart(g) && |g.binders| == 1 && |args| == |g.params|
    requires 1 <= k <= n + 1 && n + 1 < TWO63 && fuel + k > n + 1
    ensures Iterate(WindowLoop(g), OneVars(g, args, n, EmittedTerm(g, args, n, junk, k - 1), k), d, junk, fuel) ==
            Next(OneVars(g, args, n, EmittedTerm(g, args, n, junk, n), n + 1), d)
    decreases n + 1 - k
  {
    hide Eval, EnvOf, ExecAll, EmittedTerm, OneVars, Put, TypeOf, Emittable;
    var x := EmittedTerm(g, args, n, junk, k - 1);
    OneReads(g, args, n, x, k);
    if k <= n {
      OneBody(g, args, n, x, k, d, junk, fuel);
      var x1 := EmittedTerm(g, args, n, junk, k);
      OneNext(g, args, n, junk, k);
      CutAll(OneVars(g, args, n, x1, k));
      OneReads(g, args, n, x1, k);
      OnePut(g, args, n, x1, k, k + 1);
      assert Wrap64(k + 1) == k + 1;
      OneLoop(g, args, n, k + 1, d, junk, fuel - 1);
    }
  }

  lemma OneNext(g: Generator, args: seq<int>, n: nat, junk: Junk, k: nat)
    requires Checked(g) && |g.binders| == 1 && |args| == |g.params| && k >= 1
    ensures var x, x1 := EmittedTerm(g, args, n, junk, k - 1), EmittedTerm(g, args, n, junk, k);
      x1 == Value(g.rule, OneVars(g, args, n, x, k)) && |OneVars(g, args, n, x, k)| == |OneVars(g, args, n, x1, k)|
  {
  }

  lemma OneRuns(g: Generator, args: seq<int>, n: int, junk: Junk, fuel: nat)
    requires Checked(g) && BindersApart(g) && |g.binders| == 1 && |args| == |g.params| && n + 1 < TWO63 && fuel > n
    ensures Call(EmitStreamGen(g), args + [n], junk, fuel) ==
      Returned(if n < 0 then 0 else EmittedTerm(g, args, n, junk, n))
  {
    hide Iterate, Eval, TypeOf, Emittable;
    var body := EmitStreamGen(g).body;
    var v0 := Start(g.params, args, n);
    StartIs(g.params, args, n);
    StartShows(g, args, n);
    CountTests(v0, n, 0);
    if n < 0 {
      LitValue(0, v0);
      assert ExecAll(body, v0, 0, junk, fuel) == Returned(0);
    } else {
      assert ExecAll(body, v0, 0, junk, fuel) == ExecAll(body[1..], v0, 0, junk, fuel);
      OneWindow(g, args, n, body[1..], junk, fuel);
    }
  }

  lemma LitValue(k: int, vars: seq<CVar>)
    ensures Value(Lit(k), vars) == k
  {
  }

  lemma FirstTerm(g: Generator, args: seq<int>, n: int, junk: Junk)
    requires Checked(g) && |args| == |g.params|
    ensures EmittedTerm(g, args, n, junk, 0) == Enc(Eval(g.seeds[0], Given(g, args)))
  {
  }

  lemma OneWindow(g: Generator, args: seq<int>, n: nat, s1: seq<CStmt>, junk: Junk, fuel: nat)
    requires Checked(g) && BindersApart(g) && |g.binders| == 1 && |args| == |g.params| && n + 1 < TWO63 && fuel > n
    requires s1 == [Decl(g.binders[0], g.seeds[0]), ReturnIf(CountIs(CmpEq, 0), Name(g.binders[0])), WindowLoop(g),
      Return(Name(g.binders[0]))]
    ensures ExecAll(s1, Start(g.params, args, n), 0, junk, fuel) == Returned(EmittedTerm(g, args, n, junk, n))
  {
    hide Iterate, Eval, TypeOf, Emittable, EmittedTerm, Names;
    var b0 := g.binders[0];
    var v0 := Start(g.params, args, n);
    StartShows(g, args, n);
    var x := EmittedTerm(g, args, n, junk, 0);
    Push(v0, CVar(b0, junk(0)));
    SeedValue(g, 0, args, v0 + [CVar(b0, junk(0))]);
    FirstTerm(g, args, n, junk);
    var v1 := v0 + [CVar(b0, x)];
    Push(v0, CVar(b0, x));
    NameValue(b0, v1);
    CountTests(v1, n, 0);
    var s2, s3 := s1[1..], s1[1..][1..];
    assert s2[0] == ReturnIf(CountIs(CmpEq, 0), Name(b0)) && s3[0] == WindowLoop(g) && s3[1..] == [Return(Name(b0))];
    assert ExecAll(s1, v0, 0, junk, fuel) == ExecAll(s2, v1, 1, junk, fuel);
    if n > 0 {
      assert ExecAll(s2, v1, 1, junk, fuel) == ExecAll(s3, v1, 1, junk, fuel);
      OneLoop(g, args, n, 1, 1, junk, fuel);
      var xn := EmittedTerm(g, args, n, junk, n);
      var v2 := v0 + [CVar(b0, xn)];
      assert v1 + [CVar("i", 1)] == OneVars(g, args, n, x, 1);
      Push(v2, CVar("i", n + 1));
      assert Cut(OneVars(g, args, n, xn, n + 1), |v1|) == v2;
      Push(v0, CVar(b0, xn));
      NameValue(b0, v2);
      assert StreamC.Exec(WindowLoop(g), v1, 1, junk, fuel) == Next(v2, 1);
      assert ExecAll(s3, v1, 1, junk, fuel) == ExecAll(s3[1..], v2, 1, junk, fuel);
      assert StreamC.Exec(s3[1..][0], v2, 1, junk, fuel) == Returned(xn);
    }
  }

  // ---------- two seeds ----------

  function TwoVars(g: Generator, args: seq<int>, n: int, x: int, y: int, i: int): seq<CVar>
    requires |g.binders| == 2 && |args| == |g.params|
  {
    Start(g.params, args, n) + [CVar(g.binders[0], x)] + [CVar(g.binders[1], y)] + [CVar("i", i)]
  }

  lemma TwoEnv(g: Generator, args: seq<int>, n: int, x: int, y: int, i: int)
    requires Checked(g) && BindersApart(g) && |g.binders| == 2 && |args| == |g.params|
    ensures EnvOf(TwoVars(g, args, n, x, y, i)) ==
            Given(g, args)["n" := I(n)][g.binders[0] := I(x)][g.binders[1] := I(y)]["i" := I(i)]
  {
    hide Checked, NamesApart;
    var b0, b1 := g.binders[0], g.binders[1];
    var v0 := Start(g.params, args, n);
    Push(Bound(g.params, args), CVar("n", n));
    Push(v0, CVar(b0, x));
    Push(v0 + [CVar(b0, x)], CVar(b1, y));
    Push(v0 + [CVar(b0, x)] + [CVar(b1, y)], CVar("i", i));
  }

  lemma TwoReads(g: Generator, args: seq<int>, n: int, x: int, y: int, i: int, t: int)
    requires Checked(g) && BindersApart(g) && |g.binders| == 2 && |args| == |g.params|
    ensures var v := TwoVars(g, args, n, x, y, i);
      Value(Name("i"), v) == i && Value(COUNT, v) == n &&
      Value(Name(g.binders[0]), v + [CVar("t", t)]) == x && Value(Name("t"), v + [CVar("t", t)]) == t
  {
    hide EnvOf, TypeOf, Emittable, TwoVars;
    var v := TwoVars(g, args, n, x, y, i);
    TwoEnv(g, args, n, x, y, i);
    Push(v, CVar("t", t));
    NameValue("i", v);
    NameValue("n", v);
    NameValue(g.binders[0], v + [CVar("t", t)]);
    NameValue("t", v + [CVar("t", t)]);
  }

  lemma TwoRule(g: Generator, args: seq<int>, n: int, x: int, y: int, i: int, t: int)
    requires Checked(g) && Apart(g) && |g.binders| == 2 && |args| == |g.params|
    ensures var v := TwoVars(g, args, n, x, y, i);
      Value(g.rule, v + [CVar("t", t)]) == Enc(Eval(g.rule, SourceEnv(g, Given(g, args), x, y, i)))
  {
    hide EnvOf, TypeOf, Emittable, TwoVars;
    ApartBinders(g);
    var b0, b1 := g.binders[0], g.binders[1];
    TwoEnv(g, args, n, x, y, i);
    BoundEnv(g.params, args);
    Push(TwoVars(g, args, n, x, y, i), CVar("t", t));
    var e1, e2 := EnvOf(TwoVars(g, args, n, x, y, i) + [CVar("t", t)]), SourceEnv(g, Given(g, args), x, y, i);
    forall z | z in RuleNames(g) ensures z in e1 && z in e2 && e1[z] == e2[z] {
      if z in g.binders { assert z == b0 || z == b1; }
    }
    SameValue(g.rule, Ints(RuleNames(g)), e1, e2);
  }

  lemma TwoPut(g: Generator, args: seq<int>, n: int, x: int, y: int, i: int, t: int, a: int)
    requires Checked(g) && BindersApart(g) && |g.binders| == 2 && |args| == |g.params|
    ensures var v := TwoVars(g, args, n, x, y, i);
      Put(v + [CVar("t", t)], g.binders[1], a) == TwoVars(g, args, n, x, a, i) + [CVar("t", t)] &&
      Put(v + [CVar("t", t)], g.binders[0], a) == TwoVars(g, args, n, a, y, i) + [CVar("t", t)] &&
      Put(v, "i", a) == TwoVars(g, args, n, x, y, a) && Cut(v + [CVar("t", t)], |v|) == v
  {
    hide Put, NamesApart;
    var b0, b1 := g.binders[0], g.binders[1];
    var v0 := Start(g.params, args, n);
    var v1, v2 := v0 + [CVar(b0, x)], v0 + [CVar(b0, x)] + [CVar(b1, y)];
    var v3 := v2 + [CVar("i", i)];
    Push(v3, CVar("t", t));
    PutPush(v3, CVar("t", t), b1, a);
    PutPush(v2, CVar("i", i), b1, a);
    PutPush(v1, CVar(b1, y), b1, a);
    PutPush(v3, CVar("t", t), b0, a);
    PutPush(v2, CVar("i", i), b0, a);
    PutPush(v1, CVar(b1, y), b0, a);
    PutPush(v0, CVar(b0, x), b0, a);
    PutPush(v2, CVar("i", i), "i", a);
  }

  lemma TwoBody(g: Generator, args: seq<int>, n: int, x: int, y: int, i: int, d: nat, junk: Junk, fuel: nat)
    requires Checked(g) && BindersApart(g) && |g.binders| == 2 && |args| == |g.params|
    ensures var x1 := Value(g.rule, TwoVars(g, args, n, x, y, i) + [CVar("t", junk(d))]);
      ExecAll(WindowLoop(g).body, TwoVars(g, args, n, x, y, i), d, junk, fuel) ==
      Next(TwoVars(g, args, n, x1, x, i) + [CVar("t", x1)], d + 1)
  {
    hide Eval, EnvOf, Put, Cut, TwoVars, TypeOf, Emittable;
    var b0, b1 := g.binders[0], g.binders[1];
    var v := TwoVars(g, args, n, x, y, i);
    var x1 := Value(g.rule, v + [CVar("t", junk(d))]);
    TwoReads(g, args, n, x, y, i, x1);
    TwoPut(g, args, n, x, y, i, x1, x);
    TwoReads(g, args, n, x, x, i, x1);
    TwoPut(g, args, n, x, x, i, x1, x1);
    var body := WindowLoop(g).body;
    assert body[1..][0] == Store(b1, Name(b0)) && body[1..][1..][0] == Store(b0, Name("t")) &&
      body[1..][1..][1..] == [];
    assert ExecAll(body, v, d, junk, fuel) == ExecAll(body[1..], v + [CVar("t", x1)], d + 1, junk, fuel);
    assert ExecAll(body[1..], v + [CVar("t", x1)], d + 1, junk, fuel) ==
           ExecAll(body[1..][1..], TwoVars(g, args, n, x, x, i) + [CVar("t", x1)], d + 1, junk, fuel);
  }

  lemma {:induction false} TwoLoop(g: Generator, args: seq<int>, n: nat, k: nat, junk: Junk, fuel: nat)
    requires Checked(g) && BindersApart(g) && |g.binders| == 2 && |args| == |g.params|
    requires 2 <= k <= n + 1 && n + 1 < TWO63 && fuel + k > n + 1
    ensures var x, y := EmittedTerm(g, args, n, junk, k - 1), EmittedTerm(g, args, n, junk, k - 2);
      Iterate(WindowLoop(g), TwoVars(g, args, n, x, y, k), k, junk, fuel) ==
      Next(TwoVars(g, args, n, EmittedTerm(g, args, n, junk, n), EmittedTerm(g, args, n, junk, n - 1), n + 1), n + 1)
    decreases n + 1 - k
  {
    hide Eval, EnvOf, ExecAll, EmittedTerm, Put, Cut, TwoVars, TypeOf, Emittable;
    var x, y := EmittedTerm(g, args, n, junk, k - 1), EmittedTerm(g, args, n, junk, k - 2);
    TwoReads(g, args, n, x, y, k, 0);
    if k <= n {
      TwoBody(g, args, n, x, y, k, k, junk, fuel);
      var x1 := EmittedTerm(g, args, n, junk, k);
      TwoNext(g, args, n, junk, k);
      TwoPut(g, args, n, x1, x, k, x1, k + 1);
      TwoReads(g, args, n, x1, x, k, 0);
      assert Wrap64(k + 1) == k + 1;
      TwoLoop(g, args, n, k + 1, junk, fuel - 1);
    }
  }

  lemma TwoNext(g: Generator, args: seq<int>, n: nat, junk: Junk, k: nat)
    requires Checked(g) && |g.binders| == 2 && |args| == |g.params| && k >= 2
    ensures var x, y, x1 := EmittedTerm(g, args, n, junk, k - 1), EmittedTerm(g, args, n, junk, k - 2),
      EmittedTerm(g, args, n, junk, k);
      x1 == Value(g.rule, TwoVars(g, args, n, x, y, k) + [CVar("t", junk(k))]) &&
      |TwoVars(g, args, n, x, y, k)| == |TwoVars(g, args, n, x1, x, k)|
  {
  }

  lemma TwoRuns(g: Generator, args: seq<int>, n: int, junk: Junk, fuel: nat)
    requires Checked(g) && BindersApart(g) && |g.binders| == 2 && |args| == |g.params| && n + 1 < TWO63 && fuel > n
    ensures Call(EmitStreamGen(g), args + [n], junk, fuel) ==
      Returned(if n < 0 then 0 else EmittedTerm(g, args, n, junk, n))
  {
    hide Iterate, Eval, TypeOf, Emittable;
    var body := EmitStreamGen(g).body;
    var v0 := Start(g.params, args, n);
    StartIs(g.params, args, n);
    StartShows(g, args, n);
    CountTests(v0, n, 0);
    CountTests(v0, n, 1);
    if n < 0 {
      LitValue(0, v0);
      assert ExecAll(body, v0, 0, junk, fuel) == Returned(0);
    } else {
      SeedValue(g, 0, args, v0);
      SeedValue(g, 1, args, v0);
      var s1, s2, s3 := body[1..], body[1..][1..], body[1..][1..][1..];
      assert s1[0] == ReturnIf(CountIs(CmpEq, 0), g.seeds[0]) && s2[0] == ReturnIf(CountIs(CmpEq, 1), g.seeds[1]);
      assert ExecAll(body, v0, 0, junk, fuel) == ExecAll(s1, v0, 0, junk, fuel);
      if n > 0 {
        assert ExecAll(s1, v0, 0, junk, fuel) == ExecAll(s2, v0, 0, junk, fuel);
        if n > 1 {
          assert ExecAll(s2, v0, 0, junk, fuel) == ExecAll(s3, v0, 0, junk, fuel);
          TwoWindow(g, args, n, s3, junk, fuel);
        } else {
          assert ExecAll(s2, v0, 0, junk, fuel) == Returned(Value(g.seeds[1], v0));
        }
      } else {
        assert ExecAll(s1, v0, 0, junk, fuel) == Returned(Value(g.seeds[0], v0));
      }
    }
  }

  lemma TwoWindow(g: Generator, args: seq<int>, n: nat, s3: seq<CStmt>, junk: Junk, fuel: nat)
    requires Checked(g) && BindersApart(g) && |g.binders| == 2 && |args| == |g.params| && n + 1 < TWO63 && fuel > n >= 2
    requires s3 == [Decl(g.binders[0], g.seeds[1]), Decl(g.binders[1], g.seeds[0]), WindowLoop(g),
      Return(Name(g.binders[0]))]
    ensures ExecAll(s3, Start(g.params, args, n), 0, junk, fuel) == Returned(EmittedTerm(g, args, n, junk, n))
  {
    hide Iterate, Eval, TypeOf, Emittable, EnvOf;
    var b0, b1 := g.binders[0], g.binders[1];
    var v0 := Start(g.params, args, n);
    var e := Given(g, args);
    var x, y := EmittedTerm(g, args, n, junk, 1), EmittedTerm(g, args, n, junk, 0);
    StartShows(g, args, n);
    Push(v0, CVar(b0, junk(0)));
    Push(v0, CVar(b0, x));
    var v1 := v0 + [CVar(b0, x)];
    Push(v1, CVar(b1, junk(1)));
    SeedValue(g, 1, args, v0 + [CVar(b0, junk(0))]);
    SeedValue(g, 0, args, v1 + [CVar(b1, junk(1))]);
    var v2 := v1 + [CVar(b1, y)];
    assert s3[1..][0] == Decl(b1, g.seeds[0]) && s3[1..][1..][0] == WindowLoop(g) &&
      s3[1..][1..][1..] == [Return(Name(b0))];
    assert ExecAll(s3, v0, 0, junk, fuel) == ExecAll(s3[1..], v1, 1, junk, fuel);
    assert ExecAll(s3[1..], v1, 1, junk, fuel) == ExecAll(s3[1..][1..], v2, 2, junk, fuel);
    TwoLoop(g, args, n, 2, junk, fuel);
    assert v2 + [CVar("i", 2)] == TwoVars(g, args, n, x, y, 2);
    var d := Iterate(WindowLoop(g), v2 + [CVar("i", 2)], 2, junk, fuel).decls;
    var xn, yn := EmittedTerm(g, args, n, junk, n), EmittedTerm(g, args, n, junk, n - 1);
    TwoEnds(g, args, n, xn, yn, d, junk, fuel);
    assert StreamC.Exec(WindowLoop(g), v2, 2, junk, fuel) == Next(v0 + [CVar(b0, xn)] + [CVar(b1, yn)], d);
  }

  /** After the loop the newest term is returned. */
  lemma TwoEnds(g: Generator, args: seq<int>, n: int, x: int, y: int, d: nat, junk: Junk, fuel: nat)
    requires Checked(g) && BindersApart(g) && |g.binders| == 2 && |args| == |g.params|
    ensures var v := Start(g.params, args, n) + [CVar(g.binders[0], x)] + [CVar(g.binders[1], y)];
      Cut(TwoVars(g, args, n, x, y, n + 1), |v|) == v &&
      ExecAll([Return(Name(g.binders[0]))], v, d, junk, fuel) == Returned(x)
  {
    hide TypeOf, Emittable, NamesApart;
    var b0, b1 := g.binders[0], g.binders[1];
    var v0 := Start(g.params, args, n);
    var v3 := v0 + [CVar(b0, x)] + [CVar(b1, y)];
    Push(v3, CVar("i", n + 1));
    Push(v0, CVar(b0, x));
    Push(v0 + [CVar(b0, x)], CVar(b1, y));
    NameValue(b0, v3);
  }

  // ---------- the emitted function against the source ----------

  /** With binders apart from its own names the emitted function returns the values
      its loop goes through. */
  lemma EmittedRuns(g: Generator, args: seq<int>, n: int, junk: Junk, fuel: nat)
    requires Checked(g) && BindersApart(g) && |args| == |g.params| && n + 1 < TWO63 && fuel > n
    ensures Call(EmitStreamGen(g), args + [n], junk, fuel) ==
      Returned(if n < 0 then 0 else EmittedTerm(g, args, n, junk, n))
  {
    if |g.binders| == 1 { OneRuns(g, args, n, junk, fuel); } else { TwoRuns(g, args, n, junk, fuel); }
  }

  lemma {:induction false} ApartTerm(g: Generator, args: seq<int>, n: int, junk: Junk, k: nat)
    requires Checked(g) && Apart(g) && |args| == |g.params|
    ensures EmittedTerm(g, args, n, junk, k) == SourceTerm(g, Given(g, args), k)
    decreases k
  {
    hide Eval, SourceEnv, NamesApart, TypeOf, Emittable, Value, OneVars, TwoVars;
    if k >= |g.seeds| {
      ApartTerm(g, args, n, junk, k - 1);
      var e := Given(g, args);
      if |g.seeds| == 1 {
        OneRule(g, args, n, SourceTerm(g, e, k - 1), k);
      } else {
        ApartTerm(g, args, n, junk, k - 2);
        TwoRule(g, args, n, SourceTerm(g, e, k - 1), SourceTerm(g, e, k - 2), k, junk(k));
      }
    }
  }

  /** Sufficient: with such names the emitted function compiles and returns the terms. */
  lemma ApartWorks(g: Generator, args: seq<int>, n: int, junk: Junk, fuel: nat)
    requires Checked(g) && Apart(g) && |args| == |g.params| && n + 1 < TWO63 && fuel > n
    ensures Works(g, args, n, junk, fuel)
  {
    ApartCompiles(g);
    ApartBinders(g);
    EmittedRuns(g, args, n, junk, fuel);
    if n >= 0 { ApartTerm(g, args, n, junk, n); }
  }
}
