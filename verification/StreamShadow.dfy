/** Every other choice of names breaks some generator: for each there is an accepted
    generator with those names whose emitted function does not compile, or returns
    something other than its terms. */
module StreamShadow {
  import opened Bits
  import opened Ir
  import opened IrLower
  import opened IrLowerCorrect
  import opened StreamC
  import opened StreamNames

  /** The names are right for every generator, argument list, index and uninitialised
      value. */
  ghost predicate NamesWork(params: seq<string>, binders: seq<string>, index: Option<string>) {
    forall g: Generator, args: seq<int>, n: int, junk: Junk, fuel: nat ::
      g.params == params && g.binders == binders && g.index == index && Checked(g) && |args| == |params| &&
      n + 1 < TWO63 && fuel > n
      ==> Works(g, args, n, junk, fuel)
  }

  /** A call of a generator with these names that fails. */
  ghost predicate Fails(g: Generator, args: seq<int>, n: int, junk: Junk, fuel: nat) {
    Checked(g) && |args| == |g.params| && n + 1 < TWO63 && fuel > n && !Works(g, args, n, junk, fuel)
  }

  datatype Case = Case(g: Generator, args: seq<int>, n: int, junk: Junk, fuel: nat)

  ghost predicate Broken(c: Case) { Fails(c.g, c.args, c.n, c.junk, c.fuel) }

  /** A generator with constant seeds, called with zeros. */
  function Constant(params: seq<string>, binders: seq<string>, index: Option<string>, s0: int, s1: int,
      rule: Expr): Generator {
    Generator(params, if |binders| == 1 then [Lit(s0)] else [Lit(s0), Lit(s1)], binders, index, rule)
  }

  function Zeros(params: seq<string>): (r: seq<int>)
    ensures |r| == |params|
  {
    seq(|params|, i => 0)
  }

  lemma ConstantChecked(params: seq<string>, binders: seq<string>, index: Option<string>, s0: int, s1: int, rule: Expr)
    requires NamesAccepted(params, binders, index) && -10 <= s0 <= 10 && -10 <= s1 <= 10
    requires var g := Constant(params, binders, index, s0, s1, rule);
      (rule.Lit? && -10 <= rule.n <= 10) || (rule.Name? && rule.x in RuleNames(g)) ||
      (rule.Binary? && rule.op == Add && rule.l.Name? && rule.r.Name? && rule.l.x in RuleNames(g) &&
        rule.r.x in RuleNames(g))
    ensures Checked(Constant(params, binders, index, s0, s1, rule))
  {
  }

  // ---------- what does not compile ----------

  /** If the function compiles, its binders are new names and the rule sees only what is declared. */
  lemma CompilesOnly(g: Generator, own: set<string>)
    requires 1 <= |g.seeds| == |g.binders| <= 2 && Compiles(EmitStreamGen(g).body, own, own)
    ensures g.binders[0] !in own && (|g.binders| == 2 ==> g.binders[1] !in own)
    ensures Sees(g.rule, if |g.binders| == 1 then own + {g.binders[0]} + {"i"}
      else own + {g.binders[0]} + {g.binders[1]} + {"i"} + {"t"})
  {
    hide Sees;
    var body := EmitStreamGen(g).body;
    assert Compiles(body[1..], own, own);
    assert Compiles(body[1..][1..], own, own) || |g.binders| == 1;
    var loop := WindowLoop(g);
    if |g.binders| == 1 {
      var vis := own + {g.binders[0]};
      assert body[1..][0] == Decl(g.binders[0], g.seeds[0]) && body[1..][1..][1..][0] == loop;
      assert Compiles(body[1..][1..], vis, vis);
      assert Compiles(body[1..][1..][1..], vis, vis);
      assert Compiles(loop.body, vis + {"i"}, {});
      assert loop.body[0] == Store(g.binders[0], g.rule);
    } else {
      var vis1, vis2 := own + {g.binders[0]}, own + {g.binders[0]} + {g.binders[1]};
      var s3 := body[1..][1..][1..];
      assert Compiles(s3, own, own);
      assert s3[0] == Decl(g.binders[0], g.seeds[1]) && s3[1..][0] == Decl(g.binders[1], g.seeds[0]) &&
        s3[1..][1..][0] == loop;
      assert Compiles(s3[1..], vis1, vis1);
      assert Compiles(s3[1..][1..], vis2, vis2);
      assert Compiles(loop.body, vis2 + {"i"}, {});
      assert loop.body[0] == Decl("t", g.rule);
    }
  }

  /** A binder that redeclares a parameter or the count, or a parameter called `n`. */
  lemma ClashFails(g: Generator)
    requires 1 <= |g.seeds| == |g.binders| <= 2
    requires "n" in g.params || exists k :: 0 <= k < |g.binders| && (g.binders[k] in g.params || g.binders[k] == "n")
    ensures !FuncCompiles(EmitStreamGen(g))
  {
    hide Compiles;
    var f := EmitStreamGen(g);
    if "n" in g.params {
      var i :| 0 <= i < |g.params| && g.params[i] == "n";
      assert f.params[i] == f.params[|g.params|];
    } else {
      var k :| 0 <= k < |g.binders| && (g.binders[k] in g.params || g.binders[k] == "n");
      assert g.binders[k] in Names(f.params) by { assert g.binders[k] in f.params; }
      if FuncCompiles(f) { CompilesOnly(g, Names(f.params)); }
    }
  }

  /** A rule that names something the emitted function does not declare. */
  lemma UnseenFails(g: Generator)
    requires 1 <= |g.seeds| == |g.binders| <= 2 && g.rule.Name? && g.rule.x !in Names(g.params) + Names(g.binders)
    requires g.rule.x != "n" && g.rule.x != "i" && (|g.binders| == 2 ==> g.rule.x != "t")
    ensures !FuncCompiles(EmitStreamGen(g))
  {
    hide Compiles;
    var f := EmitStreamGen(g);
    var x := g.rule.x;
    assert x !in Names(f.params) by { assert x in f.params ==> x in g.params || x == "n"; }
    forall k | 0 <= k < |g.binders| ensures x != g.binders[k] { assert g.binders[k] in g.binders; }
    if FuncCompiles(f) { CompilesOnly(g, Names(f.params)); }
  }

  /** Names that clash, for every generator. */
  lemma ClashBroken(params: seq<string>, binders: seq<string>, index: Option<string>) returns (c: Case)
    requires NamesAccepted(params, binders, index)
    requires "n" in params || exists k :: 0 <= k < |binders| && (binders[k] in params || binders[k] == "n")
    ensures Broken(c) && c.g.params == params && c.g.binders == binders && c.g.index == index
  {
    var g := Constant(params, binders, index, 0, 0, Lit(0));
    ConstantChecked(params, binders, index, 0, 0, Lit(0));
    ClashFails(g);
    c := Case(g, Zeros(params), 0, i => 0, 1);
  }

  // ---------- binders apart, but other names are not ----------

  lemma TermsGiven(g: Generator, n: nat, junk: Junk)
    requires Checked(g) && BindersApart(g)
    ensures forall k :: 0 <= k < |g.seeds| ==>
      SourceTerm(g, Given(g, Zeros(g.params)), k) == EmittedTerm(g, Zeros(g.params), n, junk, k)
    ensures forall x :: x in g.params ==> x in Given(g, Zeros(g.params)) && Given(g, Zeros(g.params))[x] == I(0)
  {
    BoundEnv(g.params, Zeros(g.params));
    forall x | x in g.params ensures x in Given(g, Zeros(g.params)) && Given(g, Zeros(g.params))[x] == I(0) {
      var i :| 0 <= i < |g.params| && g.params[i] == x;
    }
  }

  /** The first computed term is the value of a name in two different scopes. */
  lemma OneDiffers(g: Generator, s0: int, junk: Junk)
    requires Checked(g) && BindersApart(g) && |g.seeds| == 1 && g.seeds[0] == Lit(s0) && g.rule.Name?
    requires var e := Given(g, Zeros(g.params));
      var e1, e2 := e["n" := I(1)][g.binders[0] := I(s0)]["i" := I(1)], SourceEnv(g, e, s0, 0, 1);
      g.rule.x in e1 && g.rule.x in e2 && Enc(e1[g.rule.x]) != Enc(e2[g.rule.x])
    ensures Fails(g, Zeros(g.params), 1, junk, 2)
  {
    hide EnvOf, SourceEnv, TypeOf, Emittable, BindersApart, OneVars, NamesAccepted;
    var args := Zeros(g.params);
    var e := Given(g, args);
    EmittedRuns(g, args, 1, junk, 2);
    OneEnv(g, args, 1, s0, 1);
    assert Eval(g.seeds[0], e) == I(s0);
    assert EmittedTerm(g, args, 1, junk, 0) == s0 == SourceTerm(g, e, 0);
    assert SourceTerm(g, e, 1) == Enc(Eval(g.rule, SourceEnv(g, e, s0, 0, 1)));
    assert EmittedTerm(g, args, 1, junk, 1) == Value(g.rule, OneVars(g, args, 1, s0, 1));
    NameValue(g.rule.x, OneVars(g, args, 1, s0, 1));
  }

  lemma TwoDiffers(g: Generator, s0: int, s1: int, junk: Junk)
    requires Checked(g) && BindersApart(g) && |g.seeds| == 2 && g.seeds == [Lit(s0), Lit(s1)] && g.rule.Name?
    requires var e := Given(g, Zeros(g.params));
      var e1 := e["n" := I(2)][g.binders[0] := I(s1)][g.binders[1] := I(s0)]["i" := I(2)]["t" := I(junk(2))];
      var e2 := SourceEnv(g, e, s1, s0, 2);
      g.rule.x in e1 && g.rule.x in e2 && Enc(e1[g.rule.x]) != Enc(e2[g.rule.x])
    ensures Fails(g, Zeros(g.params), 2, junk, 3)
  {
    hide EnvOf, SourceEnv, TypeOf, Emittable, BindersApart, TwoVars, NamesAccepted;
    var args := Zeros(g.params);
    var e := Given(g, args);
    EmittedRuns(g, args, 2, junk, 3);
    TwoEnv(g, args, 2, s1, s0, 2);
    Push(TwoVars(g, args, 2, s1, s0, 2), CVar("t", junk(2)));
    assert Eval(g.seeds[0], e) == I(s0) && Eval(g.seeds[1], e) == I(s1);
    assert EmittedTerm(g, args, 2, junk, 0) == s0 == SourceTerm(g, e, 0);
    assert EmittedTerm(g, args, 2, junk, 1) == s1 == SourceTerm(g, e, 1);
    assert SourceTerm(g, e, 2) == Enc(Eval(g.rule, SourceEnv(g, e, s1, s0, 2)));
    assert EmittedTerm(g, args, 2, junk, 2) == Value(g.rule, TwoVars(g, args, 2, s1, s0, 2) + [CVar("t", junk(2))]);
    NameValue(g.rule.x, TwoVars(g, args, 2, s1, s0, 2) + [CVar("t", junk(2))]);
  }

  /** A parameter called `i` without an index binder, a two-seed generator's parameter
      called `t`, or an index binder with another name that the emitted function
      declares: the rule reads the wrong variable. */
  lemma WrongVariable(params: seq<string>, binders: seq<string>, index: Option<string>, x: string) returns (c: Case)
    requires NamesAccepted(params, binders, index)
    requires BindersApart(Constant(params, binders, index, 1, 1, Name(x)))
    requires (x == "i" && "i" in params && index != Some("i")) ||
             (x == "t" && |binders| == 2 && (x in params || index == Some(x))) ||
             (x in params && index == Some(x) && x != "i")
    ensures Broken(c) && c.g.params == params && c.g.binders == binders && c.g.index == index
  {
    var g := Constant(params, binders, index, 1, 1, Name(x));
    ConstantChecked(params, binders, index, 1, 1, Name(x));
    var junk: Junk := i => 7;
    TermsGiven(g, 0, junk);
    assert forall k :: 0 <= k < |binders| ==> binders[k] in binders;
    if |binders| == 1 {
      OneDiffers(g, 1, junk);
      c := Case(g, Zeros(params), 1, junk, 2);
    } else {
      TwoDiffers(g, 1, 1, junk);
      c := Case(g, Zeros(params), 2, junk, 3);
    }
  }

  /** An index binder the emitted function does not declare. */
  lemma IndexUnseen(params: seq<string>, binders: seq<string>, index: Option<string>) returns (c: Case)
    requires NamesAccepted(params, binders, index) && index.Some?
    requires index.value !in params && index.value != "n" && index.value != "i" &&
      (|binders| == 2 ==> index.value != "t")
    ensures Broken(c) && c.g.params == params && c.g.binders == binders && c.g.index == index
  {
    var x := index.value;
    var g := Constant(params, binders, index, 1, 1, Name(x));
    ConstantChecked(params, binders, index, 1, 1, Name(x));
    UnseenFails(g);
    c := Case(g, Zeros(params), 0, i => 0, 1);
  }

  /** An index binder called `n` reads the count: the terms before the last are wrong. */
  lemma IndexIsCount(params: seq<string>, binders: seq<string>) returns (c: Case)
    requires NamesAccepted(params, binders, Some("n"))
    requires BindersApart(Constant(params, binders, Some("n"), 0, 0, Lit(0)))
    ensures Broken(c) && c.g.params == params && c.g.binders == binders && c.g.index == Some("n")
  {
    var b0 := binders[0];
    assert b0 in binders;
    var rule := Binary(Add, Name(b0), Name("n"));
    var g := Constant(params, binders, Some("n"), 0, 0, rule);
    ConstantChecked(params, binders, Some("n"), 0, 0, rule);
    var junk: Junk := i => 0;
    if |binders| == 1 {
      OneCount(g, junk);
      c := Case(g, Zeros(params), 2, junk, 3);
    } else {
      TwoCount(g, junk);
      c := Case(g, Zeros(params), 3, junk, 4);
    }
  }

  lemma OneStep(g: Generator, args: seq<int>, n: int, x: int, i: int)
    requires Checked(g) && BindersApart(g) && |g.seeds| == 1 && |args| == |g.params| && g.index == Some("n")
    requires g.rule == Binary(Add, Name(g.binders[0]), Name("n"))
    ensures Value(g.rule, OneVars(g, args, n, x, i)) == Wrap64(x + n)
    ensures Enc(Eval(g.rule, SourceEnv(g, Given(g, args), x, 0, i))) == Wrap64(x + i)
  {
    hide EnvOf, TypeOf, Emittable, OneVars, NamesAccepted;
    OneEnv(g, args, n, x, i);
    var e1, e2 := EnvOf(OneVars(g, args, n, x, i)), SourceEnv(g, Given(g, args), x, 0, i);
    assert Eval(Name(g.binders[0]), e1) == I(x) == Eval(Name(g.binders[0]), e2);
    assert Eval(Name("n"), e1) == I(n) && Eval(Name("n"), e2) == I(i);
  }

  lemma OneCount(g: Generator, junk: Junk)
    requires Checked(g) && BindersApart(g) && g.seeds == [Lit(0)] && g.index == Some("n")
    requires g.rule == Binary(Add, Name(g.binders[0]), Name("n"))
    ensures Fails(g, Zeros(g.params), 2, junk, 3)
  {
    hide EnvOf, SourceEnv, TypeOf, Emittable, BindersApart, OneVars, NamesAccepted, Value;
    var args := Zeros(g.params);
    var e := Given(g, args);
    EmittedRuns(g, args, 2, junk, 3);
    assert Eval(g.seeds[0], e) == I(0);
    OneStep(g, args, 2, 0, 1);
    assert EmittedTerm(g, args, 2, junk, 1) == 2 && SourceTerm(g, e, 1) == 1;
    OneStep(g, args, 2, 2, 2);
    OneStep(g, args, 2, 1, 2);
    assert EmittedTerm(g, args, 2, junk, 2) == 4 && SourceTerm(g, e, 2) == 3;
  }

  lemma TwoStep(g: Generator, args: seq<int>, n: int, x: int, y: int, i: int, t: int)
    requires Checked(g) && BindersApart(g) && |g.seeds| == 2 && |args| == |g.params| && g.index == Some("n")
    requires g.rule == Binary(Add, Name(g.binders[0]), Name("n"))
    ensures Value(g.rule, TwoVars(g, args, n, x, y, i) + [CVar("t", t)]) == Wrap64(x + n)
    ensures Enc(Eval(g.rule, SourceEnv(g, Given(g, args), x, y, i))) == Wrap64(x + i)
  {
    hide EnvOf, TypeOf, Emittable, TwoVars, NamesAccepted;
    TwoEnv(g, args, n, x, y, i);
    Push(TwoVars(g, args, n, x, y, i), CVar("t", t));
    var e1, e2 := EnvOf(TwoVars(g, args, n, x, y, i) + [CVar("t", t)]), SourceEnv(g, Given(g, args), x, y, i);
    BindersDiffer(g);
    assert Eval(Name(g.binders[0]), e1) == I(x) == Eval(Name(g.binders[0]), e2);
    assert Eval(Name("n"), e1) == I(n) && Eval(Name("n"), e2) == I(i);
  }

  lemma BindersDiffer(g: Generator)
    requires Checked(g) && |g.binders| == 2
    ensures g.binders[0] != g.binders[1]
  {
  }

  lemma TwoCount(g: Generator, junk: Junk)
    requires Checked(g) && BindersApart(g) && g.seeds == [Lit(0), Lit(0)] && g.index == Some("n")
    requires g.rule == Binary(Add, Name(g.binders[0]), Name("n"))
    ensures Fails(g, Zeros(g.params), 3, junk, 4)
  {
    hide EnvOf, SourceEnv, TypeOf, Emittable, BindersApart, TwoVars, NamesAccepted, Value;
    var args := Zeros(g.params);
    var e := Given(g, args);
    EmittedRuns(g, args, 3, junk, 4);
    assert Eval(g.seeds[0], e) == I(0) && Eval(g.seeds[1], e) == I(0);
    TwoStep(g, args, 3, 0, 0, 2, junk(2));
    assert EmittedTerm(g, args, 3, junk, 2) == 3 && SourceTerm(g, e, 2) == 2;
    TwoStep(g, args, 3, 3, 0, 3, junk(3));
    TwoStep(g, args, 3, 2, 0, 3, junk(3));
    assert EmittedTerm(g, args, 3, junk, 3) == 6 && SourceTerm(g, e, 3) == 5;
  }

  // ---------- binders called `i` or `t` ----------

  /** Only the innermost variable of a name is read and written. */
  lemma {:induction false} Innermost(vars: seq<CVar>, x: string, j: nat, a: int)
    requires j < |vars| && vars[j].name == x && forall k :: j < k < |vars| ==> vars[k].name != x
    ensures Value(Name(x), vars) == vars[j].val && x in EnvOf(vars) && EnvOf(vars)[x] == I(vars[j].val)
    ensures Put(vars, x, a) == vars[j := CVar(x, a)]
    decreases |vars| - j
  {
    var k := |vars| - 1;
    if j < k {
      Innermost(vars[..k], x, j, a);
      assert vars[j := CVar(x, a)] == vars[..k][j := CVar(x, a)] + [vars[k]];
    } else {
      assert vars[j := CVar(x, a)] == vars[..k] + [CVar(x, a)];
    }
  }

  predicate NoClash(g: Generator) {
    "n" !in g.params && forall k :: 0 <= k < |g.binders| ==> g.binders[k] !in g.params && g.binders[k] != "n"
  }

  /** Up to the loop of a one-seed generator. */
  lemma OneReaches(g: Generator, args: seq<int>, s0: int, junk: Junk)
    requires Checked(g) && NoClash(g) && g.seeds == [Lit(s0)] && |args| == |g.params|
    ensures Call(EmitStreamGen(g), args + [1], junk, 2) ==
            ExecAll([WindowLoop(g), Return(Name(g.binders[0]))], Start(g.params, args, 1) + [CVar(g.binders[0], s0)],
              1, junk, 2)
  {
    hide Iterate, TypeOf, Emittable, NamesAccepted;
    var b0 := g.binders[0];
    var body := EmitStreamGen(g).body;
    var v0 := Start(g.params, args, 1);
    var v1 := v0 + [CVar(b0, s0)];
    StartIs(g.params, args, 1);
    StartShows(g, args, 1);
    CountTests(v0, 1, 0);
    LitValue(s0, v0 + [CVar(b0, junk(0))]);
    Push(v0, CVar(b0, s0));
    CountTests(v1, 1, 0);
    var s1, s2, s3 := body[1..], body[1..][1..], body[1..][1..][1..];
    assert s1[0] == Decl(b0, g.seeds[0]) && s2[0] == ReturnIf(CountIs(CmpEq, 0), Name(b0)) &&
      s3 == [WindowLoop(g), Return(Name(b0))];
    assert ExecAll(body, v0, 0, junk, 2) == ExecAll(s1, v0, 0, junk, 2);
    assert ExecAll(s1, v0, 0, junk, 2) == ExecAll(s2, v1, 1, junk, 2);
  }

  lemma SevenBody(g: Generator, v0: seq<CVar>, junk: Junk)
    requires Checked(g) && g.binders == ["i"] && g.rule == Lit(7)
    ensures ExecAll(WindowLoop(g).body, v0 + [CVar("i", 1)] + [CVar("i", 1)], 1, junk, 2) ==
            Next(v0 + [CVar("i", 1)] + [CVar("i", 7)], 1)
  {
    hide TypeOf, Emittable, NamesAccepted, EnvOf, Eval;
    var w := v0 + [CVar("i", 1)] + [CVar("i", 1)];
    LitValue(7, w);
    PutPush(v0 + [CVar("i", 1)], CVar("i", 1), "i", 7);
    assert WindowLoop(g).body[1..] == [];
  }

  /** The counter shadows the binder: one round writes 7 to it and ends the loop. */
  lemma OneRound(g: Generator, args: seq<int>, junk: Junk)
    requires Checked(g) && NoClash(g) && g.binders == ["i"] && g.rule == Lit(7) && |args| == |g.params|
    ensures var v1 := Start(g.params, args, 1) + [CVar("i", 1)];
      Iterate(WindowLoop(g), v1 + [CVar("i", 1)], 1, junk, 2) == Next(v1 + [CVar("i", 8)], 1)
  {
    hide TypeOf, Emittable, NamesAccepted, EnvOf, Put, Eval, ExecAll;
    var v0 := Start(g.params, args, 1);
    var m := |v0|;
    var w := v0 + [CVar("i", 1)] + [CVar("i", 1)];
    var w1 := v0 + [CVar("i", 1)] + [CVar("i", 7)];
    var w2 := v0 + [CVar("i", 1)] + [CVar("i", 8)];
    Innermost(w, "i", m + 1, 7);
    Innermost(w, "n", m - 1, 0);
    SevenBody(g, v0, junk);
    CutAll(w1);
    Innermost(w1, "i", m + 1, 8);
    assert w1[m + 1 := CVar("i", 8)] == w2 && |w1| == |w|;
    var loop := WindowLoop(g);
    assert Cut(w1, |w|) == w1 && Wrap64(7 + 1) == 8;
    assert Iterate(loop, w, 1, junk, 2) == Iterate(loop, w2, 1, junk, 1);
    Innermost(w2, "i", m + 1, 0);
    Innermost(w2, "n", m - 1, 0);
    assert Iterate(loop, w2, 1, junk, 1) == Next(w2, 1);
  }

  /** `[1 ... (i) -> 7]`: the loop writes its own counter. */
  lemma OneStuck(g: Generator, junk: Junk)
    requires Checked(g) && NoClash(g) && g.binders == ["i"] && g.seeds == [Lit(1)] && g.rule == Lit(7)
    ensures Fails(g, Zeros(g.params), 1, junk, 2)
  {
    hide TypeOf, Emittable, NamesAccepted, EnvOf, Put, Eval, Iterate;
    var args := Zeros(g.params);
    var v0 := Start(g.params, args, 1);
    OneReaches(g, args, 1, junk);
    OneRound(g, args, junk);
    var v1 := v0 + [CVar("i", 1)];
    assert Cut(v1 + [CVar("i", 8)], |v1|) == v1;
    Innermost(v1, "i", |v0|, 0);
    var ss := [WindowLoop(g), Return(Name("i"))];
    assert StreamC.Exec(ss[0], v1, 1, junk, 2) == Next(v1, 1);
    assert ss[1..] == [Return(Name("i"))];
    assert StreamC.Exec(ss[1..][0], v1, 1, junk, 2) == Returned(1);
    SevenIs(g, Given(g, args), 1);
  }

  lemma SevenIs(g: Generator, e: Env, n: nat)
    requires Checked(g) && g.rule == Lit(7) && n >= |g.seeds|
    ensures SourceTerm(g, e, n) == 7
  {
    hide TypeOf, Emittable, NamesAccepted;
  }

  /** Up to the loop of a two-seed generator. */
  lemma TwoReaches(g: Generator, args: seq<int>, s0: int, s1: int, junk: Junk)
    requires Checked(g) && NoClash(g) && g.seeds == [Lit(s0), Lit(s1)] && |args| == |g.params|
    ensures Call(EmitStreamGen(g), args + [2], junk, 3) ==
            ExecAll([WindowLoop(g), Return(Name(g.binders[0]))],
                    Start(g.params, args, 2) + [CVar(g.binders[0], s1)] + [CVar(g.binders[1], s0)], 2, junk, 3)
  {
    hide Iterate, TypeOf, Emittable, NamesAccepted;
    var b0, b1 := g.binders[0], g.binders[1];
    var body := EmitStreamGen(g).body;
    var v0 := Start(g.params, args, 2);
    var v1, v2 := v0 + [CVar(b0, s1)], v0 + [CVar(b0, s1)] + [CVar(b1, s0)];
    StartIs(g.params, args, 2);
    StartShows(g, args, 2);
    CountTests(v0, 2, 0);
    CountTests(v0, 2, 1);
    LitValue(s1, v0 + [CVar(b0, junk(0))]);
    LitValue(s0, v1 + [CVar(b1, junk(1))]);
    var t1, t2, t3 := body[1..], body[1..][1..], body[1..][1..][1..];
    assert t1[0] == ReturnIf(CountIs(CmpEq, 0), g.seeds[0]) && t2[0] == ReturnIf(CountIs(CmpEq, 1), g.seeds[1]);
    assert t3[0] == Decl(b0, g.seeds[1]) && t3[1..][0] == Decl(b1, g.seeds[0]) &&
      t3[1..][1..] == [WindowLoop(g), Return(Name(b0))];
    assert ExecAll(body, v0, 0, junk, 3) == ExecAll(t1, v0, 0, junk, 3);
    assert ExecAll(t1, v0, 0, junk, 3) == ExecAll(t2, v0, 0, junk, 3);
    assert ExecAll(t2, v0, 0, junk, 3) == ExecAll(t3, v0, 0, junk, 3);
    assert ExecAll(t3, v0, 0, junk, 3) == ExecAll(t3[1..], v1, 1, junk, 3);
    assert ExecAll(t3[1..], v1, 1, junk, 3) == ExecAll(t3[1..][1..], v2, 2, junk, 3);
  }

  /** The variables in the loop, whatever the binders are called. */
  function Window(g: Generator, args: seq<int>, x: int, y: int, i: int): (w: seq<CVar>)
    requires |g.binders| == 2 && |args| == |g.params|
    ensures var m := |g.params| + 1;
      |w| == m + 3 && w[m] == CVar(g.binders[0], x) && w[m + 1] == CVar(g.binders[1], y) && w[m + 2] == CVar("i", i) &&
      w[m - 1] == CVar("n", 2)
  {
    Start(g.params, args, 2) + [CVar(g.binders[0], x)] + [CVar(g.binders[1], y)] + [CVar("i", i)]
  }

  /** Where the names of the loop body lead: `b0` and `b1` are binders, `t` is new. */
  function Slot(g: Generator, b: nat): nat
    requires |g.binders| == 2 && b < 2
  {
    var m := |g.params| + 1;
    if g.binders[b] == "t" then m + 3 else if g.binders[b] == "i" then m + 2 else m + b
  }

  /** What one run of the loop body makes of the variables. */
  function Shifted(g: Generator, args: seq<int>, x: int, y: int, i: int, t: int): seq<CVar>
    requires |g.binders| == 2 && |args| == |g.params|
  {
    var w := Window(g, args, x, y, i);
    var w1 := w + [CVar("t", t)];
    var w2 := w1[Slot(g, 1) := CVar(g.binders[1], w1[Slot(g, 0)].val)];
    w2[Slot(g, 0) := CVar(g.binders[0], w2[|w|].val)]
  }

  lemma WindowBody(g: Generator, args: seq<int>, x: int, y: int, i: int, d: nat, junk: Junk, fuel: nat)
    requires Checked(g) && NoClash(g) && |g.binders| == 2 && |args| == |g.params|
    ensures var w := Window(g, args, x, y, i);
      ExecAll(WindowLoop(g).body, w, d, junk, fuel) ==
      Next(Shifted(g, args, x, y, i, Value(g.rule, w + [CVar("t", junk(d))])), d + 1)
  {
    hide TypeOf, Emittable, NamesAccepted, EnvOf, Put, Eval, Window;
    var b0, b1 := g.binders[0], g.binders[1];
    BindersDiffer(g);
    var w := Window(g, args, x, y, i);
    var t := Value(g.rule, w + [CVar("t", junk(d))]);
    var w1 := w + [CVar("t", t)];
    Innermost(w1, b0, Slot(g, 0), 0);
    Innermost(w1, b1, Slot(g, 1), w1[Slot(g, 0)].val);
    var w2 := w1[Slot(g, 1) := CVar(b1, w1[Slot(g, 0)].val)];
    Innermost(w2, "t", |w|, 0);
    Innermost(w2, b0, Slot(g, 0), w2[|w|].val);
    var body := WindowLoop(g).body;
    assert body[1..][0] == Store(b1, Name(b0)) && body[1..][1..][0] == Store(b0, Name("t")) &&
      body[1..][1..][1..] == [];
    var w3 := w2[Slot(g, 0) := CVar(b0, w2[|w|].val)];
    assert StreamC.Exec(body[0], w, d, junk, fuel) == Next(w1, d + 1);
    assert StreamC.Exec(Store(b1, Name(b0)), w1, d + 1, junk, fuel) == Next(w2, d + 1);
    assert StreamC.Exec(Store(b0, Name("t")), w2, d + 1, junk, fuel) == Next(w3, d + 1);
    assert ExecAll([], w3, d + 1, junk, fuel) == Next(w3, d + 1);
    assert ExecAll(body[1..][1..], w2, d + 1, junk, fuel) == Next(w3, d + 1);
    assert ExecAll(body[1..], w1, d + 1, junk, fuel) == Next(w3, d + 1);
  }

  /** The loop test and the step of the counter. */
  lemma WindowStep(g: Generator, args: seq<int>, x: int, y: int, i: int, x1: int, y1: int, i1: int, d: nat, junk: Junk,
      fuel: nat)
    requires Checked(g) && NoClash(g) && |g.binders| == 2 && |args| == |g.params| && i <= 2 && fuel > 0 &&
      -10 <= i1 <= 10
    requires var w := Window(g, args, x, y, i);
      var out := ExecAll(WindowLoop(g).body, w, d, junk, fuel);
      out.Next? && out.decls == d + 1 && |out.vars| == |w| + 1 && out.vars[..|w|] == Window(g, args, x1, y1, i1)
    ensures Iterate(WindowLoop(g), Window(g, args, x, y, i), d, junk, fuel) ==
            Iterate(WindowLoop(g), Window(g, args, x1, y1, i1 + 1), d + 1, junk, fuel - 1)
  {
    hide TypeOf, Emittable, NamesAccepted, EnvOf, Put, Eval, ExecAll;
    var m := |g.params| + 1;
    var w, w1 := Window(g, args, x, y, i), Window(g, args, x1, y1, i1);
    Innermost(w, "i", m + 2, 0);
    Innermost(w, "n", m - 1, 0);
    Innermost(w1, "i", m + 2, i1 + 1);
    assert w1[m + 2 := CVar("i", i1 + 1)] == Window(g, args, x1, y1, i1 + 1);
  }

  /** Past the last index the newest term is returned. */
  lemma WindowEnd(g: Generator, args: seq<int>, s0: int, s1: int, x: int, y: int, i: int, d: nat, junk: Junk, fuel: nat)
    requires Checked(g) && NoClash(g) && g.seeds == [Lit(s0), Lit(s1)] && |args| == |g.params| && i > 2 && fuel > 0
    requires Iterate(WindowLoop(g), Window(g, args, s1, s0, 2), 2, junk, 3) ==
      Iterate(WindowLoop(g), Window(g, args, x, y, i), d, junk, fuel)
    ensures Call(EmitStreamGen(g), args + [2], junk, 3) == Returned(x)
  {
    hide TypeOf, Emittable, NamesAccepted, EnvOf, Put, Eval;
    var m := |g.params| + 1;
    var b0, b1 := g.binders[0], g.binders[1];
    BindersDiffer(g);
    TwoReaches(g, args, s0, s1, junk);
    var w := Window(g, args, x, y, i);
    Innermost(w, "i", m + 2, 0);
    Innermost(w, "n", m - 1, 0);
    var v2 := Start(g.params, args, 2) + [CVar(b0, s1)] + [CVar(b1, s0)];
    var v3 := Start(g.params, args, 2) + [CVar(b0, x)] + [CVar(b1, y)];
    assert Cut(w, |v2|) == v3;
    Innermost(v3, b0, m, 0);
    var ss := [WindowLoop(g), Return(Name(b0))];
    assert StreamC.Exec(WindowLoop(g), v2, 2, junk, 3) == Next(v3, d);
    assert ss[1..] == [Return(Name(b0))];
    assert StreamC.Exec(ss[1..][0], v3, d, junk, 3) == Returned(x);
  }

  /** `[1, 1 ... (t, b) -> 7]` and the like: the newest term never reaches the outer
      variable, and the second seed is returned. */
  lemma TwoStuck(g: Generator, junk: Junk)
    requires Checked(g) && NoClash(g) && g.seeds == [Lit(1), Lit(1)] && g.rule == Lit(7)
    requires g.binders[0] == "t" || g.binders[0] == "i" || g.binders[1] == "t"
    ensures Fails(g, Zeros(g.params), 2, junk, 3)
  {
    hide TypeOf, Emittable, NamesAccepted, EnvOf, Put, Eval, ExecAll, Iterate;
    var args := Zeros(g.params);
    var m := |g.params| + 1;
    BindersDiffer(g);
    var w := Window(g, args, 1, 1, 2);
    WindowBody(g, args, 1, 1, 2, 2, junk, 3);
    LitValue(7, w + [CVar("t", junk(2))]);
    var u := ExecAll(WindowLoop(g).body, w, 2, junk, 3).vars;
    var y1, i1 := u[m + 1].val, u[m + 2].val;
    assert u[m].val == 1 && 2 <= i1 <= 7;
    assert u[..|w|] == Window(g, args, 1, y1, i1);
    WindowStep(g, args, 1, 1, 2, 1, y1, i1, 2, junk, 3);
    WindowEnd(g, args, 1, 1, 1, y1, i1 + 1, 3, junk, 2);
    SevenIs(g, Given(g, args), 2);
  }

  const SUMS: Generator :=
    Generator([], [Lit(1), Lit(1)], ["t", "b"], None, Binary(Add, Name("t"), Name("b")))

  /** `[1, 1 ... (t, b) -> t + b]`: the third term is 2, and the emitted function, whatever
      its uninitialised `t` holds, returns 1. */
  lemma HiddenBinder(junk: Junk)
    ensures Checked(SUMS) && SourceTerm(SUMS, map[], 2) == 2 && FuncCompiles(EmitStreamGen(SUMS))
    ensures StreamC.Call(EmitStreamGen(SUMS), [2], junk, 3) == Returned(1)
  {
    hide Checked, TypeOf, Emittable, EnvOf, Put, Eval, ExecAll, Iterate, EmitStreamGen, Compiles;
    SumsChecked();
    SumsTerm();
    SumsCompile();
    var w := Window(SUMS, [], 1, 1, 2);
    WindowBody(SUMS, [], 1, 1, 2, 2, junk, 3);
    var u := ExecAll(WindowLoop(SUMS).body, w, 2, junk, 3).vars;
    var y1 := u[2].val;
    assert u[..|w|] == Window(SUMS, [], 1, y1, 2);
    WindowStep(SUMS, [], 1, 1, 2, 1, y1, 2, 2, junk, 3);
    WindowEnd(SUMS, [], 1, 1, 1, y1, 3, 3, junk, 2);
    assert [] + [2] == [2];
  }

  lemma SumsChecked()
    ensures Checked(SUMS) && NoClash(SUMS)
  {
    assert Distinct(SUMS.params) && SUMS.binders[0] != SUMS.binders[1];
  }

  lemma SumsTerm()
    requires Checked(SUMS)
    ensures SourceTerm(SUMS, map[], 2) == 2
  {
    hide TypeOf, Emittable, NamesAccepted;
    var e := SourceEnv(SUMS, map[], 1, 1, 2);
    assert Eval(Lit(1), map[]) == I(1);
    assert SourceTerm(SUMS, map[], 0) == 1 && SourceTerm(SUMS, map[], 1) == 1;
    assert Eval(Name("t"), e) == I(1) && Eval(Name("b"), e) == I(1);
    assert Eval(SUMS.rule, e) == I(2);
  }

  lemma SumsCompile()
    ensures FuncCompiles(EmitStreamGen(SUMS))
  {
    var vis := Names(EmitStreamGen(SUMS).params);
    assert EmitStreamGen(SUMS).params == ["n"] && vis == {"n"};
    TwoCompiles(SUMS, vis);
  }

  /** `[5, 1 ... (a, i) -> i]`: the rule reads the counter. */
  lemma OlderIsCounter(g: Generator, junk: Junk)
    requires Checked(g) && NoClash(g) && g.seeds == [Lit(5), Lit(1)] && g.rule == Name("i")
    requires g.binders[0] != "t" && g.binders[0] != "i" && g.binders[1] == "i"
    ensures Fails(g, Zeros(g.params), 2, junk, 3)
  {
    hide TypeOf, Emittable, NamesAccepted, EnvOf, Put, Eval, ExecAll, Iterate;
    var args := Zeros(g.params);
    var m := |g.params| + 1;
    CounterRound(g, args, 1, 2, 3, junk);
    CounterRound(g, args, 2, 3, 2, junk);
    WindowEnd(g, args, 5, 1, 2, 5, 3, 4, junk, 1);
    CounterTerm(g, Given(g, args));
  }

  lemma CounterTerm(g: Generator, e: Env)
    requires Checked(g) && g.seeds == [Lit(5), Lit(1)] && g.rule == Name("i") && g.binders[1] == "i"
    ensures SourceTerm(g, e, 2) == 5
  {
    hide TypeOf, Emittable;
    assert Eval(g.seeds[0], e) == I(5) && Eval(g.seeds[1], e) == I(1);
    assert SourceTerm(g, e, 0) == 5 && SourceTerm(g, e, 1) == 1;
  }

  /** One round of that loop: the counter goes back to the newest term. */
  lemma CounterRound(g: Generator, args: seq<int>, x: int, d: nat, fuel: nat, junk: Junk)
    requires Checked(g) && NoClash(g) && |g.binders| == 2 && |args| == |g.params| && g.rule == Name("i") && fuel > 0 &&
      1 <= x <= 2
    requires g.binders[0] != "t" && g.binders[0] != "i" && g.binders[1] == "i"
    ensures Iterate(WindowLoop(g), Window(g, args, x, 5, 2), d, junk, fuel) ==
            Iterate(WindowLoop(g), Window(g, args, 2, 5, x + 1), d + 1, junk, fuel - 1)
  {
    hide TypeOf, Emittable, NamesAccepted, EnvOf, Put, Eval, ExecAll, Iterate;
    var m := |g.params| + 1;
    var w := Window(g, args, x, 5, 2);
    WindowBody(g, args, x, 5, 2, d, junk, fuel);
    Innermost(w + [CVar("t", junk(d))], "i", m + 2, 0);
    var u := ExecAll(WindowLoop(g).body, w, d, junk, fuel).vars;
    assert u[..|w|] == Window(g, args, 2, 5, x);
    WindowStep(g, args, x, 5, 2, 2, 5, x, d, junk, fuel);
  }

  lemma BinderShadowed(params: seq<string>, binders: seq<string>, index: Option<string>) returns (c: Case)
    requires NamesAccepted(params, binders, index)
    requires "n" !in params && forall k :: 0 <= k < |binders| ==> binders[k] !in params && binders[k] != "n"
    requires exists k :: 0 <= k < |binders| && (binders[k] == "i" || (|binders| == 2 && binders[k] == "t"))
    ensures Broken(c) && c.g.params == params && c.g.binders == binders && c.g.index == index
  {
    var junk: Junk := i => 0;
    if |binders| == 1 {
      var g := Constant(params, binders, index, 1, 1, Lit(7));
      ConstantChecked(params, binders, index, 1, 1, Lit(7));
      OneStuck(g, junk);
      c := Case(g, Zeros(params), 1, junk, 2);
    } else if binders[0] == "t" || binders[0] == "i" || binders[1] == "t" {
      var g := Constant(params, binders, index, 1, 1, Lit(7));
      ConstantChecked(params, binders, index, 1, 1, Lit(7));
      TwoStuck(g, junk);
      c := Case(g, Zeros(params), 2, junk, 3);
    } else {
      assert binders[1] in binders;
      var g := Constant(params, binders, index, 5, 1, Name("i"));
      ConstantChecked(params, binders, index, 5, 1, Name("i"));
      OlderIsCounter(g, junk);
      c := Case(g, Zeros(params), 2, junk, 3);
    }
  }

  // ---------- the exact condition ----------

  /** Names that are not apart break a generator. */
  lemma NotApartBroken(params: seq<string>, binders: seq<string>, index: Option<string>) returns (c: Case)
    requires NamesAccepted(params, binders, index) && !NamesApart(params, binders, index)
    ensures Broken(c) && c.g.params == params && c.g.binders == binders && c.g.index == index
  {
    hide Broken, NamesAccepted;
    if "n" in params || exists k :: 0 <= k < |binders| && (binders[k] in params || binders[k] == "n") {
      c := ClashBroken(params, binders, index);
    } else if exists k :: 0 <= k < |binders| && (binders[k] == "i" || (|binders| == 2 && binders[k] == "t")) {
      c := BinderShadowed(params, binders, index);
    } else if index.Some? && index.value != "i" {
      var x := index.value;
      if x in params || (x == "t" && |binders| == 2) {
        c := WrongVariable(params, binders, index, x);
      } else if x == "n" {
        c := IndexIsCount(params, binders);
      } else {
        c := IndexUnseen(params, binders, index);
      }
    } else if "i" in params && index != Some("i") {
      c := WrongVariable(params, binders, index, "i");
    } else {
      c := WrongVariable(params, binders, index, "t");
    }
  }

  /** The names a program may use: every accepted generator with these parameter,
      binder and index names is emitted as a function that compiles and returns its
      terms, for all arguments and indices and whatever uninitialised variables hold,
      if and only if the names are apart. */
  lemma NamesWorkIff(params: seq<string>, binders: seq<string>, index: Option<string>)
    requires NamesAccepted(params, binders, index)
    ensures NamesWork(params, binders, index) <==> NamesApart(params, binders, index)
  {
    hide NamesAccepted, Works;
    if NamesApart(params, binders, index) {
      forall g: Generator, args: seq<int>, n: int, junk: Junk, fuel: nat |
        g.params == params && g.binders == binders && g.index == index && Checked(g) && |args| == |params| &&
        n + 1 < TWO63 && fuel > n
        ensures Works(g, args, n, junk, fuel)
      {
        ApartWorks(g, args, n, junk, fuel);
      }
    } else {
      var c := NotApartBroken(params, binders, index);
      assert !Works(c.g, c.args, c.n, c.junk, c.fuel);
    }
  }
}
