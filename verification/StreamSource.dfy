/** The lowered form of a generator against the generator as written: lowering calls
    the index `i`, whatever the program calls it (src/ir_lower.c, lower_stream_gen),
    and exactly which names a program may use so that it does not matter. */
module StreamSource {
  import opened Bits
  import opened Ir
  import opened IrLower
  import opened IrLowerCorrect
  import opened IrFunction
  import opened StreamLower
  import opened StreamCorrect
  import opened StreamTwo
  import C = StreamC
  import StreamShadow

  /** What lowering is given. */
  function Lowered(g: C.Generator): Stream {
    Stream(IntParams(g.params), g.seeds, g.binders, g.rule)
  }

  function IntParams(names: seq<string>): seq<Param>
      { seq(|names|, i requires 0 <= i < |names| => Param(names[i], Int)) }

  predicate AllStraight(g: C.Generator) {
    (forall k :: 0 <= k < |g.seeds| ==> StraightLine(g.seeds[k])) && StraightLine(g.rule)
  }

  /** No binder is called `i`, an index binder is, and a parameter only if the index is. */
  predicate IndexIsI(params: seq<string>, binders: seq<string>, index: Option<string>) {
    "i" !in binders && (index.Some? ==> index.value == INDEX) && ("i" in params ==> index == Some(INDEX))
  }

  predicate HasNames(g: C.Generator, params: seq<string>, binders: seq<string>, index: Option<string>) {
    g.params == params && g.binders == binders && g.index == index
  }

  /** Lowering has bound the parameters, the binders and `i`. Any other name gets the register
      -1, which no instruction defines. */
  predicate NamesBound(g: C.Generator) {
    (forall k :: 0 <= k < |g.seeds| ==> C.Sees(g.seeds[k], C.Names(g.params))) &&
    C.Sees(g.rule, C.Names(g.params) + C.Names(g.binders) + {INDEX})
  }

  lemma {:induction false} IntParamTypes(names: seq<string>, g: Types)
    requires C.Distinct(names) && forall x :: x in names ==> x !in g
    ensures ParamTypes(IntParams(names), g).Some?
    ensures var r := ParamTypes(IntParams(names), g).value;
      (forall x :: x in r <==> x in g || x in names) && (forall x :: x in g ==> r[x] == g[x]) && forall x ::
        x in names ==> r[x] == Int
    decreases |names|
  {
    if names != [] {
      var x := names[0];
      assert IntParams(names)[0] == Param(x, Int) && IntParams(names)[1..] == IntParams(names[1..]);
      assert forall i, j :: 0 <= i < j < |names[1..]| ==>
        names[1..][i] == names[i + 1] && names[1..][j] == names[j + 1];
      forall y | y in names[1..]
        ensures y !in g[x := Int] { var i :| 0 <= i < |names[1..]| && names[1..][i] == y; assert names[i + 1] == y; }
      IntParamTypes(names[1..], g[x := Int]);
      assert forall y :: y in names <==> y == x || y in names[1..];
    }
  }

  /** Whatever the names, a generator that is lowered at all is lowered as one of the
      recurrences `StreamRuns` speaks of. */
  lemma LoweredAccepted(g: C.Generator)
    requires C.Checked(g) && AllStraight(g) && NamesBound(g)
    ensures Accepted(Lowered(g)) && ParamTypes(IntParams(g.params), map[]) == Some(C.Ints(C.Names(g.params)))
  {
    var s := Lowered(g);
    IntParamTypes(g.params, map[]);
    var types := ParamTypes(s.params, map[]).value;
    assert types == C.Ints(C.Names(g.params));
    forall x | x in C.Names(g.params) + C.Names(g.binders) + {INDEX}
      ensures x in RuleTypes(s, types) && RuleTypes(s, types)[x] == Int
    {
      if x in g.binders { assert x == g.binders[0] || x == g.binders[|g.binders| - 1]; }
    }
    assert RuleTypes(s, types).Keys == C.Names(g.params) + C.Names(g.binders) + {INDEX} by {
      forall x | x in RuleTypes(s, types) ensures x in C.Names(g.params) + C.Names(g.binders) + {INDEX} {
        if x == g.binders[0] || x == g.binders[|g.binders| - 1] { assert x in g.binders; }
      }
    }
    SeenTypes(g.rule, C.Ints(C.RuleNames(g)), RuleTypes(s, types));
  }

  /** What lowering makes of an accepted generator. With a name that has no register it makes
      no function that runs. */
  function LowerGenerator(g: C.Generator): Option<Func>
    requires C.Checked(g) && AllStraight(g)
  {
    if NamesBound(g) then
      LoweredAccepted(g);
      Some(StreamFunc(Lowered(g)))
    else None
  }

  /** A type does not depend on which integer variables are around. */
  lemma {:induction false} SeenTypes(e: Expr, g: Types, g': Types)
    requires TypeOf(e, g).Some? && C.Emittable(e) && (forall x :: x in g ==> g[x] == Int)
    requires C.Sees(e, g'.Keys) && forall x :: x in g' ==> g'[x] == Int
    ensures TypeOf(e, g') == TypeOf(e, g)
    decreases e
  {
    match e
    case Binary(_, l, r) => SeenTypes(l, g, g'); SeenTypes(r, g, g');
    case Unary(_, a) => SeenTypes(a, g, g');
    case Cond(c, t, f, _) => SeenTypes(c, g, g'); SeenTypes(t, g, g'); SeenTypes(f, g, g');
    case _ =>
  }

  /** With these names nothing is unbound. */
  lemma IndexBound(g: C.Generator)
    requires C.Checked(g) && IndexIsI(g.params, g.binders, g.index)
    ensures NamesBound(g)
  {
    forall k | 0 <= k < |g.seeds| ensures C.Sees(g.seeds[k], C.Names(g.params)) {
      C.TypedSees(g.seeds[k], C.Ints(C.Names(g.params)), C.Names(g.params));
    }
    C.TypedSees(g.rule, C.Ints(C.RuleNames(g)), C.Names(g.params) + C.Names(g.binders) + {INDEX});
  }

  /** The rule sees the same values under both names of the index. */
  lemma SameRule(g: C.Generator, env: Env, x: int, y: int, i: int)
    requires C.Checked(g) && IndexIsI(g.params, g.binders, g.index) && C.Names(g.params) <= env.Keys
    ensures Eval(g.rule, RuleEnv(Lowered(g), env, x, y, i)) == Eval(g.rule, C.SourceEnv(g, env, x, y, i))
  {
    var e1, e2 := RuleEnv(Lowered(g), env, x, y, i), C.SourceEnv(g, env, x, y, i);
    forall z | z in C.RuleNames(g) ensures z in e1 && z in e2 && e1[z] == e2[z] {
      if z in g.binders { assert z == g.binders[0] || z == g.binders[|g.binders| - 1]; }
    }
    C.SameValue(g.rule, C.Ints(C.RuleNames(g)), e1, e2);
  }

  lemma {:induction false} SameTerms(g: C.Generator, env: Env, n: nat)
    requires C.Checked(g) && IndexIsI(g.params, g.binders, g.index) && C.Names(g.params) <= env.Keys
    ensures Term(Lowered(g), env, n) == C.SourceTerm(g, env, n)
    decreases n
  {
    if n >= |g.seeds| {
      hide Eval, RuleEnv, C.SourceEnv;
      SameTerms(g, env, n - 1);
      if |g.seeds| == 2 {
        SameTerms(g, env, n - 2);
        SameRule(g, env, C.SourceTerm(g, env, n - 1), C.SourceTerm(g, env, n - 2), n);
      } else {
        SameRule(g, env, C.SourceTerm(g, env, n - 1), 0, n);
      }
    }
  }

  // ---------- what lowering promises ----------

  /** The generator is lowered to a function that runs and returns its n-th term as written, or zero
      for a negative index. */
  ghost predicate LowersToTerms(g: C.Generator, args: seq<Val>, n: int)
    requires C.Checked(g) && AllStraight(g) && |args| == |g.params|
  {
    LowerGenerator(g).Some? &&
    Reaches(LowerGenerator(g).value, At(0, 0, EntryRegs(args, n)),
            Done(if n < 0 then 0 else C.SourceTerm(g, ParamEnv(IntParams(g.params), args, map[]), n)))
  }

  lemma LoweredGenerator(g: C.Generator, args: seq<Val>, n: int)
    requires C.Checked(g) && AllStraight(g) && IndexIsI(g.params, g.binders, g.index)
    requires ArgsOk(IntParams(g.params), args) && n + 1 < TWO63
    ensures Accepted(Lowered(g)) && LowersToTerms(g, args, n)
  {
    hide Reaches, StreamFunc, C.SourceTerm, Term, TypeOf, StraightLine, NamesBound;
    IndexBound(g);
    LoweredAccepted(g);
    StreamRuns(Lowered(g), args, n);
    EntryReads(Lowered(g), args, n);
    IntParamTypes(g.params, map[]);
    if n >= 0 { SameTerms(g, ParamEnv(IntParams(g.params), args, map[]), n); }
  }

  // ---------- names that break a generator ----------

  lemma ReachedOnce(f: Func, s: State, a: int, b: int)
    requires Reaches(f, s, Done(a)) && Reaches(f, s, Done(b))
    ensures a == b
  {
    var m: nat :| Steps(f, s, m) == Done(a);
    var n: nat :| Steps(f, s, n) == Done(b);
    if m <= n {
      StepsAdd(f, s, m, n - m);
      DoneStays(f, a, n - m);
    } else {
      StepsAdd(f, s, n, m - n);
      DoneStays(f, b, m - n);
    }
  }

  /** All parameters zero. */
  function NoArgs(params: seq<string>): seq<Val> { seq(|params|, i requires 0 <= i < |params| => Val.I(0)) }

  lemma {:induction false} ZeroEnv(params: seq<string>, env: Env)
    requires forall x :: x in env ==> env[x] == Val.I(0)
    ensures var e := ParamEnv(IntParams(params), NoArgs(params), env);
      e.Keys == env.Keys + C.Names(params) && forall x :: x in e ==> e[x] == Val.I(0)
    decreases |params|
  {
    if params != [] {
      var x := params[0];
      assert IntParams(params)[0] == Param(x, Int) && IntParams(params)[1..] == IntParams(params[1..]);
      assert NoArgs(params)[0] == Val.I(0) && NoArgs(params)[1..] == NoArgs(params[1..]);
      ZeroEnv(params[1..], env[x := Val.I(0)]);
      assert C.Names(params) == {x} + C.Names(params[1..]) by {
        forall y | y in params ensures y == x || y in params[1..] {}
      }
    }
  }

  /** The generator whose rule is one name, all its seeds five. */
  function Naming(params: seq<string>, binders: seq<string>, index: Option<string>, x: string): C.Generator
  {
    StreamShadow.Constant(params, binders, index, 5, 5, Name(x))
  }

  /** The first term the rule computes, as lowered and as written. */
  lemma NamingTerms(g: C.Generator, x: string)
    requires C.NamesAccepted(g.params, g.binders, g.index) && g == Naming(g.params, g.binders, g.index, x)
    requires x in C.RuleNames(g)
    ensures var env, k := ParamEnv(IntParams(g.params), NoArgs(g.params), map[]), |g.seeds|;
      (1 <= k == |g.binders| <= 2) &&
      Term(Lowered(g), env, k) == (if x == INDEX then k else if x in g.binders then 5 else 0) &&
      C.SourceTerm(g, env, k) == (if g.index == Some(x) then k else if x in g.binders then 5 else 0)
  {
    var env, k := ParamEnv(IntParams(g.params), NoArgs(g.params), map[]), |g.seeds|;
    ZeroEnv(g.params, map[]);
    assert forall j :: 0 <= j < k ==> Term(Lowered(g), env, j) == 5 && C.SourceTerm(g, env, j) == 5;
    assert x in g.binders ==> x == g.binders[0] || x == g.binders[k - 1];
    var e1, e2 := RuleEnv(Lowered(g), env, 5, if k == 2 then 5 else 0, k),
      C.SourceEnv(g, env, 5, if k == 2 then 5 else 0, k);
    assert Eval(g.rule, e1) == Val.I(if x == INDEX then k else if x in g.binders then 5 else 0);
    assert Eval(g.rule, e2) == Val.I(if g.index == Some(x) then k else if x in g.binders then 5 else 0);
  }

  /** Names that are not as they should be break a generator: a name in its rule has no
      register, or its function returns another term. */
  lemma WrongNamesFail(params: seq<string>, binders: seq<string>, index: Option<string>) returns (g: C.Generator)
    requires C.NamesAccepted(params, binders, index) && !IndexIsI(params, binders, index)
    ensures HasNames(g, params, binders, index) && C.Checked(g) && AllStraight(g)
    ensures g == Naming(params, binders, index, if index.Some? && index.value != INDEX then index.value else INDEX)
    ensures ArgsOk(IntParams(params), NoArgs(params)) && !LowersToTerms(g, NoArgs(params), |binders|)
  {
    hide Reaches, StreamFunc, C.SourceTerm, Term, C.Checked, C.SourceEnv;
    var x := if index.Some? && index.value != INDEX then index.value else INDEX;
    g := Naming(params, binders, index, x);
    var args, n := NoArgs(params), |binders|;
    StreamShadow.ConstantChecked(params, binders, index, 5, 5, Name(x));
    NamingTerms(g, x);
    if LowersToTerms(g, args, n) {
      LoweredAccepted(g);
      StreamRuns(Lowered(g), args, n);
      ReachedOnce(StreamFunc(Lowered(g)), At(0, 0, EntryRegs(args, n)),
                  Term(Lowered(g), ParamEnv(IntParams(params), args, map[]), n),
                  C.SourceTerm(g, ParamEnv(IntParams(params), args, map[]), n));
      assert false;
    }
  }

  /** The names are right for every generator without conditionals, all arguments and
      every index. */
  ghost predicate NamesLower(params: seq<string>, binders: seq<string>, index: Option<string>) {
    forall g: C.Generator, args: seq<Val>, n: int ::
      HasNames(g, params, binders, index) && C.Checked(g) && AllStraight(g) && ArgsOk(IntParams(params), args) &&
      n + 1 < TWO63
      ==> LowersToTerms(g, args, n)
  }

  /** The names a program may use: every accepted generator with these parameter, binder
      and index names is lowered to a function that returns its terms if and only if the
      index is called `i` and nothing else is. */
  lemma NamesLowerIff(params: seq<string>, binders: seq<string>, index: Option<string>)
    requires C.NamesAccepted(params, binders, index)
    ensures NamesLower(params, binders, index) <==> IndexIsI(params, binders, index)
  {
    hide LowersToTerms, C.Checked, AllStraight, C.NamesAccepted;
    if IndexIsI(params, binders, index) {
      forall g: C.Generator, args: seq<Val>, n: int |
        HasNames(g, params, binders, index) && C.Checked(g) && AllStraight(g) && ArgsOk(IntParams(params), args) &&
        n + 1 < TWO63
        ensures LowersToTerms(g, args, n)
      {
        LoweredGenerator(g, args, n);
      }
    } else {
      var g := WrongNamesFail(params, binders, index);
      BindersAccepted(params, binders, index);
      assert !LowersToTerms(g, NoArgs(params), |binders|);
    }
  }

  lemma BindersAccepted(params: seq<string>, binders: seq<string>, index: Option<string>)
    requires C.NamesAccepted(params, binders, index)
    ensures |binders| <= 2
  {
  }

  // ---------- one of each kind ----------

  /** `f i: [5 ... (x) -> i]`: the parameter is taken for the index. */
  lemma ParameterIsIndex()
    ensures var g := Naming(["i"], ["x"], None, INDEX);
      C.Checked(g) && AllStraight(g) && LowerGenerator(g).Some? && !LowersToTerms(g, [Val.I(0)], 1)
  {
    hide LowersToTerms, Lowered, StreamFunc, C.Checked;
    assert C.NamesAccepted(["i"], ["x"], None);
    var g := WrongNamesFail(["i"], ["x"], None);
    assert NoArgs(["i"]) == [Val.I(0)];
  }

  /** `[5 ... (i) -> i]`: the counter overwrites the binder. */
  lemma BinderIsIndex()
    ensures var g := Naming([], ["i"], None, INDEX);
      C.Checked(g) && AllStraight(g) && LowerGenerator(g).Some? && !LowersToTerms(g, [], 1)
  {
    hide LowersToTerms, Lowered, StreamFunc, C.Checked;
    assert C.NamesAccepted([], ["i"], None);
    assert !IndexIsI([], ["i"], None) by { assert ["i"][0] == "i"; }
    var g := WrongNamesFail([], ["i"], None);
    assert NoArgs([]) == [];
  }

  /** `[1 ... (x; j) -> x + j]`: the index binder's own name is not bound, and has no register. */
  lemma IndexUnbound()
    ensures var g := StreamShadow.Constant([], ["x"], Some("j"), 1, 1, Binary(Add, Name("x"), Name("j")));
      C.Checked(g) && AllStraight(g) && LowerGenerator(g) == None
  {
    hide Lowered, StreamFunc;
    var rule := Binary(Add, Name("x"), Name("j"));
    assert C.NamesAccepted([], ["x"], Some("j"));
    assert "x" in C.RuleNames(StreamShadow.Constant([], ["x"], Some("j"), 1, 1, rule)) by { assert ["x"][0] == "x"; }
    StreamShadow.ConstantChecked([], ["x"], Some("j"), 1, 1, rule);
    hide C.Checked;
    assert !C.Sees(rule.r, C.Names([]) + C.Names(["x"]) + {INDEX});
  }
}
