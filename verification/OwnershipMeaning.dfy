/** What a statement with hidden bindings computes, for expressions whose parts that stay in
    place do nothing but read: exactly what its expression does, and no string more is left
    alive. */
module OwnershipMeaning {
  import opened OwnershipSyntax
  import opened OwnershipTemps
  import opened OwnershipRun
  import opened OwnershipRef
  import opened OwnershipCorrect
  import opened OwnershipPutBack

  // ---------- expressions that only read ----------

  /** Evaluation neither changes the heap nor ends the process. */
  predicate Quiet(e: Expr) {
    match e
    case Lit => true
    case Ident(_) => true
    case Call(f, args) =>
      f in SAFE_BUILTINS && f !in OWNED_BUILTINS && f != "proc_exit" && forall i :: 0 <= i < |args| ==> Quiet(args[i])
    case _ => false
  }

  predicate AllQuiet(es: seq<Expr>) { forall i :: 0 <= i < |es| ==> Quiet(es[i]) }

  function QuietValue(e: Expr, env: Env): Val { if e.Ident? then Lookup(env, e.name) else Other }

  function QuietValues(es: seq<Expr>, env: Env): (r: seq<Val>)
    ensures |r| == |es|
  {
    if es == [] then [] else [QuietValue(es[0], env)] + QuietValues(es[1..], env)
  }

  lemma {:induction false} QuietEval(e: Expr, env: Env, h: Heap, o: Choices, freshFns: FreshFns)
    requires Quiet(e) && !h.halted
    ensures EvalExpr(e, env, h, o, freshFns) == (QuietValue(e, env), h)
    decreases e, 0
  {
    if e.Call? { QuietEvalAll(e.args, env, h, o, freshFns); }
  }

  lemma {:induction false} QuietEvalAll(es: seq<Expr>, env: Env, h: Heap, o: Choices, freshFns: FreshFns)
    requires AllQuiet(es) && !h.halted
    ensures EvalAll(es, env, h, o, freshFns) == (QuietValues(es, env), h)
    decreases es, 1
  {
    hide Quiet, EvalExpr;
    if es != [] {
      QuietEval(es[0], env, h, o, freshFns);
      QuietEvalAll(es[1..], env, h, o, freshFns);
    }
  }

  /** An argument whose effects all go into hidden bindings. */
  predicate Steady(e: Expr, freshFns: FreshFns) {
    match e
    case Lit => true
    case Ident(_) => true
    case Call(f, args) => (f in SAFE_BUILTINS || f in freshFns) && f != "proc_exit" && AllSteady(args, freshFns)
    case Cond(_, _, _) => IsOwningInit(e, freshFns)
    case Compound(_) => false
  }

  predicate AllSteady(es: seq<Expr>, freshFns: FreshFns) { forall i :: 0 <= i < |es| ==> Steady(es[i], freshFns) }

  /** An expression whose value may go anywhere: only its arguments matter. */
  predicate SteadyStatement(e: Expr, freshFns: FreshFns) {
    e.Call? && (e.callee in SAFE_BUILTINS || e.callee in freshFns) ==> AllSteady(e.args, freshFns)
  }

  // ---------- running hidden bindings ----------

  lemma {:induction false} TempsConcat(a: seq<Expr>, b: seq<Expr>, j: nat, env: Env, h: Heap, o: Choices,
      freshFns: FreshFns)
    ensures EvalTemps(a + b, j, env, h, o, freshFns) ==
      var (env1, h1) := EvalTemps(a, j, env, h, o, freshFns);
      if a != [] && h1.halted then (env1, h1) else EvalTemps(b, j + |a|, env1, h1, o, freshFns)
    decreases a
  {
    hide EvalExpr, TmpName;
    if a == [] {
      assert a + b == b;
    } else {
      assert (a + b)[0] == a[0] && (a + b)[1..] == a[1..] + b;
      var (v, h1) := EvalExpr(a[0], env, h, o, freshFns);
      if !h1.halted { TempsConcat(a[1..], b, j + 1, env + [Var(TmpName(j), v)], h1, o, freshFns); }
    }
  }

  lemma OneTemp(e: Expr, j: nat, env: Env, h: Heap, o: Choices, freshFns: FreshFns)
    ensures EvalTemps([e], j, env, h, o, freshFns) ==
      var (v, h1) := EvalExpr(e, env, h, o, freshFns);
      (if h1.halted then env else env + [Var(TmpName(j), v)], h1)
  {
    hide EvalExpr, TmpName;
    assert [e][1..] == [];
  }

  /** The variables grew by hidden bindings numbered from `first` up to `last`. */
  predicate Grew(env: Env, env1: Env, first: nat, last: nat) {
    env <= env1 && first + |env1| - |env| == last &&
    forall i :: |env| <= i < |env1| ==> env1[i].name == TmpName(first + i - |env|)
  }

  lemma GrewTrans(env: Env, env1: Env, env2: Env, first: nat, mid: nat, last: nat)
    requires Grew(env, env1, first, mid) && Grew(env1, env2, mid, last)
    ensures Grew(env, env2, first, last)
  {
    hide TmpName;
  }

  /** Expressions that do not use the new bindings do not see them. */
  lemma {:induction false} AllSeesPast(es: seq<Expr>, env: Env, env1: Env, first: nat, last: nat, h: Heap, o: Choices,
      freshFns: FreshFns)
    requires Grew(env, env1, first, last) && forall k: nat :: AllAvoid(es, TmpName(k))
    ensures EvalAll(es, env1, h, o, freshFns) == EvalAll(es, env, h, o, freshFns)
    decreases |env1|
  {
    hide EvalAll, TmpName, AllAvoid;
    if |env1| == |env| {
      assert env1 == env;
    } else {
      var n := |env1| - 1;
      AllSeesPast(es, env, env1[..n], first, last - 1, h, o, freshFns);
      assert env1 == env1[..n] + [env1[n]];
      assert AllAvoid(es, TmpName(last - 1));
      EvalAllIgnores(es, env1[..n], env1[n], h, o, freshFns);
    }
  }

  lemma {:induction false} LookupPast(n: string, env: Env, env1: Env, first: nat, last: nat)
    requires Grew(env, env1, first, last) && forall k :: first <= k < last ==> TmpName(k) != n
    ensures Lookup(env1, n) == Lookup(env, n)
    decreases |env1|
  {
    hide TmpName, Lookup;
    if |env1| == |env| {
      assert env1 == env;
    } else {
      var m := |env1| - 1;
      LookupPast(n, env, env1[..m], first, last - 1);
      assert env1 == env1[..m] + [env1[m]];
      FindPush(env1[..m], env1[m], n);
    }
  }

  lemma NewestFound(env: Env, k: nat, v: Val)
    ensures Lookup(env + [Var(TmpName(k), v)], TmpName(k)) == v
  {
  }

  // ---------- a steady argument ----------

  /** The plan has computed `v`, in the heap `h1`, whatever hidden bindings come later. */
  predicate Holds(rest: Expr, env: Env, env1: Env, first: nat, last: nat, v: Val) {
    Grew(env, env1, first, last) && Quiet(rest) && QuietValue(rest, env1) == v
  }

  predicate AllHold(rests: seq<Expr>, env: Env, env1: Env, first: nat, last: nat, vs: seq<Val>) {
    Grew(env, env1, first, last) && AllQuiet(rests) && QuietValues(rests, env1) == vs
  }

  /** Nothing happens after the process has ended. */
  lemma {:induction false} HaltedAll(es: seq<Expr>, env: Env, h: Heap, o: Choices, freshFns: FreshFns)
    requires h.halted
    ensures EvalAll(es, env, h, o, freshFns).1 == h
    decreases es
  {
    if es != [] { HaltedAll(es[1..], env, h, o, freshFns); }
  }

  /** What an owning call or conditional gives goes into a hidden binding of its own. */
  lemma OwnBinding(temps: seq<Expr>, e: Expr, v: Val, h0: Heap, first: nat, env: Env, h: Heap, o: Choices,
      freshFns: FreshFns)
    requires !h.halted
    requires var (env1, h1) := EvalTemps(temps, first, env, h, o, freshFns);
      if h1.halted then h0 == h1
      else Grew(env, env1, first, first + |temps|) && EvalExpr(e, env1, h1, o, freshFns) == (v, h0)
    ensures var (env2, h2) := EvalTemps(temps + [e], first, env, h, o, freshFns);
      h2 == h0 &&
      (!h2.halted ==>
        Holds(Ident(TmpName(first + |temps|)), env, env2, first, first + |temps| + 1, v))
  {
    hide EvalExpr, TmpName, EvalTemps, Lookup;
    TempsConcat(temps, [e], first, env, h, o, freshFns);
    var (env1, h1) := EvalTemps(temps, first, env, h, o, freshFns);
    if temps == [] { NoTemps(first, env, h, o, freshFns); }
    if !h1.halted {
      OneTemp(e, first + |temps|, env1, h1, o, freshFns);
      NewestFound(env1, first + |temps|, v);
    }
  }

  lemma NoTemps(first: nat, env: Env, h: Heap, o: Choices, freshFns: FreshFns)
    ensures EvalTemps([], first, env, h, o, freshFns) == (env, h)
  {
  }

  /** The hidden bindings of a steady argument and what is left in its place do what the
      argument does. */
  lemma {:induction false} SteadyArg(e: Expr, first: nat, env: Env, h: Heap, vis: set<string>, o: Choices,
      freshFns: FreshFns)
    requires Steady(e, freshFns) && !h.halted && ExprNamesIn(e, vis) && AllPlain(vis)
    ensures var p := Hoist(e, false, first, freshFns);
      var (env1, h1) := EvalTemps(p.temps, first, env, h, o, freshFns);
      var (v, h0) := EvalExpr(e, env, h, o, freshFns);
      h1 == h0 && (!h1.halted ==> Holds(p.rest, env, env1, first, first + |p.temps|, v))
    decreases e, 0
  {
    hide TmpName, AllPlain, IsOwningInit, Holds, EvalExpr;
    NoTemps(first, env, h, o, freshFns);
    match e
    case Call(f, args) => SteadyCall(e, first, env, h, vis, o, freshFns);
    case Cond(_, _, _) =>
      var (v, h0) := EvalExpr(e, env, h, o, freshFns);
      OwnBinding([], e, v, h0, first, env, h, o, freshFns);
      assert [] + [e] == [e];
    case _ => QuietHolds(e, env, h, first, o, freshFns);
  }

  lemma QuietHolds(e: Expr, env: Env, h: Heap, first: nat, o: Choices, freshFns: FreshFns)
    requires Quiet(e) && !h.halted
    ensures EvalExpr(e, env, h, o, freshFns) == (QuietValue(e, env), h)
    ensures Holds(e, env, env, first, first, QuietValue(e, env))
  {
    QuietEval(e, env, h, o, freshFns);
  }

  lemma {:induction false} SteadyCall(e: Expr, first: nat, env: Env, h: Heap, vis: set<string>, o: Choices,
      freshFns: FreshFns)
    requires e.Call? && Steady(e, freshFns) && !h.halted && ExprNamesIn(e, vis) && AllPlain(vis)
    ensures var p := Hoist(e, false, first, freshFns);
      var (env1, h1) := EvalTemps(p.temps, first, env, h, o, freshFns);
      var (v, h0) := EvalExpr(e, env, h, o, freshFns);
      h1 == h0 && (!h1.halted ==> Holds(p.rest, env, env1, first, first + |p.temps|, v))
    decreases e.args, 2
  {
    hide TmpName, AllPlain, EvalAll, EvalTemps, Apply, AllQuiet, AllSteady, QuietValues;
    var (temps, rests) := HoistAll(e.args, first, freshFns);
    var call := Call(e.callee, rests);
    SteadyArgs(e.args, first, env, h, vis, o, freshFns);
    var (env1, h1) := EvalTemps(temps, first, env, h, o, freshFns);
    var (vs, h0) := EvalAll(e.args, env, h, o, freshFns);
    var (v, h2) := EvalExpr(e, env, h, o, freshFns);
    assert (v, h2) == Apply(e.callee, vs, h0, o, freshFns);
    if h1.halted {
      ApplyHalted(e.callee, vs, h1, o, freshFns);
    } else {
      CallThere(e.callee, rests, vs, env1, h1, o, freshFns);
    }
    if IsOwningInit(e, freshFns) {
      OwnBinding(temps, call, v, h2, first, env, h, o, freshFns);
    } else if !h1.halted {
      ApplyQuiet(e.callee, vs, h1, o, freshFns);
      assert Quiet(call) by { QuietCall(e.callee, rests); }
    }
  }

  lemma QuietCall(f: string, args: seq<Expr>)
    requires f in SAFE_BUILTINS && f !in OWNED_BUILTINS && f != "proc_exit" && AllQuiet(args)
    ensures Quiet(Call(f, args))
  {
  }

  lemma ApplyHalted(f: string, vs: seq<Val>, h: Heap, o: Choices, freshFns: FreshFns)
    requires h.halted
    ensures Apply(f, vs, h, o, freshFns).1 == h
  {
  }

  lemma ApplyQuiet(f: string, vs: seq<Val>, h: Heap, o: Choices, freshFns: FreshFns)
    requires f in SAFE_BUILTINS && f !in OWNED_BUILTINS && f != "proc_exit" && !h.halted
    ensures Apply(f, vs, h, o, freshFns) == (Other, h)
  {
  }

  /** The call made where its arguments are only read. */
  lemma CallThere(f: string, rests: seq<Expr>, vs: seq<Val>, env: Env, h: Heap, o: Choices, freshFns: FreshFns)
    requires AllQuiet(rests) && QuietValues(rests, env) == vs && !h.halted
    ensures EvalExpr(Call(f, rests), env, h, o, freshFns) == Apply(f, vs, h, o, freshFns)
  {
    QuietEvalAll(rests, env, h, o, freshFns);
  }

  lemma {:induction false} SteadyArgs(es: seq<Expr>, first: nat, env: Env, h: Heap, vis: set<string>, o: Choices,
      freshFns: FreshFns)
    requires AllSteady(es, freshFns) && !h.halted && AllPlain(vis)
    requires forall i :: 0 <= i < |es| ==> ExprNamesIn(es[i], vis)
    ensures var (temps, rests) := HoistAll(es, first, freshFns);
      var (env1, h1) := EvalTemps(temps, first, env, h, o, freshFns);
      var (vs, h0) := EvalAll(es, env, h, o, freshFns);
      h1 == h0 && (!h1.halted ==> AllHold(rests, env, env1, first, first + |temps|, vs))
    decreases es, 1
  {
    hide TmpName, AllPlain, EvalExpr, EvalTemps, Quiet, QuietValue, Steady, Hoist, ExprNamesIn, Grew, AllAvoid;
    if es == [] {
      NoTemps(first, env, h, o, freshFns);
      assert Grew(env, env, first, first) by { GrewNothing(env, first); }
    } else {
      var p := Hoist(es[0], false, first, freshFns);
      var mid := first + |p.temps|;
      var (temps, rests) := HoistAll(es[1..], mid, freshFns);
      SteadyArg(es[0], first, env, h, vis, o, freshFns);
      TempsConcat(p.temps, temps, first, env, h, o, freshFns);
      NoTemps(first, env, h, o, freshFns);
      var (v, hA) := EvalExpr(es[0], env, h, o, freshFns);
      var envA := EvalTemps(p.temps, first, env, h, o, freshFns).0;
      if hA.halted {
        HaltedAll(es[1..], env, hA, o, freshFns);
      } else {
        SteadyArgs(es[1..], mid, envA, hA, vis, o, freshFns);
        forall k: nat ensures AllAvoid(es[1..], TmpName(k)) { PlainAllAvoid(es[1..], vis, k); }
        AllSeesPast(es[1..], env, envA, first, mid, hA, o, freshFns);
        var (env1, h1) := EvalTemps(temps, mid, envA, hA, o, freshFns);
        if !h1.halted {
          RestRange(es[0], first, vis, mid + |temps|, freshFns);
          StillHolds(p.rest, env, envA, env1, first, mid, mid + |temps|, v);
          HoldBoth(p.rest, rests, env, envA, env1, first, mid, mid + |temps|, v,
            EvalAll(es[1..], env, hA, o, freshFns).0);
        }
      }
    }
  }

  lemma GrewNothing(env: Env, first: nat)
    ensures Grew(env, env, first, first)
  {
  }

  /** Bindings that come later do not change what is held. */
  lemma StillHolds(rest: Expr, env: Env, envA: Env, env1: Env, first: nat, mid: nat, last: nat, v: Val)
    requires Holds(rest, env, envA, first, mid, v) && Grew(envA, env1, mid, last) && AvoidsRange(rest, mid, last)
    ensures Quiet(rest) && QuietValue(rest, env1) == v && Grew(env, env1, first, last)
  {
    hide TmpName, Lookup;
    GrewTrans(env, envA, env1, first, mid, last);
    if rest.Ident? {
      forall k | mid <= k < last ensures TmpName(k) != rest.name { assert AvoidsTmp(rest, k); }
      LookupPast(rest.name, envA, env1, mid, last);
    }
  }

  lemma HoldBoth(rest: Expr, rests: seq<Expr>, env: Env, envA: Env, env1: Env, first: nat, mid: nat, last: nat, v: Val,
      vs: seq<Val>)
    requires Quiet(rest) && QuietValue(rest, env1) == v && Grew(env, env1, first, last)
    requires AllHold(rests, envA, env1, mid, last, vs)
    ensures AllHold([rest] + rests, env, env1, first, last, [v] + vs)
  {
    hide Quiet, QuietValue, Grew;
    assert ([rest] + rests)[1..] == rests;
  }

  // ---------- the statement ----------

  /** The hidden bindings and what is left do what the expression does: they end with its
      value and its heap, or end the process in its heap. */
  lemma HoistComputes(e: Expr, bound: bool, env: Env, h: Heap, vis: set<string>, o: Choices, freshFns: FreshFns)
    requires SteadyStatement(e, freshFns) && !h.halted && ExprNamesIn(e, vis) && AllPlain(vis)
    ensures var p := Hoist(e, bound, 0, freshFns);
      var (env1, h1) := EvalTemps(p.temps, 0, env, h, o, freshFns);
      var (v, h0) := EvalExpr(e, env, h, o, freshFns);
      if h1.halted then h0 == h1 else EvalExpr(p.rest, env1, h1, o, freshFns) == (v, h0)
  {
    hide TmpName, AllPlain, EvalAll, EvalTemps, Apply, AllQuiet, AllSteady, QuietValues, IsOwningInit, Grew, Lookup;
    NoTemps(0, env, h, o, freshFns);
    var (v, h0) := EvalExpr(e, env, h, o, freshFns);
    if e.Call? && HoistsInto(e.callee, freshFns) {
      var (temps, rests) := HoistAll(e.args, 0, freshFns);
      SteadyArgs(e.args, 0, env, h, vis, o, freshFns);
      var (env1, h1) := EvalTemps(temps, 0, env, h, o, freshFns);
      var vs := EvalAll(e.args, env, h, o, freshFns).0;
      if h1.halted { ApplyHalted(e.callee, vs, h1, o, freshFns); }
      else { CallThere(e.callee, rests, vs, env1, h1, o, freshFns); }
      OwnBinding(temps, Call(e.callee, rests), v, h0, 0, env, h, o, freshFns);
      HeldIsRead(TmpName(|temps|), v, h0, temps + [Call(e.callee, rests)], env, h, o, freshFns);
    } else if e.Cond? {
      GrewNothing(env, 0);
      OwnBinding([], e, v, h0, 0, env, h, o, freshFns);
      assert [] + [e] == [e];
      HeldIsRead(TmpName(0), v, h0, [e], env, h, o, freshFns);
    }
  }

  lemma HeldIsRead(x: string, v: Val, h0: Heap, temps: seq<Expr>, env: Env, h: Heap, o: Choices, freshFns: FreshFns)
    requires var (env1, h1) := EvalTemps(temps, 0, env, h, o, freshFns);
      h1 == h0 && (!h1.halted ==> QuietValue(Ident(x), env1) == v)
    ensures var (env1, h1) := EvalTemps(temps, 0, env, h, o, freshFns);
      !h1.halted ==> EvalExpr(Ident(x), env1, h1, o, freshFns) == (v, h0)
  {
    hide EvalTemps;
  }

  /** A simple statement computes its expression: whatever is hoisted, the value is the
      expression's own, and so is the heap, before the temporaries are freed. */
  lemma ComputesExpression(e: Expr, bound: bool, r: RState, vis: set<string>, o: Choices, freshFns: FreshFns)
    requires SteadyStatement(e, freshFns) && !r.c.h.halted && ExprNamesIn(e, vis) && AllPlain(vis)
    ensures var (v, r1, _) := RefCompute(e, bound, r, o, freshFns);
      var (v0, r0) := RefEval(e, r, o, freshFns);
      r1 == r0 && (!r1.c.h.halted ==> v == v0)
  {
    HoistComputes(e, bound, r.c.env, r.c.h, vis, o, freshFns);
    NoTemps(0, r.c.env, r.c.h, o, freshFns);
    hide Hoist, EvalExpr, EvalTemps, AllPlain, ExprNamesIn;
  }

  // ---------- no string more is left alive ----------

  function Strings(tv: Env): set<nat> { set i | 0 <= i < |tv| && tv[i].val.Ptr? :: tv[i].val.addr }

  /** No part is a conditional. */
  predicate Direct(e: Expr) {
    match e
    case Lit => true
    case Ident(_) => true
    case Call(_, args) => forall i :: 0 <= i < |args| ==> Direct(args[i])
    case _ => false
  }

  /** What came alive is what the new variables hold. */
  predicate Made(env: Env, h: Heap, env1: Env, h1: Heap) {
    env <= env1 && h.next <= h1.next && h1.live == h.live + Strings(env1[|env|..]) &&
    forall a :: a in Strings(env1[|env|..]) ==> h.next <= a < h1.next
  }

  lemma MadeTrans(env: Env, h: Heap, env1: Env, h1: Heap, env2: Env, h2: Heap)
    requires Made(env, h, env1, h1) && Made(env1, h1, env2, h2)
    ensures Made(env, h, env2, h2)
  {
    assert env2[|env|..] == env1[|env|..] + env2[|env1|..];
    StringsConcat(env1[|env|..], env2[|env1|..]);
  }

  lemma StringsConcat(a: Env, b: Env)
    ensures Strings(a + b) == Strings(a) + Strings(b)
  {
    forall x | x in Strings(b) ensures x in Strings(a + b) {
      var i :| 0 <= i < |b| && b[i].val == Ptr(x);
      assert (a + b)[|a| + i] == b[i];
    }
    forall x | x in Strings(a) ensures x in Strings(a + b) {
      var i :| 0 <= i < |a| && a[i].val == Ptr(x);
      assert (a + b)[i] == a[i];
    }
  }

  lemma MadeNothing(env: Env, h: Heap)
    ensures Made(env, h, env, h)
  {
    assert Strings(env[|env|..]) == {};
  }

  lemma MadeOne(env: Env, h: Heap, h1: Heap, k: nat, v: Val)
    requires v == Ptr(h.next) && h1.next == h.next + 1 && h1.live == h.live + {h.next}
    ensures Made(env, h, env + [Var(TmpName(k), v)], h1)
  {
    var tv := [Var(TmpName(k), v)];
    assert (env + tv)[|env|..] == tv && tv[0].val == v;
    assert Strings(tv) == {h.next};
  }

  lemma ApplyOwned(f: string, vs: seq<Val>, h: Heap, o: Choices, freshFns: FreshFns)
    requires f in OWNED_BUILTINS || f in freshFns
    requires freshFns.Keys !! SAFE_BUILTINS && f != "proc_exit" && !Apply(f, vs, h, o, freshFns).1.halted
    ensures var (v, h1) := Apply(f, vs, h, o, freshFns);
      v == Ptr(h.next) && h1.next == h.next + 1 && h1.live == h.live + {h.next}
  {
  }

  lemma {:induction false} DirectArg(e: Expr, first: nat, env: Env, h: Heap, vis: set<string>, o: Choices,
      freshFns: FreshFns)
    requires Steady(e, freshFns) && Direct(e) && !h.halted && ExprNamesIn(e, vis) && AllPlain(vis)
    requires freshFns.Keys !! SAFE_BUILTINS
    ensures var (env1, h1) := EvalTemps(Hoist(e, false, first, freshFns).temps, first, env, h, o, freshFns);
      !h1.halted ==> Made(env, h, env1, h1)
    decreases e, 0
  {
    hide TmpName, AllPlain, Made, EvalTemps, Apply, AllHold;
    NoTemps(first, env, h, o, freshFns);
    MadeNothing(env, h);
    if e.Call? { DirectCall(e, false, first, env, h, vis, o, freshFns); }
  }

  /** A call whose arguments are direct: its arguments' strings, and its own if it goes
      into a hidden binding. */
  lemma {:induction false} DirectCall(e: Expr, bound: bool, first: nat, env: Env, h: Heap, vis: set<string>,
      o: Choices, freshFns: FreshFns)
    requires e.Call? && (e.callee in SAFE_BUILTINS || e.callee in freshFns) && AllSteady(e.args, freshFns) && Direct(e)
    requires !h.halted && ExprNamesIn(e, vis) && AllPlain(vis) && freshFns.Keys !! SAFE_BUILTINS
    ensures var (env1, h1) := EvalTemps(Hoist(e, bound, first, freshFns).temps, first, env, h, o, freshFns);
      !h1.halted ==> Made(env, h, env1, h1)
    decreases e.args, 2
  {
    hide TmpName, AllPlain, EvalAll, EvalTemps, Apply, AllQuiet, AllSteady, QuietValues, Made, Grew;
    var (temps, rests) := HoistAll(e.args, first, freshFns);
    var call := Call(e.callee, rests);
    SteadyArgs(e.args, first, env, h, vis, o, freshFns);
    DirectArgs(e.args, first, env, h, vis, o, freshFns);
    var (env1, h1) := EvalTemps(temps, first, env, h, o, freshFns);
    var (vs, _) := EvalAll(e.args, env, h, o, freshFns);
    TempsConcat(temps, [call], first, env, h, o, freshFns);
    if temps == [] { NoTemps(first, env, h, o, freshFns); }
    if !h1.halted && !bound && IsOwningInit(e, freshFns) {
      CallThere(e.callee, rests, vs, env1, h1, o, freshFns);
      OneTemp(call, first + |temps|, env1, h1, o, freshFns);
      var (v, h2) := Apply(e.callee, vs, h1, o, freshFns);
      if !h2.halted {
        NotExit(e.callee, freshFns);
        ApplyOwned(e.callee, vs, h1, o, freshFns);
        MadeOne(env1, h1, h2, first + |temps|, v);
        MadeTrans(env, h, env1, h1, env1 + [Var(TmpName(first + |temps|), v)], h2);
      }
    }
  }

  lemma NotExit(f: string, freshFns: FreshFns)
    requires f in OWNED_BUILTINS || (f in freshFns && freshFns.Keys !! SAFE_BUILTINS)
    ensures f != "proc_exit"
  {
    assert "proc_exit" in SAFE_BUILTINS;
  }

  lemma {:induction false} DirectArgs(es: seq<Expr>, first: nat, env: Env, h: Heap, vis: set<string>, o: Choices,
      freshFns: FreshFns)
    requires AllSteady(es, freshFns) && (forall i :: 0 <= i < |es| ==> Direct(es[i])) && !h.halted && AllPlain(vis)
    requires (forall i :: 0 <= i < |es| ==> ExprNamesIn(es[i], vis)) && freshFns.Keys !! SAFE_BUILTINS
    ensures var (env1, h1) := EvalTemps(HoistAll(es, first, freshFns).0, first, env, h, o, freshFns);
      !h1.halted ==> Made(env, h, env1, h1)
    decreases es, 1
  {
    hide TmpName, AllPlain, EvalExpr, EvalTemps, Steady, Direct, Hoist, ExprNamesIn, Made;
    if es == [] {
      NoTemps(first, env, h, o, freshFns);
      MadeNothing(env, h);
    } else {
      var p := Hoist(es[0], false, first, freshFns);
      var mid := first + |p.temps|;
      var temps := HoistAll(es[1..], mid, freshFns).0;
      DirectArg(es[0], first, env, h, vis, o, freshFns);
      TempsConcat(p.temps, temps, first, env, h, o, freshFns);
      NoTemps(first, env, h, o, freshFns);
      var (envA, hA) := EvalTemps(p.temps, first, env, h, o, freshFns);
      if !hA.halted {
        DirectArgs(es[1..], mid, envA, hA, vis, o, freshFns);
        var (env1, h1) := EvalTemps(temps, mid, envA, hA, o, freshFns);
        if !h1.halted { MadeTrans(env, h, envA, hA, env1, h1); }
      }
    }
  }

  lemma {:induction false} ReleasedGone(tv: Env, h: Heap)
    ensures ReleaseTemps(tv, h).live == h.live - Strings(tv)
    decreases |tv|
  {
    if tv == [] {
      assert Strings(tv) == {};
    } else {
      var n := |tv| - 1;
      ReleasedGone(tv[..n], Release(tv[n].val, h));
      assert tv == tv[..n] + [tv[n]];
      StringsConcat(tv[..n], [tv[n]]);
      assert [tv[n]][0] == tv[n];
      assert Strings([tv[n]]) == if tv[n].val.Ptr? then {tv[n].val.addr} else {};
    }
  }

  /** A statement made of calls of the standard library and of fresh-result functions leaves
      alive what was alive, and the string it binds: all temporaries are gone. */
  lemma NothingLeftAlive(e: Expr, bound: bool, r: RState, vis: set<string>, o: Choices, freshFns: FreshFns)
    requires e.Call? && (e.callee in SAFE_BUILTINS || e.callee in freshFns) && AllSteady(e.args, freshFns) && Direct(e)
    requires !r.c.h.halted && ExprNamesIn(e, vis) && AllPlain(vis) && freshFns.Keys !! SAFE_BUILTINS
    requires TemporaryCount(e, bound, freshFns) <= 16 && forall a :: a in r.c.h.live ==> a < r.c.h.next
    requires !RefCompute(e, bound, r, o, freshFns).1.c.h.halted
    ensures var (v, r1, tv) := RefCompute(e, bound, r, o, freshFns);
      RefFinish(tv, r1).c.h.live ==
        r.c.h.live + if bound && IsOwningInit(e, freshFns) then Strings([Var("", v)]) else {}
  {
    hide *;
    var p := Hoist(e, bound, 0, freshFns);
    HoistCounts(e, bound, 0, freshFns);
    DirectCall(e, bound, 0, r.c.env, r.c.h, vis, o, freshFns);
    LastPart(e, bound, r.c.env, r.c.h, vis, o, freshFns);
    ComputedParts(e, bound, p, r, o, freshFns);
    var (env1, h1) := EvalTemps(p.temps, 0, r.c.env, r.c.h, o, freshFns);
    var (v, h2) := EvalExpr(p.rest, env1, h1, o, freshFns);
    ReleasedGone(env1[|r.c.env|..], h2);
    if bound && IsOwningInit(e, freshFns) {
      AllButOne(r.c.env, r.c.h, env1, h1, h2, v);
    } else {
      AllOfThem(r.c.env, r.c.h, env1, h1);
    }
  }

  lemma ComputedParts(e: Expr, bound: bool, p: Plan, r: RState, o: Choices, freshFns: FreshFns)
    requires p == Hoist(e, bound, 0, freshFns) && |p.temps| <= 16
    requires !RefCompute(e, bound, r, o, freshFns).1.c.h.halted
    ensures var (env1, h1) := EvalTemps(p.temps, 0, r.c.env, r.c.h, o, freshFns);
      var (v, h2) := EvalExpr(p.rest, env1, h1, o, freshFns);
      var (v1, r1, tv) := RefCompute(e, bound, r, o, freshFns);
      !h1.halted && !h2.halted && v1 == v && tv == env1[|r.c.env|..] &&
      RefFinish(tv, r1).c.h == ReleaseTemps(tv, h2)
  {
    hide Hoist, EvalExpr, EvalTemps, ReleaseTemps;
  }

  lemma AllOfThem(env: Env, h: Heap, env1: Env, h1: Heap)
    requires Made(env, h, env1, h1) && forall a :: a in h.live ==> a < h.next
    ensures h1.live - Strings(env1[|env|..]) == h.live
  {
    hide Strings;
  }

  lemma AllButOne(env: Env, h: Heap, env1: Env, h1: Heap, h2: Heap, v: Val)
    requires Made(env, h, env1, h1) && forall a :: a in h.live ==> a < h.next
    requires v == Ptr(h1.next) && h2.live == h1.live + {h1.next}
    ensures h2.live - Strings(env1[|env|..]) == h.live + Strings([Var("", v)])
  {
    var one := [Var("", v)];
    assert one[0].val == v && Strings(one) == {h1.next};
    hide Strings;
  }

  /** What is left makes no string but the one that is bound. */
  lemma LastPart(e: Expr, bound: bool, env: Env, h: Heap, vis: set<string>, o: Choices, freshFns: FreshFns)
    requires e.Call? && (e.callee in SAFE_BUILTINS || e.callee in freshFns) && AllSteady(e.args, freshFns) && Direct(e)
    requires !h.halted && ExprNamesIn(e, vis) && AllPlain(vis) && freshFns.Keys !! SAFE_BUILTINS
    ensures var p := Hoist(e, bound, 0, freshFns);
      var (env1, h1) := EvalTemps(p.temps, 0, env, h, o, freshFns);
      var (v, h2) := EvalExpr(p.rest, env1, h1, o, freshFns);
      !h1.halted && !h2.halted ==>
        if bound && IsOwningInit(e, freshFns)
        then v == Ptr(h1.next) && h2.live == h1.live + {h1.next} else h2.live == h1.live
  {
    hide TmpName, AllPlain, EvalAll, EvalTemps, Apply, AllQuiet, AllSteady, QuietValues, Made, Grew;
    var (temps, rests) := HoistAll(e.args, 0, freshFns);
    SteadyArgs(e.args, 0, env, h, vis, o, freshFns);
    var (env1, h1) := EvalTemps(temps, 0, env, h, o, freshFns);
    var vs := EvalAll(e.args, env, h, o, freshFns).0;
    if !h1.halted && (bound || !IsOwningInit(e, freshFns)) {
      CallThere(e.callee, rests, vs, env1, h1, o, freshFns);
      if IsOwningInit(e, freshFns) {
        NotExit(e.callee, freshFns);
        if !Apply(e.callee, vs, h1, o, freshFns).1.halted { ApplyOwned(e.callee, vs, h1, o, freshFns); }
      } else if e.callee != "proc_exit" {
        ApplyQuiet(e.callee, vs, h1, o, freshFns);
      } else {
        ExitHalts(vs, h1, o, freshFns);
      }
    }
  }

  lemma ExitHalts(vs: seq<Val>, h: Heap, o: Choices, freshFns: FreshFns)
    requires !h.halted
    ensures Apply("proc_exit", vs, h, o, freshFns).1.halted
  {
  }
}
