/** The simulation between emitted C and the source semantics, by induction over
    statements. */
module OwnershipSim {
  import opened OwnershipSyntax
  import opened OwnershipTemps
  import opened OwnershipRun
  import opened OwnershipRef
  import opened OwnershipEmit
  import opened OwnershipCorrect

  // ---------- a statement touches only variables of its own ----------

  /** The variables of `r` keep their names, and what the first `n` own stays. */
  predicate Extends(r: RState, r': RState, n: nat) {
    n <= |r.own| <= |r'.own| && r.own[..n] == r'.own[..n] && r.outer == r'.outer && (r.astray ==> r'.astray) &&
    r.leaked <= r'.leaked &&
    forall i :: 0 <= i < |r.own| ==> r.c.env[i].name == r'.c.env[i].name
  }

  predicate Grows(r: RState, r': RState) { Extends(r, r', |r.own|) }

  lemma ExtendsTrans(a: RState, b: RState, c: RState, n: nat)
    requires Extends(a, b, n) && Extends(b, c, n)
    ensures Extends(a, c, n)
  {
  }

  lemma ExtendsLess(a: RState, b: RState, n: nat, m: nat)
    requires Extends(a, b, n) && m <= n
    ensures Extends(a, b, m)
  {
    assert a.own[..m] == a.own[..n][..m] && b.own[..m] == b.own[..n][..m];
  }

  lemma GrowsTrans(a: RState, b: RState, c: RState)
    requires Grows(a, b) && Grows(b, c)
    ensures Grows(a, c)
  {
    ExtendsLess(b, c, |b.own|, |a.own|);
  }

  lemma {:induction false} DestroyFrame(env: Env, own: seq<Own>, h: Heap, lo: nat)
    requires |own| == |env|
    ensures Destroy(env, own, h, lo).halted == h.halted
    decreases |env|
  {
    if |env| > lo {
      var k := |env| - 1;
      DestroyFrame(env[..k], own[..k], if Active(own[k]) then Release(env[k].val, h) else h, lo);
    }
  }

  lemma LeaveScopeFrame(r: RState, r1: RState, out: ROut)
    requires Grows(r, r1)
    ensures Grows(r, LeaveScope(r1, |r.own|, out))
    ensures !out.ROutOfFuel? ==> |LeaveScope(r1, |r.own|, out).own| == |r.own|
    ensures LeaveScope(r1, |r.own|, out).c.h.halted == r1.c.h.halted
  {
    var n := |r.own|;
    DestroyFrame(r1.c.env, Show(r1.own, n), r1.c.h, n);
    DestroyFrame(r1.c.env, Forget(r1.own, n), r1.c.h, n);
    assert Show(r1.own, n)[..n] == r1.own[..n] && Forget(r1.own, n)[..n] == r1.own[..n];
  }

  lemma {:induction false} ReleaseTempsFrame(tv: Env, h: Heap)
    ensures ReleaseTemps(tv, h).halted == h.halted
    decreases |tv|
  {
    if tv != [] { ReleaseTempsFrame(tv[..|tv| - 1], Release(tv[|tv| - 1].val, h)); }
  }

  lemma ComputeFrame(e: Expr, bound: bool, r: RState, o: Choices, freshFns: FreshFns)
    ensures var r1 := RefCompute(e, bound, r, o, freshFns).1; r1 == r.(c := r.c.(h := r1.c.h))
  {
    hide EvalExpr, Chosen;
  }

  lemma AssignFrame(n: string, e: Expr, v: Val, r: RState, d: nat, freshFns: FreshFns)
    ensures var r1 := RefAssign(n, e, v, r, d, freshFns);
      Grows(r, r1) && |r1.own| == |r.own| && r1.own == r.own && r1.c.h.halted == r.c.h.halted
  {
    hide TakenForOwner, SearchOwner;
  }

  /** Only an exit leaves the process ended. */
  predicate Alive(r: RState, r': RState, out: ROut) { !r.c.h.halted && !out.RExited? ==> !r'.c.h.halted }

  /** What a statement does to the variables. */
  predicate StmtShape(s: Stmt, k: Own, r: RState, r': RState, out: ROut) {
    Grows(r, r') && Alive(r, r', out) &&
    (!out.ROutOfFuel? && !(s.Bind? && out.RNormal?) ==> |r'.own| == |r.own|) && (s.Bind? ==> !out.ROutOfFuel?) &&
    (s.Bind? && out.RNormal? ==>
      r'.own == r.own + [k] && |r'.c.env| == |r.c.env| + 1 && r'.c.env[|r.own|].name == s.name)
  }

  lemma {:induction false} RefStmtFrame(s: Stmt, k: Own, r: RState, d: nat, o: Choices, freshFns: FreshFns, fuel: nat)
    ensures var (r', out) := RefStmt(s, k, r, d, o, freshFns, fuel); StmtShape(s, k, r, r', out)
    decreases fuel, s, 0
  {
    hide EvalExpr, EvalTemps, Chosen, Destroy, RefScope, RefIteration, RefCompute, RefAssign, ReleaseTemps;
    match s
    case Block(sc) => RefScopeFrame(sc, r, d, o, freshFns, fuel);
    case If(e, sc) =>
      var (_, r1) := RefEval(e, r, o, freshFns);
      if !r1.c.h.halted &&
        Decide(o, r1.c.h) { RefScopeFrame(sc, r1.(c := r1.c.(h := Tick(r1.c.h))), d, o, freshFns, fuel); }
    case Loop(e, body) =>
      if fuel > 0 {
        var (r1, out, again) := RefIteration(e, body, r, d, o, freshFns, fuel);
        RefIterationFrame(e, body, r, d, o, freshFns, fuel);
        if again {
          RefStmtFrame(s, k, r1, d, o, freshFns, fuel - 1);
          GrowsTrans(r, r1, RefStmt(s, k, r1, d, o, freshFns, fuel - 1).0);
        }
      }
    case Bind(n, _, e) =>
      var (v, r1, tv) := RefCompute(e, true, r, o, freshFns);
      ComputeFrame(e, true, r, o, freshFns);
      ReleaseTempsFrame(tv, r1.c.h);
    case Assign(n, e) =>
      var (v, r1, tv) := RefCompute(e, true, r, o, freshFns);
      ComputeFrame(e, true, r, o, freshFns);
      AssignFrame(n, e, v, r1, d, freshFns);
      ReleaseTempsFrame(tv, RefAssign(n, e, v, r1, d, freshFns).c.h);
    case Eval(e) =>
      var (v, r1, tv) := RefCompute(e, false, r, o, freshFns);
      ComputeFrame(e, false, r, o, freshFns);
      ReleaseTempsFrame(tv, r1.c.h);
    case _ =>
  }

  lemma {:induction false} RefIterationFrame(e: Expr, body: seq<Stmt>, r: RState, d: nat, o: Choices,
      freshFns: FreshFns, fuel: nat)
    ensures var (r1, out, again) := RefIteration(e, body, r, d, o, freshFns, fuel);
      Grows(r, r1) && Alive(r, r1, out) && (!out.ROutOfFuel? ==> |r1.own| == |r.own|) &&
      (again ==> !out.ROutOfFuel? && !out.RExited?)
    decreases fuel, body, |body| + 1
  {
    var (_, r1) := RefEval(e, r, o, freshFns);
    var sc := LoopScope(body);
    var r2 := r1.(c := r1.c.(h := Tick(r1.c.h)), loop := |r.own|, outer := r.outer + [sc]);
    if !r1.c.h.halted && Decide(o, r1.c.h) {
      var (r3, out) := RefFrom(sc, 0, r2, d + 1, o, freshFns, fuel);
      RefFromFrame(sc, 0, r2, d + 1, o, freshFns, fuel);
      LeaveScopeFrame(r2, r3, out);
    }
  }

  lemma {:induction false} RefFromFrame(sc: Scope, i: nat, r: RState, d: nat, o: Choices, freshFns: FreshFns, fuel: nat)
    requires i <= |sc.stmts|
    ensures var (r', out) := RefFrom(sc, i, r, d, o, freshFns, fuel); Grows(r, r') && Alive(r, r', out)
    decreases fuel, sc.stmts, |sc.stmts| - i
  {
    if i < |sc.stmts| {
      var k := OwnAt(sc, i, freshFns);
      var (r1, out) := RefStmt(sc.stmts[i], k, r, d, o, freshFns, fuel);
      RefStmtFrame(sc.stmts[i], k, r, d, o, freshFns, fuel);
      if out.RNormal? {
        var r2 := Note(r1, sc.stmts[i], false, d, out);
        RefFromFrame(sc, i + 1, r2, d, o, freshFns, fuel);
        GrowsTrans(r, r2, RefFrom(sc, i + 1, r2, d, o, freshFns, fuel).0);
      }
    }
  }

  lemma {:induction false} RefTrailingFrame(s: Stmt, r: RState, d: nat, o: Choices, freshFns: FreshFns, fuel: nat)
    ensures var (r', out) := RefTrailing(s, r, d, o, freshFns, fuel); StmtShape(s, NotOwner, r, r', out)
    decreases fuel, s, 1
  {
    RefStmtFrame(s, NotOwner, r, d, o, freshFns, fuel);
  }

  lemma {:induction false} RefFinalFrame(fin: Final, r: RState, d: nat, o: Choices, freshFns: FreshFns, fuel: nat)
    ensures var (r', out) := RefFinal(fin, r, d, o, freshFns, fuel); Grows(r, r') && Alive(r, r', out)
    decreases fuel, fin, 2
  {
    if fin.Final? { RefTrailingFrame(fin.s, r, d, o, freshFns, fuel); }
  }

  function HideFrom(r: RState, base: nat): RState { r.(own := Hide(r.own, base)) }

  lemma HiddenExtends(r: RState, base: nat)
    requires base <= |r.own|
    ensures Extends(r, HideFrom(r, base), base) && |HideFrom(r, base).own| == |r.own|
  {
    assert Hide(r.own, base)[..base] == r.own[..base];
  }

  lemma {:induction false} RefDeferredFrame(ss: seq<Stmt>, n: nat, r: RState, base: nat, d: nat, o: Choices,
      freshFns: FreshFns, fuel: nat)
    requires n <= |ss| && base <= |r.own|
    ensures var (r', out) := RefDeferred(ss, n, r, base, d, o, freshFns, fuel);
      Extends(r, r', base) && Alive(r, r', out)
    decreases fuel, ss, n
  {
    if n > 0 {
      var r0 := HideFrom(r, base);
      HiddenExtends(r, base);
      RefTrailingFrame(ss[n - 1], r0, d, o, freshFns, fuel);
      var (r1, out) := RefTrailing(ss[n - 1], r0, d, o, freshFns, fuel);
      ExtendsLess(r0, r1, |r0.own|, base);
      ExtendsTrans(r, r0, r1, base);
      if out.RNormal? {
        RefDeferredFrame(ss, n - 1, r1, base, d, o, freshFns, fuel);
        ExtendsTrans(r, r1, RefDeferred(ss, n - 1, r1, base, d, o, freshFns, fuel).0, base);
      }
    }
  }

  lemma {:induction false} RefBodyFrame(sc: Scope, r: RState, d: nat, o: Choices, freshFns: FreshFns, fuel: nat)
    ensures var (r', out) := RefBody(sc, r, d, o, freshFns, fuel); Grows(r, r') && Alive(r, r', out)
    decreases fuel, sc, 0
  {
    var (r1, out1) := RefFrom(sc, 0, r, d, o, freshFns, fuel);
    RefFromFrame(sc, 0, r, d, o, freshFns, fuel);
    if out1.RNormal? {
      RefFinalFrame(sc.fin, r1, d, o, freshFns, fuel);
      GrowsTrans(r, r1, RefFinal(sc.fin, r1, d, o, freshFns, fuel).0);
    }
  }

  /** Inside the block's scope. */
  function Inside(r: RState, sc: Scope): RState { r.(outer := r.outer + [sc]) }

  lemma {:induction false} RefInsideFrame(sc: Scope, r: RState, d: nat, o: Choices, freshFns: FreshFns, fuel: nat)
    ensures var (r', out) := RefInside(sc, r, d, o, freshFns, fuel); Grows(r, r') && Alive(r, r', out)
    decreases fuel, sc, 1
  {
    var (r1, out1) := RefBody(sc, Inside(r, sc), d + 1, o, freshFns, fuel);
    RefBodyFrame(sc, Inside(r, sc), d + 1, o, freshFns, fuel);
    if out1.RNormal? {
      var r2 := r1.(outer := r.outer);
      RefDeferredFrame(sc.deferred, |sc.deferred|, r2, |r.own|, d, o, freshFns, fuel);
      ExtendsTrans(r, r2, RefDeferred(sc.deferred, |sc.deferred|, r2, |r.own|, d, o, freshFns, fuel).0, |r.own|);
    }
  }

  lemma {:induction false} RefScopeFrame(sc: Scope, r: RState, d: nat, o: Choices, freshFns: FreshFns, fuel: nat)
    ensures var (r', out) := RefScope(sc, r, d, o, freshFns, fuel);
      Grows(r, r') && Alive(r, r', out) && (!out.ROutOfFuel? ==> |r'.own| == |r.own|)
    decreases fuel, sc, 2
  {
    var (r1, out) := RefInside(sc, r, d, o, freshFns, fuel);
    RefInsideFrame(sc, r, d, o, freshFns, fuel);
    LeaveScopeFrame(r, r1, out);
  }

  // ---------- the relation between the two runs ----------

  /** The visible names are the variables' names. */
  predicate NamesOk(r: RState, vis: Visible) {
    !r.c.h.halted && NoDup(r.c.env) && vis.Keys == Names(r.c.env) && AllPlain(vis.Keys)
  }

  /** The emitter's scope stack describes the variables. */
  predicate OnStack(k: Stack, r: RState, freshFns: FreshFns) {
    |k.scopes| == (if k.depth < MAX_SCOPE_DEPTH then k.depth else MAX_SCOPE_DEPTH) &&
    (Tracked(k) ==> Aligned(k.scopes, |r.own|, r.c.env, r.own, freshFns) && ScopesOf(k.scopes) == r.outer)
  }

  predicate Ctx(k: Stack, r: RState, vis: Visible, freshFns: FreshFns) { NamesOk(r, vis) && OnStack(k, r, freshFns) }

  /** Loop and function bases of a tracked stack; not used otherwise. */
  function LoopAt(k: Stack, r: RState, freshFns: FreshFns): (b: nat)
    requires Tracked(k) ==> Aligned(k.scopes, |r.own|, r.c.env, r.own, freshFns)
    ensures b <= |r.own|
  {
    if Tracked(k) then LoopBase(k.scopes, |r.own|, r.c.env, r.own, freshFns) else 0
  }

  function ExitAt(k: Stack, r: RState, freshFns: FreshFns): (b: nat)
    requires Tracked(k) ==> Aligned(k.scopes, |r.own|, r.c.env, r.own, freshFns)
    ensures b <= |r.own|
  {
    if Tracked(k) then ExitBase(k.scopes, |r.own|, r.c.env, r.own, freshFns) else 0
  }

  /** The emitted code frees at the jump what the source scopes still destroy on
      their way out: down to `lb` for a break or skip, to `eb` for an exit. */
  predicate Matches(c: (CState, Out), r: (RState, ROut), lb: nat, eb: nat) {
    var (cs, cout) := c;
    var (rs, rout) := r;
    match rout
    case RNormal => cout == Normal && cs == rs.c
    case RBroke(t) => cout == Broke && cs == Freed(rs, t, lb)
    case RSkipped(t) => cout == Continued && cs == Freed(rs, t, lb)
    case RExited(t) => cout == Exited && cs == Freed(rs, t, eb)
    case ROutOfFuel => cout == OutOfFuel && cs == rs.c
  }

  function Freed(r: RState, t: bool, lo: nat): CState {
    if t then r.c.(h := Destroy(r.c.env, r.own, r.c.h, lo)) else r.c
  }

  // ---------- hidden bindings ----------

  predicate OnlyTemps(tv: Env) { forall i :: 0 <= i < |tv| ==> !Plain(tv[i].name) }

  lemma {:induction false} TempsAreHidden(temps: seq<Expr>, j: nat, env: Env, h: Heap, o: Choices, freshFns: FreshFns)
    ensures OnlyTemps(EvalTemps(temps, j, env, h, o, freshFns).0[|env|..])
    decreases temps
  {
    if temps != [] {
      var (v, h1) := EvalExpr(temps[0], env, h, o, freshFns);
      if !h1.halted {
        TmpNotPlain(j);
        var env1 := env + [Var(TmpName(j), v)];
        TempsAreHidden(temps[1..], j + 1, env1, h1, o, freshFns);
        var all := EvalTemps(temps[1..], j + 1, env1, h1, o, freshFns).0;
        assert all[|env|..] == [all[|env|]] + all[|env1|..];
        assert all[|env|] == env1[|env|];
      }
    }
  }

  /** A program variable is found below the hidden bindings. */
  lemma {:induction false} PlainFind(env: Env, tv: Env, n: string)
    requires Plain(n) && OnlyTemps(tv)
    ensures Find(env + tv, n) == Find(env, n) && Lookup(env + tv, n) == Lookup(env, n)
    ensures forall v :: Update(env + tv, n, v) == Update(env, n, v) + tv
    decreases |tv|
  {
    if tv == [] {
      assert env + tv == env;
    } else {
      var k := |tv| - 1;
      PlainFind(env, tv[..k], n);
      assert env + tv == (env + tv[..k]) + [tv[k]];
      FindPush(env + tv[..k], tv[k], n);
    }
  }

  /** The process ends while the hidden bindings are computed. */
  lemma HoistedHalts(temps: seq<Expr>, inner: CStmt, st: CState, o: Choices, freshFns: FreshFns, fuel: nat)
    requires !st.h.halted && EvalTemps(temps, 0, st.env, st.h, o, freshFns).1.halted
    ensures RunAll([Hoisted(temps, inner)], st, o, freshFns, fuel) ==
            (st.(h := EvalTemps(temps, 0, st.env, st.h, o, freshFns).1), Exited)
  {
    RunOne(Hoisted(temps, inner), st, o, freshFns, fuel);
  }

  /** The statement proper, below its hidden bindings, ends the process. */
  lemma HoistedExits(temps: seq<Expr>, inner: CStmt, st: CState, h2: Heap, o: Choices, freshFns: FreshFns, fuel: nat)
    requires var (env1, h1) := EvalTemps(temps, 0, st.env, st.h, o, freshFns);
      !h1.halted && Run(inner, CState(env1, h1), o, freshFns, fuel) == (CState(env1, h2), Exited)
    ensures RunAll([Hoisted(temps, inner)], st, o, freshFns, fuel) == (CState(st.env, h2), Exited)
  {
    hide EvalExpr, RunAll;
    RunOne(Hoisted(temps, inner), st, o, freshFns, fuel);
    if temps == [] {
      assert EvalTemps(temps, 0, st.env, st.h, o, freshFns) == (st.env, st.h);
    } else {
      assert EvalTemps(temps, 0, st.env, st.h, o, freshFns).0[..|st.env|] == st.env;
    }
  }

  /** It ends normally: the hidden bindings are freed and dropped. */
  lemma HoistedEnds(temps: seq<Expr>, inner: CStmt, st: CState, env: Env, more: Env, h2: Heap, o: Choices,
      freshFns: FreshFns, fuel: nat)
    requires |env| == |st.env|
    requires var (env1, h1) := EvalTemps(temps, 0, st.env, st.h, o, freshFns);
      !h1.halted &&
      Run(inner, CState(env1, h1), o, freshFns, fuel) == (CState(env + env1[|st.env|..] + more, h2), Normal)
    ensures RunAll([Hoisted(temps, inner)], st, o, freshFns, fuel) ==
            (CState(env + more, ReleaseTemps(EvalTemps(temps, 0, st.env, st.h, o, freshFns).0[|st.env|..], h2)), Normal)
  {
    hide EvalExpr, EvalTemps, ReleaseTemps, RunAll;
    RunOne(Hoisted(temps, inner), st, o, freshFns, fuel);
    var (env1, h1) := EvalTemps(temps, 0, st.env, st.h, o, freshFns);
    var tv := env1[|st.env|..];
    var all := env + tv + more;
    if temps == [] {
      NoTemps(st, o, freshFns);
      assert all == env + more;
    } else {
      assert all[..|env|] == env && all[|env| + |tv|..] == more;
      assert Drop(all, |env|, |tv|) == env + more;
    }
  }

  lemma NoTemps(st: CState, o: Choices, freshFns: FreshFns)
    ensures EvalTemps([], 0, st.env, st.h, o, freshFns) == (st.env, st.h)
    ensures forall h :: ReleaseTemps([], h) == h
  {
  }

  // ---------- single statements ----------

  /** The emitted reassignment block: new value first, then free the old one;
      nothing is freed if computing the value ends the process. */
  lemma SwapRun(n: string, e: Expr, env: Env, h: Heap, o: Choices, freshFns: FreshFns, fuel: nat)
    requires Avoids(e, "tiq_old") && n != "tiq_old" && !h.halted
    ensures var (v, h1) := EvalExpr(e, env, h, o, freshFns);
      Run(EmitSet(n, e, true), CState(env, h), o, freshFns, fuel) ==
      if h1.halted then (CState(env, h1), Exited)
        else (CState(Update(env, n, v), Release(Lookup(env, n), h1)), Normal)
  {
    var x := Var("tiq_old", Lookup(env, n));
    var (v, h1) := EvalExpr(e, env, h, o, freshFns);
    var env1 := Update(env, n, v);
    EvalIgnores(e, env, x, h, o, freshFns);
    FindPush(env, x, n);
    RunCons(CDecl("tiq_old", Ident(n)), [CSet(n, e), CFree("tiq_old")], CState(env, h), o, freshFns, fuel);
    RunCons(CSet(n, e), [CFree("tiq_old")], CState(env + [x], h), o, freshFns, fuel);
    RunOne(CFree("tiq_old"), CState(env1 + [x], h1), o, freshFns, fuel);
    assert Find(env1 + [x], "tiq_old") == |env1|;
    assert [CDecl("tiq_old", Ident(n))] + [CSet(n, e), CFree("tiq_old")] ==
           [CDecl("tiq_old", Ident(n)), CSet(n, e), CFree("tiq_old")];
    assert [CSet(n, e)] + [CFree("tiq_old")] == [CSet(n, e), CFree("tiq_old")];
    assert (env1 + [x])[..|env|] == env1 && (env + [x])[..|env|] == env;
  }

  lemma SimBind(s: Stmt, kk: Own, k: Stack, r: RState, o: Choices, freshFns: FreshFns, fuel: nat)
    requires s.Bind? && !r.c.h.halted
    ensures Matches(RunAll(EmitStmt(s, k, freshFns), r.c, o, freshFns, fuel),
                    RefStmt(s, kk, r, k.depth, o, freshFns, fuel), 0, 0)
  {
    hide EvalExpr, Chosen, EvalTemps, ReleaseTemps, Hoisted, RunAll, Destroy;
    var env := r.c.env;
    var p := Chosen(s.init, true, freshFns);
    var inner := CDecl(s.name, p.rest);
    var (env1, h1) := EvalTemps(p.temps, 0, env, r.c.h, o, freshFns);
    if h1.halted {
      HoistedHalts(p.temps, inner, r.c, o, freshFns, fuel);
    } else {
      var (v, h2) := EvalExpr(p.rest, env1, h1, o, freshFns);
      assert env1 == env + env1[|env|..];
      if h2.halted {
        HoistedExits(p.temps, inner, r.c, h2, o, freshFns, fuel);
      } else {
        HoistedEnds(p.temps, inner, r.c, env, [Var(s.name, v)], h2, o, freshFns, fuel);
      }
    }
  }

  lemma SimEval(e: Expr, kk: Own, k: Stack, r: RState, o: Choices, freshFns: FreshFns, fuel: nat)
    requires !r.c.h.halted
    ensures Matches(RunAll(EmitStmt(Eval(e), k, freshFns), r.c, o, freshFns, fuel),
                    RefStmt(Eval(e), kk, r, k.depth, o, freshFns, fuel), 0, 0)
  {
    hide EvalExpr, Chosen, EvalTemps, ReleaseTemps, Hoisted, RunAll, Destroy;
    var env := r.c.env;
    var p := Chosen(e, false, freshFns);
    var inner := CExpr(p.rest);
    var (env1, h1) := EvalTemps(p.temps, 0, env, r.c.h, o, freshFns);
    if h1.halted {
      HoistedHalts(p.temps, inner, r.c, o, freshFns, fuel);
    } else {
      var (_, h2) := EvalExpr(p.rest, env1, h1, o, freshFns);
      assert env1 == env + env1[|env|..] + [];
      if h2.halted {
        HoistedExits(p.temps, inner, r.c, h2, o, freshFns, fuel);
      } else {
        HoistedEnds(p.temps, inner, r.c, env, [], h2, o, freshFns, fuel);
        assert env + [] == env;
      }
    }
  }

  /** What is assigned does not mention the emitter's own name. */
  lemma RestAvoids(e: Expr, vis: set<string>, freshFns: FreshFns)
    requires ExprNamesIn(e, vis) && AllPlain(vis)
    ensures Avoids(Chosen(e, true, freshFns).rest, "tiq_old")
  {
    NamesAvoid(e, vis, "tiq_old");
    forall k: nat ensures TmpName(k) != "tiq_old" { TmpNotPlain(k); }
    HoistAvoids(e, true, 0, freshFns, "tiq_old");
  }

  /** The emitter frees the previous string exactly when the source semantics does. */
  lemma SwapsIff(n: string, e: Expr, k: Stack, r: RState, vis: Visible, freshFns: FreshFns)
    requires Ctx(k, r, vis, freshFns) && n in vis
    ensures var i := Find(r.c.env, n);
      0 <= i < |r.own| && (Swaps(n, e, k, freshFns) <==>
        IsOwnedBuiltinCall(e) && TakenForOwner(r.own[i], n, k.depth, r.outer, freshFns))
  {
    hide Aligned, SearchOwner, ReassignsOwner;
    FindNames(r.c.env, n);
    var i := Find(r.c.env, n);
    if Tracked(k) {
      if r.own[i].Hidden? {
        ReassignsIsSearch(k.scopes, n, freshFns);
      } else {
        ReassignsOwnerIff(k.scopes, |r.own|, r.c.env, r.own, i, freshFns);
      }
    }
  }

  /** The assignment itself, below the hidden bindings. */
  lemma SetRun(n: string, rest: Expr, swap: bool, env: Env, tv: Env, h: Heap, o: Choices, freshFns: FreshFns, fuel: nat)
    requires Avoids(rest, "tiq_old") && Plain(n) && OnlyTemps(tv) && !h.halted
    ensures var (v, h1) := EvalExpr(rest, env + tv, h, o, freshFns);
      Run(EmitSet(n, rest, swap), CState(env + tv, h), o, freshFns, fuel) ==
      if h1.halted then (CState(env + tv, h1), Exited)
        else (CState(Update(env, n, v) + tv, if swap then Release(Lookup(env, n), h1) else h1), Normal)
  {
    hide EvalExpr, Release, Lookup, Update, Avoids;
    PlainFind(env, tv, n);
    assert n != "tiq_old";
    var (v, h1) := EvalExpr(rest, env + tv, h, o, freshFns);
    assert Update(env + tv, n, v) == Update(env, n, v) + tv;
    if swap {
      SwapRun(n, rest, env + tv, h, o, freshFns, fuel);
    } else {
      assert EmitSet(n, rest, swap) == CSet(n, rest);
    }
  }

  /** What assigning does to the state, by the emitter's answer. */
  lemma AssignEffect(n: string, e: Expr, v: Val, r: RState, swap: bool, d: nat, freshFns: FreshFns)
    requires var i := Find(r.c.env, n);
      0 <= i && (swap <==> IsOwnedBuiltinCall(e) && TakenForOwner(r.own[i], n, d, r.outer, freshFns))
    ensures RefAssign(n, e, v, r, d, freshFns).c ==
      CState(Update(r.c.env, n, v), if swap then Release(Lookup(r.c.env, n), r.c.h) else r.c.h)
  {
    hide Update, Release, TakenForOwner, SearchOwner;
  }

  /** What the assignment comes to: where the process ends, or the final variables and heap. */
  lemma AssignRef(n: string, e: Expr, kk: Own, r: RState, swap: bool, d: nat, o: Choices, freshFns: FreshFns, fuel: nat)
    requires var i := Find(r.c.env, n);
      0 <= i && (swap <==> IsOwnedBuiltinCall(e) && TakenForOwner(r.own[i], n, d, r.outer, freshFns))
    ensures var (v, r1, tv) := RefCompute(e, true, r, o, freshFns);
      var h3 := if swap then Release(Lookup(r.c.env, n), r1.c.h) else r1.c.h;
      var (r2, out) := RefStmt(Assign(n, e), kk, r, d, o, freshFns, fuel);
      if r1.c.h.halted then r2.c == r1.c && out == RExited(false)
      else r2.c == CState(Update(r.c.env, n, v), ReleaseTemps(tv, h3)) && out == RNormal
  {
    hide Update, Release, TakenForOwner, SearchOwner, RefCompute, RefAssign, ReleaseTemps, Lookup, Find;
    ComputeFrame(e, true, r, o, freshFns);
    var (v, r1, tv) := RefCompute(e, true, r, o, freshFns);
    AssignEffect(n, e, v, r1, swap, d, freshFns);
  }

  lemma SimAssign(n: string, e: Expr, kk: Own, k: Stack, r: RState, vis: Visible, o: Choices, freshFns: FreshFns,
      fuel: nat)
    requires Ctx(k, r, vis, freshFns) && n in vis && ExprNamesIn(e, vis.Keys)
    ensures Matches(RunAll(EmitStmt(Assign(n, e), k, freshFns), r.c, o, freshFns, fuel),
                    RefStmt(Assign(n, e), kk, r, k.depth, o, freshFns, fuel), 0, 0)
  {
    hide EvalExpr, Aligned, Names, Destroy, ReassignsOwner, Find, NoDup, Chosen, EvalTemps, ReleaseTemps, Avoids,
      TakenForOwner, Swaps, Release, SearchOwner, ExprNamesIn, RunAll, Run, RefStmt, Update, Lookup, Hoisted, EmitSet;
    var env := r.c.env;
    var p := Chosen(e, true, freshFns);
    var swap := Swaps(n, e, k, freshFns);
    var inner := EmitSet(n, p.rest, swap);
    SwapsIff(n, e, k, r, vis, freshFns);
    AssignRef(n, e, kk, r, swap, k.depth, o, freshFns, fuel);
    var (env1, h1) := EvalTemps(p.temps, 0, env, r.c.h, o, freshFns);
    if h1.halted {
      HoistedHalts(p.temps, inner, r.c, o, freshFns, fuel);
    } else {
      AssignRun(n, e, swap, r.c, vis.Keys, o, freshFns, fuel);
    }
  }

  /** Running the emitted assignment, once the hidden bindings are there. */
  lemma AssignRun(n: string, e: Expr, swap: bool, st: CState, vis: set<string>, o: Choices, freshFns: FreshFns,
      fuel: nat)
    requires n in vis && AllPlain(vis) && ExprNamesIn(e, vis)
    requires !EvalTemps(Chosen(e, true, freshFns).temps, 0, st.env, st.h, o, freshFns).1.halted
    ensures var p := Chosen(e, true, freshFns);
      var (env1, h1) := EvalTemps(p.temps, 0, st.env, st.h, o, freshFns);
      var (v, h2) := EvalExpr(p.rest, env1, h1, o, freshFns);
      var h3 := if swap then Release(Lookup(st.env, n), h2) else h2;
      RunAll([Hoisted(p.temps, EmitSet(n, p.rest, swap))], st, o, freshFns, fuel) ==
      if h2.halted then (CState(st.env, h2), Exited)
        else (CState(Update(st.env, n, v), ReleaseTemps(env1[|st.env|..], h3)), Normal)
  {
    hide EvalExpr, Find, Chosen, EvalTemps, ReleaseTemps, Avoids, Release, ExprNamesIn, RunAll, Run, Lookup, Hoisted,
      EmitSet;
    var p := Chosen(e, true, freshFns);
    var inner := EmitSet(n, p.rest, swap);
    RestAvoids(e, vis, freshFns);
    TempsAreHidden(p.temps, 0, st.env, st.h, o, freshFns);
    var (env1, h1) := EvalTemps(p.temps, 0, st.env, st.h, o, freshFns);
    var tv := env1[|st.env|..];
    assert env1 == st.env + tv;
    SetRun(n, p.rest, swap, st.env, tv, h1, o, freshFns, fuel);
    var (v, h2) := EvalExpr(p.rest, env1, h1, o, freshFns);
    if h2.halted {
      HoistedExits(p.temps, inner, st, h2, o, freshFns, fuel);
    } else {
      var env2 := Update(st.env, n, v);
      assert env2 + tv + [] == env2 + tv && env2 + [] == env2;
      HoistedEnds(p.temps, inner, st, env2, [], if swap then Release(Lookup(st.env, n), h2) else h2, o, freshFns, fuel);
    }
  }

  lemma SimExit(e: Expr, kk: Own, k: Stack, r: RState, vis: Visible, o: Choices, freshFns: FreshFns, fuel: nat)
    requires Ctx(k, r, vis, freshFns)
    ensures Matches(RunAll(EmitStmt(ProcExit(e), k, freshFns), r.c, o, freshFns, fuel),
                    RefStmt(ProcExit(e), kk, r, k.depth, o, freshFns, fuel),
                    LoopAt(k, r, freshFns), ExitAt(k, r, freshFns))
  {
    hide EvalExpr, Aligned, Destroy, ExitAt, LoopAt, NamesOk, OnStack, RunAll;
    var env := r.c.env;
    var (v, h1) := EvalExpr(e, env, r.c.h, o, freshFns);
    var x := Var("tiq_exit_code", v);
    var frees := if Tracked(k) then ExitFrees(k.scopes, freshFns) else [];
    var body := [CDecl(x.name, e)] + frees + [CExit];
    RunOne(CBlock(body), r.c, o, freshFns, fuel);
    assert body == [CDecl(x.name, e)] + (frees + [CExit]);
    RunCons(CDecl(x.name, e), frees + [CExit], r.c, o, freshFns, fuel);
    if !h1.halted { ExitRun(x, k, r, vis, h1, frees, o, freshFns, fuel); }
  }

  /** The frees before an exit, with the exit code in a variable of its own. */
  lemma ExitRun(x: Var, k: Stack, r: RState, vis: Visible, h1: Heap, frees: seq<CStmt>, o: Choices, freshFns: FreshFns,
      fuel: nat)
    requires Ctx(k, r, vis, freshFns) && x.name == "tiq_exit_code"
    requires frees == if Tracked(k) then ExitFrees(k.scopes, freshFns) else []
    ensures var h2 := if Tracked(k) then Destroy(r.c.env, r.own, h1, ExitAt(k, r, freshFns)) else h1;
      RunAll(frees + [CExit], CState(r.c.env + [x], h1), o, freshFns, fuel) == (CState(r.c.env + [x], h2), Exited)
    ensures (r.c.env + [x])[..|r.c.env|] == r.c.env
  {
    var env := r.c.env;
    var env1 := env + [x];
    var own1 := r.own + [NotOwner];
    assert NoDup(env1) by {
      assert !Plain(x.name);
      assert x.name !in Names(env);
    }
    var h2 := if Tracked(k) then Destroy(env, r.own, h1, ExitAt(k, r, freshFns)) else h1;
    assert RunAll(frees, CState(env1, h1), o, freshFns, fuel) == (CState(env1, h2), Normal) by {
      if Tracked(k) {
        assert env1[..|env|] == env && own1[..|env|] == r.own;
        assert own1[..|r.own|] == r.own[..|r.own|];
        AlignedFrame(k.scopes, |r.own|, env, r.own, env1, own1, freshFns);
        ExitFreesRun(k.scopes, |r.own|, env1, own1, h1, o, freshFns, fuel);
      }
    }
    RunAllAppend(frees, [CExit], CState(env1, h1), o, freshFns, fuel);
    RunOne(CExit, CState(env1, h2), o, freshFns, fuel);
  }

  lemma SimJump(s: Stmt, kk: Own, k: Stack, r: RState, vis: Visible, o: Choices, freshFns: FreshFns, fuel: nat)
    requires Ctx(k, r, vis, freshFns) && (s.Break? || s.Skip?)
    ensures Matches(RunAll(EmitStmt(s, k, freshFns), r.c, o, freshFns, fuel),
                    RefStmt(s, kk, r, k.depth, o, freshFns, fuel),
                    LoopAt(k, r, freshFns), ExitAt(k, r, freshFns))
  {
    var frees := if Tracked(k) then JumpFrees(k.scopes, freshFns) else [];
    var last := if s.Break? then CBreak else CContinue;
    RunAllAppend(frees, [last], r.c, o, freshFns, fuel);
    if Tracked(k) {
      JumpFreesRun(k.scopes, |r.own|, r.c.env, r.own, r.c.h, o, freshFns, fuel);
      assert r.c.env[..|r.own|] == r.c.env && r.own[..|r.own|] == r.own;
    }
  }

  // ---------- entering and leaving scopes ----------

  lemma {:induction false} WellFormedFresh(ss: seq<Stmt>, i: nat, vis: Visible, inLoop: bool)
    requires i <= |ss| && WellFormedFrom(ss, i, vis, inLoop)
    ensures forall j :: i <= j < |ss| && ss[j].Bind? ==> ss[j].name !in vis
    ensures forall j, l :: i <= j < l < |ss| && ss[j].Bind? && ss[l].Bind? ==> ss[j].name != ss[l].name
    decreases |ss| - i
  {
    if i < |ss| {
      WellFormedFresh(ss, i + 1, AfterStmt(vis, ss[i]), inLoop);
    }
  }

  lemma EnterCtx(k: Stack, sc: Scope, isLoop: bool, r: RState, vis: Visible, inLoop: bool, freshFns: FreshFns)
    requires Ctx(k, r, vis, freshFns) && WellFormedFrom(sc.stmts, 0, vis, inLoop)
    ensures var k', r' := Enter(k, sc, 0, isLoop), Inside(r, sc);
      Ctx(k', r', vis, freshFns) &&
      (Tracked(k') ==>
        Tracked(k) &&
        LoopAt(k', r', freshFns) == (if isLoop then InSight(r.own, |r.own|) else LoopAt(k, r, freshFns)) &&
        ExitAt(k', r', freshFns) == ExitAt(k, r, freshFns))
  {
    hide Aligned, LoopBase, ExitBase, WellFormedFrom, InSight, NoDup, AllPlain;
    WellFormedFresh(sc.stmts, 0, vis, inLoop);
    var k' := Enter(k, sc, 0, isLoop);
    if Tracked(k') {
      EnterAligned(k.scopes, sc, isLoop, r, freshFns);
      assert ScopesOf(k'.scopes) == ScopesOf(k.scopes) + [sc];
    }
  }

  /** A scope just entered has no variables yet. */
  lemma EnterAligned(outer: seq<EmitScope>, sc: Scope, isLoop: bool, r: RState, freshFns: FreshFns)
    requires Aligned(outer, |r.own|, r.c.env, r.own, freshFns) && ScopeFresh(sc, Names(r.c.env))
    ensures var all, n, h := outer + [EmitScope(sc, 0, isLoop)], |r.own|, InSight(r.own, |r.own|);
      Aligned(all, n, r.c.env, r.own, freshFns) &&
      LoopBase(all, n, r.c.env, r.own, freshFns) ==
        (if isLoop then h else LoopBase(outer, n, r.c.env, r.own, freshFns)) &&
      ExitBase(all, n, r.c.env, r.own, freshFns) == ExitBase(outer, n, r.c.env, r.own, freshFns)
  {
    hide Aligned, LoopBase, ExitBase, Names, ScopeFresh;
    var h, n := InSight(r.own, |r.own|), |r.own|;
    AlignedTop(outer, EmitScope(sc, 0, isLoop), n, r.c.env, r.own, freshFns);
    InSightFixed(r.own, h);
    AlignedInSight(outer, n, r.c.env, r.own, freshFns);
    FreshLess(sc, r.c.env, h);
  }

  lemma FreshLess(sc: Scope, env: Env, h: nat)
    requires h <= |env| && ScopeFresh(sc, Names(env))
    ensures ScopeFresh(sc, Names(env[..h]))
  {
    assert Names(env[..h]) <= Names(env) by {
      forall x | x in Names(env[..h]) ensures x in Names(env) {
        var i :| 0 <= i < h && env[..h][i].name == x;
        assert env[i].name == x;
      }
    }
  }

  /** Hidden variables at the end make no difference. */
  lemma AlignedInSight(scopes: seq<EmitScope>, hi: nat, env: Env, own: seq<Own>, freshFns: FreshFns)
    requires |own| == |env| && hi <= |own|
    ensures var h := InSight(own, hi);
      (Aligned(scopes, hi, env, own, freshFns) <==> Aligned(scopes, h, env, own, freshFns)) &&
      (Aligned(scopes, hi, env, own, freshFns) ==>
        LoopBase(scopes, hi, env, own, freshFns) == LoopBase(scopes, h, env, own, freshFns) &&
        ExitBase(scopes, hi, env, own, freshFns) == ExitBase(scopes, h, env, own, freshFns))
  {
    var h := InSight(own, hi);
    InSightFixed(own, h);
    if scopes == [] {
      assert forall i :: h <= i < hi ==> !Active(own[i]);
    }
  }

  lemma {:induction false} InSightHides(own: seq<Own>, lo: nat, hi: nat)
    requires lo <= hi <= |own| && forall i :: lo <= i < hi ==> own[i].Hidden?
    ensures InSight(own, hi) == InSight(own, lo)
    decreases hi
  {
    if hi > lo { InSightHides(own, lo, hi - 1); }
  }

  /** A block's statements are done and its variables hidden: the stack is the one
      around the block again. */
  lemma HideCtx(k: Stack, r0: RState, r: RState, vis0: Visible, vis: Visible, freshFns: FreshFns)
    requires Ctx(k, r0, vis0, freshFns) && Extends(r0, r, |r0.own|) && NamesOk(r, vis)
    ensures var r' := HideFrom(r, |r0.own|);
      Ctx(k, r', vis, freshFns) &&
      LoopAt(k, r', freshFns) == LoopAt(k, r0, freshFns) && ExitAt(k, r', freshFns) == ExitAt(k, r0, freshFns)
  {
    var n := |r0.own|;
    var r' := HideFrom(r, n);
    HiddenExtends(r, n);
    if Tracked(k) {
      assert r'.own[..n] == r0.own[..n];
      AlignedFrame(k.scopes, n, r0.c.env, r0.own, r'.c.env, r'.own, freshFns);
      InSightHides(r'.own, n, |r'.own|);
      AlignedInSight(k.scopes, n, r'.c.env, r'.own, freshFns);
      AlignedInSight(k.scopes, |r'.own|, r'.c.env, r'.own, freshFns);
    }
  }

  lemma StepNames(r: RState, r1: RState, s: Stmt, vis: Visible)
    requires NamesOk(r, vis) && Extends(r, r1, 0) && !r1.c.h.halted
    requires !s.Bind? ==> |r1.own| == |r.own|
    requires s.Bind? ==> |r1.own| == |r.own| + 1 && r1.c.env[|r.own|].name == s.name &&
                         s.name !in vis && Plain(s.name)
    ensures NamesOk(r1, AfterStmt(vis, s))
  {
    hide Plain;
    var n := |r.own|;
    var env1 := r1.c.env;
    NamesFrame(r.c.env, env1, n);
    assert r.c.env[..n] == r.c.env;
    forall i | 0 <= i < n ensures env1[i].name in Names(r.c.env) {
      assert r.c.env[i].name == env1[i].name;
    }
    forall x ensures x in Names(env1) <==> x in Names(r.c.env) || (s.Bind? && x == s.name) {
      if x in Names(env1) {
        var j :| 0 <= j < |env1| && env1[j].name == x;
      }
      if x in Names(r.c.env) {
        var j :| 0 <= j < n && r.c.env[j].name == x;
        assert env1[j].name == x;
      }
      if s.Bind? { assert env1[n].name == s.name; }
    }
    forall a, b | 0 <= a < b < |env1| ensures env1[a].name != env1[b].name {
      assert r.c.env[a].name == env1[a].name;
    }
  }

  /** After a statement that ends normally. */
  lemma ShapeNames(s: Stmt, kk: Own, r: RState, r1: RState, vis: Visible, inLoop: bool)
    requires NamesOk(r, vis) && WellFormed(s, vis, inLoop) && StmtShape(s, kk, r, r1, RNormal)
    ensures NamesOk(r1, AfterStmt(vis, s))
  {
    ExtendsLess(r, r1, |r.own|, 0);
    StepNames(r, r1, s, vis);
  }

  lemma ShapeGrows(s: Stmt, kk: Own, r: RState, r1: RState, vis: Visible)
    requires NamesOk(r, vis) && StmtShape(s, kk, r, r1, RNormal)
    ensures !r1.c.h.halted && Grows(r, r1)
  {
  }

  /** Moving on by one statement inside a scope. */
  lemma StepCtx(k: Stack, sc: Scope, i: nat, isLoop: bool, r: RState, r1: RState, vis: Visible, inLoop: bool,
      freshFns: FreshFns)
    requires i < |sc.stmts| && Ctx(Enter(k, sc, i, isLoop), r, vis, freshFns)
    requires WellFormed(sc.stmts[i], vis, inLoop) && StmtShape(sc.stmts[i], OwnAt(sc, i, freshFns), r, r1, RNormal)
    requires SlotsMatch(sc, i, r.c.env, r.own, |r.own|, freshFns)
    ensures Ctx(Enter(k, sc, i + 1, isLoop), r1, AfterStmt(vis, sc.stmts[i]), freshFns)
    ensures Tracked(Enter(k, sc, i, isLoop)) ==>
      LoopAt(Enter(k, sc, i + 1, isLoop), r1, freshFns) == LoopAt(Enter(k, sc, i, isLoop), r, freshFns) &&
      ExitAt(Enter(k, sc, i + 1, isLoop), r1, freshFns) == ExitAt(Enter(k, sc, i, isLoop), r, freshFns)
  {
    hide WellFormed, OwnAt, NamesOk, Aligned, LoopBase, ExitBase, StmtShape, SlotsMatch;
    ShapeNames(sc.stmts[i], OwnAt(sc, i, freshFns), r, r1, vis, inLoop);
    assert !r1.c.h.halted && Grows(r, r1) by { ShapeGrows(sc.stmts[i], OwnAt(sc, i, freshFns), r, r1, vis); }
    if Tracked(Enter(k, sc, i, isLoop)) {
      StepAligned(k.scopes, sc, i, isLoop, r, r1, freshFns);
      assert ScopesOf(Enter(k, sc, i + 1, isLoop).scopes) == ScopesOf(Enter(k, sc, i, isLoop).scopes);
    }
  }

  lemma StepAligned(outer: seq<EmitScope>, sc: Scope, i: nat, isLoop: bool, r: RState, r1: RState, freshFns: FreshFns)
    requires i < |sc.stmts|
    requires Aligned(outer + [EmitScope(sc, i, isLoop)], |r.own|, r.c.env, r.own, freshFns)
    requires StmtShape(sc.stmts[i], OwnAt(sc, i, freshFns), r, r1, RNormal)
    requires SlotsMatch(sc, i, r.c.env, r.own, |r.own|, freshFns)
    ensures var k0, k1 := outer + [EmitScope(sc, i, isLoop)], outer + [EmitScope(sc, i + 1, isLoop)];
      Aligned(k1, |r1.own|, r1.c.env, r1.own, freshFns) &&
      LoopBase(k1, |r1.own|, r1.c.env, r1.own, freshFns) == LoopBase(k0, |r.own|, r.c.env, r.own, freshFns) &&
      ExitBase(k1, |r1.own|, r1.c.env, r1.own, freshFns) == ExitBase(k0, |r.own|, r.c.env, r.own, freshFns)
  {
    var n := |r.own|;
    var env1 := r1.c.env;
    hide Aligned, LoopBase, ExitBase, Names, ScopeFresh, OwnAt;
    var s0, s1 := EmitScope(sc, i, isLoop), EmitScope(sc, i + 1, isLoop);
    AlignedTop(outer, s0, n, env1, r1.own, freshFns);
    AlignedTop(outer, s1, |r1.own|, env1, r1.own, freshFns);
    hide SlotsMatch, Bottom, InSight, StmtShape;
    assert SamePrefix(r.c.env, r.own, env1, r1.own, n) by { ShapeSame(sc.stmts[i], OwnAt(sc, i, freshFns), r, r1); }
    AlignedFrame(outer + [s0], n, r.c.env, r.own, env1, r1.own, freshFns);
    StepSlots(sc, i, r, r1, freshFns);
    SlotsMatchFrame(sc, i, r.c.env, r.own, env1, r1.own, n, freshFns);
    assert |r1.own| == n + (if sc.stmts[i].Bind? then 1 else 0) by
      { ShapeLength(sc.stmts[i], OwnAt(sc, i, freshFns), r, r1); }
    StepBottom(sc, i, isLoop, env1, r1.own, n, freshFns);
  }

  lemma ShapeLength(s: Stmt, kk: Own, r: RState, r1: RState)
    requires StmtShape(s, kk, r, r1, RNormal)
    ensures |r1.own| == |r.own| + (if s.Bind? then 1 else 0)
  {
  }

  lemma ShapeSame(s: Stmt, kk: Own, r: RState, r1: RState)
    requires StmtShape(s, kk, r, r1, RNormal)
    ensures SamePrefix(r.c.env, r.own, r1.c.env, r1.own, |r.own|)
  {
  }

  lemma StepSlots(sc: Scope, i: nat, r: RState, r1: RState, freshFns: FreshFns)
    requires i < |sc.stmts| && SlotsMatch(sc, i, r.c.env, r.own, |r.own|, freshFns)
    requires StmtShape(sc.stmts[i], OwnAt(sc, i, freshFns), r, r1, RNormal)
    ensures SlotsMatch(sc, i + 1, r1.c.env, r1.own, |r1.own|, freshFns)
    ensures |r1.own| - BindCount(sc, i + 1) == |r.own| - BindCount(sc, i)
  {
    SlotsMatchFrame(sc, i, r.c.env, r.own, r1.c.env, r1.own, |r.own|, freshFns);
  }

  /** The scope's variables start where they did. */
  lemma StepBottom(sc: Scope, i: nat, isLoop: bool, env: Env, own: seq<Own>, n: nat, freshFns: FreshFns)
    requires i < |sc.stmts| && |own| == |env| && |own| == n + (if sc.stmts[i].Bind? then 1 else 0)
    requires SlotsMatch(sc, i, env, own, n, freshFns) && SlotsMatch(sc, i, env, own, InSight(own, n), freshFns)
    requires SlotsMatch(sc, i + 1, env, own, |own|, freshFns)
    ensures var s0, s1 := EmitScope(sc, i, isLoop), EmitScope(sc, i + 1, isLoop);
      var h0, h1 := InSight(own, n), InSight(own, |own|);
      SlotsMatch(sc, i + 1, env, own, h1, freshFns) && Bottom(s1, own, h1) == Bottom(s0, own, h0)
  {
    hide SlotsMatch, OwnAt, InSight;
    if sc.stmts[i].Bind? {
      TopShown(sc, i, env, own, freshFns);
      SlotsTop(sc, i, env, own, n, freshFns);
      InSightFixed(own, n + 1);
      BottomSame(own, n, BindCount(sc, i));
    } else {
      SlotsOn(sc, i, env, own, InSight(own, n), freshFns);
    }
  }

  /** The newest variable of a scope is in sight. */
  lemma TopShown(sc: Scope, i: nat, env: Env, own: seq<Own>, freshFns: FreshFns)
    requires i < |sc.stmts| && sc.stmts[i].Bind? && |own| == |env| && SlotsMatch(sc, i + 1, env, own, |own|, freshFns)
    ensures own != [] && !own[|own| - 1].Hidden?
  {
    hide OwnAt;
  }

  lemma SlotsOn(sc: Scope, i: nat, env: Env, own: seq<Own>, hi: int, freshFns: FreshFns)
    requires i < |sc.stmts| && !sc.stmts[i].Bind? && |own| == |env| && hi <= |env| && SlotsMatch(sc, i, env, own, hi,
      freshFns)
    ensures SlotsMatch(sc, i + 1, env, own, hi, freshFns)
  {
  }

  lemma SlotsTop(sc: Scope, i: nat, env: Env, own: seq<Own>, hi: nat, freshFns: FreshFns)
    requires i <= |sc.stmts| && |own| == |env| && hi <= |env| && SlotsMatch(sc, i, env, own, hi, freshFns)
    ensures BindCount(sc, i) == 0 || InSight(own, hi) == hi
  {
    if BindCount(sc, i) > 0 && !sc.stmts[i - 1].Bind? { SlotsTop(sc, i - 1, env, own, hi, freshFns); }
  }

  lemma BottomSame(own: seq<Own>, n: nat, m: nat)
    requires n <= |own| && (m == 0 || InSight(own, n) == n) && m <= n
    ensures InSight(own, n - m) == InSight(own, InSight(own, n) - m)
  {
    InSightFixed(own, InSight(own, n));
  }

  predicate NotTracked(out: ROut) {
    out.RBroke? || out.RSkipped? || out.RExited? ==> !out.tracked
  }

  /** Forgetting hidden owners does not change what is destroyed. */
  lemma {:induction false} DestroyForget(env: Env, own: seq<Own>, h: Heap, base: nat)
    requires |own| == |env|
    ensures Destroy(env, Forget(own, base), h, base) == Destroy(env, own, h, base)
    decreases |env|
  {
    if |env| > base {
      var k := |env| - 1;
      assert Forget(own, base)[..k] == Forget(own[..k], base);
      DestroyForget(env[..k], own[..k], if Active(own[k]) then Release(env[k].val, h) else h, base);
    }
  }

  /** A jump's frees, on the way past `base`. */
  lemma FreedSplit(r1: RState, base: nat, lo: nat)
    requires lo <= base <= |r1.own|
    ensures Freed(LeaveScope(r1, base, RExited(true)), true, lo).h == Freed(r1, true, lo).h
    ensures LeaveScope(r1, base, RExited(true)).c.env == r1.c.env[..base]
  {
    assert Forget(r1.own, base)[..base] == r1.own[..base];
    DestroyForget(r1.c.env, r1.own, r1.c.h, base);
    DestroySplit(r1.c.env, r1.own, r1.c.h, base, lo);
  }

  /** A jump passing through a scope's end. */
  lemma LeaveJump(r: RState, r1: RState, out: ROut, c1: CState, cout: Out, lb: nat, eb: nat)
    requires Grows(r, r1) && !out.RNormal? && lb <= |r.own| && eb <= |r.own|
    requires Matches((c1, cout), (r1, out), lb, eb)
    ensures Matches((Leave(c1, |r.own|, cout), cout), (LeaveScope(r1, |r.own|, out), out), lb, eb)
  {
    hide Destroy, OwnedAddrs, OnlyHidden, MutAddrs, Forget;
    FreedSplit(r1, |r.own|, lb);
    FreedSplit(r1, |r.own|, eb);
  }

  /** The same at the end of a loop body, where nothing in sight is left to free. */
  lemma LeaveLoop(r: RState, r1: RState, out: ROut, c1: CState, cout: Out, lb: nat, eb: nat)
    requires Grows(r, r1) && (out.RBroke? || out.RSkipped?) && lb <= |r.own| && eb <= |r.own|
    requires Matches((c1, cout), (r1, out), lb, eb) && (out.tracked ==> lb == InSight(r.own, |r.own|))
    ensures Leave(c1, |r.own|, cout) == LeaveScope(r1, |r.own|, out).c
  {
    hide Destroy, Aligned, OwnedAddrs, OnlyHidden, MutAddrs, Forget, InSight;
    LeaveJump(r, r1, out, c1, cout, lb, eb);
    LeaveScopeFrame(r, r1, out);
    var r4 := LeaveScope(r1, |r.own|, out);
    if out.tracked { NothingInSight(r4.c.env, r4.own, r4.c.h); }
    assert r4.own == r.own by { LeaveOwn(r, r4); }
  }

  lemma LeaveOwn(r: RState, r4: RState)
    requires Grows(r, r4) && |r4.own| == |r.own|
    ensures r4.own == r.own
  {
    assert r.own[..|r.own|] == r.own && r4.own[..|r.own|] == r4.own;
  }

  lemma NothingInSight(env: Env, own: seq<Own>, h: Heap)
    requires |own| == |env|
    ensures Destroy(env, own, h, InSight(own, |own|)) == h
  {
    var s := InSight(own, |own|);
    assert env[..|own|] == env && own[..|own|] == own;
    DestroyInSight(env, own, h, |own|, s);
    NothingToDestroy(env, own, s, h);
  }

  /** What holds of the variables when control reaches the end of a scope. */
  predicate AtEnd(sc: Scope, base: nat, r1: RState, freshFns: FreshFns) {
    var hi, own := base + BindCount(sc, |sc.stmts|), Show(r1.own, base);
    hi <= |r1.own| && NoDup(r1.c.env) &&
    SlotsMatch(sc, |sc.stmts|, r1.c.env, own, hi, freshFns) &&
    forall i :: hi <= i < |r1.own| ==> own[i] == NotOwner
  }

  /** Reaching a scope's end: its frees destroy what it owns. */
  lemma LeaveNormal(sc: Scope, base: nat, r1: RState, o: Choices, freshFns: FreshFns, fuel: nat)
    requires AtEnd(sc, base, r1, freshFns)
    ensures var (c2, cout) := RunAll(ScopeFrees(sc, |sc.stmts|, -1, freshFns), r1.c, o, freshFns, fuel);
      cout == Normal && Leave(c2, base, Normal) == LeaveScope(r1, base, RNormal).c
  {
    hide Destroy, SlotsMatch, RunAll, ScopeFrees, Show, NoDup;
    var hi, own := base + BindCount(sc, |sc.stmts|), Show(r1.own, base);
    ScopeFreesRun(sc, |sc.stmts|, r1.c.env, own, hi, r1.c.h, o, freshFns, fuel);
    DestroySkips(r1.c.env, own, r1.c.h, hi, base);
  }

  /** A statement run with the scope's variables hidden. */
  lemma EndStep(sc: Scope, base: nat, s: Stmt, r: RState, r1: RState, vis: Visible, freshFns: FreshFns)
    requires base <= |r.own| && AtEnd(sc, base, r, freshFns) && StmtShape(s, NotOwner, HideFrom(r, base), r1, RNormal)
    requires NoDup(r1.c.env)
    ensures AtEnd(sc, base, r1, freshFns)
  {
    var n := |r.own|;
    var hi := base + BindCount(sc, |sc.stmts|);
    var r0 := HideFrom(r, base);
    assert r1.own[..n] == r0.own;
    forall i | base <= i < n ensures Show(r1.own, base)[i] == Show(r.own, base)[i] {
      assert r1.own[i] == r1.own[..n][i] == r0.own[i];
    }
    assert Show(r1.own, base)[..hi] == Show(r.own, base)[..hi] by {
      forall i | 0 <= i < base ensures r1.own[i] == r.own[i] { assert r1.own[i] == r1.own[..n][i] == r0.own[i]; }
    }
    SlotsMatchFrame(sc, |sc.stmts|, r.c.env, Show(r.own, base), r1.c.env, Show(r1.own, base), hi, freshFns);
    forall i | hi <= i < |r1.own| ensures Show(r1.own, base)[i] == NotOwner {
      if i < n { assert Show(r.own, base)[i] == NotOwner; }
    }
  }

  /** At the end of the statements nothing is hidden. */
  lemma EndOfBody(sc: Scope, base: nat, r: RState, r1: RState, freshFns: FreshFns)
    requires SlotsMatch(sc, |sc.stmts|, r.c.env, r.own, |r.own|, freshFns) &&
      base == |r.own| - BindCount(sc, |sc.stmts|)
    requires Grows(r, r1) && NoDup(r1.c.env) && forall i :: |r.own| <= i < |r1.own| ==> r1.own[i] == NotOwner
    ensures AtEnd(sc, base, r1, freshFns)
  {
    var n := |r.own|;
    assert forall i :: 0 <= i < n ==> r1.own[i] == r.own[i] by {
      forall i | 0 <= i < n ensures r1.own[i] == r.own[i] { assert r1.own[..n][i] == r.own[..n][i]; }
    }
    SlotsShown(sc, |sc.stmts|, r.c.env, r.own, n, base, freshFns);
    assert Show(r1.own, base)[..n] == Show(r.own, base)[..n];
    SlotsMatchFrame(sc, |sc.stmts|, r.c.env, Show(r.own, base), r1.c.env, Show(r1.own, base), n, freshFns);
  }

  lemma {:induction false} SlotsShown(sc: Scope, i: nat, env: Env, own: seq<Own>, hi: int, base: nat,
      freshFns: FreshFns)
    requires i <= |sc.stmts| && |own| == |env| && hi <= |env| && SlotsMatch(sc, i, env, own, hi, freshFns)
    ensures SlotsMatch(sc, i, env, Show(own, base), hi, freshFns)
    decreases i
  {
    if i > 0 {
      SlotsShown(sc, i - 1, env, own, if sc.stmts[i - 1].Bind? then hi - 1 else hi, base, freshFns);
    }
  }

  // ---------- the induction ----------

  /** The simulation of one statement. */
  predicate StmtSim(s: Stmt, kk: Own, k: Stack, r: RState, o: Choices, freshFns: FreshFns, fuel: nat)
    requires Tracked(k) ==> Aligned(k.scopes, |r.own|, r.c.env, r.own, freshFns)
  {
    Matches(RunAll(EmitStmt(s, k, freshFns), r.c, o, freshFns, fuel), RefStmt(s, kk, r, k.depth, o, freshFns, fuel),
            LoopAt(k, r, freshFns), ExitAt(k, r, freshFns)) &&
    (!Tracked(k) ==> NotTracked(RefStmt(s, kk, r, k.depth, o, freshFns, fuel).1))
  }

  lemma SimSimple(s: Stmt, kk: Own, k: Stack, r: RState, vis: Visible, inLoop: bool, o: Choices, freshFns: FreshFns,
      fuel: nat)
    requires Ctx(k, r, vis, freshFns) && WellFormed(s, vis, inLoop) && (s.Bind? || s.Assign? || s.Eval?)
    ensures StmtSim(s, kk, k, r, o, freshFns, fuel)
  {
    hide EvalExpr, Aligned, NoDup, Names, Destroy, LoopAt, ExitAt, RefStmt, EmitStmt, RunAll, Freed, ExprNamesIn;
    var c := RunAll(EmitStmt(s, k, freshFns), r.c, o, freshFns, fuel);
    var rr := RefStmt(s, kk, r, k.depth, o, freshFns, fuel);
    assert Matches(c, rr, 0, 0) by {
      if s.Bind? {
        SimBind(s, kk, k, r, o, freshFns, fuel);
      } else if s.Assign? {
        SimAssign(s.target, s.rhs, kk, k, r, vis, o, freshFns, fuel);
      } else {
        SimEval(s.e, kk, k, r, o, freshFns, fuel);
      }
    }
    SimpleOut(s, kk, r, k.depth, o, freshFns, fuel);
    AnyBase(c, rr);
    assert Matches(c, rr, LoopAt(k, r, freshFns), ExitAt(k, r, freshFns));
  }

  lemma SimpleOut(s: Stmt, kk: Own, r: RState, d: nat, o: Choices, freshFns: FreshFns, fuel: nat)
    requires s.Bind? || s.Assign? || s.Eval?
    ensures var out := RefStmt(s, kk, r, d, o, freshFns, fuel).1; out == RNormal || out == RExited(false)
  {
    hide RefCompute, RefFinish, RefLose, RefAssign;
  }

  lemma FreedNothing(r: RState)
    ensures forall lo :: Freed(r, false, lo) == r.c
  {
  }

  lemma SimLeave(s: Stmt, kk: Own, k: Stack, r: RState, vis: Visible, o: Choices, freshFns: FreshFns, fuel: nat)
    requires Ctx(k, r, vis, freshFns) && (s.ProcExit? || s.Break? || s.Skip?)
    ensures StmtSim(s, kk, k, r, o, freshFns, fuel)
  {
    hide EvalExpr, Aligned, NoDup, Names, Destroy, LoopAt, ExitAt, EmitStmt, RunAll, Freed;
    if s.ProcExit? {
      SimExit(s.code, kk, k, r, vis, o, freshFns, fuel);
    } else {
      SimJump(s, kk, k, r, vis, o, freshFns, fuel);
    }
  }

  lemma {:induction false} SimStmt(s: Stmt, kk: Own, k: Stack, r: RState, vis: Visible, inLoop: bool,
                                   o: Choices, freshFns: FreshFns, fuel: nat)
    requires Ctx(k, r, vis, freshFns) && WellFormed(s, vis, inLoop)
    ensures StmtSim(s, kk, k, r, o, freshFns, fuel)
    decreases fuel, s, 0
  {
    hide EvalExpr, Aligned, NoDup, Names, Destroy, LoopAt, ExitAt, RefScope, EmitBlock, WellFormedScope,
      WellFormedFrom, RunIteration, RefIteration, Freed, ExprNamesIn;
    match s
    case Block(sc) =>
      RunOne(EmitBlock(sc, k, freshFns), r.c, o, freshFns, fuel);
      SimBlock(sc, k, r, vis, inLoop, o, freshFns, fuel);
    case If(e, sc) => SimIf(e, sc, kk, k, r, vis, inLoop, o, freshFns, fuel);
    case Loop(e, body) => SimLoop(s, kk, k, r, vis, inLoop, o, freshFns, fuel);
    case ProcExit(_) => SimLeave(s, kk, k, r, vis, o, freshFns, fuel);
    case Break => SimLeave(s, kk, k, r, vis, o, freshFns, fuel);
    case Skip => SimLeave(s, kk, k, r, vis, o, freshFns, fuel);
    case _ => SimSimple(s, kk, k, r, vis, inLoop, o, freshFns, fuel);
  }

  lemma {:induction false} SimIf(e: Expr, sc: Scope, kk: Own, k: Stack, r: RState, vis: Visible, inLoop: bool,
                                 o: Choices, freshFns: FreshFns, fuel: nat)
    requires Ctx(k, r, vis, freshFns) && WellFormedScope(sc, vis, inLoop)
    ensures StmtSim(If(e, sc), kk, k, r, o, freshFns, fuel)
    decreases fuel, sc, 3
  {
    hide EvalExpr, Aligned, NoDup, Names, Destroy, LoopAt, ExitAt, RefScope, EmitBlock, WellFormedScope, Freed;
    RunOne(CIf(e, EmitBlock(sc, k, freshFns)), r.c, o, freshFns, fuel);
    var (_, r1) := RefEval(e, r, o, freshFns);
    var r2 := r1.(c := r1.c.(h := Tick(r1.c.h)));
    if r1.c.h.halted {
      FreedNothing(r1);
    } else {
      SameCtx(k, r, r2, vis, freshFns);
      SimBlock(sc, k, r2, vis, inLoop, o, freshFns, fuel);
    }
  }

  lemma {:induction false} SimLoop(s: Stmt, kk: Own, k: Stack, r: RState, vis: Visible, inLoop: bool,
                                   o: Choices, freshFns: FreshFns, fuel: nat)
    requires s.Loop? && Ctx(k, r, vis, freshFns) && WellFormedFrom(s.stmts, 0, vis, true)
    ensures StmtSim(s, kk, k, r, o, freshFns, fuel)
    decreases fuel, s.stmts, |s.stmts| + 3
  {
    hide EvalExpr, Aligned, NoDup, Names, Destroy, LoopAt, ExitAt, RefIteration, RunIteration, Freed, EmitFrom,
      ScopeFrees;
    var cbody := LoopBody(s.stmts, k, freshFns);
    var loop := CWhile(s.domain, cbody);
    assert EmitStmt(s, k, freshFns) == [loop];
    RunOne(loop, r.c, o, freshFns, fuel);
    if fuel > 0 {
      var (r1, out, again) := RefIteration(s.domain, s.stmts, r, k.depth, o, freshFns, fuel);
      RefIterationFrame(s.domain, s.stmts, r, k.depth, o, freshFns, fuel);
      SimIteration(s.domain, s.stmts, k, r, vis, o, freshFns, fuel);
      if again {
        SameCtx(k, r, r1, vis, freshFns);
        SimLoop(s, kk, k, r1, vis, inLoop, o, freshFns, fuel - 1);
        RunOne(loop, r1.c, o, freshFns, fuel - 1);
      }
    }
  }

  function LoopBody(body: seq<Stmt>, k: Stack, freshFns: FreshFns): seq<CStmt> {
    EmitFrom(LoopScope(body), 0, k, true, freshFns) + ScopeFrees(LoopScope(body), |body|, -1, freshFns)
  }

  /** The simulation of one trip round a loop. */
  predicate TurnSim(e: Expr, body: seq<Stmt>, k: Stack, r: RState, o: Choices, freshFns: FreshFns, fuel: nat)
    requires Tracked(k) ==> Aligned(k.scopes, |r.own|, r.c.env, r.own, freshFns)
  {
    var (c1, cout, cagain) := RunIteration(e, LoopBody(body, k, freshFns), r.c, o, freshFns, fuel);
    var (r1, out, again) := RefIteration(e, body, r, k.depth, o, freshFns, fuel);
    again == cagain &&
    (again ==> c1 == r1.c) &&
    (!again ==> Matches((c1, cout), (r1, out), LoopAt(k, r, freshFns), ExitAt(k, r, freshFns)) &&
                (!Tracked(k) ==> NotTracked(out)))
  }

  lemma {:induction false} SimIteration(e: Expr, body: seq<Stmt>, k: Stack, r: RState, vis: Visible,
                                        o: Choices, freshFns: FreshFns, fuel: nat)
    requires Ctx(k, r, vis, freshFns) && WellFormedFrom(body, 0, vis, true)
    ensures TurnSim(e, body, k, r, o, freshFns, fuel)
    decreases fuel, body, |body| + 2
  {
    hide EvalExpr, RunAll, Aligned, NoDup, Names, Destroy, LoopAt, ExitAt, RefFrom, WellFormedFrom, EmitFrom,
      ScopeFrees, NamesOk, OnStack, LeaveScope, Tracked, LoopBody, Freed, RunIteration, RefIteration, Leave;
    var (_, r1) := RefEval(e, r, o, freshFns);
    var r2 := r1.(c := r1.c.(h := Tick(r1.c.h)), loop := |r.own|);
    if !r1.c.h.halted && Decide(o, r1.c.h) {
      var sc := LoopScope(body);
      SameCtx(k, r, r2, vis, freshFns);
      SimLoopBody(sc, k, r2, vis, o, freshFns, fuel);
      BodyIs(body, k, freshFns);
      TurnIs(e, body, k, r, o, freshFns, fuel);
      var (r3, out) := RefFrom(sc, 0, Inside(r2, sc), k.depth + 1, o, freshFns, fuel);
      FreedMoved(LeaveScope(r3, |r.own|, out), r.loop, r.outer);
    } else {
      NoTurn(e, body, k, r, o, freshFns, fuel);
      FreedNothing(r1);
    }
  }

  /** The body is run. */
  lemma TurnIs(e: Expr, body: seq<Stmt>, k: Stack, r: RState, o: Choices, freshFns: FreshFns, fuel: nat)
    requires var h1 := RefEval(e, r, o, freshFns).1.c.h; !h1.halted && Decide(o, h1)
    ensures var sc, r1 := LoopScope(body), RefEval(e, r, o, freshFns).1;
      var r2 := r1.(c := r1.c.(h := Tick(r1.c.h)), loop := |r.own|);
      var (c3, cout) := RunAll(LoopBody(body, k, freshFns), r2.c, o, freshFns, fuel);
      var (r3, out) := RefFrom(sc, 0, Inside(r2, sc), k.depth + 1, o, freshFns, fuel);
      var c4, r4 := Leave(c3, |r.own|, cout), LeaveScope(r3, |r.own|, out).(loop := r.loop, outer := r.outer);
      RunIteration(e, LoopBody(body, k, freshFns), r.c, o, freshFns, fuel) ==
        (if cout == Broke then (c4, Normal, false) else (c4, cout, cout == Normal || cout == Continued)) &&
      RefIteration(e, body, r, k.depth, o, freshFns, fuel) ==
        (if out.RBroke? then (r4, RNormal, false) else (r4, out, out.RNormal? || out.RSkipped?))
  {
    hide EvalExpr, RunAll, RefFrom, LeaveScope, LoopBody;
  }

  /** It is not. */
  lemma NoTurn(e: Expr, body: seq<Stmt>, k: Stack, r: RState, o: Choices, freshFns: FreshFns, fuel: nat)
    requires var h1 := RefEval(e, r, o, freshFns).1.c.h; h1.halted || !Decide(o, h1)
    ensures var r1 := RefEval(e, r, o, freshFns).1;
      var r2, stops := r1.(c := r1.c.(h := Tick(r1.c.h))), r1.c.h.halted;
      RunIteration(e, LoopBody(body, k, freshFns), r.c, o, freshFns, fuel) ==
        (if stops then (r1.c, Exited, false) else (r2.c, Normal, false)) &&
      RefIteration(e, body, r, k.depth, o, freshFns, fuel) ==
        (if stops then (r1, RExited(false), false) else (r2, RNormal, false))
  {
    hide EvalExpr, RunAll, RefFrom, LeaveScope, LoopBody;
  }

  lemma BodyIs(body: seq<Stmt>, k: Stack, freshFns: FreshFns)
    ensures LoopBody(body, k, freshFns) ==
            EmitFrom(LoopScope(body), 0, k, true, freshFns) + ScopeFrees(LoopScope(body), |body|, -1, freshFns)
  {
  }

  lemma FreedMoved(r: RState, loop: nat, outer: seq<Scope>)
    ensures forall t, lo :: Freed(r.(loop := loop, outer := outer), t, lo) == Freed(r, t, lo)
  {
  }

  /** A statement that declares nothing leaves the context as it was. */
  lemma SameCtx(k: Stack, r: RState, r1: RState, vis: Visible, freshFns: FreshFns)
    requires Ctx(k, r, vis, freshFns) && Grows(r, r1) && |r1.own| == |r.own| && !r1.c.h.halted
    ensures Ctx(k, r1, vis, freshFns)
    ensures LoopAt(k, r1, freshFns) == LoopAt(k, r, freshFns) && ExitAt(k, r1, freshFns) == ExitAt(k, r, freshFns)
  {
    hide Aligned, LoopBase, ExitBase, NamesOk;
    assert !r.c.h.halted by { NamesAlive(r, vis); }
    ExtendsLess(r, r1, |r.own|, 0);
    StepNames(r, r1, Break, vis);
    if Tracked(k) { AlignedFrame(k.scopes, |r.own|, r.c.env, r.own, r1.c.env, r1.own, freshFns); }
  }

  lemma NamesAlive(r: RState, vis: Visible)
    requires NamesOk(r, vis)
    ensures !r.c.h.halted
  {
  }

  /** One iteration of a loop body, up to and including leaving its scope. */
  lemma {:induction false} SimLoopBody(sc: Scope, k: Stack, r: RState, vis: Visible,
                                       o: Choices, freshFns: FreshFns, fuel: nat)
    requires Ctx(k, r, vis, freshFns) && WellFormedFrom(sc.stmts, 0, vis, true)
    ensures var (c3, cout) :=
        RunAll(EmitFrom(sc, 0, k, true, freshFns) + ScopeFrees(sc, |sc.stmts|, -1, freshFns), r.c, o, freshFns, fuel);
      var (r3, out) := RefFrom(sc, 0, Inside(r, sc), k.depth + 1, o, freshFns, fuel);
      var c4, r4 := Leave(c3, |r.own|, cout), LeaveScope(r3, |r.own|, out);
      match out
      case RNormal => cout == Normal && c4 == r4.c
      case RBroke(_) => cout == Broke && c4 == r4.c
      case RSkipped(_) => cout == Continued && c4 == r4.c
      case RExited(_) => Matches((c4, cout), (r4, out), LoopAt(k, r, freshFns), ExitAt(k, r, freshFns))
      case ROutOfFuel => cout == OutOfFuel && c4 == r4.c
    ensures !Tracked(k) ==> NotTracked(RefFrom(sc, 0, Inside(r, sc), k.depth + 1, o, freshFns, fuel).1)
    decreases fuel, sc.stmts, |sc.stmts| + 1
  {
    hide EvalExpr, EmitStmt, RefStmt, RunAll, SlotsMatch, Aligned, NoDup, Names, Destroy, WellFormed, OwnAt, LoopAt,
      ExitAt, BindCount, RefFrom, EmitFrom, ScopeFrees, AfterFrom, LeaveScope, AtEnd, InSight;
    var ri, k' := Inside(r, sc), Enter(k, sc, 0, true);
    EnterCtx(k, sc, true, r, vis, true, freshFns);
    SlotsStart(sc, r.c.env, r.own, |r.own|, freshFns);
    SimFrom(sc, 0, k, true, ri, vis, true, o, freshFns, fuel);
    RefFromFrame(sc, 0, ri, k.depth + 1, o, freshFns, fuel);
    var code := EmitFrom(sc, 0, k, true, freshFns);
    var frees := ScopeFrees(sc, |sc.stmts|, -1, freshFns);
    RunAllAppend(code, frees, r.c, o, freshFns, fuel);
    var (c1, cout) := RunAll(code, r.c, o, freshFns, fuel);
    var (r3, out) := RefFrom(sc, 0, ri, k.depth + 1, o, freshFns, fuel);
    if out.RNormal? {
      NamesNoDup(r3, AfterFrom(sc.stmts, 0, vis));
      EndOfBody(sc, |r.own|, r3, r3, freshFns);
      LeaveNormal(sc, |r.own|, r3, o, freshFns, fuel);
    } else if out.RBroke? || out.RSkipped? {
      LeaveLoop(ri, r3, out, c1, cout, LoopAt(k', ri, freshFns), ExitAt(k', ri, freshFns));
    } else {
      LeaveJump(ri, r3, out, c1, cout, LoopAt(k', ri, freshFns), ExitAt(k', ri, freshFns));
      LeaveFuel(r3, |r.own|, out);
    }
  }

  lemma LeaveFuel(r: RState, base: nat, out: ROut)
    ensures out.ROutOfFuel? ==> LeaveScope(r, base, out) == r
  {
  }

  lemma NamesNoDup(r: RState, vis: Visible)
    requires NamesOk(r, vis)
    ensures NoDup(r.c.env)
  {
  }

  lemma EnterDepth(k: Stack, sc: Scope, i: nat, isLoop: bool)
    ensures Enter(k, sc, i, isLoop).depth == k.depth + 1
    ensures Tracked(Enter(k, sc, i, isLoop)) <==> k.depth < MAX_SCOPE_DEPTH
  {
  }

  lemma SlotsStart(sc: Scope, env: Env, own: seq<Own>, hi: nat, freshFns: FreshFns)
    requires |own| == |env| && hi <= |env|
    ensures SlotsMatch(sc, 0, env, own, hi, freshFns) && BindCount(sc, 0) == 0
  {
  }

  lemma {:induction false} SimFrom(sc: Scope, i: nat, k: Stack, isLoop: bool, r: RState, vis: Visible, inLoop: bool,
                                   o: Choices, freshFns: FreshFns, fuel: nat)
    requires i <= |sc.stmts| && Ctx(Enter(k, sc, i, isLoop), r, vis, freshFns)
    requires WellFormedFrom(sc.stmts, i, vis, inLoop)
    requires SlotsMatch(sc, i, r.c.env, r.own, |r.own|, freshFns)
    ensures Matches(RunAll(EmitFrom(sc, i, k, isLoop, freshFns), r.c, o, freshFns, fuel),
                    RefFrom(sc, i, r, k.depth + 1, o, freshFns, fuel),
                    LoopAt(Enter(k, sc, i, isLoop), r, freshFns), ExitAt(Enter(k, sc, i, isLoop), r, freshFns))
    ensures !Tracked(Enter(k, sc, i, isLoop)) ==> NotTracked(RefFrom(sc, i, r, k.depth + 1, o, freshFns, fuel).1)
    ensures var (r1, out) := RefFrom(sc, i, r, k.depth + 1, o, freshFns, fuel);
      out.RNormal? ==>
        var n := |sc.stmts|;
        Ctx(Enter(k, sc, n, isLoop), r1, AfterFrom(sc.stmts, i, vis), freshFns) &&
        SlotsMatch(sc, n, r1.c.env, r1.own, |r1.own|, freshFns) &&
        |r1.own| - BindCount(sc, n) == |r.own| - BindCount(sc, i) &&
        (Tracked(Enter(k, sc, n, isLoop)) ==>
          LoopAt(Enter(k, sc, n, isLoop), r1, freshFns) == LoopAt(Enter(k, sc, i, isLoop), r, freshFns) &&
          ExitAt(Enter(k, sc, n, isLoop), r1, freshFns) == ExitAt(Enter(k, sc, i, isLoop), r, freshFns))
    decreases fuel, sc.stmts, |sc.stmts| - i
  {
    hide EvalExpr, EmitStmt, RefStmt, RunAll, SlotsMatch, Aligned, NoDup, Names, Destroy, WellFormed, OwnAt, LoopAt,
      ExitAt, BindCount, Tracked, Enter, StmtShape, NamesOk;
    EnterDepth(k, sc, i, isLoop);
    if i == |sc.stmts| {
      RunNothing(r.c, o, freshFns, fuel);
    } else {
      var s := sc.stmts[i];
      var kk := OwnAt(sc, i, freshFns);
      var k0 := Enter(k, sc, i, isLoop);
      var (r1, out) := RefStmt(s, kk, r, k.depth + 1, o, freshFns, fuel);
      SimStmt(s, kk, k0, r, vis, inLoop, o, freshFns, fuel);
      RunAllAppend(EmitStmt(s, k0, freshFns), EmitFrom(sc, i + 1, k, isLoop, freshFns), r.c, o, freshFns, fuel);
      if out.RNormal? {
        var r2 := Note(r1, s, false, k.depth + 1, out);
        RefStmtFrame(s, kk, r, k.depth + 1, o, freshFns, fuel);
        NotedShape(s, kk, r, r1, r2);
        EnterDepth(k, sc, i + 1, isLoop);
        EnterDepth(k, sc, |sc.stmts|, isLoop);
        StepCtx(k, sc, i, isLoop, r, r2, vis, inLoop, freshFns);
        StepSlots(sc, i, r, r2, freshFns);
        SimFrom(sc, i + 1, k, isLoop, r2, AfterStmt(vis, s), inLoop, o, freshFns, fuel);
      }
    }
  }

  lemma NotedShape(s: Stmt, kk: Own, r: RState, r1: RState, r2: RState)
    requires StmtShape(s, kk, r, r1, RNormal) && r2.c == r1.c && r2.own == r1.own && r2.outer == r1.outer &&
      r2.astray == r1.astray && r2.leaked == r1.leaked
    ensures StmtShape(s, kk, r, r2, RNormal)
  {
  }

  lemma {:induction false} SimTrailing(s: Stmt, k: Stack, r: RState, vis: Visible, inLoop: bool, o: Choices,
                                       freshFns: FreshFns, fuel: nat)
    requires Ctx(k, r, vis, freshFns) && WellFormed(s, vis, inLoop)
    ensures Matches(RunAll(EmitStmt(s, k, freshFns), r.c, o, freshFns, fuel),
                    RefTrailing(s, r, k.depth, o, freshFns, fuel), LoopAt(k, r, freshFns), ExitAt(k, r, freshFns))
    ensures !Tracked(k) ==> NotTracked(RefTrailing(s, r, k.depth, o, freshFns, fuel).1)
    ensures var (r1, out) := RefTrailing(s, r, k.depth, o, freshFns, fuel);
      out.RNormal? ==> NamesOk(r1, AfterStmt(vis, s))
    decreases fuel, s, 1
  {
    hide EvalExpr, EmitStmt, RefStmt, RunAll, Aligned, NoDup, Names, Destroy, LoopAt, ExitAt, WellFormed, Tracked,
      IsOwningInit, NamesOk, StmtShape, AfterStmt;
    SimStmt(s, NotOwner, k, r, vis, inLoop, o, freshFns, fuel);
    RefTrailingFrame(s, r, k.depth, o, freshFns, fuel);
    var (r1, out) := RefTrailing(s, r, k.depth, o, freshFns, fuel);
    if out.RNormal? { ShapeNames(s, NotOwner, r, r1, vis, inLoop); }
  }

  lemma {:induction false} SimBody(sc: Scope, k: Stack, r: RState, vis: Visible, inLoop: bool,
                                   o: Choices, freshFns: FreshFns, fuel: nat)
    requires Ctx(k, r, vis, freshFns) && WellFormedScope(sc, vis, inLoop)
    ensures Matches(RunAll(EmitBody(sc, k, freshFns), r.c, o, freshFns, fuel),
                    RefBody(sc, Inside(r, sc), k.depth + 1, o, freshFns, fuel),
                    LoopAt(k, r, freshFns), ExitAt(k, r, freshFns))
    ensures !Tracked(k) ==> NotTracked(RefBody(sc, Inside(r, sc), k.depth + 1, o, freshFns, fuel).1)
    ensures var (r1, out) := RefBody(sc, Inside(r, sc), k.depth + 1, o, freshFns, fuel);
      out.RNormal? ==>
        AtEnd(sc, |r.own|, r1, freshFns) && NamesOk(r1, AfterFinal(sc.fin, AfterFrom(sc.stmts, 0, vis)))
    decreases fuel, sc, 0
  {
    hide EvalExpr, EmitStmt, RefStmt, RunAll, SlotsMatch, Aligned, NoDup, Names, Destroy, WellFormed, WellFormedFrom,
      OwnAt, LoopAt, ExitAt, BindCount, RefFrom, RefTrailing, EmitFrom, AfterFrom, AtEnd, NamesOk, StmtShape, Tracked,
      Enter, WellFormedBack, AfterStmt;
    var ri, n := Inside(r, sc), |sc.stmts|;
    var vis1 := AfterFrom(sc.stmts, 0, vis);
    var k0, kn := Enter(k, sc, 0, false), Enter(k, sc, n, false);
    EnterCtx(k, sc, false, r, vis, inLoop, freshFns);
    EnterDepth(k, sc, 0, false);
    EnterDepth(k, sc, n, false);
    SlotsStart(sc, r.c.env, r.own, |r.own|, freshFns);
    SimFrom(sc, 0, k, false, ri, vis, inLoop, o, freshFns, fuel);
    RunAllAppend(EmitFrom(sc, 0, k, false, freshFns), EmitFinal(sc.fin, kn, freshFns), r.c, o, freshFns, fuel);
    var (r1, out1) := RefFrom(sc, 0, ri, k.depth + 1, o, freshFns, fuel);
    TrackedLess(k, k0);
    TrackedLess(k, kn);
    if out1.RNormal? {
      if sc.fin.Final? {
        SimTrailing(sc.fin.s, kn, r1, vis1, inLoop, o, freshFns, fuel);
        RefTrailingFrame(sc.fin.s, r1, k.depth + 1, o, freshFns, fuel);
        var (r2, out2) := RefTrailing(sc.fin.s, r1, k.depth + 1, o, freshFns, fuel);
        if out2.RNormal? {
          NamesNoDup(r2, AfterStmt(vis1, sc.fin.s));
          ShapeEnd(sc.fin.s, r1, r2);
          EndOfBody(sc, |r.own|, r1, r2, freshFns);
        }
      } else {
        RunNothing(r1.c, o, freshFns, fuel);
        NamesNoDup(r1, vis1);
        EndOfBody(sc, |r.own|, r1, r1, freshFns);
      }
    }
    if !Tracked(k0) {
      assert !Tracked(kn) && NotTracked(out1);
      assert RefBody(sc, ri, k.depth + 1, o, freshFns, fuel) ==
             (if !out1.RNormal? then (r1, out1) else RefFinal(sc.fin, r1, k.depth + 1, o, freshFns, fuel));
      AnyBase(RunAll(EmitBody(sc, k, freshFns), r.c, o, freshFns, fuel),
        RefBody(sc, ri, k.depth + 1, o, freshFns, fuel));
    }
  }

  lemma TrackedLess(k: Stack, k1: Stack)
    requires k1.depth == k.depth + 1
    ensures Tracked(k1) ==> Tracked(k)
  {
  }

  /** Where nothing is tracked the bases do not matter. */
  lemma AnyBase(c: (CState, Out), rr: (RState, ROut))
    requires NotTracked(rr.1)
    ensures forall a, b, a', b' :: Matches(c, rr, a, b) ==> Matches(c, rr, a', b')
  {
  }

  lemma ShapeEnd(s: Stmt, r: RState, r1: RState)
    requires StmtShape(s, NotOwner, r, r1, RNormal)
    ensures Grows(r, r1) && forall i :: |r.own| <= i < |r1.own| ==> r1.own[i] == NotOwner
  {
  }

  /** The deferred statements of a block, `r0` being the state the block was entered in. */
  lemma {:induction false} SimDeferred(sc: Scope, ss: seq<Stmt>, n: nat, k: Stack, r0: RState, r: RState, vis0: Visible,
      vis: Visible, inLoop: bool, o: Choices, freshFns: FreshFns, fuel: nat)
    requires n <= |ss| && Ctx(k, r0, vis0, freshFns) && Extends(r0, r, |r0.own|) && NamesOk(r, vis)
    requires WellFormedBack(ss, n, vis, inLoop) && AtEnd(sc, |r0.own|, r, freshFns)
    ensures var base := |r0.own|;
      var (r1, out) := RefDeferred(ss, n, r, base, k.depth, o, freshFns, fuel);
      Matches(RunAll(EmitDeferred(ss, n, k, freshFns), r.c, o, freshFns, fuel), (r1, out),
              LoopAt(k, r0, freshFns), ExitAt(k, r0, freshFns)) &&
      (!Tracked(k) ==> NotTracked(out)) && (out.RNormal? ==> AtEnd(sc, base, r1, freshFns))
    decreases fuel, ss, n
  {
    hide EvalExpr, EmitStmt, RefTrailing, RunAll, Aligned, Destroy, LoopAt, ExitAt, WellFormed, Tracked, AtEnd, NamesOk,
      StmtShape, AfterStmt;
    if n == 0 {
      RunNothing(r.c, o, freshFns, fuel);
    } else {
      var base, s := |r0.own|, ss[n - 1];
      var rh := HideFrom(r, base);
      HideCtx(k, r0, r, vis0, vis, freshFns);
      SimTrailing(s, k, rh, vis, inLoop, o, freshFns, fuel);
      RunAllAppend(EmitStmt(s, k, freshFns), EmitDeferred(ss, n - 1, k, freshFns), r.c, o, freshFns, fuel);
      var (r1, out) := RefTrailing(s, rh, k.depth, o, freshFns, fuel);
      if out.RNormal? {
        RefTrailingFrame(s, rh, k.depth, o, freshFns, fuel);
        NamesNoDup(r1, AfterStmt(vis, s));
        EndStep(sc, base, s, r, r1, vis, freshFns);
        ShapeEnd(s, rh, r1);
        HiddenExtends(r, base);
        ExtendsLess(rh, r1, |rh.own|, base);
        ExtendsTrans(r, rh, r1, base);
        ExtendsTrans(r0, r, r1, base);
        SimDeferred(sc, ss, n - 1, k, r0, r1, vis0, AfterStmt(vis, s), inLoop, o, freshFns, fuel);
      }
    }
  }

  lemma {:induction false} SimInside(sc: Scope, k: Stack, r: RState, vis: Visible, inLoop: bool,
                                     o: Choices, freshFns: FreshFns, fuel: nat)
    requires Ctx(k, r, vis, freshFns) && WellFormedScope(sc, vis, inLoop)
    ensures Matches(RunAll(EmitInside(sc, k, freshFns), r.c, o, freshFns, fuel),
                    RefInside(sc, r, k.depth, o, freshFns, fuel), LoopAt(k, r, freshFns), ExitAt(k, r, freshFns))
    ensures !Tracked(k) ==> NotTracked(RefInside(sc, r, k.depth, o, freshFns, fuel).1)
    ensures var (r1, out) := RefInside(sc, r, k.depth, o, freshFns, fuel);
      out.RNormal? ==> AtEnd(sc, |r.own|, r1, freshFns)
    decreases fuel, sc, 1
  {
    hide EvalExpr, RunAll, Aligned, Destroy, WellFormed, WellFormedFrom, LoopAt, ExitAt, RefBody, RefDeferred, EmitBody,
      EmitDeferred, AfterFrom, AtEnd, NamesOk, Tracked, AfterFinal, WellFormedBack;
    var ri := Inside(r, sc);
    var vis2 := AfterFinal(sc.fin, AfterFrom(sc.stmts, 0, vis));
    SimBody(sc, k, r, vis, inLoop, o, freshFns, fuel);
    RunAllAppend(EmitBody(sc, k, freshFns), EmitDeferred(sc.deferred, |sc.deferred|, k, freshFns), r.c, o, freshFns,
      fuel);
    var (r1, out1) := RefBody(sc, ri, k.depth + 1, o, freshFns, fuel);
    var r2 := r1.(outer := r.outer);
    if out1.RNormal? {
      RefBodyFrame(sc, ri, k.depth + 1, o, freshFns, fuel);
      SameEnd(sc, |r.own|, r1, r2, vis2, freshFns);
      SimDeferred(sc, sc.deferred, |sc.deferred|, k, r, r2, vis, vis2, inLoop, o, freshFns, fuel);
    }
  }

  lemma SameEnd(sc: Scope, base: nat, r1: RState, r2: RState, vis: Visible, freshFns: FreshFns)
    requires AtEnd(sc, base, r1, freshFns) && NamesOk(r1, vis) && r2.c == r1.c && r2.own == r1.own
    ensures AtEnd(sc, base, r2, freshFns) && NamesOk(r2, vis)
  {
  }

  lemma {:induction false} SimBlock(sc: Scope, k: Stack, r: RState, vis: Visible, inLoop: bool,
                                    o: Choices, freshFns: FreshFns, fuel: nat)
    requires Ctx(k, r, vis, freshFns) && WellFormedScope(sc, vis, inLoop)
    ensures Matches(Run(EmitBlock(sc, k, freshFns), r.c, o, freshFns, fuel),
                    RefScope(sc, r, k.depth, o, freshFns, fuel), LoopAt(k, r, freshFns), ExitAt(k, r, freshFns))
    ensures !Tracked(k) ==> NotTracked(RefScope(sc, r, k.depth, o, freshFns, fuel).1)
    decreases fuel, sc, 2
  {
    hide EvalExpr, RunAll, Aligned, Destroy, WellFormedScope, LoopAt, ExitAt, RefInside, EmitInside, ScopeFrees, AtEnd,
      NamesOk, Tracked, LeaveScope;
    SimInside(sc, k, r, vis, inLoop, o, freshFns, fuel);
    RefInsideFrame(sc, r, k.depth, o, freshFns, fuel);
    var code := EmitInside(sc, k, freshFns);
    var frees := ScopeFrees(sc, |sc.stmts|, -1, freshFns);
    RunAllAppend(code, frees, r.c, o, freshFns, fuel);
    var (c1, cout) := RunAll(code, r.c, o, freshFns, fuel);
    var (r1, out) := RefInside(sc, r, k.depth, o, freshFns, fuel);
    if out.RNormal? {
      LeaveNormal(sc, |r.own|, r1, o, freshFns, fuel);
    } else {
      LeaveJump(r, r1, out, c1, cout, LoopAt(k, r, freshFns), ExitAt(k, r, freshFns));
    }
  }
}
