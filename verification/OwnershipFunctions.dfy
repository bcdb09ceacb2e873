/** The ownership results for function bodies, stated about the code the backend
    emits for them. */
module OwnershipFunctions {
  import opened OwnershipSyntax
  import opened OwnershipTemps
  import opened OwnershipRun
  import opened OwnershipRef
  import opened OwnershipEmit
  import opened OwnershipCorrect
  import opened OwnershipSim
  import opened OwnershipSafety
  import opened OwnershipHeld
  import opened OwnershipLeaks
  import opened OwnershipTheorems

  // ---------- function bodies ----------

  /** Deferred statements of a function run first to last, until one does not end
      normally. The body's scope stays on the emitter's stack, but a variable one of them
      declares is not among the scope's statements. */
  function RefInOrder(ss: seq<Stmt>, i: nat, r: RState, o: Choices, freshFns: FreshFns, fuel: nat): (RState, ROut)
    requires i <= |ss|
    decreases |ss| - i
  {
    if i == |ss| then (r, RNormal)
    else
      var (r1, out) := RefTrailing(ss[i], r, 1, o, freshFns, fuel);
      if out.RNormal? then RefInOrder(ss, i + 1, HideFrom(r1, |r.own|), o, freshFns, fuel) else (r1, out)
  }

  /** The statements of a body and its deferred ones. */
  function RefStart(sc: Scope, r: RState, o: Choices, freshFns: FreshFns, fuel: nat): (RState, ROut) {
    var (r1, out) := RefFrom(sc, 0, Inside(r, sc), 1, o, freshFns, fuel);
    if out.RNormal? then RefInOrder(sc.deferred, 0, r1, o, freshFns, fuel) else (r1, out)
  }

  /** A function body in the source: statements, deferred statements, result,
      and what its result type allows it to destroy. */
  function RefFunction(sc: Scope, ty: ResultType, r: RState, o: Choices, freshFns: FreshFns, fuel: nat): (RState, ROut,
      Val) {
    var (r2, out) := RefStart(sc, r, o, freshFns, fuel);
    if !out.RNormal? then (LeaveScope(r2, |r.own|, out), out, Other)
    else RefResult(sc, ty, |r.own|, r2, o, freshFns, fuel)
  }

  /** Record the statement that gives the result; it has no temporaries. */
  function NoteResult(r: RState, fin: Final): RState
    requires fin.Final?
  {
    Note(r.(temps := 0), fin.s, true, 1, AfterEval(r))
  }

  function RefResult(sc: Scope, ty: ResultType, base: nat, r2: RState, o: Choices, freshFns: FreshFns,
      fuel: nat): (RState, ROut, Val) {
    if !GivesResult(sc.fin) then
      var (r3, out3) := RefFinal(sc.fin, r2, 1, o, freshFns, fuel);
      (LeaveScope(r3, base, out3), out3, Other)
    else
      var (v, r3) := RefEval(ResultExpr(sc.fin), r2, o, freshFns);
      var r4 := NoteResult(r3, sc.fin);
      if r3.c.h.halted then (LeaveScope(r4, base, RExited(false)), RExited(false), Other)
      else (LeaveFunction(r4, base, ResultPolicy(sc, ty, freshFns)), RNormal, v)
  }

  /** A function that may not destroy its owners gives them up as leaks. */
  function LeaveFunction(r: RState, base: nat, policy: Policy): RState {
    match policy
    case FreeAll => LeaveScope(r, base, RNormal)
    case FreeNone => LeaveScope(r, base, RBroke(false))
    case FreeAllBut(n) => Pop(r.(c := r.c.(h := DestroyBut(r.c.env, r.own, r.c.h, base, n))), base)
  }

  /** Name resolution of a function body, in the order in which it is printed. */
  predicate WellFormedFunction(sc: Scope, vis: Visible) {
    WellFormedFrom(sc.stmts, 0, vis, false) &&
    var vis1 := AfterFrom(sc.stmts, 0, vis);
    WellFormedFrom(sc.deferred, 0, vis1, false) &&
    (sc.fin.Final? ==>
      (sc.fin.s.Bind? || sc.fin.s.Assign? || sc.fin.s.Eval? || sc.fin.s.ProcExit?) &&
      WellFormed(sc.fin.s, AfterFrom(sc.deferred, 0, vis1), false))
  }

  /** A function body is entered with its parameters in scope, owning nothing. */
  predicate FunctionStart(sc: Scope, r: RState, vis: Visible, freshFns: FreshFns) {
    NamesOk(r, vis) && r.outer == [] && freshFns.Keys !! SAFE_BUILTINS &&
    (forall i :: 0 <= i < |r.own| ==> r.own[i] == NotOwner) && WellFormedFunction(sc, vis)
  }

  // ---------- frees ----------

  /** The frees of a scope except one owner. */
  lemma DestroyButStep(env: Env, own: seq<Own>, hi: int, h: Heap, lo: nat, n: string)
    requires |own| == |env| && lo < hi <= |env|
    ensures DestroyBut(env[..hi], own[..hi], h, lo, n) ==
      DestroyBut(env[..hi - 1], own[..hi - 1],
                 if Active(own[hi - 1]) && env[hi - 1].name != n then Release(env[hi - 1].val, h) else h, lo, n)
  {
    hide Release;
    assert env[..hi][..hi - 1] == env[..hi - 1] && own[..hi][..hi - 1] == own[..hi - 1];
  }

  lemma {:induction false} DestroyButFrame(env: Env, own: seq<Own>, h: Heap, lo: nat, n: string)
    requires |own| == |env|
    ensures DestroyBut(env, own, h, lo, n).kept == h.kept && DestroyBut(env, own, h, lo, n).halted == h.halted
    decreases |env|
  {
    if |env| > lo {
      var k := |env| - 1;
      DestroyButFrame(env[..k], own[..k], if Active(own[k]) && env[k].name != n then Release(env[k].val, h) else h, lo,
        n);
    }
  }

  lemma NothingButDestroyed(env: Env, own: seq<Own>, hi: int, h: Heap, n: string)
    requires |own| == |env| && 0 <= hi <= |env|
    ensures DestroyBut(env[..hi], own[..hi], h, hi, n) == h
  {
  }

  /** Variables in sight above `hi` that own nothing are passed over. */
  lemma {:induction false} DestroyButSkips(env: Env, own: seq<Own>, h: Heap, hi: nat, lo: nat, n: string)
    requires |own| == |env| && lo <= hi <= |env|
    requires forall i :: hi <= i < |own| ==> !Active(own[i])
    ensures DestroyBut(env, own, h, lo, n) == DestroyBut(env[..hi], own[..hi], h, lo, n)
    decreases |env|
  {
    if |env| == hi {
      assert env[..hi] == env && own[..hi] == own;
    } else {
      var k := |env| - 1;
      DestroyButSkips(env[..k], own[..k], h, hi, lo, n);
      assert env[..k][..hi] == env[..hi] && own[..k][..hi] == own[..hi];
    }
  }

  lemma ScopeFreesButStep(sc: Scope, i: nat, keep: int, freshFns: FreshFns)
    requires 0 < i <= |sc.stmts|
    ensures var rest := ScopeFrees(sc, i - 1, keep, freshFns);
      ScopeFrees(sc, i, keep, freshFns) ==
        if sc.stmts[i - 1].Bind? && i - 1 != keep &&
          OwnAt(sc, i - 1, freshFns) != NotOwner then [CFree(sc.stmts[i - 1].name)] + rest else rest
  {
    assert [] + ScopeFrees(sc, i - 1, keep, freshFns) == ScopeFrees(sc, i - 1, keep, freshFns);
  }

  lemma NoFreesBut(sc: Scope, keep: int, freshFns: FreshFns)
    ensures ScopeFrees(sc, 0, keep, freshFns) == []
  {
  }

  /** Bindings of the scope have different names. */
  predicate NamesApart(sc: Scope) {
    forall i, j :: 0 <= i < j < |sc.stmts| && sc.stmts[i].Bind? && sc.stmts[j].Bind? ==>
      sc.stmts[i].name != sc.stmts[j].name
  }

  lemma ActiveIff(sc: Scope, j: nat, k: Own, freshFns: FreshFns)
    requires j < |sc.stmts| && k == OwnAt(sc, j, freshFns)
    ensures Active(k) <==> OwnAt(sc, j, freshFns) != NotOwner
  {
    hide OwnAt;
  }

  lemma {:induction false} ScopeFreesButRun(sc: Scope, i: nat, keep: nat, env: Env, own: seq<Own>, hi: int, h: Heap,
                                            o: Choices, freshFns: FreshFns, fuel: nat)
    requires i <= |sc.stmts| && |own| == |env| && 0 <= hi <= |env| && NoDup(env)
    requires SlotsMatch(sc, i, env, own, hi, freshFns)
    requires keep < |sc.stmts| && sc.stmts[keep].Bind? && NamesApart(sc)
    ensures RunAll(ScopeFrees(sc, i, keep, freshFns), CState(env, h), o, freshFns, fuel) ==
            (CState(env, DestroyBut(env[..hi], own[..hi], h, hi - BindCount(sc, i), sc.stmts[keep].name)), Normal)
    decreases i
  {
    hide DestroyBut, ScopeFrees, RunAll, OwnAt, Release, NoDup;
    var n := sc.stmts[keep].name;
    if i == 0 {
      NoFreesBut(sc, keep, freshFns);
      RunNothing(CState(env, h), o, freshFns, fuel);
      NothingButDestroyed(env, own, hi, h, n);
    } else {
      ScopeFreesButStep(sc, i, keep, freshFns);
      if sc.stmts[i - 1].Bind? {
        var k := hi - 1;
        ActiveIff(sc, i - 1, own[k], freshFns);
        var freed := Active(own[k]) && i - 1 != keep;
        assert freed <==> Active(own[k]) && env[k].name != n;
        var h1 := if freed then Release(env[k].val, h) else h;
        ScopeFreesButRun(sc, i - 1, keep, env, own, k, h1, o, freshFns, fuel);
        DestroyButStep(env, own, hi, h, hi - BindCount(sc, i), n);
        if freed { FreeRun(env, k, ScopeFrees(sc, i - 1, keep, freshFns), h, o, freshFns, fuel); }
      } else {
        ScopeFreesButRun(sc, i - 1, keep, env, own, hi, h, o, freshFns, fuel);
      }
    }
  }

  // ---------- statements and deferred statements ----------

  /** The context in which a body's statements are emitted. */
  lemma FunctionCtx(sc: Scope, r: RState, vis: Visible, freshFns: FreshFns)
    requires FunctionStart(sc, r, vis, freshFns)
    ensures WellFormedFrom(sc.stmts, 0, vis, false) && BindCount(sc, 0) == 0
    ensures forall i :: 0 <= i <= |sc.stmts| ==> Tracked(Enter(Stack([], 0), sc, i, false))
    ensures var k, ri := Enter(Stack([], 0), sc, 0, false), Inside(r, sc);
      Ctx(k, ri, vis, freshFns) && SlotsMatch(sc, 0, ri.c.env, ri.own, |ri.own|, freshFns) &&
      LoopAt(k, ri, freshFns) == ExitAt(k, ri, freshFns) == |r.own|
  {
    var k := Stack([], 0);
    assert Ctx(k, r, vis, freshFns);
    EnterCtx(k, sc, false, r, vis, false, freshFns);
    if |r.own| > 0 { assert !r.own[|r.own| - 1].Hidden?; }
    InSightFixed(r.own, |r.own|);
  }

  /** The state at the end of the statements or of some deferred ones. */
  predicate AtDeferred(sc: Scope, base: nat, r: RState, vis: Visible, freshFns: FreshFns) {
    var k := BodyEnd(sc);
    Ctx(k, r, vis, freshFns) && LoopAt(k, r, freshFns) == ExitAt(k, r, freshFns) == base <= |r.own| &&
    AtEnd(sc, base, r, freshFns)
  }

  /** The statements of a function body. */
  lemma FunctionStatements(sc: Scope, r: RState, vis: Visible, o: Choices, freshFns: FreshFns, fuel: nat)
    requires FunctionStart(sc, r, vis, freshFns)
    ensures var (r1, out) := RefFrom(sc, 0, Inside(r, sc), 1, o, freshFns, fuel);
      var (c, cout) := RunAll(EmitFrom(sc, 0, Stack([], 0), false, freshFns), r.c, o, freshFns, fuel);
      Matches((c, cout), (r1, out), |r.own|, |r.own|) && Grows(Inside(r, sc), r1) &&
      (out.RNormal? ==> AtDeferred(sc, |r.own|, r1, AfterFrom(sc.stmts, 0, vis), freshFns))
  {
    hide EmitFrom, RefFrom, RunAll, AfterFrom, WellFormedFrom, Names, Destroy, NamesOk, OnStack, FunctionStart,
      SlotsMatch, LoopAt, ExitAt, Tracked, Enter, AtEnd;
    var k, ri := Stack([], 0), Inside(r, sc);
    FunctionCtx(sc, r, vis, freshFns);
    SimFrom(sc, 0, k, false, ri, vis, false, o, freshFns, fuel);
    RefFromFrame(sc, 0, ri, 1, o, freshFns, fuel);
    var (r1, out) := RefFrom(sc, 0, ri, 1, o, freshFns, fuel);
    if out.RNormal? {
      NamesNoDup(r1, AfterFrom(sc.stmts, 0, vis));
      EndOfBody(sc, |r.own|, r1, r1, freshFns);
    }
  }

  /** A deferred statement of a function leaves the body's own variables alone. */
  lemma EndGrows(sc: Scope, base: nat, s: Stmt, r: RState, r1: RState, freshFns: FreshFns)
    requires base <= |r.own| && AtEnd(sc, base, r, freshFns) && StmtShape(s, NotOwner, r, r1, RNormal)
    requires NoDup(r1.c.env)
    ensures AtEnd(sc, base, r1, freshFns) && AtEnd(sc, base, HideFrom(r1, |r.own|), freshFns)
  {
    var n := |r.own|;
    var hi := base + BindCount(sc, |sc.stmts|);
    var own0, own1 := Show(r.own, base), Show(r1.own, base);
    forall i | 0 <= i < n ensures own1[i] == own0[i] { assert r1.own[i] == r1.own[..n][i] == r.own[..n][i]; }
    assert own1[..hi] == own0[..hi];
    SlotsMatchFrame(sc, |sc.stmts|, r.c.env, own0, r1.c.env, own1, hi, freshFns);
    forall i | hi <= i < |r1.own| ensures own1[i] == NotOwner {}
    assert Show(HideFrom(r1, n).own, base) == own1;
  }

  lemma {:induction false} InOrderSim(sc: Scope, i: nat, base: nat, r: RState, vis: Visible, o: Choices,
      freshFns: FreshFns, fuel: nat)
    requires i <= |sc.deferred| && AtDeferred(sc, base, r, vis, freshFns) && WellFormedFrom(sc.deferred, i, vis, false)
    ensures var (r1, out) := RefInOrder(sc.deferred, i, r, o, freshFns, fuel);
      Matches(RunAll(InOrder(sc.deferred, i, BodyEnd(sc), freshFns), r.c, o, freshFns, fuel), (r1, out), base, base) &&
      Grows(r, r1) && (out.RNormal? ==> AtDeferred(sc, base, r1, AfterFrom(sc.deferred, i, vis), freshFns))
    decreases |sc.deferred| - i
  {
    hide EmitStmt, RefTrailing, RunAll, Aligned, Destroy, NamesOk, OnStack, LoopAt, ExitAt, WellFormed, AtEnd,
      StmtShape, AfterStmt, BodyEnd;
    if i == |sc.deferred| {
      RunNothing(r.c, o, freshFns, fuel);
    } else {
      var s, k := sc.deferred[i], BodyEnd(sc);
      EndDepth(sc);
      SimTrailing(s, k, r, vis, false, o, freshFns, fuel);
      RunAllAppend(EmitStmt(s, k, freshFns), InOrder(sc.deferred, i + 1, k, freshFns), r.c, o, freshFns, fuel);
      RefTrailingFrame(s, r, 1, o, freshFns, fuel);
      var (r1, out) := RefTrailing(s, r, 1, o, freshFns, fuel);
      assert Grows(r, r1) by { ShapeOf(s, NotOwner, r, r1, out); }
      if out.RNormal? {
        var r2 := HideFrom(r1, |r.own|);
        HideCtx(k, r, r1, vis, AfterStmt(vis, s), freshFns);
        NamesNoDup(r1, AfterStmt(vis, s));
        EndGrows(sc, base, s, r, r1, freshFns);
        HiddenExtends(r1, |r.own|);
        ExtendsTrans(r, r1, r2, |r.own|);
        InOrderSim(sc, i + 1, base, r2, AfterStmt(vis, s), o, freshFns, fuel);
        GrowsTrans(r, r2, RefInOrder(sc.deferred, i + 1, r2, o, freshFns, fuel).0);
      }
    }
  }

  lemma EndDepth(sc: Scope)
    ensures BodyEnd(sc).depth == 1 && Tracked(BodyEnd(sc))
  {
  }

  lemma ShapeOf(s: Stmt, k: Own, r: RState, r1: RState, out: ROut)
    requires StmtShape(s, k, r, r1, out)
    ensures Grows(r, r1) && Alive(r, r1, out)
  {
  }

  /** The part of a function body before its result. */
  lemma FunctionPrefix(sc: Scope, r: RState, vis: Visible, o: Choices, freshFns: FreshFns, fuel: nat)
    requires FunctionStart(sc, r, vis, freshFns)
    ensures var code := EmitFrom(sc, 0, Stack([], 0), false, freshFns) + InOrder(sc.deferred, 0, BodyEnd(sc), freshFns);
      var (r2, out) := RefStart(sc, r, o, freshFns, fuel);
      Matches(RunAll(code, r.c, o, freshFns, fuel), (r2, out), |r.own|, |r.own|) && Grows(Inside(r, sc), r2) &&
      (out.RNormal? ==>
        AtDeferred(sc, |r.own|, r2, AfterFrom(sc.deferred, 0, AfterFrom(sc.stmts, 0, vis)), freshFns))
  {
    hide EmitFrom, RefFrom, RunAll, InOrder, RefInOrder, SlotsMatch, AfterFrom, Names, Destroy, AtEnd, Enter, Aligned,
      Grows, AtDeferred, NamesOk, Freed, BodyEnd, WellFormed;
    var k := Stack([], 0);
    FunctionStatements(sc, r, vis, o, freshFns, fuel);
    RunAllAppend(EmitFrom(sc, 0, k, false, freshFns), InOrder(sc.deferred, 0, BodyEnd(sc), freshFns), r.c, o, freshFns,
      fuel);
    var (r1, out) := RefFrom(sc, 0, Inside(r, sc), 1, o, freshFns, fuel);
    if out.RNormal? {
      InOrderSim(sc, 0, |r.own|, r1, AfterFrom(sc.stmts, 0, vis), o, freshFns, fuel);
      GrowsTrans(Inside(r, sc), r1, RefInOrder(sc.deferred, 0, r1, o, freshFns, fuel).0);
    }
  }

  // ---------- the result ----------

  predicate SameEnd(c: (CState, Out), r: (RState, ROut, Val)) {
    c.0.h == r.0.c.h &&
    match r.1
    case RNormal => c.1 == Returned(r.2)
    case RExited(_) => c.1 == Exited
    case ROutOfFuel => c.1 == OutOfFuel
    case RBroke(_) => c.1 == Broke
    case RSkipped(_) => c.1 == Continued
  }

  /** A body left by an exit or a jump. */
  lemma JumpedEnd(r: RState, r1: RState, out: ROut, c: (CState, Out))
    requires Grows(r, r1) && !out.RNormal? && Matches(c, (r1, out), |r.own|, |r.own|)
    ensures SameEnd(c, (LeaveScope(r1, |r.own|, out), out, Other))
  {
    hide LeaveScope, Destroy;
    LeaveJump(r, r1, out, c.0, c.1, |r.own|, |r.own|);
    LeaveScopeFrame(r, r1, out);
    var r4 := LeaveScope(r1, |r.own|, out);
    if !out.ROutOfFuel? { FreedAtEnd(r4, |r.own|); }
    LeaveFuel(r1, |r.own|, out);
  }

  lemma FreedAtEnd(r: RState, base: nat)
    requires |r.own| == base
    ensures forall t :: Freed(r, t, base).h == r.c.h
  {
  }

  /** Frees followed by a return of a literal. */
  lemma TailFrees(sc: Scope, base: nat, r: RState, o: Choices, freshFns: FreshFns, fuel: nat)
    requires AtEnd(sc, base, r, freshFns) && !r.c.h.halted && base <= |r.own|
    ensures var (c, cout) := RunAll(ScopeFrees(sc, |sc.stmts|, -1, freshFns) + [CReturn(Lit)], r.c, o, freshFns, fuel);
      cout == Returned(Other) && c.h == LeaveScope(r, base, RNormal).c.h
  {
    hide ScopeFrees, RunAll, AtEnd, Destroy;
    var frees := ScopeFrees(sc, |sc.stmts|, -1, freshFns);
    RunAllAppend(frees, [CReturn(Lit)], r.c, o, freshFns, fuel);
    LeaveNormal(sc, base, r, o, freshFns, fuel);
    DestroyFrame(r.c.env, Show(r.own, base), r.c.h, base);
    RunOne(CReturn(Lit), RunAll(frees, r.c, o, freshFns, fuel).0, o, freshFns, fuel);
  }

  /** Compute the result into a variable of its own, free, return it. */
  lemma TailResult(e: Expr, frees: seq<CStmt>, c: CState, h2: Heap, o: Choices, freshFns: FreshFns, fuel: nat)
    requires var (v, h1) := EvalExpr(e, c.env, c.h, o, freshFns);
      !h1.halted && !h2.halted &&
      RunAll(frees, CState(c.env + [Var("tiq_fn_ret", v)], h1), o, freshFns, fuel) ==
      (CState(c.env + [Var("tiq_fn_ret", v)], h2), Normal)
    ensures var (v, h1) := EvalExpr(e, c.env, c.h, o, freshFns);
      var (c2, out) := RunAll([CDecl("tiq_fn_ret", e)] + (frees + [CReturn(Ident("tiq_fn_ret"))]), c, o, freshFns,
        fuel);
      out == Returned(v) && c2.h == h2
  {
    var (v, h1) := EvalExpr(e, c.env, c.h, o, freshFns);
    var c1 := CState(c.env + [Var("tiq_fn_ret", v)], h1);
    RunCons(CDecl("tiq_fn_ret", e), frees + [CReturn(Ident("tiq_fn_ret"))], c, o, freshFns, fuel);
    RunAllAppend(frees, [CReturn(Ident("tiq_fn_ret"))], c1, o, freshFns, fuel);
    RunOne(CReturn(Ident("tiq_fn_ret")), CState(c1.env, h2), o, freshFns, fuel);
    assert Find(c1.env, "tiq_fn_ret") == |c.env|;
  }

  lemma {:induction false} NoOwnerNoFrees(sc: Scope, i: nat, freshFns: FreshFns)
    requires i <= |sc.stmts| && !HasOwner(sc, freshFns)
    ensures ScopeFrees(sc, i, -1, freshFns) == []
    decreases i
  {
    if i > 0 { NoOwnerNoFrees(sc, i - 1, freshFns); }
  }

  /** The result variable shadows nothing. */
  lemma ResultVariable(sc: Scope, base: nat, r: RState, v: Val, vis: Visible, freshFns: FreshFns)
    requires AtEnd(sc, base, r, freshFns) && NamesOk(r, vis) && base <= |r.own|
    ensures var hi := base + BindCount(sc, |sc.stmts|);
      var env1, own1 := r.c.env + [Var("tiq_fn_ret", v)], Show(r.own, base) + [NotOwner];
      NoDup(env1) && env1[..hi] == r.c.env[..hi] && own1[..hi] == Show(r.own, base)[..hi] &&
      SlotsMatch(sc, |sc.stmts|, env1, own1, hi, freshFns)
  {
    var hi := base + BindCount(sc, |sc.stmts|);
    var env1, own1 := r.c.env + [Var("tiq_fn_ret", v)], Show(r.own, base) + [NotOwner];
    assert !Plain("tiq_fn_ret");
    assert "tiq_fn_ret" !in Names(r.c.env);
    forall i, j | 0 <= i < j < |env1| ensures env1[i].name != env1[j].name {
      if j == |r.c.env| { assert r.c.env[i].name in Names(r.c.env); }
    }
    SlotsMatchFrame(sc, |sc.stmts|, r.c.env, Show(r.own, base), env1, own1, hi, freshFns);
  }

  /** A result whose computation ends the process is not returned, and nothing is freed. */
  lemma TailHalts(sc: Scope, ty: ResultType, c: CState, o: Choices, freshFns: FreshFns, fuel: nat)
    requires GivesResult(sc.fin) && EvalExpr(ResultExpr(sc.fin), c.env, c.h, o, freshFns).1.halted
    ensures RunAll(FunctionTail(sc, ty, freshFns), c, o, freshFns, fuel) ==
            (c.(h := EvalExpr(ResultExpr(sc.fin), c.env, c.h, o, freshFns).1), Exited)
  {
    hide EvalExpr, ResultPolicy, OwnerIndex, HasOwner;
    var e := ResultExpr(sc.fin);
    RunOne(CReturn(e), c, o, freshFns, fuel);
    var keep := var policy := ResultPolicy(sc, ty, freshFns);
      if policy.FreeAllBut? then OwnerIndex(sc, policy.n, 0, freshFns) else -1;
    RunCons(CDecl("tiq_fn_ret", e), ScopeFrees(sc, |sc.stmts|, keep, freshFns) + [CReturn(Ident("tiq_fn_ret"))], c, o,
      freshFns, fuel);
  }

  /** The frees after a result, and what they come to. */
  lemma ResultFrees(sc: Scope, base: nat, r: RState, v: Val, h: Heap, keep: int, vis: Visible, o: Choices,
      freshFns: FreshFns, fuel: nat)
    requires AtEnd(sc, base, r, freshFns) && NamesOk(r, vis) && base <= |r.own| && NamesApart(sc)
    requires keep == -1 || (0 <= keep < |sc.stmts| && sc.stmts[keep].Bind?)
    ensures var c := CState(r.c.env + [Var("tiq_fn_ret", v)], h);
      var own := Show(r.own, base);
      RunAll(ScopeFrees(sc, |sc.stmts|, keep, freshFns), c, o, freshFns, fuel) ==
      (c.(h := if keep == -1 then Destroy(r.c.env, own, h, base)
               else DestroyBut(r.c.env, own, h, base, sc.stmts[keep].name)), Normal)
  {
    hide RunAll, Destroy, DestroyBut, NamesOk, ScopeFrees, SlotsMatch, Show, NoDup;
    ResultVariable(sc, base, r, v, vis, freshFns);
    var n, hi, own := |sc.stmts|, base + BindCount(sc, |sc.stmts|), Show(r.own, base);
    var env1, own1 := r.c.env + [Var("tiq_fn_ret", v)], own + [NotOwner];
    if keep == -1 {
      ScopeFreesRun(sc, n, env1, own1, hi, h, o, freshFns, fuel);
      DestroySkips(r.c.env, own, h, hi, base);
    } else {
      ScopeFreesButRun(sc, n, keep, env1, own1, hi, h, o, freshFns, fuel);
      DestroyButSkips(r.c.env, own, h, hi, base, sc.stmts[keep].name);
    }
  }

  lemma TailEval(sc: Scope, ty: ResultType, base: nat, r: RState, vis: Visible, o: Choices, freshFns: FreshFns,
      fuel: nat)
    requires AtEnd(sc, base, r, freshFns) && NamesOk(r, vis) && base <= |r.own| && NamesApart(sc)
    requires GivesResult(sc.fin) && !RefEval(ResultExpr(sc.fin), r, o, freshFns).1.c.h.halted
    ensures var (v, r3) := RefEval(ResultExpr(sc.fin), r, o, freshFns);
      var (c, out) := RunAll(FunctionTail(sc, ty, freshFns), r.c, o, freshFns, fuel);
      out == Returned(v) &&
      c.h == match ResultPolicy(sc, ty, freshFns)
             case FreeAll => Destroy(r3.c.env, Show(r3.own, base), r3.c.h, base)
             case FreeNone => r3.c.h
             case FreeAllBut(n) => DestroyBut(r3.c.env, Show(r3.own, base), r3.c.h, base, n)
  {
    hide EvalExpr, RunAll, Destroy, DestroyBut, NamesOk, ScopeFrees, AtEnd, Show, HasOwner;
    var e := ResultExpr(sc.fin);
    var (v, r3) := RefEval(e, r, o, freshFns);
    var n, h := |sc.stmts|, r3.c.h;
    var own := Show(r.own, base);
    var policy := ResultPolicy(sc, ty, freshFns);
    DestroyFrame(r3.c.env, own, h, base);
    if policy.FreeNone? || (policy.FreeAll? && !HasOwner(sc, freshFns)) {
      RunOne(CReturn(e), r.c, o, freshFns, fuel);
      if policy.FreeAll? {
        NoOwnerNoFrees(sc, n, freshFns);
        RunNothing(CState(r.c.env + [Var("tiq_fn_ret", v)], h), o, freshFns, fuel);
        ResultFrees(sc, base, r, v, h, -1, vis, o, freshFns, fuel);
      }
    } else if policy.FreeAll? {
      ResultFrees(sc, base, r, v, h, -1, vis, o, freshFns, fuel);
      TailResult(e, ScopeFrees(sc, n, -1, freshFns), r.c, Destroy(r.c.env, own, h, base), o, freshFns, fuel);
    } else {
      var keep := OwnerIndex(sc, policy.n, 0, freshFns);
      KeptIsBinding(sc, ty, freshFns);
      ResultFrees(sc, base, r, v, h, keep, vis, o, freshFns, fuel);
      DestroyButFrame(r.c.env, own, h, base, policy.n);
      TailResult(e, ScopeFrees(sc, n, keep, freshFns), r.c, DestroyBut(r.c.env, own, h, base, policy.n), o, freshFns,
        fuel);
    }
  }

  /** The owner kept is one the body declares. */
  lemma KeptIsBinding(sc: Scope, ty: ResultType, freshFns: FreshFns)
    requires ResultPolicy(sc, ty, freshFns).FreeAllBut?
    ensures var n := ResultPolicy(sc, ty, freshFns).n;
      var j := OwnerIndex(sc, n, 0, freshFns);
      0 <= j < |sc.stmts| && sc.stmts[j].Bind? && sc.stmts[j].name == n && OwnAt(sc, j, freshFns) != NotOwner &&
      GivesResult(sc.fin) && ResultExpr(sc.fin) == Ident(n)
  {
  }

  /** Showing what is hidden does not matter to the frees when nothing hidden is owned. */
  lemma {:induction false} ShowOwnsNothing(env: Env, own: seq<Own>, h: Heap, base: nat, n: string)
    requires |own| == |env| && forall i :: base <= i < |own| && own[i].Hidden? ==> Kind(own[i]) == NotOwner
    ensures DestroyBut(env, Show(own, base), h, base, n) == DestroyBut(env, own, h, base, n)
    decreases |env|
  {
    if |env| > base {
      var k := |env| - 1;
      assert Show(own, base)[..k] == Show(own[..k], base);
      assert Active(Show(own, base)[k]) <==> Active(own[k]);
      ShowOwnsNothing(env[..k], own[..k], if Active(own[k]) && env[k].name != n then Release(env[k].val, h) else h,
        base, n);
    }
  }

  /** A body ending in a binding or an assignment, or in no statement at all. */
  lemma TailStatement(sc: Scope, ty: ResultType, base: nat, r: RState, vis: Visible, o: Choices, freshFns: FreshFns,
      fuel: nat)
    requires AtDeferred(sc, base, r, vis, freshFns) && !GivesResult(sc.fin)
    requires sc.fin.Final? ==> (sc.fin.s.Bind? || sc.fin.s.Assign?) && WellFormed(sc.fin.s, vis, false)
    ensures SameEnd(RunAll(FunctionTail(sc, ty, freshFns), r.c, o, freshFns, fuel),
                    RefResult(sc, ty, base, r, o, freshFns, fuel))
  {
    hide EmitStmt, EvalExpr, SlotsMatch, RunAll, RefTrailing, BindCount, AtEnd, OnStack, ResultPolicy, ScopeFrees,
      WellFormed, LeaveFunction, Destroy, NamesOk, LeaveScope, LoopAt, ExitAt, BodyEnd, StmtShape, AfterStmt;
    var code := EmitFinal(sc.fin, BodyEnd(sc), freshFns);
    RunAllAppend(code, ScopeFrees(sc, |sc.stmts|, -1, freshFns) + [CReturn(Lit)], r.c, o, freshFns, fuel);
    NamesAlive(r, vis);
    if sc.fin.NoFinal? {
      RunNothing(r.c, o, freshFns, fuel);
      TailFrees(sc, base, r, o, freshFns, fuel);
    } else {
      var s := sc.fin.s;
      EndDepth(sc);
      SimTrailing(s, BodyEnd(sc), r, vis, false, o, freshFns, fuel);
      RefTrailingFrame(s, r, 1, o, freshFns, fuel);
      TrailingLeaf(s, r, o, freshFns, fuel);
      var (r1, out) := RefTrailing(s, r, 1, o, freshFns, fuel);
      assert Grows(r, r1) by { ShapeOf(s, NotOwner, r, r1, out); }
      if out.RNormal? {
        NamesNoDup(r1, AfterStmt(vis, s));
        NamesAlive(r1, AfterStmt(vis, s));
        EndGrows(sc, base, s, r, r1, freshFns);
        TailFrees(sc, base, r1, o, freshFns, fuel);
      } else {
        ExitLost(r1, base, out);
        FreedNothing(r1);
      }
    }
  }

  /** A process that ends inside an expression frees nothing. */
  lemma ExitLost(r: RState, base: nat, out: ROut)
    requires out == RExited(false)
    ensures LeaveScope(r, base, out).c.h == r.c.h
  {
  }

  /** A binding or an assignment runs through, or ends the process inside its expression. */
  lemma TrailingLeaf(s: Stmt, r: RState, o: Choices, freshFns: FreshFns, fuel: nat)
    requires s.Bind? || s.Assign?
    ensures var out := RefTrailing(s, r, 1, o, freshFns, fuel).1; out == RNormal || out == RExited(false)
  {
    hide RefStmt;
    SimpleOut(s, NotOwner, r, 1, o, freshFns, fuel);
  }

  lemma LeaveFunctionHeap(r: RState, base: nat, policy: Policy)
    requires base <= |r.own|
    ensures LeaveFunction(r, base, policy).c.h == match policy
      case FreeAll => Destroy(r.c.env, Show(r.own, base), r.c.h, base)
      case FreeNone => r.c.h
      case FreeAllBut(n) => DestroyBut(r.c.env, r.own, r.c.h, base, n)
  {
    hide Destroy, DestroyBut;
  }

  /** At the end of a function's deferred statements what is hidden owns nothing. */
  predicate HiddenOwnNothing(own: seq<Own>, base: nat) {
    forall i :: base <= i < |own| && own[i].Hidden? ==> Kind(own[i]) == NotOwner
  }

  lemma TailRefines(sc: Scope, ty: ResultType, base: nat, r: RState, vis: Visible, o: Choices, freshFns: FreshFns,
      fuel: nat)
    requires AtDeferred(sc, base, r, vis, freshFns) && NamesApart(sc) && HiddenOwnNothing(r.own, base)
    requires sc.fin.Final? ==>
      (sc.fin.s.Bind? || sc.fin.s.Assign? || sc.fin.s.Eval? || sc.fin.s.ProcExit?) && WellFormed(sc.fin.s, vis, false)
    ensures SameEnd(RunAll(FunctionTail(sc, ty, freshFns), r.c, o, freshFns, fuel),
                    RefResult(sc, ty, base, r, o, freshFns, fuel))
  {
    hide EvalExpr, RunAll, AtEnd, OnStack, NamesOk, ResultPolicy, FunctionTail, WellFormed, LoopAt, ExitAt, Destroy,
      DestroyBut, LeaveFunction, RefTrailing;
    if !GivesResult(sc.fin) {
      TailStatement(sc, ty, base, r, vis, o, freshFns, fuel);
    } else {
      var (v, r3) := RefEval(ResultExpr(sc.fin), r, o, freshFns);
      var r4 := NoteResult(r3, sc.fin);
      if r3.c.h.halted {
        TailHalts(sc, ty, r.c, o, freshFns, fuel);
        ExitLost(r4, base, RExited(false));
      } else {
        TailEval(sc, ty, base, r, vis, o, freshFns, fuel);
        var policy := ResultPolicy(sc, ty, freshFns);
        LeaveFunctionHeap(r4, base, policy);
        if policy.FreeAllBut? { ShowOwnsNothing(r3.c.env, r3.own, r3.c.h, base, policy.n); }
      }
    }
  }

  /** Hidden variables of a function are declared by its deferred statements. */
  lemma {:induction false} InOrderHides(ss: seq<Stmt>, i: nat, base: nat, r: RState, o: Choices, freshFns: FreshFns,
      fuel: nat)
    requires i <= |ss| && base <= |r.own| && HiddenOwnNothing(r.own, base)
    ensures var (r1, out) := RefInOrder(ss, i, r, o, freshFns, fuel);
      base <= |r1.own| && (out.RNormal? ==> HiddenOwnNothing(r1.own, base))
    decreases |ss| - i
  {
    hide RefTrailing;
    if i < |ss| {
      RefTrailingFrame(ss[i], r, 1, o, freshFns, fuel);
      var (r1, out) := RefTrailing(ss[i], r, 1, o, freshFns, fuel);
      if out.RNormal? {
        var r2 := HideFrom(r1, |r.own|);
        forall p | base <= p < |r2.own| && r2.own[p].Hidden? ensures Kind(r2.own[p]) == NotOwner {
          if p < |r.own| { assert r1.own[p] == r1.own[..|r.own|][p] == r.own[..|r.own|][p]; }
        }
        InOrderHides(ss, i + 1, base, r2, o, freshFns, fuel);
      }
    }
  }

  /** After the statements nothing of the body is hidden. */
  lemma {:induction false} FromHides(sc: Scope, i: nat, base: nat, r: RState, o: Choices, freshFns: FreshFns, fuel: nat)
    requires i <= |sc.stmts| && base <= |r.own| && NoneHidden(r.own, base)
    ensures var (r1, out) := RefFrom(sc, i, r, 1, o, freshFns, fuel);
      base <= |r1.own| && (out.RNormal? ==> NoneHidden(r1.own, base))
    decreases |sc.stmts| - i
  {
    hide RefStmt, OwnAt;
    if i < |sc.stmts| {
      var s, k := sc.stmts[i], OwnAt(sc, i, freshFns);
      RefStmtFrame(s, k, r, 1, o, freshFns, fuel);
      var (r1, out) := RefStmt(s, k, r, 1, o, freshFns, fuel);
      if out.RNormal? {
        var r2 := Note(r1, s, false, 1, out);
        forall p | base <= p < |r2.own| ensures !r2.own[p].Hidden? {
          if p < |r.own| { assert r1.own[p] == r1.own[..|r.own|][p] == r.own[..|r.own|][p]; }
        }
        FromHides(sc, i + 1, base, r2, o, freshFns, fuel);
      }
    }
  }

  lemma StartHides(sc: Scope, r: RState, o: Choices, freshFns: FreshFns, fuel: nat)
    ensures var (r2, out) := RefStart(sc, r, o, freshFns, fuel);
      |r.own| <= |r2.own| && (out.RNormal? ==> HiddenOwnNothing(r2.own, |r.own|))
  {
    hide RefFrom, RefInOrder;
    var ri := Inside(r, sc);
    FromHides(sc, 0, |r.own|, ri, o, freshFns, fuel);
    var (r1, out) := RefFrom(sc, 0, ri, 1, o, freshFns, fuel);
    if out.RNormal? { InOrderHides(sc.deferred, 0, |r.own|, r1, o, freshFns, fuel); }
  }

  /** The emitted function body frees, transfers and returns exactly what the
      source semantics says. */
  lemma EmittedFunctionRefines(sc: Scope, ty: ResultType, r: RState, vis: Visible, o: Choices, freshFns: FreshFns,
      fuel: nat)
    requires FunctionStart(sc, r, vis, freshFns)
    ensures SameEnd(RunAll(EmitFunction(sc, ty, freshFns), r.c, o, freshFns, fuel),
                    RefFunction(sc, ty, r, o, freshFns, fuel))
  {
    hide RunAll, EmitFrom, RefStart, RefResult, InOrder, AtDeferred, FunctionTail, Names, Aligned, Destroy, NamesOk,
      Matches, SameEnd, WellFormed, AfterFrom, LeaveScope, BodyEnd;
    var code1, code2 := EmitFrom(sc, 0, Stack([], 0), false, freshFns), InOrder(sc.deferred, 0, BodyEnd(sc), freshFns);
    var tail := FunctionTail(sc, ty, freshFns);
    FunctionPrefix(sc, r, vis, o, freshFns, fuel);
    assert code1 + (code2 + tail) == (code1 + code2) + tail;
    RunAllAppend(code1 + code2, tail, r.c, o, freshFns, fuel);
    var (r2, out) := RefStart(sc, r, o, freshFns, fuel);
    if out.RNormal? {
      WellFormedFresh(sc.stmts, 0, vis, false);
      StartHides(sc, r, o, freshFns, fuel);
      var c := RunAll(code1 + code2, r.c, o, freshFns, fuel);
      assert c == (r2.c, Normal) by { MatchedNormal(c, r2, |r.own|); }
      TailRefines(sc, ty, |r.own|, r2, AfterFrom(sc.deferred, 0, AfterFrom(sc.stmts, 0, vis)), o, freshFns, fuel);
    } else {
      var c := RunAll(code1 + code2, r.c, o, freshFns, fuel);
      assert c.1 != Normal by { MatchedJump(c, r2, out, |r.own|); }
      JumpedEnd(Inside(r, sc), r2, out, c);
    }
  }

  lemma MatchedNormal(c: (CState, Out), r: RState, base: nat)
    requires Matches(c, (r, RNormal), base, base)
    ensures c == (r.c, Normal)
  {
  }

  lemma MatchedJump(c: (CState, Out), r: RState, out: ROut, base: nat)
    requires Matches(c, (r, out), base, base) && !out.RNormal?
    ensures c.1 != Normal
  {
  }

  /** The value a call returns: that of the expression the body ends with, where its statements
      and then its deferred ones have led; zero when the body ends with a statement. */
  lemma FunctionReturns(sc: Scope, ty: ResultType, r: RState, vis: Visible, o: Choices, freshFns: FreshFns, fuel: nat)
    requires FunctionStart(sc, r, vis, freshFns) && RefStart(sc, r, o, freshFns, fuel).1.RNormal?
    requires sc.fin.Final? ==> sc.fin.s.Eval? || sc.fin.s.Bind? || sc.fin.s.Assign?
    ensures var c := RefStart(sc, r, o, freshFns, fuel).0.c;
      var out := RunAll(EmitFunction(sc, ty, freshFns), r.c, o, freshFns, fuel).1;
      if sc.fin.Final? && sc.fin.s.Eval? then
        var (v, h) := EvalExpr(sc.fin.s.e, c.env, c.h, o, freshFns);
        out == if h.halted then Exited else Returned(v)
      else out in {Returned(Other), Exited}
  {
    hide EmitFunction, RunAll, RefStart, EvalExpr, FunctionStart, RefFunction;
    EmittedFunctionRefines(sc, ty, r, vis, o, freshFns, fuel);
    if sc.fin.Final? && sc.fin.s.Eval? {
      ValueReturned(sc, ty, r, o, freshFns, fuel);
    } else {
      NoValueReturned(sc, ty, r, o, freshFns, fuel);
    }
  }

  lemma ValueReturned(sc: Scope, ty: ResultType, r: RState, o: Choices, freshFns: FreshFns, fuel: nat)
    requires sc.fin.Final? && sc.fin.s.Eval? && RefStart(sc, r, o, freshFns, fuel).1.RNormal?
    ensures var c := RefStart(sc, r, o, freshFns, fuel).0.c;
      var (v, h) := EvalExpr(sc.fin.s.e, c.env, c.h, o, freshFns);
      var (_, out, v1) := RefFunction(sc, ty, r, o, freshFns, fuel);
      if h.halted then out.RExited? else out.RNormal? && v1 == v
  {
    hide RefStart, EvalExpr, LeaveFunction, LeaveScope, ResultPolicy;
  }

  lemma NoValueReturned(sc: Scope, ty: ResultType, r: RState, o: Choices, freshFns: FreshFns, fuel: nat)
    requires RefStart(sc, r, o, freshFns, fuel).1.RNormal?
    requires sc.fin.Final? ==> sc.fin.s.Bind? || sc.fin.s.Assign?
    ensures var (_, out, v1) := RefFunction(sc, ty, r, o, freshFns, fuel);
      out.RExited? || (out.RNormal? && v1 == Other)
  {
    hide RefStart, EvalExpr, LeaveFunction, LeaveScope, ResultPolicy;
    SimpleEnds(sc.fin, RefStart(sc, r, o, freshFns, fuel).0, o, freshFns, fuel);
    hide RefFinal;
  }

  lemma SimpleEnds(fin: Final, r: RState, o: Choices, freshFns: FreshFns, fuel: nat)
    requires fin.Final? ==> fin.s.Bind? || fin.s.Assign?
    ensures var out := RefFinal(fin, r, 1, o, freshFns, fuel).1; out.RNormal? || out.RExited?
  {
    hide EvalExpr, RefCompute, RefAssign;
    if fin.Final? { assert RefFinal(fin, r, 1, o, freshFns, fuel) == RefTrailing(fin.s, r, 1, o, freshFns, fuel); }
  }

  // ---------- accounts of a call ----------

  /** The state at a call: everything allocated so far counts as given up, so
      `bound` later tells the callee's strings from the caller's. */
  predicate CallStart(r: RState) {
    var h := r.c.h;
    HeapOk(h) && h.freed == [] && r.bound == r.leaked == seq(h.next, i => i) &&
    (forall i :: 0 <= i < |r.own| ==> r.own[i] == NotOwner) && AllBelow(r.c.env, h.next) &&
    r.trace == [] && r.gone == {} && r.loop == 0 && !r.astray && !h.halted
  }

  lemma {:induction false} NothingOwned(env: Env, own: seq<Own>, lo: nat, a: nat)
    requires |own| == |env| && forall i :: lo <= i < |own| ==> own[i] == NotOwner
    ensures OwnedCount(env, own, lo, a) == 0
    decreases |env|
  {
    if |env| > lo { NothingOwned(env[..|env| - 1], own[..|env| - 1], lo, a); }
  }

  lemma CallStartInv(sc: Scope, r: RState)
    requires CallStart(r)
    ensures Inv(r) && Inv(Inside(r, sc))
  {
    forall a ensures Excess(r, a) == 0 { NothingOwned(r.c.env, r.own, 0, a); }
    MarksInv(r, Inside(r, sc));
  }

  lemma StartParts(sc: Scope, r: RState, vis: Visible, freshFns: FreshFns)
    requires FunctionStart(sc, r, vis, freshFns)
    ensures freshFns.Keys !! SAFE_BUILTINS && !r.c.h.halted
    ensures WellFormedFrom(sc.stmts, 0, vis, false) && VisOk(vis, Inside(r, sc)) && ReadyFrom(sc, 0, Inside(r, sc))
    ensures WellFormedFrom(sc.deferred, 0, AfterFrom(sc.stmts, 0, vis), false)
    ensures NamesApart(sc) && |r.own| == |Inside(r, sc).own|
  {
    WellFormedFresh(sc.stmts, 0, vis, false);
  }

  /** `more` stands for statements still to come after the deferred ones. */
  lemma {:induction false} InOrderInv(ss: seq<Stmt>, i: nat, more: seq<Stmt>, r: RState, vis: Visible, o: Choices,
      freshFns: FreshFns, fuel: nat)
    requires i <= |ss| && Inv(r) && VisOk(vis, r) && ReadyBack(ss, r) && ReadyBack(more, r)
    requires WellFormedFrom(ss, i, vis, false) && freshFns.Keys !! SAFE_BUILTINS
    ensures var (r1, out) := RefInOrder(ss, i, r, o, freshFns, fuel);
      Inv(r1) && (out.RNormal? ==> VisOk(AfterFrom(ss, i, vis), r1) && ReadyBack(more, r1))
    decreases |ss| - i
  {
    hide Inv, WellFormed, VisOk, Ready, ReadyBack, RefTrailing, AfterStmt, StmtShape;
    if i < |ss| {
      var s := ss[i];
      BackNext(ss, i, r);
      TrailingInv(s, r, 1, vis, false, o, freshFns, fuel);
      RefTrailingFrame(s, r, 1, o, freshFns, fuel);
      var (r1, out) := RefTrailing(s, r, 1, o, freshFns, fuel);
      if out.RNormal? {
        var r2, vis1 := HideFrom(r1, |r.own|), AfterStmt(vis, s);
        BackStays(ss, s, r, r1);
        BackStays(more, s, r, r1);
        HiddenOk(r1, |r.own|, vis1, ss);
        HiddenOk(r1, |r.own|, vis1, more);
        InOrderInv(ss, i + 1, more, r2, vis1, o, freshFns, fuel);
      }
    }
  }

  function FinalList(fin: Final): seq<Stmt> { if fin.Final? then [fin.s] else [] }

  lemma FinalReady(sc: Scope, r: RState)
    requires ReadyFrom(sc, |sc.stmts|, r)
    ensures ReadyBack(FinalList(sc.fin), r)
  {
    FinalOf(sc, r);
  }

  /** Everything before the result keeps the accounts. */
  lemma StartInv(sc: Scope, r: RState, vis: Visible, o: Choices, freshFns: FreshFns, fuel: nat)
    requires CallStart(r) && FunctionStart(sc, r, vis, freshFns)
    ensures var (r2, out) := RefStart(sc, r, o, freshFns, fuel);
      Inv(r2) &&
      (out.RNormal? ==>
        VisOk(AfterFrom(sc.deferred, 0, AfterFrom(sc.stmts, 0, vis)), r2) && ReadyBack(FinalList(sc.fin), r2))
  {
    hide Inv, FunctionStart, CallStart, VisOk, ReadyFrom, ReadyBack, RefFrom, RefInOrder, WellFormedFrom, AfterFrom,
      FinalList;
    StartParts(sc, r, vis, freshFns);
    CallStartInv(sc, r);
    var ri := Inside(r, sc);
    FromInv(sc, 0, ri, 1, vis, false, o, freshFns, fuel);
    var (r1, out) := RefFrom(sc, 0, ri, 1, o, freshFns, fuel);
    if out.RNormal? {
      FinalOf(sc, r1);
      FinalReady(sc, r1);
      InOrderInv(sc.deferred, 0, FinalList(sc.fin), r1, AfterFrom(sc.stmts, 0, vis), o, freshFns, fuel);
    }
  }

  // ---------- what the statements of a call show ----------

  lemma {:induction false} InOrderShows(ss: seq<Stmt>, i: nat, r: RState, o: Choices, freshFns: FreshFns, fuel: nat)
    requires i <= |ss| && r.loop <= |r.own| && !r.c.h.halted
    ensures var (r1, out) := RefInOrder(ss, i, r, o, freshFns, fuel); Shows(r, r1, out, freshFns)
    decreases |ss| - i
  {
    hide RefTrailing, Shows, Pending, StmtShape;
    if i == |ss| {
      Unchanged(r, r, RNormal, freshFns);
    } else {
      var s := ss[i];
      TrailingShows(s, r, 1, o, freshFns, fuel);
      RefTrailingFrame(s, r, 1, o, freshFns, fuel);
      var (r1, out) := RefTrailing(s, r, 1, o, freshFns, fuel);
      if out.RNormal? {
        var r2 := HideFrom(r1, |r.own|);
        LoopKept(r, r1, freshFns);
        Unchanged(r1, r2, RNormal, freshFns);
        NotPending(r1);
        ShowsTrans(r, r1, r2, RNormal, RNormal, freshFns);
        NotPending(r2);
        ShapeEnd(s, r, r1);
        InOrderShows(ss, i + 1, r2, o, freshFns, fuel);
        var (r3, out3) := RefInOrder(ss, i + 1, r2, o, freshFns, fuel);
        ShowsTrans(r, r2, r3, RNormal, out3, freshFns);
      }
    }
  }

  lemma StartShows(sc: Scope, r: RState, o: Choices, freshFns: FreshFns, fuel: nat)
    requires r.loop <= |r.own| && !r.c.h.halted
    ensures var (r2, out) := RefStart(sc, r, o, freshFns, fuel); Shows(r, r2, out, freshFns)
  {
    hide RefFrom, RefInOrder, Shows, Pending, Grows;
    var ri := Inside(r, sc);
    FromShows(sc, 0, ri, 1, o, freshFns, fuel);
    RefFromFrame(sc, 0, ri, 1, o, freshFns, fuel);
    var (r1, out) := RefFrom(sc, 0, ri, 1, o, freshFns, fuel);
    MovedStart(r, ri, r1, out, freshFns);
    if out.RNormal? {
      GrowsLonger(ri, r1);
      LoopKept(r, r1, freshFns);
      NotPending(r1);
      InOrderShows(sc.deferred, 0, r1, o, freshFns, fuel);
      var (r2, out2) := RefInOrder(sc.deferred, 0, r1, o, freshFns, fuel);
      ShowsTrans(r, r1, r2, RNormal, out2, freshFns);
    }
  }

  lemma MovedStart(r: RState, ri: RState, r1: RState, out: ROut, freshFns: FreshFns)
    requires Shows(ri, r1, out, freshFns) && ri == r.(outer := ri.outer)
    ensures Shows(r, r1, out, freshFns)
  {
  }

  /** The result is one more statement. */
  lemma ResultShows(fin: Final, r: RState, o: Choices, freshFns: FreshFns)
    requires GivesResult(fin) && !r.c.h.halted
    ensures var r3 := RefEval(ResultExpr(fin), r, o, freshFns).1;
      Shows(r, NoteResult(r3, fin), AfterEval(r3), freshFns) && (fin.s.ProcExit? ==> r3.c.h.halted)
  {
    hide Shows, OwnsFrom, HidesFrom;
    var r3 := RefEval(ResultExpr(fin), r, o, freshFns).1;
    HidersOwn(r3.own, 0);
    assert fin.s.ProcExit? ==> r3.c.h.halted;
    hide EvalExpr;
    OneEntry(r, r3.(temps := 0), fin.s, true, 1, AfterEval(r3), freshFns);
  }

  /** The body owns strings exactly when its text declares owners. */
  lemma OwnsIff(sc: Scope, base: nat, r: RState, freshFns: FreshFns)
    requires AtEnd(sc, base, r, freshFns) && base <= |r.own|
    ensures OwnsFrom(r.own, base) <==> HasOwner(sc, freshFns)
  {
    hide OwnAt, NoDup;
    var n, hi, own := |sc.stmts|, base + BindCount(sc, |sc.stmts|), Show(r.own, base);
    if OwnsFrom(r.own, base) {
      var p :| base <= p < |r.own| && Owns(r.own[p]);
      assert Owns(own[p]) && p < hi;
      var j := SlotOf(sc, n, r.c.env, own, hi, p, freshFns);
      assert OwnAt(sc, j, freshFns) != NotOwner;
    }
    if HasOwner(sc, freshFns) {
      var j :| 0 <= j < n && OwnAt(sc, j, freshFns) != NotOwner;
      OwnAtInit(sc, j, freshFns);
      var p := BindingSlot(sc, n, j, r.c.env, own, hi, freshFns);
      assert own[p] == OwnAt(sc, j, freshFns) && Owns(own[p]);
      assert Owns(r.own[p]);
    }
  }

  /** Slot of the binding at statement `j`. */
  lemma {:induction false} BindingSlot(sc: Scope, i: nat, j: nat, env: Env, own: seq<Own>, hi: int, freshFns: FreshFns)
    returns (p: nat)
    requires j < i <= |sc.stmts| && |own| == |env| && 0 <= hi <= |env| && sc.stmts[j].Bind?
    requires SlotsMatch(sc, i, env, own, hi, freshFns)
    ensures hi - BindCount(sc, i) <= p < hi
    ensures env[p].name == sc.stmts[j].name && own[p] == OwnAt(sc, j, freshFns)
    decreases i
  {
    if j == i - 1 {
      p := hi - 1;
    } else {
      p := BindingSlot(sc, i - 1, j, env, own, if sc.stmts[i - 1].Bind? then hi - 1 else hi, freshFns);
    }
  }

  /** Is something given up because the result might alias it? */
  predicate GivenUp(sc: Scope, ty: ResultType, returned: bool, freshFns: FreshFns) {
    returned && ResultPolicy(sc, ty, freshFns).FreeNone? && HasOwner(sc, freshFns)
  }

  predicate CallShows(r: RState, r1: RState, givenUp: bool, freshFns: FreshFns) {
    |r.leaked| <= |r1.leaked| && (|r.leaked| < |r1.leaked| <==> LosesIn(r1.trace, freshFns) || givenUp) &&
    (r1.astray <==> StraysIn(r1.trace, freshFns)) && |r1.own| == |r.own|
  }

  /** What the statements of a whole call show. */
  lemma FunctionShows(sc: Scope, ty: ResultType, r: RState, vis: Visible, o: Choices, freshFns: FreshFns, fuel: nat)
    requires CallStart(r) && FunctionStart(sc, r, vis, freshFns)
    ensures var (r1, out, v) := RefFunction(sc, ty, r, o, freshFns, fuel);
      (r1.astray <==> StraysIn(r1.trace, freshFns)) &&
      (!out.ROutOfFuel? ==> CallShows(r, r1, GivenUp(sc, ty, out.RNormal?, freshFns), freshFns))
  {
    hide RefStart, RefFinal, Shows, FunctionStart, LeaveScope, ResultPolicy, AtDeferred, AtEnd, HasOwner, Grows,
      EvalExpr, ResultExpr, Matches, EmitFrom, InOrder;
    StartParts(sc, r, vis, freshFns);
    StartShows(sc, r, o, freshFns, fuel);
    FunctionPrefix(sc, r, vis, o, freshFns, fuel);
    var base := |r.own|;
    var (r2, out) := RefStart(sc, r, o, freshFns, fuel);
    ParamsOwnNothing(sc, r, r2);
    if out.ROutOfFuel? {
      StoppedShows(r, r2, freshFns);
    } else if !out.RNormal? {
      LeftShows(r, r2, out, freshFns);
    } else {
      LoopKept(r, r2, freshFns);
      NotPending(r2);
      assert AtEnd(sc, base, r2, freshFns) by { DeferredEnd(sc, base, r2, vis, freshFns); }
      if GivesResult(sc.fin) {
        ResultShows(sc.fin, r2, o, freshFns);
        var r3 := RefEval(ResultExpr(sc.fin), r2, o, freshFns).1;
        var r4 := NoteResult(r3, sc.fin);
        ShowsTrans(r, r2, r4, RNormal, AfterEval(r3), freshFns);
        if r3.c.h.halted {
          LeftShows(r, r4, RExited(false), freshFns);
        } else {
          OwnsIff(sc, base, r2, freshFns);
          LeaveFunctionShows(sc, ty, r, r4, freshFns);
        }
      } else {
        FinalShows(sc.fin, r2, o, freshFns, fuel);
        var (r3, out3) := RefFinal(sc.fin, r2, 1, o, freshFns, fuel);
        RefFinalFrame(sc.fin, r2, 1, o, freshFns, fuel);
        GrowsTrans(Inside(r, sc), r2, r3);
        ParamsOwnNothing(sc, r, r3);
        ShowsTrans(r, r2, r3, RNormal, out3, freshFns);
        if out3.ROutOfFuel? { StoppedShows(r, r3, freshFns); } else { LeftShows(r, r3, out3, freshFns); }
        assert !ResultPolicy(sc, ty, freshFns).FreeNone? by { NoResultFrees(sc, ty, freshFns); }
      }
    }
  }

  lemma StoppedShows(r: RState, r1: RState, freshFns: FreshFns)
    requires CallStart(r) && Shows(r, r1, ROutOfFuel, freshFns)
    ensures var r2 := LeaveScope(r1, |r.own|, ROutOfFuel); r2.astray <==> StraysIn(r2.trace, freshFns)
  {
    assert r1.trace[0..] == r1.trace;
  }

  lemma ParamsOwnNothing(sc: Scope, r: RState, r2: RState)
    requires CallStart(r) && Grows(Inside(r, sc), r2)
    ensures |r.own| <= |r2.own| && forall i :: 0 <= i < |r.own| ==> r2.own[i] == NotOwner
  {
    forall i | 0 <= i < |r.own| ensures r2.own[i] == NotOwner {
      assert r2.own[i] == r2.own[..|r.own|][i] == Inside(r, sc).own[..|r.own|][i] == r.own[i];
    }
  }

  lemma DeferredEnd(sc: Scope, base: nat, r: RState, vis: Visible, freshFns: FreshFns)
    requires AtDeferred(sc, base, r, AfterFrom(sc.deferred, 0, AfterFrom(sc.stmts, 0, vis)), freshFns)
    ensures AtEnd(sc, base, r, freshFns)
  {
  }

  lemma NoResultFrees(sc: Scope, ty: ResultType, freshFns: FreshFns)
    requires !GivesResult(sc.fin)
    ensures ResultPolicy(sc, ty, freshFns) == FreeAll
  {
  }

  lemma FinalShows(fin: Final, r: RState, o: Choices, freshFns: FreshFns, fuel: nat)
    requires r.loop <= |r.own| && !r.c.h.halted
    ensures var (r1, out) := RefFinal(fin, r, 1, o, freshFns, fuel); Shows(r, r1, out, freshFns)
  {
    hide RefTrailing, Shows;
    if fin.Final? {
      TrailingShows(fin.s, r, 1, o, freshFns, fuel);
    } else {
      Unchanged(r, r, RNormal, freshFns);
    }
  }

  lemma LeftShows(r: RState, r1: RState, out: ROut, freshFns: FreshFns)
    requires CallStart(r) && Shows(r, r1, out, freshFns) && |r.own| <= |r1.own| && !out.ROutOfFuel?
    requires forall i :: 0 <= i < |r.own| ==> r1.own[i] == NotOwner
    ensures CallShows(r, LeaveScope(r1, |r.own|, out), false, freshFns)
  {
    hide LosesIn, StraysIn, LeaveScope, HeapOk;
    var r4 := LeaveScope(r1, |r.own|, out);
    LeaveShows(r, r1, out, freshFns);
    LeaveGivesUp(r1, |r.own|, out);
    assert r4.trace[0..] == r4.trace;
    if !out.RNormal? { assert !Pending(r4, out); }
  }

  lemma LeaveFunctionShows(sc: Scope, ty: ResultType, r: RState, r1: RState, freshFns: FreshFns)
    requires CallStart(r) && Shows(r, r1, RNormal, freshFns) && |r.own| <= |r1.own|
    requires OwnsFrom(r1.own, |r.own|) <==> HasOwner(sc, freshFns)
    ensures CallShows(r, LeaveFunction(r1, |r.own|, ResultPolicy(sc, ty, freshFns)),
                      GivenUp(sc, ty, true, freshFns), freshFns)
  {
    hide LosesIn, StraysIn, LeaveScope, HeapOk, ResultPolicy, HasOwner, OwnsFrom, HidesFrom, DestroyBut;
    LeaveGivesUp(r1, |r.own|, RNormal);
    LeaveGivesUp(r1, |r.own|, RBroke(false));
    assert r1.trace[0..] == r1.trace;
  }

  // ---------- transferring an owner ----------

  /** Destroying all but one owner is destroying with that owner forgotten. */
  lemma {:induction false} DestroyButForgets(env: Env, own: seq<Own>, h: Heap, lo: nat, p: nat)
    requires |own| == |env| && NoDup(env) && p < |env|
    ensures DestroyBut(env, own, h, lo, env[p].name) == Destroy(env, own[p := NotOwner], h, lo)
    decreases |env|
  {
    if |env| > lo {
      var k := |env| - 1;
      if k == p {
        assert own[p := NotOwner][..k] == own[..k];
        DestroyButNone(env[..k], own[..k], h, lo, env[p].name);
      } else {
        assert own[p := NotOwner][..k] == own[..k][p := NotOwner];
        var h1 := if Active(own[k]) then Release(env[k].val, h) else h;
        DestroyButForgets(env[..k], own[..k], h1, lo, p);
      }
    }
  }

  lemma {:induction false} DestroyButNone(env: Env, own: seq<Own>, h: Heap, lo: nat, n: string)
    requires |own| == |env| && forall i :: 0 <= i < |env| ==> env[i].name != n
    ensures DestroyBut(env, own, h, lo, n) == Destroy(env, own, h, lo)
    decreases |env|
  {
    if |env| > lo {
      var k := |env| - 1;
      DestroyButNone(env[..k], own[..k], if Active(own[k]) then Release(env[k].val, h) else h, lo, n);
    }
  }

  /** A string no destroyed variable owns stays live. */
  lemma {:induction false} DestroyKeeps(env: Env, own: seq<Own>, h: Heap, lo: nat, a: nat)
    requires |own| == |env| && a in h.live
    requires forall i :: 0 <= i < |env| && Active(own[i]) ==> env[i].val != Ptr(a)
    ensures a in Destroy(env, own, h, lo).live
    decreases |env|
  {
    if |env| > lo {
      var k := |env| - 1;
      DestroyKeeps(env[..k], own[..k], if Active(own[k]) then Release(env[k].val, h) else h, lo, a);
    }
  }

  lemma {:induction false} ForgetCount(env: Env, own: seq<Own>, lo: nat, p: nat, a: nat)
    requires |own| == |env| && lo <= p < |env|
    ensures OwnedCount(env, own, lo, a) == OwnedCount(env, own[p := NotOwner], lo, a) + OwnedBy(own[p], env[p].val, a)
    decreases |env|
  {
    var k := |env| - 1;
    if p == k {
      assert own[p := NotOwner][..k] == own[..k];
    } else {
      assert own[p := NotOwner][..k] == own[..k][p := NotOwner];
      ForgetCount(env[..k], own[..k], lo, p, a);
    }
  }

  /** Transferring one owner to the caller: its string stays live, every other
      owner of the body is destroyed. */
  lemma TransferInv(r: RState, base: nat, p: nat)
    requires Inv(r) && !r.astray && NoDup(r.c.env) && base <= p < |r.own| && Owns(r.own[p])
    requires HiddenOwnNothing(r.own, base)
    ensures var v := r.c.env[p].val;
      var h := DestroyBut(r.c.env, r.own, r.c.h, base, r.c.env[p].name);
      HeapOk(h) && v.Ptr? && v.addr in h.live &&
      forall a :: Count(h.freed, a) + (if v.addr == a then 1 else 0) ==
        Count(r.c.h.freed, a) + OwnedCount(r.c.env, r.own, base, a)
  {
    hide HeapOk, Count, OwnedCount, Destroy, DestroyBut, NoDup;
    var env, h := r.c.env, r.c.h;
    var own := Show(r.own, base);
    var own' := own[p := NotOwner];
    ShowOwnsNothing(env, r.own, h, base, env[p].name);
    DestroyButForgets(env, own, h, base, p);
    assert OwnersOk(env, own', h) by { OwnersLess(env, r.own, own', h); }
    assert NoneHidden(own', base);
    DestroySound(env, own', h, base);
    assert env[p].val.Ptr? && env[p].val.addr in h.live;
    DestroyKeeps(env, own', h, base, env[p].val.addr);
    forall a ensures
      Count(Destroy(env, own', h, base).freed, a) + (if env[p].val.addr == a then 1 else 0) ==
      Count(h.freed, a) + OwnedCount(env, r.own, base, a)
    {
      DestroyCounts(env, own', h, base, a);
      HeapNotBad(Destroy(env, own', h, base));
      ForgetCount(env, own, base, p, a);
      OwnedSameKind(env, r.own, own, base, a);
    }
  }

  lemma HeapNotBad(h: Heap)
    requires HeapOk(h)
    ensures !h.bad
  {
  }

  // ---------- every string a call binds ----------

  /** What a call comes to. */
  ghost predicate Accounts(r: RState, r1: RState, byName: bool, v: Val) {
    Sound(r) && forall a :: r.c.h.next <= a ==>
      Count(r1.bound, a) == Count(r1.c.h.freed, a) + (if byName && v == Ptr(a) then 1 else 0) + Count(r1.leaked, a)
  }

  /** A state with nothing left to own. */
  lemma LeftAccounts(r: RState, r1: RState, v: Val)
    requires CallStart(r) && Inv(r1) && !r1.astray && forall i :: 0 <= i < |r1.own| ==> r1.own[i] == NotOwner
    ensures Accounts(r, r1, false, v)
  {
    hide HeapOk, Count;
    forall a ensures Count(r1.bound, a) == Count(r1.c.h.freed, a) + Count(r1.leaked, a) {
      NothingOwned(r1.c.env, r1.own, 0, a);
      assert Excess(r1, a) == 0;
    }
    assert Sound(r) by { CallSound(r); }
  }

  lemma CallSound(r: RState)
    requires CallStart(r)
    ensures Sound(r)
  {
  }

  lemma LeaveOwns(r: RState, base: nat, out: ROut)
    requires base <= |r.own| && !out.ROutOfFuel?
    ensures LeaveScope(r, base, out).own == r.own[..base] || out.RNormal?
    ensures out.RNormal? ==> LeaveScope(r, base, out).own == Show(r.own, base)[..base] == r.own[..base]
  {
    assert Forget(r.own, base)[..base] == r.own[..base] && Show(r.own, base)[..base] == r.own[..base];
  }

  /** Strings given up since the call are new ones. */
  ghost predicate NewLeaks(r: RState, r1: RState) {
    (|r.leaked| < |r1.leaked| ==> exists a :: r.c.h.next <= a && Count(r1.leaked, a) > 0) &&
    (|r.leaked| == |r1.leaked| ==> forall a :: r.c.h.next <= a ==> Count(r1.leaked, a) == 0)
  }

  lemma NewLeak(r: RState, r1: RState)
    requires CallStart(r) && Inv(r1) && !r1.astray && r.leaked <= r1.leaked
    ensures NewLeaks(r, r1)
  {
    var n := r.c.h.next;
    if |r.leaked| < |r1.leaked| {
      var a := r1.leaked[n];
      assert Count(r1.leaked, a) > 0;
      if a < n {
        assert r1.leaked[a] == r.leaked[a] == a;
        CountTwice(r1.leaked, a, n);
        assert Excess(r1, a) == 0;
        CountAtMostOnce(r1.bound, a);
      }
    }
  }

  lemma CountTwice(s: seq<nat>, i: nat, j: nat)
    requires i < j < |s| && s[i] == s[j]
    ensures Count(s, s[i]) >= 2
  {
    assert s == s[..j] + s[j..];
    CountConcat(s[..j], s[j..], s[i]);
    assert s[..j][i] == s[i] && s[j..][0] == s[j];
  }

  lemma LeaveAccounts(r: RState, r1: RState, out: ROut, v: Val)
    requires CallStart(r) && Inv(r1) && |r.own| <= |r1.own| && !out.ROutOfFuel? && r.leaked <= r1.leaked
    requires forall i :: 0 <= i < |r.own| ==> r1.own[i] == NotOwner
    requires !LeaveScope(r1, |r.own|, out).astray
    ensures var r4 := LeaveScope(r1, |r.own|, out); Accounts(r, r4, false, v) && NewLeaks(r, r4)
  {
    hide Inv, LeaveScope, Accounts, CallStart, NewLeaks;
    LeaveScopeInv(r1, |r.own|, out);
    LeaveOwns(r1, |r.own|, out);
    LeaveLeaks(r1, |r.own|, out);
    LeftAccounts(r, LeaveScope(r1, |r.own|, out), v);
    NewLeak(r, LeaveScope(r1, |r.own|, out));
  }

  lemma LeaveLeaks(r: RState, base: nat, out: ROut)
    requires base <= |r.own|
    ensures r.leaked <= LeaveScope(r, base, out).leaked
  {
    hide Destroy;
  }

  /** A result returned by name. */
  lemma TransferAccounts(sc: Scope, ty: ResultType, r: RState, r1: RState, v: Val, freshFns: FreshFns)
    requires CallStart(r) && Inv(r1) && !r1.astray && |r.own| <= |r1.own| && AtEnd(sc, |r.own|, r1, freshFns)
    requires forall i :: 0 <= i < |r.own| ==> r1.own[i] == NotOwner
    requires HiddenOwnNothing(r1.own, |r.own|)
    requires var policy := ResultPolicy(sc, ty, freshFns); policy.FreeAllBut? && v == Lookup(r1.c.env, policy.n)
    ensures Accounts(r, LeaveFunction(r1, |r.own|, ResultPolicy(sc, ty, freshFns)), true, v)
  {
    hide HeapOk, Count, OwnersOk, NoRepeats, OwnAt, ResultPolicy, OwnerIndex, SlotsMatch, OwnedCount, DestroyBut;
    var base, policy := |r.own|, ResultPolicy(sc, ty, freshFns);
    KeptIsBinding(sc, ty, freshFns);
    CallSound(r);
    var own, hi := Show(r1.own, base), base + BindCount(sc, |sc.stmts|);
    var j := OwnerIndex(sc, policy.n, 0, freshFns);
    var p := BindingSlot(sc, |sc.stmts|, j, r1.c.env, own, hi, freshFns);
    assert own[p] == OwnAt(sc, j, freshFns) && Owns(own[p]) && Owns(r1.own[p]);
    FindUnique(r1.c.env, p);
    TransferInv(r1, base, p);
    var r4 := LeaveFunction(r1, base, policy);
    forall a | r.c.h.next <= a ensures Count(r4.bound, a) ==
      Count(r4.c.h.freed, a) + (if v == Ptr(a) then 1 else 0) + Count(r4.leaked, a) {
      assert Excess(r1, a) == 0;
      OwnedSplit(r1.c.env, r1.own, base, a);
      NothingOwned(r1.c.env[..base], r1.own[..base], 0, a);
    }
  }

  lemma FunctionAccounts(sc: Scope, ty: ResultType, r: RState, vis: Visible, o: Choices, freshFns: FreshFns, fuel: nat)
    requires CallStart(r) && FunctionStart(sc, r, vis, freshFns)
    requires !RefFunction(sc, ty, r, o, freshFns, fuel).0.astray
    requires !RefFunction(sc, ty, r, o, freshFns, fuel).1.ROutOfFuel?
    ensures var (r1, out, v) := RefFunction(sc, ty, r, o, freshFns, fuel);
      Accounts(r, r1, out.RNormal? && ResultPolicy(sc, ty, freshFns).FreeAllBut?, v) && NewLeaks(r, r1)
  {
    hide RefStart, RefFinal, CallStart, FunctionStart, LeaveScope, ResultPolicy, AtDeferred, AtEnd, Grows, EvalExpr,
      ResultExpr, Matches, EmitFrom, InOrder, Inv, VisOk, ReadyBack, Accounts, NewLeaks, WellFormed, Lookup, HasOwner;
    StartParts(sc, r, vis, freshFns);
    FunctionPrefix(sc, r, vis, o, freshFns, fuel);
    StartInv(sc, r, vis, o, freshFns, fuel);
    StartHides(sc, r, o, freshFns, fuel);
    var base := |r.own|;
    var (r2, out) := RefStart(sc, r, o, freshFns, fuel);
    ParamsOwnNothing(sc, r, r2);
    GrowsLeaks(Inside(r, sc), r2);
    if !out.RNormal? {
      LeaveAccounts(r, r2, out, Other);
    } else if GivesResult(sc.fin) {
      EvalInv(ResultExpr(sc.fin), r2, o, freshFns);
      var (v, r3) := RefEval(ResultExpr(sc.fin), r2, o, freshFns);
      var r4 := NoteResult(r3, sc.fin);
      MarksInv(r3, r4);
      var policy := ResultPolicy(sc, ty, freshFns);
      if r3.c.h.halted {
        LeaveAccounts(r, r4, RExited(false), Other);
      } else if policy.FreeAll? {
        LeaveAccounts(r, r4, RNormal, v);
      } else if policy.FreeNone? {
        LeaveAccounts(r, r4, RBroke(false), v);
      } else {
        DeferredEnd(sc, base, r2, vis, freshFns);
        SameEnding(sc, base, r2, r4, freshFns);
        DeferredAlive(sc, base, r2, vis, freshFns);
        NamedResult(sc, ty, r2, o, freshFns);
        NewLeak(r, r4);
        TransferAccounts(sc, ty, r, r4, v, freshFns);
        SameLeaks(r, r4, LeaveFunction(r4, base, policy));
      }
    } else {
      var vis2 := AfterFrom(sc.deferred, 0, AfterFrom(sc.stmts, 0, vis));
      FinalStart(sc, r, vis, r2, freshFns);
      FinalInv(sc.fin, r2, 1, vis2, false, o, freshFns, fuel);
      RefFinalFrame(sc.fin, r2, 1, o, freshFns, fuel);
      var (r3, out3) := RefFinal(sc.fin, r2, 1, o, freshFns, fuel);
      GrowsTrans(Inside(r, sc), r2, r3);
      ParamsOwnNothing(sc, r, r3);
      GrowsLeaks(Inside(r, sc), r3);
      LeaveAccounts(r, r3, out3, Other);
      NoResultFrees(sc, ty, freshFns);
    }
  }

  lemma DeferredAlive(sc: Scope, base: nat, r: RState, vis: Visible, freshFns: FreshFns)
    requires AtDeferred(sc, base, r, AfterFrom(sc.deferred, 0, AfterFrom(sc.stmts, 0, vis)), freshFns)
    ensures !r.c.h.halted
  {
  }

  lemma GrowsLeaks(r: RState, r1: RState)
    requires Grows(r, r1)
    ensures r.leaked <= r1.leaked
  {
  }

  lemma SameLeaks(r: RState, r1: RState, r2: RState)
    requires NewLeaks(r, r1) && r2.leaked == r1.leaked
    ensures NewLeaks(r, r2)
  {
  }

  lemma SameEnding(sc: Scope, base: nat, r: RState, r1: RState, freshFns: FreshFns)
    requires AtEnd(sc, base, r, freshFns) && r1.own == r.own && r1.c.env == r.c.env
    ensures AtEnd(sc, base, r1, freshFns)
  {
  }

  /** The owner kept is the one the result names. */
  lemma NamedResult(sc: Scope, ty: ResultType, r: RState, o: Choices, freshFns: FreshFns)
    requires ResultPolicy(sc, ty, freshFns).FreeAllBut? && GivesResult(sc.fin) && !r.c.h.halted
    ensures RefEval(ResultExpr(sc.fin), r, o, freshFns) == (Lookup(r.c.env, ResultPolicy(sc, ty, freshFns).n), r)
  {
    KeptIsBinding(sc, ty, freshFns);
  }

  lemma FinalStart(sc: Scope, r: RState, vis: Visible, r2: RState, freshFns: FreshFns)
    requires FunctionStart(sc, r, vis, freshFns) && ReadyBack(FinalList(sc.fin), r2)
    ensures sc.fin.Final? ==>
      Ready(sc.fin.s, r2) && WellFormed(sc.fin.s, AfterFrom(sc.deferred, 0, AfterFrom(sc.stmts, 0, vis)), false)
  {
    if sc.fin.Final? { BackNext(FinalList(sc.fin), 0, r2); }
  }

  /** The expression is the name of an owner the body declares. */
  predicate NamesOwner(sc: Scope, e: Expr, freshFns: FreshFns) {
    e.Ident? && exists i :: 0 <= i < |sc.stmts| && OwnAt(sc, i, freshFns) != NotOwner && sc.stmts[i].name == e.name
  }

  /** The result is the string of an owner. */
  predicate GivesOwner(sc: Scope, ty: ResultType, freshFns: FreshFns) {
    ty.StrResult? && GivesResult(sc.fin) && NamesOwner(sc, ResultExpr(sc.fin), freshFns)
  }

  /** The result might be, or hold, the string of an owner that its text does not name:
      it is a value that is not a scalar, and neither a literal, nor new from a builtin,
      nor an owner by name. */
  predicate MayAlias(sc: Scope, ty: ResultType, freshFns: FreshFns) {
    GivesResult(sc.fin) && !ty.ScalarResult? &&
    !(ty.StrResult? && (ResultExpr(sc.fin).Lit? || IsOwnedBuiltinCall(ResultExpr(sc.fin)))) &&
    !GivesOwner(sc, ty, freshFns)
  }

  lemma {:induction false} OwnerIndexFinds(sc: Scope, n: string, i: nat, freshFns: FreshFns)
    requires i <= |sc.stmts|
    ensures OwnerIndex(sc, n, i, freshFns) < 0 ==>
      forall j :: i <= j < |sc.stmts| && OwnAt(sc, j, freshFns) != NotOwner ==> sc.stmts[j].name != n
    decreases |sc.stmts| - i
  {
    if i < |sc.stmts| { OwnerIndexFinds(sc, n, i + 1, freshFns); }
  }

  /** What the emitter does with its owners, told by the text of the body. */
  lemma PolicyByText(sc: Scope, ty: ResultType, returned: bool, freshFns: FreshFns)
    ensures GivenUp(sc, ty, returned, freshFns) <==>
      returned && MayAlias(sc, ty, freshFns) &&
      exists i :: 0 <= i < |sc.stmts| && OwnAt(sc, i, freshFns) != NotOwner
    ensures ResultPolicy(sc, ty, freshFns).FreeAllBut? <==> GivesOwner(sc, ty, freshFns)
  {
    if GivesResult(sc.fin) && ResultExpr(sc.fin).Ident? {
      OwnerIndexFinds(sc, ResultExpr(sc.fin).name, 0, freshFns);
    }
  }

  /** Which functions are fresh-result, told by the text: their string is new from a
      builtin or that of an owner, whatever else is fresh-result. */
  lemma FreshByText(sc: Scope, ty: ResultType)
    ensures IsFreshResult(sc, ty) <==>
      ty.StrResult? && GivesResult(sc.fin) && sc.fin.s.Eval? &&
      (IsOwnedBuiltinCall(ResultExpr(sc.fin)) || NamesOwner(sc, ResultExpr(sc.fin), map[]))
  {
    if GivesResult(sc.fin) && ResultExpr(sc.fin).Ident? {
      OwnerIndexFinds(sc, ResultExpr(sc.fin).name, 0, map[]);
    }
  }

  lemma CallAccounts(sc: Scope, ty: ResultType, r: RState, vis: Visible, o: Choices, freshFns: FreshFns, fuel: nat)
    requires CallStart(r) && FunctionStart(sc, r, vis, freshFns)
    requires var out := RunAll(EmitFunction(sc, ty, freshFns), r.c, o, freshFns, fuel).1; out.Returned? || out.Exited?
    requires !StraysIn(RefFunction(sc, ty, r, o, freshFns, fuel).0.trace, freshFns)
    ensures var (c, out) := RunAll(EmitFunction(sc, ty, freshFns), r.c, o, freshFns, fuel);
      var r1 := RefFunction(sc, ty, r, o, freshFns, fuel).0;
      var byName := out.Returned? && ResultPolicy(sc, ty, freshFns).FreeAllBut?;
      (forall a :: r.c.h.next <= a ==>
        Count(r1.bound, a) == Count(c.h.freed, a) + if byName && out.v == Ptr(a) then 1 else 0)
      <==> !LosesIn(r1.trace, freshFns) && !GivenUp(sc, ty, out.Returned?, freshFns)
  {
    hide *;
    var c := RunAll(EmitFunction(sc, ty, freshFns), r.c, o, freshFns, fuel);
    var (r1, rout, v) := RefFunction(sc, ty, r, o, freshFns, fuel);
    EmittedFunctionRefines(sc, ty, r, vis, o, freshFns, fuel);
    EndsAlike(c, (r1, rout, v));
    FunctionShows(sc, ty, r, vis, o, freshFns, fuel);
    ShownParts(r, r1, GivenUp(sc, ty, rout.RNormal?, freshFns), freshFns);
    FunctionAccounts(sc, ty, r, vis, o, freshFns, fuel);
    EvenIff(r, r1, rout.RNormal? && ResultPolicy(sc, ty, freshFns).FreeAllBut?, v);
  }

  lemma EndsAlike(c: (CState, Out), r: (RState, ROut, Val))
    requires SameEnd(c, r) && (c.1.Returned? || c.1.Exited?)
    ensures c.0.h == r.0.c.h && (c.1.Returned? <==> r.1.RNormal?) && (r.1.RNormal? ==> c.1.v == r.2) && !r.1.ROutOfFuel?
  {
  }

  lemma ShownParts(r: RState, r1: RState, givenUp: bool, freshFns: FreshFns)
    requires CallShows(r, r1, givenUp, freshFns)
    ensures |r.leaked| <= |r1.leaked| && (|r.leaked| < |r1.leaked| <==> LosesIn(r1.trace, freshFns) || givenUp)
    ensures r1.astray <==> StraysIn(r1.trace, freshFns)
  {
    hide LosesIn, StraysIn;
  }

  /** The accounts come out even exactly when nothing was given up. */
  lemma EvenIff(r: RState, r1: RState, byName: bool, v: Val)
    requires Accounts(r, r1, byName, v) && NewLeaks(r, r1) && |r.leaked| <= |r1.leaked|
    ensures (forall a :: r.c.h.next <= a ==>
        Count(r1.bound, a) == Count(r1.c.h.freed, a) + if byName && v == Ptr(a) then 1 else 0)
      <==> |r.leaked| == |r1.leaked|
  {
    hide Count, Sound;
  }

  /** Accounting for a function body, however it ends. Every string it bound has been
      freed exactly once, except the one it returns by name, if and only if none of its
      statements lost a string, the result included, and it has not returned with owners
      its result might alias. */
  lemma FunctionFreesIff(sc: Scope, ty: ResultType, r: RState, vis: Visible, o: Choices, freshFns: FreshFns, fuel: nat)
    requires CallStart(r) && FunctionStart(sc, r, vis, freshFns)
    requires var out := RunAll(EmitFunction(sc, ty, freshFns), r.c, o, freshFns, fuel).1; out.Returned? || out.Exited?
    requires !StraysIn(RefFunction(sc, ty, r, o, freshFns, fuel).0.trace, freshFns)
    ensures var (c, out) := RunAll(EmitFunction(sc, ty, freshFns), r.c, o, freshFns, fuel);
      var r1 := RefFunction(sc, ty, r, o, freshFns, fuel).0;
      var byName := out.Returned? && GivesOwner(sc, ty, freshFns);
      var aliased := out.Returned? && MayAlias(sc, ty, freshFns) &&
        exists i :: 0 <= i < |sc.stmts| && OwnAt(sc, i, freshFns) != NotOwner;
      (forall a :: r.c.h.next <= a ==>
        Count(r1.bound, a) == Count(c.h.freed, a) + if byName && out.v == Ptr(a) then 1 else 0)
      <==> !LosesIn(r1.trace, freshFns) && !aliased
  {
    hide *;
    CallAccounts(sc, ty, r, vis, o, freshFns, fuel);
    PolicyByText(sc, ty, RunAll(EmitFunction(sc, ty, freshFns), r.c, o, freshFns, fuel).1.Returned?, freshFns);
  }

  /** A function with a scalar result: whenever it returns and no statement lost a string,
      each string it bound has been freed exactly once. */
  lemma ScalarFunctionFrees(sc: Scope, r: RState, vis: Visible, o: Choices, freshFns: FreshFns, fuel: nat)
    requires CallStart(r) && FunctionStart(sc, r, vis, freshFns)
    requires RunAll(EmitFunction(sc, ScalarResult, freshFns), r.c, o, freshFns, fuel).1.Returned?
    requires var r1 := RefFunction(sc, ScalarResult, r, o, freshFns, fuel).0;
      !StraysIn(r1.trace, freshFns) && !LosesIn(r1.trace, freshFns)
    ensures var c := RunAll(EmitFunction(sc, ScalarResult, freshFns), r.c, o, freshFns, fuel).0;
      var r1 := RefFunction(sc, ScalarResult, r, o, freshFns, fuel).0;
      forall a :: r.c.h.next <= a ==> Count(r1.bound, a) == Count(c.h.freed, a)
  {
    FunctionFreesIff(sc, ScalarResult, r, vis, o, freshFns, fuel);
    assert !MayAlias(sc, ScalarResult, freshFns) && !GivesOwner(sc, ScalarResult, freshFns);
    hide RefFunction, EmitFunction, RunAll, FunctionStart, CallStart, LosesIn, StraysIn, Count, MayAlias, GivesOwner;
  }

  /** A body that ends in `proc_exit` frees nothing when it gets there: it ends the process,
      and when nothing was lost before, it loses strings exactly if its text declares an
      owner. */
  lemma ExitingFunction(sc: Scope, ty: ResultType, r: RState, vis: Visible, o: Choices, freshFns: FreshFns, fuel: nat)
    requires CallStart(r) && FunctionStart(sc, r, vis, freshFns) && sc.fin.Final? && sc.fin.s.ProcExit?
    requires var (r2, out) := RefStart(sc, r, o, freshFns, fuel); out.RNormal? && !LosesIn(r2.trace, freshFns)
    ensures RunAll(EmitFunction(sc, ty, freshFns), r.c, o, freshFns, fuel).1 == Exited
    ensures var (r2, _) := RefStart(sc, r, o, freshFns, fuel);
      RunAll(EmitFunction(sc, ty, freshFns), r.c, o, freshFns, fuel).0.h.freed == r2.c.h.freed
    ensures LosesIn(RefFunction(sc, ty, r, o, freshFns, fuel).0.trace, freshFns) <==> HasOwner(sc, freshFns)
  {
    EmittedFunctionRefines(sc, ty, r, vis, o, freshFns, fuel);
    ExitingRef(sc, ty, r, vis, o, freshFns, fuel);
    hide RefStart, RefFunction, EmitFunction, RunAll, FunctionStart, CallStart, LosesIn, HasOwner;
  }

  lemma ExitingRef(sc: Scope, ty: ResultType, r: RState, vis: Visible, o: Choices, freshFns: FreshFns, fuel: nat)
    requires CallStart(r) && FunctionStart(sc, r, vis, freshFns) && sc.fin.Final? && sc.fin.s.ProcExit?
    requires var (r2, out) := RefStart(sc, r, o, freshFns, fuel); out.RNormal? && !LosesIn(r2.trace, freshFns)
    ensures var (r2, _) := RefStart(sc, r, o, freshFns, fuel);
      var (r1, out, _) := RefFunction(sc, ty, r, o, freshFns, fuel);
      out == RExited(false) && r1.c.h.freed == r2.c.h.freed && (LosesIn(r1.trace, freshFns) <==> HasOwner(sc, freshFns))
  {
    hide RefStart, FunctionStart, CallStart, LosesIn, AtDeferred, AtEnd, EvalExpr, Shows, HasOwner, LeaveScope,
      OwnsFrom, HidesFrom, Matches, EmitFrom, InOrder, Grows, VisOk, ReadyBack, Inv;
    FunctionPrefix(sc, r, vis, o, freshFns, fuel);
    StartParts(sc, r, vis, freshFns);
    StartInv(sc, r, vis, o, freshFns, fuel);
    var r2 := RefStart(sc, r, o, freshFns, fuel).0;
    DeferredAlive(sc, |r.own|, r2, vis, freshFns);
    DeferredEnd(sc, |r.own|, r2, vis, freshFns);
    ParamsOwnNothing(sc, r, r2);
    OwnsIff(sc, |r.own|, r2, freshFns);
    ResultShows(sc.fin, r2, o, freshFns);
    var r3 := RefEval(ResultExpr(sc.fin), r2, o, freshFns).1;
    EvalInv(ResultExpr(sc.fin), r2, o, freshFns);
    ExitLost(NoteResult(r3, sc.fin), |r.own|, RExited(false));
    LastEntry(r2, NoteResult(r3, sc.fin), |r.own|, freshFns);
  }

  /** The last statement executed decides. */
  lemma LastEntry(r: RState, r1: RState, base: nat, freshFns: FreshFns)
    requires Shows(r, r1, RExited(false), freshFns) && !LosesIn(r.trace, freshFns) && r1.leaked == r.leaked
    requires base <= |r1.own| && forall i :: 0 <= i < base ==> r1.own[i] == NotOwner
    ensures LosesIn(LeaveScope(r1, base, RExited(false)).trace, freshFns) <==> OwnsFrom(r1.own, base)
  {
    LeaveGivesUp(r1, base, RExited(false));
    hide LosesIn, LeaveScope;
    assert r1.trace == r.trace + r1.trace[|r.trace|..];
    LosesAppend(r.trace, r1.trace[|r.trace|..], freshFns);
    if OwnsFrom(r1.own, 0) {
      var p :| 0 <= p < |r1.own| && Owns(r1.own[p]);
      assert base <= p;
    }
  }

  // ---------- what a function returns ----------

  /** An address a function body bound to an owner is new. */
  lemma BoundIsNew(r: RState, r2: RState, p: nat)
    requires CallStart(r) && Inv(r2) && !r2.astray && r.leaked <= r2.leaked && p < |r2.own| && Owns(r2.own[p])
    ensures r.c.h.next <= Addr(r2.c.env[p].val)
  {
    var a := Addr(r2.c.env[p].val);
    var n := r.c.h.next;
    if a < n {
      ForgetCount(r2.c.env, r2.own, 0, p, a);
      assert OwnedCount(r2.c.env, r2.own, 0, a) >= 1;
      assert r2.leaked[a] == r.leaked[a] == a;
      assert Count(r2.leaked, a) >= 1;
      assert Excess(r2, a) == 0;
      CountAtMostOnce(r2.bound, a);
    }
  }

  lemma NextGrows(r: RState, r2: RState)
    requires CallStart(r) && Inv(r2) && !r2.astray && r.leaked <= r2.leaked
    ensures r.c.h.next <= r2.c.h.next
  {
    var n := r.c.h.next;
    if n > 0 {
      assert r2.leaked[n - 1] == r.leaked[n - 1] == n - 1;
      assert Count(r2.leaked, n - 1) >= 1;
      assert Excess(r2, n - 1) == 0;
      assert Count(r2.bound, n - 1) >= 1;
    }
  }

  predicate RestAllows(sc: Scope, j: nat, x: string) {
    (forall i :: j < i < |sc.stmts| ==> MutStmtOk(sc.stmts[i], x)) && DeferredOk(sc.deferred, x)
  }

  /** A fresh-result function's text shows that nobody else can hold its result:
      it returns an owned builtin's result at once, or an owner that passes the
      escape test over the rest of the body. */
  predicate ResultUnkept(sc: Scope) {
    sc.fin.Final? && sc.fin.s.Eval? &&
    var e := sc.fin.s.e;
    IsOwnedBuiltinCall(e) ||
    (e.Ident? &&
     var j := OwnerIndex(sc, e.name, 0, map[]);
     j >= 0 && RestAllows(sc, j, e.name))
  }

  /** What reaching the result of a body gives. */
  ghost predicate AtResult(sc: Scope, r: RState, r2: RState, freshFns: FreshFns) {
    CallStart(r) && Inv(r2) && !r2.astray && r.leaked <= r2.leaked && |r.own| <= |r2.own| && !r2.c.h.halted &&
    AtEnd(sc, |r.own|, r2, freshFns) && HiddenOwnNothing(r2.own, |r.own|)
  }

  lemma ReachResult(sc: Scope, r: RState, vis: Visible, o: Choices, freshFns: FreshFns, fuel: nat)
    requires CallStart(r) && FunctionStart(sc, r, vis, freshFns)
    requires var (r2, out) := RefStart(sc, r, o, freshFns, fuel); out.RNormal? && !r2.astray
    ensures AtResult(sc, r, RefStart(sc, r, o, freshFns, fuel).0, freshFns)
  {
    hide RefStart, FunctionStart, CallStart, AtDeferred, AtEnd, Matches, EmitFrom, InOrder, Grows, VisOk, ReadyBack,
      Inv, HiddenOwnNothing;
    FunctionPrefix(sc, r, vis, o, freshFns, fuel);
    StartInv(sc, r, vis, o, freshFns, fuel);
    StartHides(sc, r, o, freshFns, fuel);
    var r2 := RefStart(sc, r, o, freshFns, fuel).0;
    DeferredAlive(sc, |r.own|, r2, vis, freshFns);
    DeferredEnd(sc, |r.own|, r2, vis, freshFns);
    GrowsLeaks(Inside(r, sc), r2);
  }

  /** Nothing goes astray after the start of a body whose result is a value. */
  lemma StraysEarly(sc: Scope, ty: ResultType, r: RState, o: Choices, freshFns: FreshFns, fuel: nat)
    requires GivesResult(sc.fin) && !RefFunction(sc, ty, r, o, freshFns, fuel).0.astray
    ensures !RefStart(sc, r, o, freshFns, fuel).0.astray
  {
    hide RefStart, EvalExpr, Destroy, DestroyBut, ResultPolicy, OwnedAddrs;
  }

  /** Calls to fresh-result functions: the emitted body of a function classified
      fresh-result returns a string that is live and was not allocated before the
      call, and one that nobody keeps if its text says so. This is all that
      expression evaluation takes for granted of such calls. */
  lemma FreshResultIsFresh(sc: Scope, ty: ResultType, r: RState, vis: Visible, o: Choices, freshFns: FreshFns,
      fuel: nat)
    requires IsFreshResult(sc, ty) && CallStart(r) && FunctionStart(sc, r, vis, freshFns)
    requires !StraysIn(RefFunction(sc, ty, r, o, freshFns, fuel).0.trace, freshFns)
    ensures var (c, out) := RunAll(EmitFunction(sc, ty, freshFns), r.c, o, freshFns, fuel);
      out.Returned? ==>
        out.v.Ptr? && r.c.h.next <= out.v.addr && out.v.addr in c.h.live && !c.h.bad &&
        (ResultUnkept(sc) ==> out.v.addr !in c.h.kept)
  {
    EmittedFunctionRefines(sc, ty, r, vis, o, freshFns, fuel);
    FunctionShows(sc, ty, r, vis, o, freshFns, fuel);
    hide RefStart, EmitFunction, RunAll, FunctionStart, CallStart, RestAllows, AtEnd, Inv, StraysIn, LosesIn,
      LeaveFunction, OwnerIndex, GivenUp, HiddenOwnNothing;
    if RefFunction(sc, ty, r, o, freshFns, fuel).1.RNormal? && RefStart(sc, r, o, freshFns, fuel).1.RNormal? {
      var r2 := RefStart(sc, r, o, freshFns, fuel).0;
      StraysEarly(sc, ty, r, o, freshFns, fuel);
      ReachResult(sc, r, vis, o, freshFns, fuel);
      StartParts(sc, r, vis, freshFns);
      NextGrows(r, r2);
      if IsOwnedBuiltinCall(sc.fin.s.e) {
        DirectResult(sc, ty, r, r2, o, freshFns);
      } else {
        TransferredResult(sc, ty, r, r2, o, freshFns);
        if ResultUnkept(sc) { TransferredUnkept(sc, ty, r, r2, vis, o, freshFns, fuel); }
      }
    }
  }

  lemma DirectResult(sc: Scope, ty: ResultType, r: RState, r2: RState, o: Choices, freshFns: FreshFns)
    requires AtResult(sc, r, r2, freshFns) && freshFns.Keys !! SAFE_BUILTINS && r.c.h.next <= r2.c.h.next
    requires ty.StrResult? && sc.fin.Final? && sc.fin.s.Eval? && IsOwnedBuiltinCall(sc.fin.s.e)
    requires !RefEval(sc.fin.s.e, r2, o, freshFns).1.c.h.halted
    ensures var (v, r3) := RefEval(sc.fin.s.e, r2, o, freshFns);
      var h := LeaveFunction(NoteResult(r3, sc.fin), |r.own|, ResultPolicy(sc, ty, freshFns)).c.h;
      v.Ptr? && r.c.h.next <= v.addr && v.addr in h.live && !h.bad && v.addr !in h.kept
  {
    var e, base := sc.fin.s.e, |r.own|;
    EvalInv(e, r2, o, freshFns);
    BelowNext(r2);
    OwningInitIsFresh(e, r2.c.env, r2.c.h, o, freshFns);
    CleanInitIsUnkept(e, r2.c.env, r2.c.h, o, freshFns);
    hide EvalExpr, AtEnd, HiddenOwnNothing, OwnedCount, Count;
    var (v, r3) := RefEval(e, r2, o, freshFns);
    var r4 := NoteResult(r3, sc.fin);
    MarksInv(r3, r4);
    forall i | 0 <= i < |r3.c.env| ensures r3.c.env[i].val != v {
      assert Below(r2.c.env[i].val, r2.c.h.next);
    }
    DestroyKeeps(r3.c.env, Show(r3.own, base), r3.c.h, base, v.addr);
    DestroyKills(r3.c.env, Show(r3.own, base), r3.c.h, base);
    LeaveScopeInv(r4, base, RNormal);
  }

  lemma TransferredResult(sc: Scope, ty: ResultType, r: RState, r2: RState, o: Choices, freshFns: FreshFns)
    requires AtResult(sc, r, r2, freshFns)
    requires ty.StrResult? && sc.fin.Final? && sc.fin.s.Eval? && sc.fin.s.e.Ident?
    requires OwnerIndex(sc, sc.fin.s.e.name, 0, map[]) >= 0
    ensures var (v, r3) := RefEval(sc.fin.s.e, r2, o, freshFns);
      var h := LeaveFunction(NoteResult(r3, sc.fin), |r.own|, ResultPolicy(sc, ty, freshFns)).c.h;
      v.Ptr? && r.c.h.next <= v.addr && v.addr in h.live && !h.bad
  {
    hide OwnAt, SlotsMatch, OwnedCount, Count, DestroyBut;
    var n, base, k := sc.fin.s.e.name, |r.own|, |sc.stmts|;
    var j := OwnerIndex(sc, n, 0, map[]);
    OwnerIndexGrows(sc, n, 0, j, freshFns);
    var j2 := OwnerIndex(sc, n, 0, freshFns);
    OwnAtInit(sc, j2, freshFns);
    var p := BindingSlot(sc, k, j2, r2.c.env, Show(r2.own, base), base + BindCount(sc, k), freshFns);
    assert Owns(Show(r2.own, base)[p]) && Owns(r2.own[p]);
    FindUnique(r2.c.env, p);
    TransferInv(r2, base, p);
    BoundIsNew(r, r2, p);
  }

  // ---------- mutable owners of a function ----------

  lemma {:induction false} InOrderHeld(g: Guard, ss: seq<Stmt>, i: nat, r: RState, vis: Visible, o: Choices,
      freshFns: FreshFns, fuel: nat)
    requires i <= |ss| && Inv(r) && Held(g, r) && VisOk(vis, r) && ReadyBack(ss, r) && SlotBack(g, ss, r)
    requires WellFormedFrom(ss, i, vis, false) && freshFns.Keys !! SAFE_BUILTINS
    requires g.muts ==> forall j :: 0 <= j < |ss| ==> ss[j].Bind? || MutClean(ss[j], freshFns)
    ensures var r1 := RefInOrder(ss, i, r, o, freshFns, fuel).0;
      Held(g, r1) && (RefInOrder(ss, i, r, o, freshFns, fuel).1.RNormal? && g.slot >= 0 ==>
        g.slot < |r.own| && r1.c.env[g.slot].name == r.c.env[g.slot].name)
    decreases |ss| - i
  {
    hide Inv, Held, WellFormed, VisOk, Ready, ReadyBack, RefTrailing, AfterStmt, StmtShape, MutClean, MutStmtOk;
    SlotRange(g, r);
    if i < |ss| {
      var s := ss[i];
      BackNext(ss, i, r);
      TrailingInv(s, r, 1, vis, false, o, freshFns, fuel);
      TrailingHeld(g, s, r, 1, vis, false, o, freshFns, fuel);
      RefTrailingFrame(s, r, 1, o, freshFns, fuel);
      var (r1, out) := RefTrailing(s, r, 1, o, freshFns, fuel);
      if out.RNormal? {
        var r2, vis1 := HideFrom(r1, |r.own|), AfterStmt(vis, s);
        BackStays(ss, s, r, r1);
        HiddenOk(r1, |r.own|, vis1, ss);
        HiddenHeld(g, r1, |r.own|);
        ShapeGrow(s, NotOwner, r, r1);
        SlotStays(g, r, r1);
        InOrderHeld(g, ss, i + 1, r2, vis1, o, freshFns, fuel);
      }
    }
  }

  lemma StartHeld(sc: Scope, r: RState, vis: Visible, o: Choices, freshFns: FreshFns, fuel: nat)
    requires CallStart(r) && FunctionStart(sc, r, vis, freshFns) && MutCleanScope(sc, freshFns)
    ensures Held(MUTS, RefStart(sc, r, o, freshFns, fuel).0)
  {
    hide Inv, FunctionStart, VisOk, ReadyFrom, ReadyBack, RefFrom, RefInOrder, WellFormedFrom, AfterFrom, MutClean;
    StartParts(sc, r, vis, freshFns);
    CallStartInv(sc, r);
    var ri := Inside(r, sc);
    assert Held(MUTS, ri) && SlotFrom(MUTS, sc, 0, ri);
    hide Held, CallStart;
    FromInv(sc, 0, ri, 1, vis, false, o, freshFns, fuel);
    FromHeld(MUTS, sc, 0, ri, 1, vis, false, o, freshFns, fuel);
    var (r1, out) := RefFrom(sc, 0, ri, 1, o, freshFns, fuel);
    if out.RNormal? {
      FinalOf(sc, r1);
      InOrderHeld(MUTS, sc.deferred, 0, r1, AfterFrom(sc.stmts, 0, vis), o, freshFns, fuel);
    }
  }

  /** The expression that gives the result uses mutable owners as its statement may. */
  lemma ResultExprOk(fin: Final, r: RState)
    requires GivesResult(fin) && ReadyBack(FinalList(fin), r)
    ensures ExprOk(MUTS, ResultExpr(fin), r)
  {
    BackNext(FinalList(fin), 0, r);
    forall p | 0 <= p < |r.own| && Guarded(MUTS, r.own, p) ensures MutExprOk(ResultExpr(fin), r.c.env[p].name) {
      assert MutStmtOk(fin.s, r.c.env[p].name);
    }
  }

  /** Leaving a body records nothing. */
  lemma LeaveFunctionTrace(r: RState, base: nat, policy: Policy)
    ensures LeaveFunction(r, base, policy).trace == r.trace && LeaveFunction(r, base, policy).astray == r.astray
  {
    hide Destroy, DestroyBut, OwnedAddrs;
  }

  lemma LeaveTrace(r: RState, base: nat, out: ROut)
    ensures LeaveScope(r, base, out).trace == r.trace && LeaveScope(r, base, out).astray == r.astray
  {
    hide Destroy, OwnedAddrs;
  }

  /** In a function body too, after every statement a call executes, deferred ones and the
      result included, mutable owners hold their strings alone and what was destroyed for
      them is held by nobody. */
  lemma FunctionOwnersHeldOnce(sc: Scope, ty: ResultType, r: RState, vis: Visible, o: Choices, freshFns: FreshFns,
      fuel: nat, i: nat)
    requires CallStart(r) && FunctionStart(sc, r, vis, freshFns) && MutCleanScope(sc, freshFns)
    requires var r1 := RefFunction(sc, ty, r, o, freshFns, fuel).0;
      !StraysIn(r1.trace, freshFns) && i < |r1.trace|
    ensures HeldAt(RefFunction(sc, ty, r, o, freshFns, fuel).0.trace[i])
  {
    hide RefStart, RefFinal, CallStart, FunctionStart, LeaveScope, LeaveFunction, EvalExpr, ResultExpr, Inv, VisOk,
      ReadyBack, Held, HeldAt, MutClean, WellFormed, ExprOk, AfterFrom, GivenUp, StraysIn, LosesIn;
    FunctionShows(sc, ty, r, vis, o, freshFns, fuel);
    StartParts(sc, r, vis, freshFns);
    StartInv(sc, r, vis, o, freshFns, fuel);
    StartHeld(sc, r, vis, o, freshFns, fuel);
    var (r2, out) := RefStart(sc, r, o, freshFns, fuel);
    if !out.RNormal? {
      LeaveTrace(r2, |r.own|, out);
      HeldEntry(r2, i);
    } else if GivesResult(sc.fin) {
      ResultExprOk(sc.fin, r2);
      EvalInv(ResultExpr(sc.fin), r2, o, freshFns);
      EvalHeld(MUTS, ResultExpr(sc.fin), r2, o, freshFns);
      var r3 := RefEval(ResultExpr(sc.fin), r2, o, freshFns).1;
      var r3' := r3.(temps := 0);
      MarksInv(r3, r3');
      MarksHeld(MUTS, r3, r3');
      NoteHeld(MUTS, r3', sc.fin.s, true, 1, AfterEval(r3));
      LeaveTrace(NoteResult(r3, sc.fin), |r.own|, RExited(false));
      LeaveFunctionTrace(NoteResult(r3, sc.fin), |r.own|, ResultPolicy(sc, ty, freshFns));
      HeldEntry(NoteResult(r3, sc.fin), i);
    } else {
      var vis2 := AfterFrom(sc.deferred, 0, AfterFrom(sc.stmts, 0, vis));
      FinalStart(sc, r, vis, r2, freshFns);
      FinalHeld(sc, r2, vis2, o, freshFns, fuel);
      var (r3, out3) := RefFinal(sc.fin, r2, 1, o, freshFns, fuel);
      LeaveTrace(r3, |r.own|, out3);
      HeldEntry(r3, i);
    }
  }

  lemma FinalHeld(sc: Scope, r: RState, vis: Visible, o: Choices, freshFns: FreshFns, fuel: nat)
    requires Inv(r) && Held(MUTS, r) && VisOk(vis, r) && freshFns.Keys !! SAFE_BUILTINS && MutCleanScope(sc, freshFns)
    requires sc.fin.Final? ==> Ready(sc.fin.s, r) && WellFormed(sc.fin.s, vis, false)
    ensures Held(MUTS, RefFinal(sc.fin, r, 1, o, freshFns, fuel).0)
  {
    hide Inv, Held, VisOk, Ready, WellFormed, RefTrailing;
    if sc.fin.Final? { TrailingHeld(MUTS, sc.fin.s, r, 1, vis, false, o, freshFns, fuel); }
  }

  // ---------- who keeps the result ----------

  /** A string bound by a clean initialiser is held by its variable alone. */
  lemma DeclaredAlone(s: Stmt, k: Own, r: RState, o: Choices, freshFns: FreshFns, fuel: nat)
    requires s.Bind? && CleanInit(s.init, freshFns) && freshFns.Keys !! SAFE_BUILTINS && Inv(r)
    requires k != NotOwner && !k.Hidden?
    requires RefStmt(s, k, r, 1, o, freshFns, fuel).1.RNormal?
    ensures Held(Guard(false, |r.own|), Note(RefStmt(s, k, r, 1, o, freshFns, fuel).0, s, false, 1, RNormal))
  {
    BelowNext(r);
    ComputeClean(s.init, r, o, freshFns);
    ComputeFrame(s.init, true, r, o, freshFns);
    hide RefCompute, CleanInit, Inv;
    var (v, r0, tv) := RefCompute(s.init, true, r, o, freshFns);
    ReleaseTempsShrinks(tv, r0.c.h);
    forall j | 0 <= j < |r.c.env| ensures r.c.env[j].val != v { assert Below(r.c.env[j].val, r.c.h.next); }
    assert Alone(r0.c.env + [Var(s.name, v)], ReleaseTemps(tv, r0.c.h), |r.own|);
  }

  /** From the declaration at `j` to the end of the statements. */
  lemma {:induction false} OwnerAlone(sc: Scope, i: nat, j: nat, r: RState, vis: Visible, o: Choices,
      freshFns: FreshFns, fuel: nat)
    returns (p: nat)
    requires i <= j < |sc.stmts| && OwnAt(sc, j, freshFns) != NotOwner && CleanInit(sc.stmts[j].init, freshFns)
    requires RestAllows(sc, j, sc.stmts[j].name) && freshFns.Keys !! SAFE_BUILTINS
    requires Inv(r) && VisOk(vis, r) && ReadyFrom(sc, i, r) && WellFormedFrom(sc.stmts, i, vis, false)
    requires RefFrom(sc, i, r, 1, o, freshFns, fuel).1.RNormal?
    ensures var r1 := RefFrom(sc, i, r, 1, o, freshFns, fuel).0;
      p < |r1.own| && r1.c.env[p].name == sc.stmts[j].name && Held(Guard(false, p), r1)
    decreases j - i
  {
    hide Inv, Held, EvalExpr, RefStmt, WellFormed, VisOk, StmtShape, ReadyFrom, OwnAt, CleanInit, IsOwningInit,
      RestAllows;
    var s := sc.stmts[i];
    var k := OwnAt(sc, i, freshFns);
    ReadyNext(sc, i, r);
    OwnAtInit(sc, i, freshFns);
    StmtInv(s, k, r, 1, vis, false, o, freshFns, fuel);
    RefStmtFrame(s, k, r, 1, o, freshFns, fuel);
    var (r1, out) := RefStmt(s, k, r, 1, o, freshFns, fuel);
    var r2 := Note(r1, s, false, 1, out);
    MarksInv(r1, r2);
    NotedShape(s, k, r, r1, r2);
    StepVis(r, r2, s, k, vis, false);
    NextReady(sc, i, r, r2, freshFns);
    if i < j {
      p := OwnerAlone(sc, i + 1, j, r2, AfterStmt(vis, s), o, freshFns, fuel);
    } else {
      p := |r.own|;
      var g := Guard(false, p);
      DeclaredAlone(s, k, r, o, freshFns, fuel);
      DeclaredName(s, k, r, r2);
      DeclaredRest(g, sc, j, r2);
      FromHeld(g, sc, i + 1, r2, 1, AfterStmt(vis, s), false, o, freshFns, fuel);
      RefFromFrame(sc, i + 1, r2, 1, o, freshFns, fuel);
      SlotStays(g, r2, RefFrom(sc, i + 1, r2, 1, o, freshFns, fuel).0);
    }
  }

  lemma DeclaredName(s: Stmt, k: Own, r: RState, r1: RState)
    requires s.Bind? && StmtShape(s, k, r, r1, RNormal)
    ensures |r1.own| == |r.own| + 1 && r1.c.env[|r.own|].name == s.name
  {
  }

  lemma DeclaredRest(g: Guard, sc: Scope, j: nat, r: RState)
    requires j < |sc.stmts| && sc.stmts[j].Bind? && RestAllows(sc, j, sc.stmts[j].name)
    requires 0 <= g.slot < |r.own| && r.c.env[g.slot].name == sc.stmts[j].name
    ensures SlotFrom(g, sc, j + 1, r) && SlotBack(g, sc.deferred, r)
  {
  }

  /** The returned owner's string is kept by nobody. */
  lemma TransferredUnkept(sc: Scope, ty: ResultType, r: RState, r2: RState, vis: Visible, o: Choices,
      freshFns: FreshFns, fuel: nat)
    requires CallStart(r) && FunctionStart(sc, r, vis, freshFns) && RefStart(sc, r, o, freshFns, fuel) == (r2, RNormal)
    requires ty.StrResult? && ResultUnkept(sc) && sc.fin.s.e.Ident? && NoDup(r2.c.env) && !r2.c.h.halted
    ensures var (v, r3) := RefEval(sc.fin.s.e, r2, o, freshFns);
      var h := LeaveFunction(NoteResult(r3, sc.fin), |r.own|, ResultPolicy(sc, ty, freshFns)).c.h;
      v.Ptr? ==> v.addr !in h.kept
  {
    hide RefFrom, RefInOrder, FunctionStart, RestAllows, Inv, Held, OwnAt, IsOwningInit, CleanInit, CallStart,
      WellFormedFrom, VisOk, ReadyFrom, ReadyBack, OwnerIndex, NoDup, AfterFrom, LeaveFunction;
    var n := sc.fin.s.e.name;
    var j := OwnerIndex(sc, n, 0, map[]);
    var ri := Inside(r, sc);
    StartParts(sc, r, vis, freshFns);
    CallStartInv(sc, r);
    OwnerIsClean(sc, j, freshFns);
    var p := OwnerAlone(sc, 0, j, ri, vis, o, freshFns, fuel);
    var r1 := RefFrom(sc, 0, ri, 1, o, freshFns, fuel).0;
    FromInv(sc, 0, ri, 1, vis, false, o, freshFns, fuel);
    FinalOf(sc, r1);
    var g := Guard(false, p);
    DeclaredRest(g, sc, j, r1);
    InOrderHeld(g, sc.deferred, 0, r1, AfterFrom(sc.stmts, 0, vis), o, freshFns, fuel);
    HeldAlone(g, r2);
    FindUnique(r2.c.env, p);
    LeaveFunctionKept(NoteResult(r2, sc.fin), |r.own|, ResultPolicy(sc, ty, freshFns));
  }

  lemma HeldAlone(g: Guard, r: RState)
    requires Held(g, r) && g.slot >= 0
    ensures g.slot < |r.own| && r.c.env[g.slot].val.Ptr? && r.c.env[g.slot].val.addr !in r.c.h.kept
  {
    assert Guarded(g, r.own, g.slot);
    assert Alone(r.c.env, r.c.h, g.slot);
  }

  /** Owners found before any function is classified are bound to builtin results. */
  lemma OwnerIsClean(sc: Scope, j: nat, freshFns: FreshFns)
    requires j < |sc.stmts| && OwnAt(sc, j, map[]) != NotOwner
    ensures sc.stmts[j].Bind? && OwnAt(sc, j, freshFns) != NotOwner && CleanInit(sc.stmts[j].init, freshFns)
  {
    BuiltinOnly(sc.stmts[j].init, freshFns);
  }

  lemma BuiltinOnly(e: Expr, freshFns: FreshFns)
    requires IsOwningInit(e, map[])
    ensures CleanInit(e, freshFns) && IsOwningInit(e, freshFns)
  {
  }

  lemma LeaveFunctionKept(r: RState, base: nat, policy: Policy)
    ensures LeaveFunction(r, base, policy).c.h.kept == r.c.h.kept
  {
    DestroyKills(r.c.env, Show(r.own, base), r.c.h, base);
    if policy.FreeAllBut? { DestroyButFrame(r.c.env, r.own, r.c.h, base, policy.n); }
  }

  lemma OwningInitGrows(e: Expr, freshFns: FreshFns)
    requires IsOwningInit(e, map[])
    ensures IsOwningInit(e, freshFns)
  {
  }

  lemma {:induction false} OwnerIndexGrows(sc: Scope, n: string, i: nat, j: nat, freshFns: FreshFns)
    requires i <= j < |sc.stmts| && OwnAt(sc, j, map[]) != NotOwner && sc.stmts[j].name == n
    ensures OwnerIndex(sc, n, i, freshFns) >= 0
    decreases j - i
  {
    OwningInitGrows(sc.stmts[j].init, freshFns);
    if i < j { OwnerIndexGrows(sc, n, i + 1, j, freshFns); }
  }
}
