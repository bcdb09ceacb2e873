/** The escape test is sound: at every point of every run a mutable owner's string
    is held by no other variable and by nothing it was passed to, and once
    destroyed it is held by nobody. */
module OwnershipHeld {
  import opened OwnershipSyntax
  import opened OwnershipTemps
  import opened OwnershipRun
  import opened OwnershipRef
  import opened OwnershipCorrect
  import opened OwnershipSim
  import opened OwnershipSafety

  // ---------- initialisers whose string nobody else keeps ----------

  /** Every owning call the initialiser may end in is a builtin, or a fresh-result
      function that lets nobody keep its result. */
  predicate CleanInit(e: Expr, freshFns: FreshFns) {
    IsOwnedBuiltinCall(e) || (e.Call? && e.callee in freshFns && freshFns[e.callee]) ||
    (e.Cond? && CleanInit(e.t, freshFns) && CleanInit(e.e, freshFns))
  }

  /** Mutable owners are declared with such initialisers only. */
  predicate MutClean(s: Stmt, freshFns: FreshFns)
    decreases s
  {
    match s
    case Bind(_, m, e) => m && IsOwningInit(e, freshFns) ==> CleanInit(e, freshFns)
    case Block(sc) => MutCleanScope(sc, freshFns)
    case If(_, sc) => MutCleanScope(sc, freshFns)
    case Loop(_, body) => forall i :: 0 <= i < |body| ==> MutClean(body[i], freshFns)
    case _ => true
  }

  predicate MutCleanScope(sc: Scope, freshFns: FreshFns)
    decreases sc
  {
    (forall i :: 0 <= i < |sc.stmts| ==> MutClean(sc.stmts[i], freshFns)) &&
    (sc.fin.Final? ==> sc.fin.s.Bind? || MutClean(sc.fin.s, freshFns)) &&
    forall i :: 0 <= i < |sc.deferred| ==> sc.deferred[i].Bind? || MutClean(sc.deferred[i], freshFns)
  }

  lemma {:induction false} CleanInitIsUnkept(e: Expr, env: Env, h: Heap, o: Choices, freshFns: FreshFns)
    requires CleanInit(e, freshFns) && freshFns.Keys !! SAFE_BUILTINS
    requires AllBelow(env, h.next) && forall a :: a in h.kept ==> a < h.next
    ensures IsOwningInit(e, freshFns)
    ensures var (v, h') := EvalExpr(e, env, h, o, freshFns);
      !h'.halted ==> v.Ptr? && h.next <= v.addr < h'.next && v.addr !in h'.kept
    decreases e
  {
    match e
    case Call(f, args) => EvalAllAllocates(args, env, h, o, freshFns);
    case Cond(c, t, e2) =>
      EvalAllocates(c, env, h, o, freshFns);
      var h1 := Tick(EvalExpr(c, env, h, o, freshFns).1);
      CleanInitIsUnkept(t, env, h1, o, freshFns);
      CleanInitIsUnkept(e2, env, h1, o, freshFns);
    case _ =>
  }

  // ---------- the invariant ----------

  /** The variables watched: all mutable owners, or the one in `slot`. */
  datatype Guard = Guard(muts: bool, slot: int)

  const MUTS: Guard := Guard(true, -1)

  predicate Guarded(g: Guard, own: seq<Own>, i: nat)
    requires i < |own|
  {
    (g.muts && Kind(own[i]) == MutOwner) || i == g.slot
  }

  /** The string in variable `i` is held by no other variable and kept by nobody. */
  predicate Alone(env: Env, h: Heap, i: nat)
    requires i < |env|
  {
    env[i].val.Ptr? && env[i].val.addr < h.next && env[i].val.addr !in h.kept &&
    forall j :: 0 <= j < |env| && j != i ==> env[j].val != env[i].val
  }

  predicate HeldOnce(g: Guard, env: Env, own: seq<Own>, h: Heap)
    requires |own| == |env|
  {
    forall i :: 0 <= i < |env| && Guarded(g, own, i) ==> Alone(env, h, i)
  }

  /** A destroyed string nothing refers to. */
  predicate Nowhere(env: Env, h: Heap, a: nat) {
    a < h.next && a !in h.kept && a !in h.live && forall j :: 0 <= j < |env| ==> env[j].val != Ptr(a)
  }

  predicate GoneOk(env: Env, h: Heap, gone: set<nat>) { forall a :: a in gone ==> Nowhere(env, h, a) }

  /** A recorded state: owners hold live strings, mutable ones hold theirs alone. */
  predicate EntryHeld(en: Entry) {
    |en.own| == |en.c.env| && OwnersOk(en.c.env, en.own, en.c.h) && HeldOnce(MUTS, en.c.env, en.own, en.c.h) &&
    GoneOk(en.c.env, en.c.h, en.gone)
  }

  predicate AllHeld(trace: seq<Entry>) { forall i :: 0 <= i < |trace| ==> EntryHeld(trace[i]) }

  predicate Held(g: Guard, r: RState) {
    HeldOnce(g, r.c.env, r.own, r.c.h) &&
    (g.muts ==> g == MUTS && GoneOk(r.c.env, r.c.h, r.gone) && (!r.astray ==> AllHeld(r.trace))) &&
    -1 <= g.slot < |r.own| && (g.slot >= 0 ==> Owns(r.own[g.slot]))
  }

  /** The watched variable passes the escape test for a statement. */
  predicate SlotOk(g: Guard, s: Stmt, r: RState) {
    0 <= g.slot < |r.own| ==> MutStmtOk(s, r.c.env[g.slot].name)
  }

  predicate SlotFrom(g: Guard, sc: Scope, i: nat, r: RState) {
    0 <= g.slot < |r.own| ==> forall j :: i <= j < |sc.stmts| ==> MutStmtOk(sc.stmts[j], r.c.env[g.slot].name)
  }

  predicate SlotScope(g: Guard, sc: Scope, r: RState) {
    0 <= g.slot < |r.own| ==> MutScopeOk(sc, r.c.env[g.slot].name)
  }

  predicate SlotBack(g: Guard, ss: seq<Stmt>, r: RState) {
    0 <= g.slot < |r.own| ==> DeferredOk(ss, r.c.env[g.slot].name)
  }

  /** Every watched variable passes the escape test for an expression. */
  predicate ExprOk(g: Guard, e: Expr, r: RState) {
    forall p :: 0 <= p < |r.own| && Guarded(g, r.own, p) ==> MutExprOk(e, r.c.env[p].name)
  }

  // ---------- expressions ----------

  /** The escape test is sound: an accepted expression neither yields `x`'s
      string nor lets anyone keep it. */
  lemma {:induction false} EvalAvoids(e: Expr, x: string, a: nat, env: Env, h: Heap, o: Choices, freshFns: FreshFns)
    requires MutExprOk(e, x) && freshFns.Keys !! SAFE_BUILTINS
    requires forall j :: 0 <= j < |env| && env[j].name != x ==> env[j].val != Ptr(a)
    requires a !in h.kept && a < h.next
    ensures var (v, h') := EvalExpr(e, env, h, o, freshFns); v != Ptr(a) && a !in h'.kept && a < h'.next
    decreases e
  {
    match e
    case Lit =>
    case Ident(n) =>
    case Call(f, args) => EvalAllAvoids(args, x, a, env, h, o, freshFns);
    case Cond(c, t, e2) =>
      EvalAvoids(c, x, a, env, h, o, freshFns);
      var h1 := Tick(EvalExpr(c, env, h, o, freshFns).1);
      EvalAvoids(t, x, a, env, h1, o, freshFns);
      EvalAvoids(e2, x, a, env, h1, o, freshFns);
    case Compound(kids) => EvalAllAvoids(kids, x, a, env, h, o, freshFns);
  }

  lemma {:induction false} EvalAllAvoids(es: seq<Expr>, x: string, a: nat, env: Env, h: Heap, o: Choices,
      freshFns: FreshFns)
    requires MutArgsOk(es, x) && freshFns.Keys !! SAFE_BUILTINS
    requires forall j :: 0 <= j < |env| && env[j].name != x ==> env[j].val != Ptr(a)
    requires a !in h.kept && a < h.next
    ensures var (vs, h') := EvalAll(es, env, h, o, freshFns);
      a !in h'.kept && a < h'.next &&
      forall i :: 0 <= i < |es| && MutExprOk(es[i], x) ==> vs[i] != Ptr(a)
    decreases es
  {
    if es != [] {
      if MutExprOk(es[0], x) {
        EvalAvoids(es[0], x, a, env, h, o, freshFns);
      }
      EvalAllAvoids(es[1..], x, a, env, EvalExpr(es[0], env, h, o, freshFns).1, o, freshFns);
    }
  }

  /** A string nobody holds is not produced and not kept. */
  lemma {:induction false} EvalNever(e: Expr, a: nat, env: Env, h: Heap, o: Choices, freshFns: FreshFns)
    requires forall j :: 0 <= j < |env| ==> env[j].val != Ptr(a)
    requires a !in h.kept && a < h.next
    ensures var (v, h') := EvalExpr(e, env, h, o, freshFns); v != Ptr(a) && a !in h'.kept && a < h'.next
    decreases e
  {
    match e
    case Lit =>
    case Ident(n) =>
    case Call(f, args) => EvalAllNever(args, a, env, h, o, freshFns);
    case Cond(c, t, e2) =>
      EvalNever(c, a, env, h, o, freshFns);
      var h1 := Tick(EvalExpr(c, env, h, o, freshFns).1);
      EvalNever(t, a, env, h1, o, freshFns);
      EvalNever(e2, a, env, h1, o, freshFns);
    case Compound(kids) => EvalAllNever(kids, a, env, h, o, freshFns);
  }

  lemma {:induction false} EvalAllNever(es: seq<Expr>, a: nat, env: Env, h: Heap, o: Choices, freshFns: FreshFns)
    requires forall j :: 0 <= j < |env| ==> env[j].val != Ptr(a)
    requires a !in h.kept && a < h.next
    ensures var (vs, h') := EvalAll(es, env, h, o, freshFns);
      a !in h'.kept && a < h'.next && forall i :: 0 <= i < |es| ==> vs[i] != Ptr(a)
    decreases es
  {
    if es != [] {
      EvalNever(es[0], a, env, h, o, freshFns);
      EvalAllNever(es[1..], a, env, EvalExpr(es[0], env, h, o, freshFns).1, o, freshFns);
    }
  }

  /** The value is none of the watched strings and none of the destroyed ones. */
  predicate Clear(g: Guard, v: Val, r: RState) {
    (forall p :: 0 <= p < |r.own| && Guarded(g, r.own, p) ==> v != r.c.env[p].val) &&
    (g.muts ==> forall a :: a in r.gone ==> v != Ptr(a))
  }

  lemma EvalHeld(g: Guard, e: Expr, r: RState, o: Choices, freshFns: FreshFns)
    requires Inv(r) && Held(g, r) && ExprOk(g, e, r) && freshFns.Keys !! SAFE_BUILTINS
    ensures var (v, r1) := RefEval(e, r, o, freshFns); Held(g, r1) && Held(g, TickState(r1)) && Clear(g, v, r1)
  {
    hide EvalExpr, EntryHeld;
    var env, h := r.c.env, r.c.h;
    EvalInv(e, r, o, freshFns);
    var (v, h1) := EvalExpr(e, env, h, o, freshFns);
    forall p | 0 <= p < |r.own| && Guarded(g, r.own, p) ensures v != env[p].val && Alone(env, h1, p) {
      assert Alone(env, h, p);
      forall j | 0 <= j < |env| && env[j].name != env[p].name ensures env[j].val != Ptr(env[p].val.addr) {}
      EvalAvoids(e, env[p].name, env[p].val.addr, env, h, o, freshFns);
    }
    if g.muts {
      forall a | a in r.gone ensures v != Ptr(a) && Nowhere(env, h1, a) {
        assert Nowhere(env, h, a);
        EvalNever(e, a, env, h, o, freshFns);
      }
    }
  }

  // ---------- a statement's expression ----------

  lemma {:induction false} TempsAvoid(temps: seq<Expr>, j: nat, x: string, a: nat, env: Env, h: Heap, o: Choices,
      freshFns: FreshFns)
    requires freshFns.Keys !! SAFE_BUILTINS && forall i :: 0 <= i < |temps| ==> MutExprOk(temps[i], x)
    requires forall i :: 0 <= i < |env| && env[i].name != x ==> env[i].val != Ptr(a)
    requires a !in h.kept && a < h.next
    ensures var (env1, h1) := EvalTemps(temps, j, env, h, o, freshFns);
      a !in h1.kept && a < h1.next && forall i :: 0 <= i < |env1| && env1[i].name != x ==> env1[i].val != Ptr(a)
    decreases temps
  {
    if temps != [] {
      hide EvalExpr, MutExprOk;
      EvalAvoids(temps[0], x, a, env, h, o, freshFns);
      var (v, h1) := EvalExpr(temps[0], env, h, o, freshFns);
      if !h1.halted { TempsAvoid(temps[1..], j + 1, x, a, env + [Var(TmpName(j), v)], h1, o, freshFns); }
    }
  }

  lemma {:induction false} TempsNever(temps: seq<Expr>, j: nat, a: nat, env: Env, h: Heap, o: Choices,
      freshFns: FreshFns)
    requires forall i :: 0 <= i < |env| ==> env[i].val != Ptr(a)
    requires a !in h.kept && a < h.next
    ensures var (env1, h1) := EvalTemps(temps, j, env, h, o, freshFns);
      a !in h1.kept && a < h1.next && forall i :: 0 <= i < |env1| ==> env1[i].val != Ptr(a)
    decreases temps
  {
    if temps != [] {
      hide EvalExpr;
      EvalNever(temps[0], a, env, h, o, freshFns);
      var (v, h1) := EvalExpr(temps[0], env, h, o, freshFns);
      if !h1.halted { TempsNever(temps[1..], j + 1, a, env + [Var(TmpName(j), v)], h1, o, freshFns); }
    }
  }

  predicate PlainNames(r: RState) { forall i :: 0 <= i < |r.own| ==> Plain(r.c.env[i].name) }

  lemma VisPlain(vis: Visible, r: RState)
    requires VisOk(vis, r)
    ensures PlainNames(r)
  {
    forall i | 0 <= i < |r.own| ensures Plain(r.c.env[i].name) { assert r.c.env[i].name in Names(r.c.env); }
  }

  /** A watched string is neither the value of an accepted statement's expression nor kept by
      anything it computes, temporaries included. */
  lemma ComputeAvoids(e: Expr, bound: bool, x: string, a: nat, r: RState, o: Choices, freshFns: FreshFns)
    requires MutExprOk(e, x) && Plain(x) && freshFns.Keys !! SAFE_BUILTINS
    requires forall j :: 0 <= j < |r.c.env| && r.c.env[j].name != x ==> r.c.env[j].val != Ptr(a)
    requires a !in r.c.h.kept && a < r.c.h.next
    ensures var (v, r1, _) := RefCompute(e, bound, r, o, freshFns);
      v != Ptr(a) && a !in r1.c.h.kept && a < r1.c.h.next
  {
    hide EvalExpr, EvalTemps, MutExprOk, Hoist, Plain;
    var p := Chosen(e, bound, freshFns);
    HoistMutOk(e, bound, 0, freshFns, x);
    TempsAvoid(p.temps, 0, x, a, r.c.env, r.c.h, o, freshFns);
    var (env1, h1) := EvalTemps(p.temps, 0, r.c.env, r.c.h, o, freshFns);
    if !h1.halted { EvalAvoids(p.rest, x, a, env1, h1, o, freshFns); }
  }

  lemma ComputeNever(e: Expr, bound: bool, a: nat, r: RState, o: Choices, freshFns: FreshFns)
    requires forall j :: 0 <= j < |r.c.env| ==> r.c.env[j].val != Ptr(a)
    requires a !in r.c.h.kept && a < r.c.h.next
    ensures var (v, r1, _) := RefCompute(e, bound, r, o, freshFns);
      v != Ptr(a) && a !in r1.c.h.kept && a < r1.c.h.next
  {
    hide EvalExpr, EvalTemps, Chosen;
    var p := Chosen(e, bound, freshFns);
    TempsNever(p.temps, 0, a, r.c.env, r.c.h, o, freshFns);
    var (env1, h1) := EvalTemps(p.temps, 0, r.c.env, r.c.h, o, freshFns);
    if !h1.halted { EvalNever(p.rest, a, env1, h1, o, freshFns); }
  }

  lemma ComputeHeld(g: Guard, e: Expr, bound: bool, r: RState, o: Choices, freshFns: FreshFns)
    requires Inv(r) && Held(g, r) && ExprOk(g, e, r) && PlainNames(r) && freshFns.Keys !! SAFE_BUILTINS
    ensures var (v, r1, _) := RefCompute(e, bound, r, o, freshFns); Held(g, r1) && Clear(g, v, r1)
  {
    hide RefCompute, EntryHeld, Inv, MutExprOk;
    ComputeInv(e, bound, r, o, freshFns);
    var (v, r1, tv) := RefCompute(e, bound, r, o, freshFns);
    var env, h, h1 := r.c.env, r.c.h, r1.c.h;
    forall p | 0 <= p < |r.own| && Guarded(g, r.own, p) ensures v != env[p].val && Alone(env, h1, p) {
      assert Alone(env, h, p);
      forall j | 0 <= j < |env| && env[j].name != env[p].name ensures env[j].val != Ptr(env[p].val.addr) {}
      ComputeAvoids(e, bound, env[p].name, env[p].val.addr, r, o, freshFns);
    }
    if g.muts {
      forall a | a in r.gone ensures v != Ptr(a) && Nowhere(env, h1, a) {
        assert Nowhere(env, h, a);
        ComputeNever(e, bound, a, r, o, freshFns);
      }
    }
  }

  lemma AllocatesNext(h: Heap, h1: Heap)
    requires Allocates(h, h1)
    ensures h.next <= h1.next
  {
  }

  /** The value of a clean initialiser is new and kept by nobody. */
  lemma ComputeClean(e: Expr, r: RState, o: Choices, freshFns: FreshFns)
    requires Inv(r) && CleanInit(e, freshFns) && freshFns.Keys !! SAFE_BUILTINS
    ensures var (v, r1, _) := RefCompute(e, true, r, o, freshFns);
      !r1.c.h.halted ==> v.Ptr? && r.c.h.next <= v.addr < r1.c.h.next && v.addr !in r1.c.h.kept
  {
    BoundedNext(r);
    hide EvalExpr, EvalTemps, Inv, Chosen, Allocates;
    var p := Chosen(e, true, freshFns);
    ChosenIs(e, true, freshFns);
    TempsAllocate(p.temps, 0, r.c.env, r.c.h, o, freshFns);
    var (env1, h1) := EvalTemps(p.temps, 0, r.c.env, r.c.h, o, freshFns);
    if !h1.halted {
      assert r.c.h.next <= h1.next by { AllocatesNext(r.c.h, h1); }
      CleanInitIsUnkept(p.rest, env1, h1, o, freshFns);
    }
  }

  lemma {:induction false} ReleaseTempsShrinks(tv: Env, h: Heap)
    ensures var h1 := ReleaseTemps(tv, h); h1.live <= h.live && h1.kept == h.kept && h1.next == h.next
    decreases |tv|
  {
    if tv != [] { ReleaseTempsShrinks(tv[..|tv| - 1], Release(tv[|tv| - 1].val, h)); }
  }

  /** Freeing temporaries concerns no watched string. */
  lemma FinishHeld(g: Guard, tv: Env, r: RState)
    requires Held(g, r)
    ensures Held(g, RefFinish(tv, r)) && Held(g, RefLose(tv, r))
  {
    hide EntryHeld;
    ReleaseTempsShrinks(tv, r.c.h);
    var r1 := RefFinish(tv, r);
    forall p | 0 <= p < |r1.own| && Guarded(g, r1.own, p) ensures Alone(r1.c.env, r1.c.h, p) {
      assert Alone(r.c.env, r.c.h, p);
    }
    if g.muts {
      forall a | a in r1.gone ensures Nowhere(r1.c.env, r1.c.h, a) { assert Nowhere(r.c.env, r.c.h, a); }
    }
  }

  /** Reading one variable changes nothing. */
  lemma IdentHeld(g: Guard, e: Expr, r: RState, o: Choices, freshFns: FreshFns)
    requires Held(g, r) && e.Ident?
    ensures RefEval(e, r, o, freshFns).1 == r
  {
  }

  // ---------- statements ----------

  lemma BindHeld(g: Guard, n: string, e: Expr, k: Own, r: RState, o: Choices, freshFns: FreshFns)
    requires Inv(r) && Held(g, r) && ExprOk(g, e, r) && PlainNames(r) && freshFns.Keys !! SAFE_BUILTINS && !k.Hidden?
    requires g.muts && k == MutOwner ==> CleanInit(e, freshFns)
    requires !RefCompute(e, true, r, o, freshFns).1.c.h.halted
    ensures var (v, r0, _) := RefCompute(e, true, r, o, freshFns); Held(g, RefBind(n, v, k, r0))
  {
    hide RefCompute, EntryHeld, Inv, CleanInit;
    ComputeHeld(g, e, true, r, o, freshFns);
    ComputeInv(e, true, r, o, freshFns);
    var (v, r0, tv) := RefCompute(e, true, r, o, freshFns);
    var r1 := RefBind(n, v, k, r0);
    BelowNext(r);
    if g.muts && k == MutOwner { ComputeClean(e, r, o, freshFns); }
    forall i | 0 <= i < |r1.own| && Guarded(g, r1.own, i) ensures Alone(r1.c.env, r1.c.h, i) {
      if i < |r.own| {
        assert Guarded(g, r0.own, i);
        assert Alone(r0.c.env, r0.c.h, i);
      } else {
        forall j | 0 <= j < |r0.c.env| ensures r0.c.env[j].val != v { assert Below(r.c.env[j].val, r.c.h.next); }
      }
    }
    if g.muts {
      forall a | a in r1.gone ensures Nowhere(r1.c.env, r1.c.h, a) { assert Nowhere(r0.c.env, r0.c.h, a); }
    }
  }

  lemma BelowNext(r: RState)
    requires Inv(r)
    ensures AllBelow(r.c.env, r.c.h.next) && forall a :: a in r.c.h.kept ==> a < r.c.h.next
  {
  }

  /** Assigning a variable that is not watched, whatever is freed with it. */
  lemma PlainHeld(g: Guard, n: string, e: Expr, v: Val, r: RState, i: nat, d: nat, freshFns: FreshFns)
    requires Held(g, r) && Clear(g, v, r) && i == Find(r.c.env, n) && i < |r.own| && Kind(r.own[i]) == NotOwner
    ensures Held(g, RefAssign(n, e, v, r, d, freshFns))
  {
    hide EntryHeld, TakenForOwner, SearchOwner;
    var r1 := RefAssign(n, e, v, r, d, freshFns);
    assert r1.c.h.kept == r.c.h.kept && r1.c.h.next == r.c.h.next && r1.c.h.live <= r.c.h.live;
    forall p | 0 <= p < |r1.own| && Guarded(g, r1.own, p) ensures Alone(r1.c.env, r1.c.h, p) {
      assert Alone(r.c.env, r.c.h, p) && p != i;
    }
    if g.muts {
      forall a | a in r1.gone ensures Nowhere(r1.c.env, r1.c.h, a) { assert Nowhere(r.c.env, r.c.h, a); }
    }
  }

  /** Reassigning a mutable owner with storage nobody had: its previous string ends nowhere. */
  lemma SwapHeld(g: Guard, n: string, e: Expr, v: Val, r: RState, i: nat, d: nat, bound0: nat, freshFns: FreshFns)
    requires Held(g, r) && i == Find(r.c.env, n) && i < |r.own| && Kind(r.own[i]) == MutOwner && IsOwnedBuiltinCall(e)
    requires v.Ptr? && bound0 <= v.addr < r.c.h.next && v.addr !in r.c.h.kept && AllBelow(r.c.env, bound0)
    requires g.muts ==> forall a :: a in r.gone ==> a < bound0
    ensures Held(g, RefAssign(n, e, v, r, d, freshFns))
  {
    hide EntryHeld, TakenForOwner, SearchOwner;
    var r1 := RefAssign(n, e, v, r, d, freshFns);
    var prev := r.c.env[i].val;
    assert r1.c.env == r.c.env[i := Var(n, v)] && r1.c.h.kept == r.c.h.kept && r1.c.h.next == r.c.h.next;
    forall j | 0 <= j < |r.c.env| ensures r.c.env[j].val != v { assert Below(r.c.env[j].val, bound0); }
    forall p | 0 <= p < |r1.own| && Guarded(g, r1.own, p) ensures Alone(r1.c.env, r1.c.h, p) {
      if p != i { assert Alone(r.c.env, r.c.h, p); }
    }
    if g.muts {
      assert Guarded(g, r.own, i) && Alone(r.c.env, r.c.h, i);
      forall a | a in r1.gone ensures Nowhere(r1.c.env, r1.c.h, a) {
        if a in r.gone { assert Nowhere(r.c.env, r.c.h, a); }
      }
    }
  }

  /** Watched variables may be used as `s` uses them. */
  lemma StmtExprOk(g: Guard, s: Stmt, e: Expr, r: RState)
    requires Ready(s, r) && SlotOk(g, s, r) && -1 <= g.slot < |r.own|
    requires (s.Bind? && s.init == e) || (s.Eval? && s.e == e) || (s.If? && s.cond == e) ||
             (s.Loop? && s.domain == e) || (s.ProcExit? && s.code == e && !e.Ident?)
    ensures ExprOk(g, e, r)
  {
  }

  lemma AssignHeld(g: Guard, n: string, e: Expr, r: RState, d: nat, vis: Visible, o: Choices, freshFns: FreshFns)
    requires Inv(r) && Held(g, r) && VisOk(vis, r) && Ready(Assign(n, e), r) && SlotOk(g, Assign(n, e), r)
    requires freshFns.Keys !! SAFE_BUILTINS && n in vis && vis[n]
    ensures var (v, r0, _) := RefCompute(e, true, r, o, freshFns);
      Held(g, r0) && (!r0.c.h.halted ==> Held(g, RefAssign(n, e, v, r0, d, freshFns)))
  {
    FindNames(r.c.env, n);
    var i := Find(r.c.env, n);
    AssignExprOk(g, n, e, r, i, vis);
    VisPlain(vis, r);
    hide RefCompute, EntryHeld, Inv, Names, Ready, VisOk, RefAssign, PlainNames, SlotOk, ExprOk, CleanInit;
    ComputeHeld(g, e, true, r, o, freshFns);
    ComputeInv(e, true, r, o, freshFns);
    BelowNext(r);
    var (v, r0, tv) := RefCompute(e, true, r, o, freshFns);
    if r0.c.h.halted {
    } else if Kind(r.own[i]) == MutOwner {
      BuiltinIsClean(e, freshFns);
      ComputeClean(e, r, o, freshFns);
      if g.muts { forall a | a in r0.gone ensures a < r.c.h.next { assert Nowhere(r.c.env, r.c.h, a); } }
      SwapHeld(g, n, e, v, r0, i, d, r.c.h.next, freshFns);
    } else {
      assert Kind(r.own[i]) == NotOwner;
      PlainHeld(g, n, e, v, r0, i, d, freshFns);
    }
  }

  lemma BuiltinIsClean(e: Expr, freshFns: FreshFns)
    requires IsOwnedBuiltinCall(e)
    ensures CleanInit(e, freshFns)
  {
  }

  lemma AssignExprOk(g: Guard, n: string, e: Expr, r: RState, i: nat, vis: Visible)
    requires VisOk(vis, r) && Ready(Assign(n, e), r) && SlotOk(g, Assign(n, e), r) && n in vis && vis[n]
    requires -1 <= g.slot < |r.own| && i == Find(r.c.env, n) && i < |r.own|
    ensures Kind(r.own[i]) != ImmOwner && ExprOk(g, e, r) && (Kind(r.own[i]) == MutOwner ==> IsOwnedBuiltinCall(e))
  {
    assert r.c.env[i].name == n;
    hide MutStmtOk, MutExprOk, NoDup, Names;
    forall p | 0 <= p < |r.own| && Guarded(g, r.own, p) ensures MutExprOk(e, r.c.env[p].name) {
      AssignedOk(n, e, r.c.env[p].name);
    }
    if Kind(r.own[i]) == MutOwner { AssignedOk(n, e, r.c.env[i].name); }
  }

  /** What may be assigned while `x` is watched does not let `x` escape. */
  lemma AssignedOk(n: string, e: Expr, x: string)
    requires MutStmtOk(Assign(n, e), x)
    ensures MutExprOk(e, x) && (n == x ==> IsOwnedBuiltinCall(e))
  {
    if n == x { OwnedAreSafe(e.callee); }
  }

  lemma OwnedAreSafe(f: string)
    requires f in OWNED_BUILTINS
    ensures f in SAFE_BUILTINS
  {
  }

  // ---------- leaving scopes ----------

  /** What was owned is no longer live. */
  lemma {:induction false} DestroyKills(env: Env, own: seq<Own>, h: Heap, lo: nat)
    requires |own| == |env|
    ensures var h' := Destroy(env, own, h, lo);
      h'.live <= h.live && h'.kept == h.kept && h'.next == h.next &&
      forall i :: lo <= i < |env| && Active(own[i]) && env[i].val.Ptr? ==> env[i].val.addr !in h'.live
    decreases |env|
  {
    if |env| > lo {
      var k := |env| - 1;
      var h1 := if Active(own[k]) then Release(env[k].val, h) else h;
      DestroyKills(env[..k], own[..k], h1, lo);
    }
  }

  lemma DestroyScopeHeld(g: Guard, r: RState, base: nat)
    requires Held(g, r) && base <= |r.own| && (g.slot == -1 || g.slot < base)
    ensures Held(g, DestroyScope(r, base))
  {
    hide EntryHeld;
    DestroyKills(r.c.env, r.own, r.c.h, base);
    var r1 := DestroyScope(r, base);
    forall p | 0 <= p < |r1.own| && Guarded(g, r1.own, p) ensures Alone(r1.c.env, r1.c.h, p) {
      assert Guarded(g, r.own, p) && Alone(r.c.env, r.c.h, p);
    }
    if g.muts {
      forall a | a in r1.gone ensures Nowhere(r1.c.env, r1.c.h, a) {
        if a in r.gone {
          assert Nowhere(r.c.env, r.c.h, a);
        } else {
          var i :| base <= i < |r.own| && r.own[i] == MutOwner && a == Addr(r.c.env[i].val);
          assert Guarded(g, r.own, i) && Alone(r.c.env, r.c.h, i);
        }
      }
    }
  }

  /** Variables out of sight, back in sight or forgotten are still held as before. */
  lemma MarksHeld(g: Guard, r: RState, r1: RState)
    requires Held(g, r) && r1.c == r.c && r1.gone == r.gone && r1.trace == r.trace && r1.astray == r.astray
    requires forall i :: 0 <= i < |r.own| ==>
      (Kind(r1.own[i]) == Kind(r.own[i]) || (Kind(r1.own[i]) == NotOwner && i != g.slot))
    ensures Held(g, r1)
  {
    hide EntryHeld;
    forall p | 0 <= p < |r1.own| && Guarded(g, r1.own, p) ensures Alone(r1.c.env, r1.c.h, p) {
      assert Guarded(g, r.own, p);
    }
  }

  lemma PopHeld(g: Guard, r: RState, base: nat, leaked: seq<nat>)
    requires Held(g, r) && base <= |r.own| && (g.slot == -1 || g.slot < base)
    ensures Held(g, Pop(r.(leaked := leaked), base))
  {
    hide EntryHeld;
    var r1 := Pop(r.(leaked := leaked), base);
    forall p | 0 <= p < |r1.own| && Guarded(g, r1.own, p) ensures Alone(r1.c.env, r1.c.h, p) {
      assert Guarded(g, r.own, p) && Alone(r.c.env, r.c.h, p);
    }
    if g.muts { forall a | a in r1.gone ensures Nowhere(r1.c.env, r1.c.h, a) { assert Nowhere(r.c.env, r.c.h, a); } }
  }

  lemma LeaveScopeHeld(g: Guard, r: RState, base: nat, out: ROut)
    requires Held(g, r) && base <= |r.own| && (g.slot == -1 || g.slot < base)
    ensures Held(g, LeaveScope(r, base, out))
  {
    hide Held, Destroy, OwnedAddrs, DestroyScope, Pop;
    if out.RNormal? {
      var r1 := r.(own := Show(r.own, base));
      MarksHeld(g, r, r1);
      DestroyScopeHeld(g, r1, base);
    } else if Lost(out) {
      PopHeld(g, r, base, r.leaked + OwnedAddrs(r.c.env, r.own, base));
    } else if !out.ROutOfFuel? {
      var r1 := GiveUpHidden(r, base);
      MarksHeld(g, r, r1);
      DestroyScopeHeld(g, r1, base);
    }
  }

  lemma SoundOwners(r: RState)
    requires Inv(r) && !r.astray
    ensures OwnersOk(r.c.env, r.own, r.c.h)
  {
  }

  /** A recorded state is the current one. */
  lemma NoteHeld(g: Guard, r: RState, s: Stmt, fin: bool, d: nat, out: ROut)
    requires Inv(r) && Held(g, r)
    ensures Held(g, Note(r, s, fin, d, out))
  {
    hide Inv, OwnersOk, HeldOnce, GoneOk;
    if !r.astray { SoundOwners(r); }
  }

  /** Scopes and statements keep the watched variable. */
  lemma SlotStays(g: Guard, r: RState, r1: RState)
    requires Grows(r, r1) && -1 <= g.slot < |r.own|
    ensures -1 <= g.slot < |r1.own| &&
      (g.slot >= 0 ==> r1.own[g.slot] == r.own[g.slot] && r1.c.env[g.slot].name == r.c.env[g.slot].name)
  {
    if g.slot >= 0 { assert r1.own[g.slot] == r1.own[..|r.own|][g.slot] && r.own[g.slot] == r.own[..|r.own|][g.slot]; }
  }

  // ---------- the induction ----------

  lemma {:induction false} StmtHeld(g: Guard, s: Stmt, k: Own, r: RState, d: nat, vis: Visible, inLoop: bool,
                                    o: Choices, freshFns: FreshFns, fuel: nat)
    requires Inv(r) && Held(g, r) && VisOk(vis, r) && Ready(s, r) && SlotOk(g, s, r) && WellFormed(s, vis, inLoop)
    requires freshFns.Keys !! SAFE_BUILTINS && !k.Hidden?
    requires g.muts && k == MutOwner ==> s.Bind? && CleanInit(s.init, freshFns)
    requires g.muts && !s.Bind? ==> MutClean(s, freshFns)
    ensures Held(g, RefStmt(s, k, r, d, o, freshFns, fuel).0)
    decreases fuel, s, 0
  {
    hide Inv, Held, EvalExpr, RefScope, RefIteration, RefAssign, WellFormedScope, WellFormedFrom, ExprNamesIn,
      CleanInit,
      MutCleanScope, VisOk, Ready, SlotOk, TickState, MutStmtOk, RefCompute, RefBind, RefFinish, RefLose;
    SlotRange(g, r);
    match s
    case Bind(n, m, e) =>
      StmtExprOk(g, s, e, r);
      VisPlain(vis, r);
      ComputeHeld(g, e, true, r, o, freshFns);
      var (v, r1, tv) := RefCompute(e, true, r, o, freshFns);
      if r1.c.h.halted {
        FinishHeld(g, tv, r1);
      } else {
        BindHeld(g, n, e, k, r, o, freshFns);
        FinishHeld(g, tv, RefBind(n, v, k, r1));
      }
    case Assign(n, e) =>
      AssignHeld(g, n, e, r, d, vis, o, freshFns);
      var (v, r1, tv) := RefCompute(e, true, r, o, freshFns);
      if r1.c.h.halted {
        FinishHeld(g, tv, r1);
      } else {
        FinishHeld(g, tv, RefAssign(n, e, v, r1, d, freshFns));
      }
    case Eval(e) =>
      StmtExprOk(g, s, e, r);
      VisPlain(vis, r);
      ComputeHeld(g, e, false, r, o, freshFns);
      var (v, r1, tv) := RefCompute(e, false, r, o, freshFns);
      FinishHeld(g, tv, r1);
    case ProcExit(e) =>
      if e.Ident? {
        IdentHeld(g, e, r, o, freshFns);
      } else {
        StmtExprOk(g, s, e, r);
        EvalHeld(g, e, r, o, freshFns);
      }
    case Block(sc) =>
      ReadyInside(s, sc, r, r);
      SlotInside(g, s, sc, r, r);
      ScopeHeld(g, sc, r, d, vis, inLoop, o, freshFns, fuel);
    case If(e, sc) => IfHeld(g, e, sc, k, r, d, vis, inLoop, o, freshFns, fuel);
    case Loop(e, body) => LoopHeld(g, s, k, r, d, vis, inLoop, o, freshFns, fuel);
    case Break =>
    case Skip =>
  }

  lemma SlotRange(g: Guard, r: RState)
    requires Held(g, r)
    ensures -1 <= g.slot < |r.own|
  {
  }

  lemma SlotInside(g: Guard, s: Stmt, sc: Scope, r: RState, r1: RState)
    requires SlotOk(g, s, r) && r1.own == r.own && r1.c.env == r.c.env
    requires s == Block(sc) || (s.If? && s.body == sc) || (s.Loop? && sc == LoopScope(s.stmts))
    ensures SlotScope(g, sc, r1) && SlotFrom(g, sc, 0, r1)
  {
  }

  lemma {:induction false} IfHeld(g: Guard, e: Expr, sc: Scope, k: Own, r: RState, d: nat, vis: Visible, inLoop: bool,
                                  o: Choices, freshFns: FreshFns, fuel: nat)
    requires Inv(r) && Held(g, r) && VisOk(vis, r) && Ready(If(e, sc), r) && SlotOk(g, If(e, sc), r)
    requires WellFormedScope(sc, vis, inLoop) && freshFns.Keys !! SAFE_BUILTINS &&
      (g.muts ==> MutCleanScope(sc, freshFns))
    ensures Held(g, RefStmt(If(e, sc), k, r, d, o, freshFns, fuel).0)
    decreases fuel, sc, 3
  {
    hide Inv, Held, EvalExpr, RefScope, WellFormedScope, MutCleanScope, Ready, SlotOk, SlotFrom, SlotScope, MutStmtOk,
      VisOk;
    SlotRange(g, r);
    StmtExprOk(g, If(e, sc), e, r);
    EvalHeld(g, e, r, o, freshFns);
    EvalInv(e, r, o, freshFns);
    var (_, r1) := RefEval(e, r, o, freshFns);
    var r2 := TickState(r1);
    ReadyInside(If(e, sc), sc, r, r2);
    SlotInside(g, If(e, sc), sc, r, r2);
    if !r1.c.h.halted && Decide(o, r1.c.h) {
      SameVis(vis, r, r2);
      ScopeHeld(g, sc, r2, d, vis, inLoop, o, freshFns, fuel);
    }
  }

  lemma {:induction false} LoopHeld(g: Guard, s: Stmt, k: Own, r: RState, d: nat, vis: Visible, inLoop: bool,
                                    o: Choices, freshFns: FreshFns, fuel: nat)
    requires s.Loop? && Inv(r) && Held(g, r) && VisOk(vis, r) && Ready(s, r) && SlotOk(g, s, r)
    requires WellFormedFrom(s.stmts, 0, vis, true)
    requires freshFns.Keys !! SAFE_BUILTINS && (g.muts ==> MutClean(s, freshFns))
    ensures Held(g, RefStmt(s, k, r, d, o, freshFns, fuel).0)
    decreases fuel, s.stmts, |s.stmts| + 2
  {
    hide Inv, Held, EvalExpr, RefIteration, WellFormedFrom, VisOk, Ready, SlotOk, MutClean, Grows;
    if fuel > 0 {
      var (r1, out, again) := RefIteration(s.domain, s.stmts, r, d, o, freshFns, fuel);
      IterationInv(s.domain, s.stmts, r, d, vis, o, freshFns, fuel);
      IterationHeld(g, s.domain, s.stmts, r, d, vis, o, freshFns, fuel);
      RefIterationFrame(s.domain, s.stmts, r, d, o, freshFns, fuel);
      if again {
        VisAlive(vis, r);
        SameReady(LoopScope(s.stmts), 0, s, r, r1);
        SlotRange(g, r);
        SlotOkStays(g, s, r, r1);
        SameVis(vis, r, r1);
        LoopHeld(g, s, k, r1, d, vis, inLoop, o, freshFns, fuel - 1);
      }
    }
  }

  lemma SlotOkStays(g: Guard, s: Stmt, r: RState, r1: RState)
    requires SlotOk(g, s, r) && Grows(r, r1) && -1 <= g.slot < |r.own|
    ensures SlotOk(g, s, r1)
  {
    SlotStays(g, r, r1);
  }

  lemma {:induction false} IterationHeld(g: Guard, e: Expr, body: seq<Stmt>, r: RState, d: nat, vis: Visible,
                                         o: Choices, freshFns: FreshFns, fuel: nat)
    requires Inv(r) && Held(g, r) && VisOk(vis, r) && Ready(Loop(e, body), r) && SlotOk(g, Loop(e, body), r)
    requires WellFormedFrom(body, 0, vis, true) && freshFns.Keys !! SAFE_BUILTINS
    requires g.muts ==> MutClean(Loop(e, body), freshFns)
    ensures Held(g, RefIteration(e, body, r, d, o, freshFns, fuel).0)
    decreases fuel, body, |body| + 1
  {
    hide Inv, Held, EvalExpr, RefFrom, LeaveScope, WellFormedFrom, Ready, SlotOk, SlotFrom, SlotScope, Grows, MutStmtOk,
      VisOk;
    SlotRange(g, r);
    StmtExprOk(g, Loop(e, body), e, r);
    EvalHeld(g, e, r, o, freshFns);
    EvalInv(e, r, o, freshFns);
    var (_, r1) := RefEval(e, r, o, freshFns);
    var sc := LoopScope(body);
    var r2 := TickState(r1).(loop := |r.own|, outer := r.outer + [sc]);
    MarksInv(TickState(r1), r2);
    MarksHeld(g, TickState(r1), r2);
    if !r1.c.h.halted && Decide(o, r1.c.h) {
      ReadyInside(Loop(e, body), sc, r, r2);
      SlotInside(g, Loop(e, body), sc, r, r2);
      SameVis(vis, r, TickState(r1));
      MovedVis(vis, TickState(r1), r2);
      FromHeld(g, sc, 0, r2, d + 1, vis, true, o, freshFns, fuel);
      var (r3, out) := RefFrom(sc, 0, r2, d + 1, o, freshFns, fuel);
      RefFromFrame(sc, 0, r2, d + 1, o, freshFns, fuel);
      GrowsMore(r2, r3);
      LeaveScopeHeld(g, r3, |r.own|, out);
      var r4 := LeaveScope(r3, |r.own|, out);
      MarksHeld(g, r4, r4.(loop := r.loop, outer := r.outer));
    }
  }

  lemma {:induction false} FromHeld(g: Guard, sc: Scope, i: nat, r: RState, d: nat, vis: Visible, inLoop: bool,
                                    o: Choices, freshFns: FreshFns, fuel: nat)
    requires i <= |sc.stmts| && Inv(r) && Held(g, r) && VisOk(vis, r) && ReadyFrom(sc, i, r) && SlotFrom(g, sc, i, r)
    requires WellFormedFrom(sc.stmts, i, vis, inLoop) && freshFns.Keys !! SAFE_BUILTINS
    requires g.muts ==> forall j :: i <= j < |sc.stmts| ==> MutClean(sc.stmts[j], freshFns)
    ensures Held(g, RefFrom(sc, i, r, d, o, freshFns, fuel).0)
    decreases fuel, sc.stmts, |sc.stmts| - i
  {
    hide Inv, Held, EvalExpr, RefStmt, WellFormed, VisOk, StmtShape, ReadyFrom, OwnAt, CleanInit, IsOwningInit, SlotOk;
    if i < |sc.stmts| {
      var s := sc.stmts[i];
      var k := OwnAt(sc, i, freshFns);
      SlotRange(g, r);
      ReadyNext(sc, i, r);
      SlotNext(g, sc, i, r);
      OwnAtInit(sc, i, freshFns);
      OwnAtMut(sc, i, freshFns);
      StmtInv(s, k, r, d, vis, inLoop, o, freshFns, fuel);
      StmtHeld(g, s, k, r, d, vis, inLoop, o, freshFns, fuel);
      RefStmtFrame(s, k, r, d, o, freshFns, fuel);
      var (r1, out) := RefStmt(s, k, r, d, o, freshFns, fuel);
      var r2 := Note(r1, s, false, d, out);
      NoteHeld(g, r1, s, false, d, out);
      MarksInv(r1, r2);
      if out.RNormal? {
        NotedShape(s, k, r, r1, r2);
        StepVis(r, r2, s, k, vis, inLoop);
        NextReady(sc, i, r, r2, freshFns);
        ShapeGrow(s, k, r, r2);
        SlotStays(g, r, r2);
        FromHeld(g, sc, i + 1, r2, d, AfterStmt(vis, s), inLoop, o, freshFns, fuel);
      }
    }
  }

  lemma ShapeGrow(s: Stmt, k: Own, r: RState, r1: RState)
    requires StmtShape(s, k, r, r1, RNormal)
    ensures Grows(r, r1)
  {
  }

  lemma SlotNext(g: Guard, sc: Scope, i: nat, r: RState)
    requires i < |sc.stmts| && SlotFrom(g, sc, i, r)
    ensures SlotOk(g, sc.stmts[i], r)
  {
  }

  lemma OwnAtMut(sc: Scope, i: nat, freshFns: FreshFns)
    requires i < |sc.stmts|
    ensures OwnAt(sc, i, freshFns) == MutOwner ==>
      sc.stmts[i].Bind? && sc.stmts[i].isMut && IsOwningInit(sc.stmts[i].init, freshFns)
  {
  }

  lemma {:induction false} TrailingHeld(g: Guard, s: Stmt, r: RState, d: nat, vis: Visible, inLoop: bool,
                                        o: Choices, freshFns: FreshFns, fuel: nat)
    requires Inv(r) && Held(g, r) && VisOk(vis, r) && freshFns.Keys !! SAFE_BUILTINS
    requires Ready(s, r) && SlotOk(g, s, r) && WellFormed(s, vis, inLoop)
    requires g.muts ==> s.Bind? || MutClean(s, freshFns)
    ensures Held(g, RefTrailing(s, r, d, o, freshFns, fuel).0)
    decreases fuel, s, 1
  {
    hide Inv, Held, EvalExpr, RefStmt, WellFormed, VisOk, Ready, SlotOk, MutClean, IsOwningInit;
    StmtInv(s, NotOwner, r, d, vis, inLoop, o, freshFns, fuel);
    StmtHeld(g, s, NotOwner, r, d, vis, inLoop, o, freshFns, fuel);
    var (r1, out) := RefStmt(s, NotOwner, r, d, o, freshFns, fuel);
    NoteHeld(g, r1, s, true, d, out);
    MarksHeld(g, Note(r1, s, true, d, out), RefTrailing(s, r, d, o, freshFns, fuel).0);
  }

  lemma HiddenHeld(g: Guard, r: RState, base: nat)
    requires Held(g, r)
    ensures Held(g, HideFrom(r, base))
  {
    hide Held;
    MarksHeld(g, r, HideFrom(r, base));
  }

  lemma {:induction false} DeferredHeld(g: Guard, ss: seq<Stmt>, n: nat, r: RState, base: nat, d: nat, vis: Visible,
                                        inLoop: bool, o: Choices, freshFns: FreshFns, fuel: nat)
    requires n <= |ss| && base <= |r.own| && Inv(r) && Held(g, r) && VisOk(vis, r) && ReadyBack(ss, r)
    requires SlotBack(g, ss, r)
    requires WellFormedBack(ss, n, vis, inLoop) && freshFns.Keys !! SAFE_BUILTINS
    requires g.muts ==> forall i :: 0 <= i < |ss| ==> ss[i].Bind? || MutClean(ss[i], freshFns)
    ensures Held(g, RefDeferred(ss, n, r, base, d, o, freshFns, fuel).0)
    decreases fuel, ss, n
  {
    hide Inv, Held, WellFormed, VisOk, Ready, ReadyBack, RefTrailing, AfterStmt, StmtShape, MutClean, MutStmtOk;
    if n > 0 {
      var s, r0 := ss[n - 1], HideFrom(r, base);
      SlotRange(g, r);
      HiddenOk(r, base, vis, ss);
      HiddenHeld(g, r, base);
      BackNext(ss, n - 1, r0);
      TrailingInv(s, r0, d, vis, inLoop, o, freshFns, fuel);
      TrailingHeld(g, s, r0, d, vis, inLoop, o, freshFns, fuel);
      RefTrailingFrame(s, r0, d, o, freshFns, fuel);
      var (r1, out) := RefTrailing(s, r0, d, o, freshFns, fuel);
      if out.RNormal? {
        BackStays(ss, s, r0, r1);
        ShapeEnd(s, r0, r1);
        SlotStays(g, r0, r1);
        DeferredHeld(g, ss, n - 1, r1, base, d, AfterStmt(vis, s), inLoop, o, freshFns, fuel);
      }
    }
  }

  lemma {:induction false} ScopeHeld(g: Guard, sc: Scope, r: RState, d: nat, vis: Visible, inLoop: bool,
                                     o: Choices, freshFns: FreshFns, fuel: nat)
    requires Inv(r) && Held(g, r) && VisOk(vis, r) && ReadyFrom(sc, 0, r)
    requires SlotFrom(g, sc, 0, r) && SlotScope(g, sc, r) && WellFormedScope(sc, vis, inLoop)
    requires freshFns.Keys !! SAFE_BUILTINS && (g.muts ==> MutCleanScope(sc, freshFns))
    ensures Held(g, RefScope(sc, r, d, o, freshFns, fuel).0)
    decreases fuel, sc, 2
  {
    hide Inv, Held, RefInside, WellFormedScope, MutCleanScope, VisOk, ReadyFrom, SlotFrom, SlotScope, Grows, LeaveScope;
    InsideHeld(g, sc, r, d, vis, inLoop, o, freshFns, fuel);
    RefInsideFrame(sc, r, d, o, freshFns, fuel);
    var (r1, out) := RefInside(sc, r, d, o, freshFns, fuel);
    GrowsMore(r, r1);
    SlotRange(g, r);
    LeaveScopeHeld(g, r1, |r.own|, out);
  }

  lemma {:induction false} BodyHeld(g: Guard, sc: Scope, r: RState, d: nat, vis: Visible, inLoop: bool,
                                    o: Choices, freshFns: FreshFns, fuel: nat)
    requires Inv(r) && Held(g, r) && VisOk(vis, r) && ReadyFrom(sc, 0, r)
    requires SlotFrom(g, sc, 0, r) && SlotScope(g, sc, r) && WellFormedScope(sc, vis, inLoop)
    requires freshFns.Keys !! SAFE_BUILTINS && (g.muts ==> MutCleanScope(sc, freshFns))
    ensures Held(g, RefBody(sc, r, d, o, freshFns, fuel).0)
    decreases fuel, sc, 0
  {
    hide Inv, Held, RefFrom, RefTrailing, WellFormed, WellFormedFrom, WellFormedBack, VisOk, ReadyFrom, SlotFrom,
      SlotScope, SlotOk, MutClean, AfterFrom, AfterFinal, Grows, Ready, ReadyBack;
    FromInv(sc, 0, r, d, vis, inLoop, o, freshFns, fuel);
    FromHeld(g, sc, 0, r, d, vis, inLoop, o, freshFns, fuel);
    RefFromFrame(sc, 0, r, d, o, freshFns, fuel);
    var (r1, out1) := RefFrom(sc, 0, r, d, o, freshFns, fuel);
    if out1.RNormal? && sc.fin.Final? {
      FinalOf(sc, r1);
      SlotRange(g, r);
      FinalSlot(g, sc, r, r1);
      TrailingHeld(g, sc.fin.s, r1, d, AfterFrom(sc.stmts, 0, vis), inLoop, o, freshFns, fuel);
    }
  }

  lemma {:induction false} InsideHeld(g: Guard, sc: Scope, r: RState, d: nat, vis: Visible, inLoop: bool,
                                      o: Choices, freshFns: FreshFns, fuel: nat)
    requires Inv(r) && Held(g, r) && VisOk(vis, r) && ReadyFrom(sc, 0, r)
    requires SlotFrom(g, sc, 0, r) && SlotScope(g, sc, r) && WellFormedScope(sc, vis, inLoop)
    requires freshFns.Keys !! SAFE_BUILTINS && (g.muts ==> MutCleanScope(sc, freshFns))
    ensures Held(g, RefInside(sc, r, d, o, freshFns, fuel).0)
    decreases fuel, sc, 1
  {
    hide Inv, Held, RefBody, RefDeferred, WellFormed, WellFormedFrom, WellFormedBack, VisOk, ReadyFrom, SlotFrom,
      SlotScope, AfterFrom, AfterFinal, Grows, ReadyBack, SlotBack, MutClean;
    var ri := Inside(r, sc);
    MarksInv(r, ri);
    MovedVis(vis, r, ri);
    MovedReady(sc, r, ri);
    MarksHeld(g, r, ri);
    MovedSlot(g, sc, r, ri);
    BodyInv(sc, ri, d + 1, vis, inLoop, o, freshFns, fuel);
    BodyHeld(g, sc, ri, d + 1, vis, inLoop, o, freshFns, fuel);
    RefBodyFrame(sc, ri, d + 1, o, freshFns, fuel);
    var (r1, out1) := RefBody(sc, ri, d + 1, o, freshFns, fuel);
    var r2 := r1.(outer := r.outer);
    MarksInv(r1, r2);
    MarksHeld(g, r1, r2);
    if out1.RNormal? {
      var vis2 := AfterFinal(sc.fin, AfterFrom(sc.stmts, 0, vis));
      MovedVis(vis2, r1, r2);
      MovedBack(sc.deferred, r1, r2);
      SlotRange(g, r);
      BackSlot(g, sc, ri, r1, r2);
      GrowsMore(ri, r1);
      DeferredHeld(g, sc.deferred, |sc.deferred|, r2, |r.own|, d, vis2, inLoop, o, freshFns, fuel);
    }
  }

  lemma MovedSlot(g: Guard, sc: Scope, r: RState, r1: RState)
    requires SlotFrom(g, sc, 0, r) && SlotScope(g, sc, r) && r1.c == r.c && r1.own == r.own
    ensures SlotFrom(g, sc, 0, r1) && SlotScope(g, sc, r1)
  {
  }

  lemma FinalSlot(g: Guard, sc: Scope, r: RState, r1: RState)
    requires SlotScope(g, sc, r) && Grows(r, r1) && -1 <= g.slot < |r.own|
    ensures sc.fin.Final? ==> SlotOk(g, sc.fin.s, r1)
  {
    SlotStays(g, r, r1);
  }

  lemma BackSlot(g: Guard, sc: Scope, r: RState, r1: RState, r2: RState)
    requires SlotScope(g, sc, r) && Grows(r, r1) && -1 <= g.slot < |r.own| && r2.c == r1.c && r2.own == r1.own
    ensures SlotBack(g, sc.deferred, r2)
  {
    SlotStays(g, r, r1);
  }
}
