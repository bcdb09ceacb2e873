/** Unbound owned temporaries of a simple statement: they are computed into hidden
    bindings before the statement and freed right after it (src/emit_c.c, the
    "M9.2-F" parts of hoist_collect and emit_stmt). */
module OwnershipHoist {
  import opened OwnershipSyntax
  import opened OwnershipTemps
  import opened OwnershipRun
  import opened OwnershipRef
  import opened OwnershipEmit
  import opened OwnershipCorrect
  import opened OwnershipSim
  import opened OwnershipSafety
  import opened OwnershipHeld

  // ---------- the printed statement ----------

  predicate PlainExpr(e: Expr) {
    match e
    case Lit => true
    case Ident(n) => Plain(n)
    case Call(f, args) => Plain(f) && forall i :: 0 <= i < |args| ==> PlainExpr(args[i])
    case Cond(c, t, e) => PlainExpr(c) && PlainExpr(t) && PlainExpr(e)
    case Compound(kids) => forall i :: 0 <= i < |kids| ==> PlainExpr(kids[i])
  }

  /** The plan of a statement whose hidden bindings are numbered from `first` on. */
  function ChosenAt(e: Expr, bound: bool, first: nat, freshFns: FreshFns): Plan {
    var p := Hoist(e, bound, first, freshFns);
    if |p.temps| > MAX_HOIST then Plan([], e) else p
  }

  function Decls(temps: seq<Expr>, first: nat): seq<CStmt> {
    if temps == [] then [] else [CDecl(TmpName(first), temps[0])] + Decls(temps[1..], first + 1)
  }

  /** Newest first. */
  function Frees(first: nat, n: nat): seq<CStmt> {
    if n == 0 then [] else [CFree(TmpName(first + n - 1))] + Frees(first, n - 1)
  }

  /** A simple statement; `owner` says that it reassigns a mutable owner. */
  predicate Simple(s: Stmt) { s.Bind? || s.Assign? || s.Eval? }

  function SimpleExpr(s: Stmt): Expr
    requires Simple(s)
  {
    match s case Bind(_, _, e) => e case Assign(_, e) => e case Eval(e) => e
  }

  function Inner(s: Stmt, owner: bool, rest: Expr): CStmt
    requires Simple(s)
  {
    match s
    case Bind(n, _, _) => CDecl(n, rest)
    case Assign(n, _) => if owner then CBlock([CDecl("tiq_old", Ident(n)), CSet(n, rest), CFree("tiq_old")])
      else CSet(n, rest)
    case Eval(_) => CExpr(rest)
  }

  function EmitSimple(s: Stmt, owner: bool, first: nat, freshFns: FreshFns): seq<CStmt>
    requires Simple(s)
  {
    var p := ChosenAt(SimpleExpr(s), !s.Eval?, first, freshFns);
    Decls(p.temps, first) + ([Inner(s, owner, p.rest)] + Frees(first, |p.temps|))
  }

  // ---------- the hidden bindings ----------

  function TmpVars(first: nat, addrs: seq<nat>): seq<Var> {
    seq(|addrs|, i requires 0 <= i < |addrs| => Var(TmpName(first + i), Ptr(addrs[i])))
  }

  /** A state a statement may start in. */
  predicate Starts(st: CState) {
    !st.h.halted && HeapOk(st.h) &&
    (forall j :: 0 <= j < |st.env| ==> Plain(st.env[j].name) && Below(st.env[j].val, st.h.next))
  }

  /** The hidden bindings hold fresh live strings, all different, and nothing has been freed. */
  predicate Holding(st: CState, st1: CState, first: nat, addrs: seq<nat>) {
    st1.env == st.env + TmpVars(first, addrs) && HeapOk(st1.h) && !st1.h.halted && st1.h.freed == st.h.freed &&
    NoRepeats(addrs) &&
    st.h.next <= st1.h.next && st.h.live <= st1.h.live &&
    forall k :: 0 <= k < |addrs| ==> st.h.next <= addrs[k] < st1.h.next && addrs[k] in st1.h.live
  }

  lemma HoldingBelow(st: CState, st1: CState, first: nat, addrs: seq<nat>)
    requires Starts(st) && Holding(st, st1, first, addrs)
    ensures (forall j :: 0 <= j < |st1.env| ==> Below(st1.env[j].val, st1.h.next)) && forall a :: a in st1.h.kept ==>
      a < st1.h.next
    ensures HeapOk(st1.h) && st.h.next <= st1.h.next
  {
  }

  lemma TmpVarsPush(first: nat, addrs: seq<nat>, a: nat)
    ensures TmpVars(first, addrs + [a]) == TmpVars(first, addrs) + [Var(TmpName(first + |addrs|), Ptr(a))]
  {
  }

  lemma EvalKeepsHeap(e: Expr, env: Env, h: Heap, o: Choices, freshFns: FreshFns)
    requires HeapOk(h) && forall j :: 0 <= j < |env| ==> Below(env[j].val, h.next)
    ensures var (v, h1) := EvalExpr(e, env, h, o, freshFns);
      HeapOk(h1) && h1.freed == h.freed && h.next <= h1.next && h.live <= h1.live && Below(v, h1.next)
  {
    EvalAllocates(e, env, h, o, freshFns);
  }

  /** One more hidden binding. */
  lemma DeclHolds(e: Expr, st: CState, st1: CState, first: nat, addrs: seq<nat>, o: Choices, freshFns: FreshFns)
      returns (a: nat)
    requires Starts(st) && Holding(st, st1, first, addrs) && IsOwningInit(e, freshFns) && freshFns.Keys !! SAFE_BUILTINS
    requires !EvalExpr(e, st1.env, st1.h, o, freshFns).1.halted
    ensures var (v, h1) := EvalExpr(e, st1.env, st1.h, o, freshFns);
      v == Ptr(a) && Holding(st, CState(st1.env + [Var(TmpName(first + |addrs|), v)], h1), first, addrs + [a])
  {
    HoldingBelow(st, st1, first, addrs);
    EvalKeepsHeap(e, st1.env, st1.h, o, freshFns);
    OwningInitIsFresh(e, st1.env, st1.h, o, freshFns);
    hide EvalExpr, HeapOk, IsOwningInit;
    var v := EvalExpr(e, st1.env, st1.h, o, freshFns).0;
    a := v.addr;
    TmpVarsPush(first, addrs, a);
  }

  /** Running the hidden bindings' declarations. */
  lemma {:induction false} DeclsRun(temps: seq<Expr>, st: CState, st1: CState, first: nat, addrs: seq<nat>, o: Choices,
      freshFns: FreshFns, fuel: nat)
    returns (more: seq<nat>)
    requires Starts(st) && Holding(st, st1, first, addrs) && freshFns.Keys !! SAFE_BUILTINS
    requires forall i :: 0 <= i < |temps| ==> IsOwningInit(temps[i], freshFns)
    ensures var (st2, out) := RunAll(Decls(temps, first + |addrs|), st1, o, freshFns, fuel);
      out in {Normal, Exited} && (out == Exited ==> st2.h.freed == st.h.freed) &&
      (out == Normal ==> |more| == |temps| && Holding(st, st2, first, addrs + more))
    decreases temps
  {
    more := [];
    if temps == [] {
      assert addrs + [] == addrs;
    } else {
      hide EvalExpr, IsOwningInit, Holding, HeapOk, Starts, TmpName, RunAll;
      var e := temps[0];
      HoldingBelow(st, st1, first, addrs);
      HoldingHeap(st, st1, first, addrs);
      EvalKeepsHeap(e, st1.env, st1.h, o, freshFns);
      RunCons(CDecl(TmpName(first + |addrs|), e), Decls(temps[1..], first + |addrs| + 1), st1, o, freshFns, fuel);
      if !EvalExpr(e, st1.env, st1.h, o, freshFns).1.halted {
        var a := DeclHolds(e, st, st1, first, addrs, o, freshFns);
        var (v, h1) := EvalExpr(e, st1.env, st1.h, o, freshFns);
        var tail := DeclsRun(temps[1..], st, CState(st1.env + [Var(TmpName(first + |addrs|), v)], h1), first,
          addrs + [a], o, freshFns, fuel);
        more := [a] + tail;
        assert addrs + [a] + tail == addrs + more;
      }
    }
  }

  lemma HoldingHeap(st: CState, st1: CState, first: nat, addrs: seq<nat>)
    requires Holding(st, st1, first, addrs)
    ensures HeapOk(st1.h) && !st1.h.halted && st1.h.freed == st.h.freed
  {
  }

  // ---------- freeing ----------

  function Reversed(s: seq<nat>): (r: seq<nat>)
    ensures |r| == |s|
  {
    if s == [] then [] else [s[|s| - 1]] + Reversed(s[..|s| - 1])
  }

  /** The hidden bindings can still be found, and their strings are live. */
  predicate Findable(env: Env, h: Heap, first: nat, addrs: seq<nat>) {
    NoRepeats(addrs) && forall k :: 0 <= k < |addrs| ==>
      Lookup(env, TmpName(first + k)) == Ptr(addrs[k]) && addrs[k] in h.live
  }

  lemma FindableLess(env: Env, h: Heap, first: nat, addrs: seq<nat>)
    requires Findable(env, h, first, addrs) && addrs != []
    ensures var k := |addrs| - 1;
      Lookup(env, TmpName(first + k)) == Ptr(addrs[k]) && addrs[k] in h.live &&
      Findable(env, Release(Ptr(addrs[k]), h), first, addrs[..k])
  {
    var k := |addrs| - 1;
    forall j | 0 <= j < k ensures Lookup(env, TmpName(first + j)) == Ptr(addrs[j]) && addrs[j] in h.live &&
      addrs[j] != addrs[k] {}
  }

  lemma {:induction false} FreesRun(first: nat, addrs: seq<nat>, env: Env, h: Heap, o: Choices, freshFns: FreshFns,
      fuel: nat)
    requires HeapOk(h) && Findable(env, h, first, addrs)
    ensures var (st1, out) := RunAll(Frees(first, |addrs|), CState(env, h), o, freshFns, fuel);
      out == Normal && st1.env == env && HeapOk(st1.h) && st1.h.freed == h.freed + Reversed(addrs) &&
      st1.h.kept == h.kept &&
      forall k :: 0 <= k < |addrs| ==> addrs[k] !in st1.h.live
    decreases |addrs|
  {
    hide HeapOk, RunAll, Lookup, TmpName, Findable, Frees, Release;
    if addrs == [] {
      RunNothing(CState(env, h), o, freshFns, fuel);
      NoFrees(first);
      assert h.freed + [] == h.freed;
    } else {
      var k := |addrs| - 1;
      var h1 := Release(Ptr(addrs[k]), h);
      FindableLess(env, h, first, addrs);
      ReleaseOk(h, Ptr(addrs[k]));
      FreesStep(first, k, env, h, addrs[k], o, freshFns, fuel);
      FreesRun(first, addrs[..k], env, h1, o, freshFns, fuel);
      FreesOnlyShrink(first, k, CState(env, h1), o, freshFns, fuel);
      var h2 := RunAll(Frees(first, k), CState(env, h1), o, freshFns, fuel).0.h;
      Assoc(h.freed, [addrs[k]], Reversed(addrs[..k]));
      forall j | 0 <= j < |addrs| ensures addrs[j] !in h2.live {
        if j < k { assert addrs[..k][j] == addrs[j]; }
      }
    }
  }

  lemma Assoc(a: seq<nat>, b: seq<nat>, c: seq<nat>)
    ensures a + b + c == a + (b + c)
  {
  }

  lemma NoFrees(first: nat)
    ensures Frees(first, 0) == []
  {
  }

  /** The first of the frees. */
  lemma FreesStep(first: nat, k: nat, env: Env, h: Heap, a: nat, o: Choices, freshFns: FreshFns, fuel: nat)
    requires Lookup(env, TmpName(first + k)) == Ptr(a)
    ensures RunAll(Frees(first, k + 1), CState(env, h), o, freshFns, fuel) ==
            RunAll(Frees(first, k), CState(env, Release(Ptr(a), h)), o, freshFns, fuel)
  {
    hide Lookup, TmpName, Release;
    RunCons(CFree(TmpName(first + k)), Frees(first, k), CState(env, h), o, freshFns, fuel);
  }

  /** Frees never make a string live. */
  lemma {:induction false} FreesOnlyShrink(first: nat, n: nat, st: CState, o: Choices, freshFns: FreshFns, fuel: nat)
    ensures RunAll(Frees(first, n), st, o, freshFns, fuel).0.h.live <= st.h.live
    decreases n
  {
    if n > 0 {
      RunCons(CFree(TmpName(first + n - 1)), Frees(first, n - 1), st, o, freshFns, fuel);
      FreesOnlyShrink(first, n - 1, st.(h := Release(Lookup(st.env, TmpName(first + n - 1)), st.h)), o, freshFns, fuel);
    }
  }

  // ---------- the statement itself ----------

  /** The temporaries of a plan whose root is bound are read by the call alone, so its
      value is none of them. */
  lemma RestIsOther(e: Expr, env: Env, h: Heap, o: Choices, freshFns: FreshFns)
    requires e.Call? && HoistsInto(e.callee, freshFns) && HeapOk(h) && forall j :: 0 <= j < |env| ==>
      Below(env[j].val, h.next)
    ensures var v := EvalExpr(e, env, h, o, freshFns).0; v.Ptr? ==> v.addr >= h.next
  {
    EvalAllAllocates(e.args, env, h, o, freshFns);
  }

  ghost predicate Distinct(env: Env) { NoDup(env) && forall j :: 0 <= j < |env| ==> Plain(env[j].name) }

  lemma {:induction false} TmpLookup(env: Env, first: nat, addrs: seq<nat>, k: nat)
    requires k < |addrs|
    ensures Lookup(env + TmpVars(first, addrs), TmpName(first + k)) == Ptr(addrs[k])
    decreases |addrs|
  {
    var m := |addrs| - 1;
    var front := env + TmpVars(first, addrs[..m]);
    var x := Var(TmpName(first + m), Ptr(addrs[m]));
    assert addrs == addrs[..m] + [addrs[m]];
    TmpVarsPush(first, addrs[..m], addrs[m]);
    assert env + TmpVars(first, addrs) == front + [x];
    if k < m {
      if TmpName(first + k) == x.name { TmpNamesDiffer(first + k, first + m); }
      hide TmpName;
      FindPush(front, x, TmpName(first + k));
      TmpLookup(env, first, addrs[..m], k);
    } else {
      assert (front + [x])[|front|] == x;
    }
  }

  /** A program variable is found below the hidden bindings. */
  lemma {:induction false} PlainLookup(env: Env, first: nat, addrs: seq<nat>, n: string, v: Val)
    requires Plain(n)
    ensures Find(env + TmpVars(first, addrs), n) == Find(env, n)
    ensures Update(env + TmpVars(first, addrs), n, v) == Update(env, n, v) + TmpVars(first, addrs)
    decreases |addrs|
  {
    if addrs == [] {
      assert env + [] == env && Update(env, n, v) + [] == Update(env, n, v);
    } else {
      var m := |addrs| - 1;
      var front := env + TmpVars(first, addrs[..m]);
      var x := Var(TmpName(first + m), Ptr(addrs[m]));
      assert addrs == addrs[..m] + [addrs[m]];
      TmpVarsPush(first, addrs[..m], addrs[m]);
      assert env + TmpVars(first, addrs) == front + [x];
      hide TmpName, Find, Update;
      FindPush(front, x, n);
      PlainLookup(env, first, addrs[..m], n, v);
      assert Update(env, n, v) + TmpVars(first, addrs[..m]) + [x] == Update(env, n, v) + TmpVars(first, addrs);
    }
  }

  /** What a simple statement does to the program's variables and which string it frees
      itself: the previous one of a reassigned owner. */
  function PlainEnv(s: Stmt, env: Env, v: Val): Env
    requires Simple(s)
  {
    match s
    case Bind(n, _, _) => env + [Var(n, v)]
    case Assign(n, _) => Update(env, n, v)
    case Eval(_) => env
  }

  function OwnFrees(s: Stmt, owner: bool, env: Env): seq<nat>
    requires Simple(s)
  {
    if s.Assign? && owner then [Addr(Lookup(env, s.target))] else []
  }

  /** What a statement may be applied to: its own names are the program's, and an owner
      it reassigns holds a live string. */
  predicate Applies(s: Stmt, owner: bool, st: CState) {
    Simple(s) && Starts(st) && !(s.Assign? && s.target == "tiq_old") &&
    (s.Bind? ==> Plain(s.name)) && (s.Assign? ==> Plain(s.target) && Find(st.env, s.target) >= 0) &&
    (s.Assign? && owner ==> Lookup(st.env, s.target).Ptr? && Lookup(st.env, s.target).addr in st.h.live)
  }

  /** After the statement: the program's variables, then the hidden bindings, or the
      other way round after a binding. */
  predicate After(s: Stmt, owner: bool, st: CState, st2: CState, first: nat, addrs: seq<nat>, v: Val)
    requires Simple(s)
  {
    HeapOk(st2.h) && !st2.h.halted && st2.h.freed == st.h.freed + OwnFrees(s, owner, st.env) &&
    st2.env == (if s.Bind? then st.env + TmpVars(first, addrs) + [Var(s.name, v)]
      else PlainEnv(s, st.env, v) + TmpVars(first, addrs)) &&
    (forall k :: 0 <= k < |addrs| ==> addrs[k] in st2.h.live) && NoRepeats(addrs)
  }

  lemma OwnerApart(s: Stmt, st: CState, st1: CState, first: nat, addrs: seq<nat>)
    requires Applies(s, true, st) && s.Assign? && Holding(st, st1, first, addrs)
    ensures var a := Addr(Lookup(st.env, s.target));
      a in st1.h.live && a !in addrs && Lookup(st1.env, s.target) == Ptr(a)
  {
    PlainLookup(st.env, first, addrs, s.target, Other);
    var i := Find(st.env, s.target);
    assert Below(st.env[i].val, st.h.next);
  }

  /** Statements other than an owner's reassignment. */
  lemma PlainRuns(s: Stmt, rest: Expr, st: CState, st1: CState, first: nat, addrs: seq<nat>, o: Choices,
      freshFns: FreshFns, fuel: nat)
    requires Applies(s, false, st) && Holding(st, st1, first, addrs)
    ensures var (v, h1) := EvalExpr(rest, st1.env, st1.h, o, freshFns);
      var (st2, out) := Run(Inner(s, false, rest), st1, o, freshFns, fuel);
      st2.h == h1 && h1.freed == st.h.freed && out == (if h1.halted then Exited else Normal) &&
      (out == Normal ==> After(s, false, st, st2, first, addrs, v))
  {
    HoldingBelow(st, st1, first, addrs);
    EvalKeepsHeap(rest, st1.env, st1.h, o, freshFns);
    hide EvalExpr, HeapOk, Find, Update, TmpVars, TmpName;
    var (v, h1) := EvalExpr(rest, st1.env, st1.h, o, freshFns);
    if s.Assign? { PlainLookup(st.env, first, addrs, s.target, v); }
    assert st.h.freed + [] == st.h.freed;
  }

  /** Keep the old string, compute the new one, free the old one. */
  lemma OwnerBlock(n: string, rest: Expr, st: CState, prev: Val, o: Choices, freshFns: FreshFns, fuel: nat)
    requires n != "tiq_old" && Lookup(st.env, n) == prev && !st.h.halted
    ensures var (v, h1) := EvalExpr(rest, st.env + [Var("tiq_old", prev)], st.h, o, freshFns);
      Run(CBlock([CDecl("tiq_old", Ident(n)), CSet(n, rest), CFree("tiq_old")]), st, o, freshFns, fuel) ==
      if h1.halted then (CState(st.env, h1), Exited) else (CState(Update(st.env, n, v), Release(prev, h1)), Normal)
  {
    hide EvalExpr, RunAll, Find, Update, Lookup, Release;
    var before := Var("tiq_old", prev);
    var env1 := st.env + [before];
    var (v, h1) := EvalExpr(rest, env1, st.h, o, freshFns);
    var decl, store, free := CDecl("tiq_old", Ident(n)), CSet(n, rest), CFree("tiq_old");
    FindPush(st.env, before, n);
    assert [decl] + ([store] + [free]) == [decl, store, free];
    RunCons(decl, [store] + [free], st, o, freshFns, fuel);
    OldDecl(n, prev, st, o, freshFns, fuel);
    RunCons(store, [free], CState(env1, st.h), o, freshFns, fuel);
    assert env1[..|st.env|] == st.env;
    if !h1.halted {
      var env2 := Update(st.env, n, v) + [before];
      RunOne(free, CState(env2, h1), o, freshFns, fuel);
      OldFound(Update(st.env, n, v), before);
      assert env2[..|st.env|] == Update(st.env, n, v);
    }
  }

  lemma OwnerRuns(s: Stmt, rest: Expr, st: CState, st1: CState, first: nat, addrs: seq<nat>, o: Choices,
      freshFns: FreshFns, fuel: nat)
    returns (v: Val)
    requires s.Assign? && Applies(s, true, st) && Holding(st, st1, first, addrs)
    ensures v == EvalExpr(rest, st1.env + [Var("tiq_old", Lookup(st.env, s.target))], st1.h, o, freshFns).0
    ensures var (st2, out) := Run(Inner(s, true, rest), st1, o, freshFns, fuel);
      (out == Exited && st2.h.freed == st.h.freed) || (out == Normal && After(s, true, st, st2, first, addrs, v))
  {
    var prev := Lookup(st.env, s.target);
    var env1 := st1.env + [Var("tiq_old", prev)];
    OwnerApart(s, st, st1, first, addrs);
    HoldingBelow(st, st1, first, addrs);
    EvalKeepsHeap(rest, env1, st1.h, o, freshFns);
    OwnerBlock(s.target, rest, st1, prev, o, freshFns, fuel);
    var h1 := EvalExpr(rest, env1, st1.h, o, freshFns).1;
    v := EvalExpr(rest, env1, st1.h, o, freshFns).0;
    PlainLookup(st.env, first, addrs, s.target, v);
    hide EvalExpr, HeapOk, TmpVars, TmpName, Run, Find, Update, Lookup;
    if !h1.halted { ReleaseOk(h1, prev); }
  }

  lemma OldDecl(n: string, prev: Val, st: CState, o: Choices, freshFns: FreshFns, fuel: nat)
    requires Lookup(st.env, n) == prev && !st.h.halted
    ensures Run(CDecl("tiq_old", Ident(n)), st, o, freshFns, fuel) == (CState(st.env + [Var("tiq_old", prev)], st.h),
      Normal)
  {
  }

  lemma OldFound(env: Env, x: Var)
    ensures Lookup(env + [x], x.name) == x.val
  {
  }

  /** Whatever is left of the statement, its temporaries are freed right after it. */
  lemma Ends(s: Stmt, owner: bool, st: CState, st2: CState, first: nat, addrs: seq<nat>, v: Val, o: Choices,
      freshFns: FreshFns, fuel: nat)
    requires Applies(s, owner, st) && After(s, owner, st, st2, first, addrs, v)
    ensures var (st3, out) := RunAll(Frees(first, |addrs|), st2, o, freshFns, fuel);
      out == Normal && st3.env == st2.env && HeapOk(st3.h) && st3.h.kept == st2.h.kept &&
      st3.h.freed == st.h.freed + OwnFrees(s, owner, st.env) + Reversed(addrs) && forall k :: 0 <= k < |addrs| ==>
        addrs[k] !in st3.h.live
  {
    forall k | 0 <= k < |addrs| ensures Lookup(st2.env, TmpName(first + k)) == Ptr(addrs[k]) {
      if s.Bind? {
        TmpLookup(st.env, first, addrs, k);
        assert s.name != TmpName(first + k);
        hide TmpName;
        FindPush(st.env + TmpVars(first, addrs), Var(s.name, v), TmpName(first + k));
      } else {
        TmpLookup(PlainEnv(s, st.env, v), first, addrs, k);
      }
    }
    FreesRun(first, addrs, st2.env, st2.h, o, freshFns, fuel);
  }

  // ---------- the results ----------

  /** A simple statement that runs to its end has freed each of its temporaries exactly
      once, newest first, after everything else it frees; nothing else is freed, and no
      program variable holds one of the freed strings. */
  lemma TemporariesFreed(s: Stmt, owner: bool, st: CState, first: nat, o: Choices, freshFns: FreshFns, fuel: nat)
      returns (addrs: seq<nat>)
    requires Applies(s, owner, st) && freshFns.Keys !! SAFE_BUILTINS
    ensures var (st1, out) := RunAll(EmitSimple(s, owner, first, freshFns), st, o, freshFns, fuel);
      out in {Normal, Exited} && (out == Exited ==> st1.h.freed == st.h.freed) &&
      (out == Normal ==>
        |addrs| == |ChosenAt(SimpleExpr(s), !s.Eval?, first, freshFns).temps| && NoRepeats(addrs) && HeapOk(st1.h) &&
        st1.h.freed == st.h.freed + OwnFrees(s, owner, st.env) + Reversed(addrs) &&
        (forall k :: 0 <= k < |addrs| ==> st.h.next <= addrs[k] && addrs[k] !in st1.h.live) && Clean(st1.env, addrs))
  {
    hide HeapOk, EvalExpr, Run, Hoist, After, Holding, Clean;
    var e, bound := SimpleExpr(s), !s.Eval?;
    var p := ChosenAt(e, bound, first, freshFns);
    HoistOwning(e, bound, first, freshFns);
    HoldsNothing(st, first);
    addrs := DeclsRun(p.temps, st, st, first, [], o, freshFns, fuel);
    assert [] + addrs == addrs;
    var decls, tail := Decls(p.temps, first), [Inner(s, owner, p.rest)] + Frees(first, |p.temps|);
    RunAllAppend(decls, tail, st, o, freshFns, fuel);
    var (st1, out1) := RunAll(decls, st, o, freshFns, fuel);
    if out1 == Normal {
      HoldingNew(st, st1, first, addrs);
      RestFrees(s, owner, p, st, st1, first, addrs, o, freshFns, fuel);
    }
  }

  /** The statement with its temporaries in place, and their frees. */
  lemma RestFrees(s: Stmt, owner: bool, p: Plan, st: CState, st1: CState, first: nat, addrs: seq<nat>, o: Choices,
      freshFns: FreshFns, fuel: nat)
    requires Applies(s, owner, st) && Holding(st, st1, first, addrs) && |addrs| == |p.temps|
    requires !s.Eval? && p.temps != [] ==> p.rest.Call? && HoistsInto(p.rest.callee, freshFns)
    ensures var (st3, out) := RunAll([Inner(s, owner, p.rest)] + Frees(first, |p.temps|), st1, o, freshFns, fuel);
      (out == Exited && st3.h.freed == st.h.freed) ||
      (out == Normal && HeapOk(st3.h) && st3.h.freed == st.h.freed + OwnFrees(s, owner, st.env) + Reversed(addrs) &&
       (forall k :: 0 <= k < |addrs| ==> addrs[k] !in st3.h.live) && Clean(st3.env, addrs))
  {
    hide HeapOk, EvalExpr, Run, After, Holding, Clean, Applies;
    StartBelow(s, owner, st);
    RunCons(Inner(s, owner, p.rest), Frees(first, |p.temps|), st1, o, freshFns, fuel);
    HoldingBelow(st, st1, first, addrs);
    var (st2, out2) := Run(Inner(s, owner, p.rest), st1, o, freshFns, fuel);
    if s.Assign? && owner {
      var v := OwnerRuns(s, p.rest, st, st1, first, addrs, o, freshFns, fuel);
      var env1 := st1.env + [Var("tiq_old", Lookup(st.env, s.target))];
      OldBelow(s, st, st1);
      NewValue(p, st, st1, env1, first, addrs, o, freshFns);
      if out2 == Normal {
        AfterClean(s, true, st, st1, st2, first, addrs, v);
        Ends(s, true, st, st2, first, addrs, v, o, freshFns, fuel);
      }
    } else {
      var v := EvalExpr(p.rest, st1.env, st1.h, o, freshFns).0;
      if !s.Eval? { NewValue(p, st, st1, st1.env, first, addrs, o, freshFns); }
      NotOwner(s, owner, st, p.rest);
      PlainRuns(s, p.rest, st, st1, first, addrs, o, freshFns, fuel);
      if out2 == Normal {
        AfterClean(s, false, st, st1, st2, first, addrs, v);
        Ends(s, false, st, st2, first, addrs, v, o, freshFns, fuel);
      }
    }
  }

  lemma StartBelow(s: Stmt, owner: bool, st: CState)
    requires Applies(s, owner, st)
    ensures Simple(s) && Starts(st)
  {
  }

  lemma OldBelow(s: Stmt, st: CState, st1: CState)
    requires Applies(s, true, st) && s.Assign? &&
      (forall j :: 0 <= j < |st1.env| ==> Below(st1.env[j].val, st1.h.next)) && st.h.next <= st1.h.next
    ensures forall j :: 0 <= j <= |st1.env| ==>
      Below((st1.env + [Var("tiq_old", Lookup(st.env, s.target))])[j].val, st1.h.next)
  {
  }

  /** No program variable holds one of the strings. */
  predicate Clean(env: Env, addrs: seq<nat>) {
    forall j :: 0 <= j < |env| && Plain(env[j].name) && env[j].val.Ptr? ==> env[j].val.addr !in addrs
  }

  /** The value a binding or an assignment stores is no temporary. */
  lemma NewValue(p: Plan, st: CState, st1: CState, env: Env, first: nat, addrs: seq<nat>, o: Choices,
      freshFns: FreshFns)
    requires Holding(st, st1, first, addrs) && |addrs| == |p.temps| && forall j :: 0 <= j < |env| ==>
      Below(env[j].val, st1.h.next)
    requires p.temps != [] ==> p.rest.Call? && HoistsInto(p.rest.callee, freshFns)
    ensures var v := EvalExpr(p.rest, env, st1.h, o, freshFns).0; v.Ptr? ==> v.addr !in addrs
  {
    if p.temps != [] {
      HoldingHeap(st, st1, first, addrs);
      RestIsOther(p.rest, env, st1.h, o, freshFns);
    }
  }

  lemma AfterClean(s: Stmt, owner: bool, st: CState, st1: CState, st2: CState, first: nat, addrs: seq<nat>, v: Val)
    requires Applies(s, owner, st) && Holding(st, st1, first, addrs) && After(s, owner, st, st2, first, addrs, v)
    requires !s.Eval? && v.Ptr? ==> v.addr !in addrs
    ensures Clean(st2.env, addrs)
  {
    hide HeapOk, TmpName;
    forall k | 0 <= k < |addrs|
      ensures !Plain(TmpVars(first, addrs)[k].name)
    {
      TmpNotPlain(first + k);
      assert TmpVars(first, addrs)[k].name == TmpName(first + k);
    }
    forall j | 0 <= j < |st2.env| && Plain(st2.env[j].name) && st2.env[j].val.Ptr?
      ensures st2.env[j].val.addr !in addrs {
      var x := st2.env[j];
      if j < |st.env| {
        assert x == st.env[j] || x.val == v;
        assert Below(st.env[j].val, st.h.next);
      }
    }
  }

  lemma HoldsNothing(st: CState, first: nat)
    requires Starts(st)
    ensures Holding(st, st, first, [])
  {
    assert st.env + TmpVars(first, []) == st.env;
  }

  lemma HoldingNew(st: CState, st1: CState, first: nat, addrs: seq<nat>)
    requires Holding(st, st1, first, addrs)
    ensures NoRepeats(addrs) && forall k :: 0 <= k < |addrs| ==> st.h.next <= addrs[k]
  {
  }

  lemma NotOwner(s: Stmt, owner: bool, st: CState, rest: Expr)
    requires Applies(s, owner, st) && !(s.Assign? && owner)
    ensures Applies(s, false, st) && Inner(s, owner, rest) == Inner(s, false, rest) &&
      OwnFrees(s, owner, st.env) == OwnFrees(s, false, st.env)
  {
  }

  /** Too many temporaries: the statement is emitted as it is, and none of them is freed. */
  lemma OverflowHoistsNothing(s: Stmt, owner: bool, first: nat, freshFns: FreshFns)
    requires Simple(s)
    ensures |Hoist(SimpleExpr(s), !s.Eval?, first, freshFns).temps| > MAX_HOIST ==>
      EmitSimple(s, owner, first, freshFns) == [Inner(s, owner, SimpleExpr(s))]
  {
  }

  // ---------- the statement as printed and as run ----------

  /** The hidden bindings added to the variables are named in order. */
  predicate Numbered(tv: Env, first: nat) { forall k :: 0 <= k < |tv| ==> tv[k].name == TmpName(first + k) }

  /** Running the declarations computes the hidden bindings. */
  lemma {:induction false} DeclsAre(temps: seq<Expr>, j: nat, st: CState, o: Choices, freshFns: FreshFns, fuel: nat)
    requires !st.h.halted
    ensures var (env1, h1) := EvalTemps(temps, j, st.env, st.h, o, freshFns);
      var (st1, out) := RunAll(Decls(temps, j), st, o, freshFns, fuel);
      if h1.halted then out == Exited && st1.h == h1
      else (st1, out) == (CState(env1, h1), Normal) && |env1| == |st.env| + |temps|
    decreases temps
  {
    hide EvalExpr, RunAll, TmpName;
    if temps == [] {
      RunNothing(st, o, freshFns, fuel);
    } else {
      RunCons(CDecl(TmpName(j), temps[0]), Decls(temps[1..], j + 1), st, o, freshFns, fuel);
      var (v, h1) := EvalExpr(temps[0], st.env, st.h, o, freshFns);
      if !h1.halted {
        var st1 := CState(st.env + [Var(TmpName(j), v)], h1);
        DeclsAre(temps[1..], j + 1, st1, o, freshFns, fuel);
      }
    }
  }

  lemma {:induction false} TempsNumbered(temps: seq<Expr>, j: nat, env: Env, h: Heap, o: Choices, freshFns: FreshFns)
    ensures Numbered(EvalTemps(temps, j, env, h, o, freshFns).0[|env|..], j)
    decreases temps
  {
    hide EvalExpr, TmpName;
    if temps != [] {
      var (v, h1) := EvalExpr(temps[0], env, h, o, freshFns);
      if !h1.halted {
        var env1 := env + [Var(TmpName(j), v)];
        TempsNumbered(temps[1..], j + 1, env1, h1, o, freshFns);
        var env2 := EvalTemps(temps[1..], j + 1, env1, h1, o, freshFns).0;
        assert env2[|env|..] == [env1[|env|]] + env2[|env1|..];
      }
    }
  }

  /** A hidden binding is found where it was declared. */
  lemma HiddenFound(env: Env, tv: Env, more: Env, k: nat)
    requires Numbered(tv, 0) && k < |tv| && forall i :: 0 <= i < |more| ==> Plain(more[i].name)
    ensures Lookup(env + tv + more, TmpName(k)) == tv[k].val
  {
    var all := env + tv + more;
    var i := Find(all, TmpName(k));
    TmpNotPlain(k);
    hide TmpName, Plain;
    assert all[|env| + k] == tv[k];
    if |env| + k < i < |env| + |tv| {
      assert all[i] == tv[i - |env|];
      TmpNamesDiffer(i - |env|, k);
    }
  }

  /** The frees release the hidden bindings, newest first. */
  lemma {:induction false} FreesAre(tv: Env, n: nat, env: Env, h: Heap, o: Choices, freshFns: FreshFns, fuel: nat)
    requires n <= |tv| && forall k :: 0 <= k < n ==> Lookup(env, TmpName(k)) == tv[k].val
    ensures RunAll(Frees(0, n), CState(env, h), o, freshFns, fuel) == (CState(env, ReleaseTemps(tv[..n], h)), Normal)
    decreases n
  {
    hide RunAll, Lookup, TmpName, Release;
    if n == 0 {
      RunNothing(CState(env, h), o, freshFns, fuel);
    } else {
      assert tv[..n][..n - 1] == tv[..n - 1] && tv[..n][n - 1] == tv[n - 1];
      RunCons(CFree(TmpName(n - 1)), Frees(0, n - 1), CState(env, h), o, freshFns, fuel);
      FreeIs(TmpName(n - 1), tv[n - 1].val, CState(env, h), o, freshFns, fuel);
      FreesAre(tv, n - 1, env, Release(tv[n - 1].val, h), o, freshFns, fuel);
    }
  }

  lemma FreeIs(n: string, v: Val, st: CState, o: Choices, freshFns: FreshFns, fuel: nat)
    requires Lookup(st.env, n) == v
    ensures Run(CFree(n), st, o, freshFns, fuel) == (st.(h := Release(v, st.h)), Normal)
  {
  }

  /** The statement proper, below the hidden bindings. */
  lemma InnerRun(s: Stmt, owner: bool, rest: Expr, env: Env, tv: Env, h: Heap, o: Choices, freshFns: FreshFns,
      fuel: nat)
    returns (env2: Env, more: Env, h2: Heap)
    requires Simple(s) && !h.halted && Avoids(rest, "tiq_old") && OnlyTemps(tv)
    requires (s.Bind? ==> Plain(s.name)) && (s.Assign? ==> Plain(s.target))
    ensures |env2| == |env| && (forall i :: 0 <= i < |more| ==> Plain(more[i].name))
    ensures var r := Run(Inner(s, owner, rest), CState(env + tv, h), o, freshFns, fuel);
      r == (CState(env + tv, h2), Exited) || r == (CState(env2 + tv + more, h2), Normal)
  {
    hide EvalExpr, Release, Lookup, Avoids, Find;
    var (v, h1) := EvalExpr(rest, env + tv, h, o, freshFns);
    env2, more, h2 := env, [], h1;
    match s
    case Bind(n, _, _) =>
      more := [Var(n, v)];
      assert env + tv + more == (env + tv) + [Var(n, v)];
    case Assign(n, _) =>
      SetRun(n, rest, owner, env, tv, h, o, freshFns, fuel);
      env2 := Update(env, n, v);
      assert env2 + tv + [] == env2 + tv;
      if owner && !h1.halted { h2 := Release(Lookup(env, n), h1); }
    case Eval(_) => assert env + tv + [] == env + tv;
  }

  lemma RestAvoidsOld(e: Expr, bound: bool, freshFns: FreshFns)
    requires Avoids(e, "tiq_old")
    ensures Avoids(Chosen(e, bound, freshFns).rest, "tiq_old")
  {
    forall k: nat ensures TmpName(k) != "tiq_old" { TmpNotPlain(k); }
    HoistAvoids(e, bound, 0, freshFns, "tiq_old");
  }

  /** `CHoisted` is what the printed declarations, statement and frees do: the same heap, the
      same way of ending and, the hidden bindings aside, the same variables. */
  lemma PrintedRuns(s: Stmt, owner: bool, st: CState, o: Choices, freshFns: FreshFns, fuel: nat)
    requires Simple(s) && !st.h.halted && Avoids(SimpleExpr(s), "tiq_old")
    requires (s.Bind? ==> Plain(s.name)) && (s.Assign? ==> Plain(s.target))
    ensures var p := Chosen(SimpleExpr(s), !s.Eval?, freshFns);
      var (st1, out) := RunAll(EmitSimple(s, owner, 0, freshFns), st, o, freshFns, fuel);
      var (st2, out2) := RunAll([Hoisted(p.temps, Inner(s, owner, p.rest))], st, o, freshFns, fuel);
      out == out2 && st1.h == st2.h && (out == Normal ==> st2.env == Drop(st1.env, |st.env|, |p.temps|))
  {
    hide EvalExpr, RunAll, Run, Hoist, EvalTemps, ReleaseTemps, Avoids, TmpName, Hoisted, Numbered, Decls, Frees, Inner,
      Lookup, Plain, OnlyTemps, Drop;
    var e, p := SimpleExpr(s), Chosen(SimpleExpr(s), !s.Eval?, freshFns);
    var inner, frees := Inner(s, owner, p.rest), Frees(0, |p.temps|);
    RestAvoidsOld(e, !s.Eval?, freshFns);
    assert p.temps == ChosenAt(e, !s.Eval?, 0, freshFns).temps && p.rest == ChosenAt(e, !s.Eval?, 0, freshFns).rest;
    RunAllAppend(Decls(p.temps, 0), [inner] + frees, st, o, freshFns, fuel);
    DeclsAre(p.temps, 0, st, o, freshFns, fuel);
    var (env1, h1) := EvalTemps(p.temps, 0, st.env, st.h, o, freshFns);
    var tv := env1[|st.env|..];
    if h1.halted {
      HoistedHalts(p.temps, inner, st, o, freshFns, fuel);
    } else {
      TempsAreHidden(p.temps, 0, st.env, st.h, o, freshFns);
      TempsNumbered(p.temps, 0, st.env, st.h, o, freshFns);
      assert env1 == st.env + tv;
      var env2, more, h2 := InnerRun(s, owner, p.rest, st.env, tv, h1, o, freshFns, fuel);
      RunCons(inner, frees, CState(env1, h1), o, freshFns, fuel);
      if Run(inner, CState(env1, h1), o, freshFns, fuel).1 == Exited {
        HoistedExits(p.temps, inner, st, h2, o, freshFns, fuel);
      } else {
        HoistedEnds(p.temps, inner, st, env2, more, h2, o, freshFns, fuel);
        forall k | 0 <= k < |tv| ensures Lookup(env2 + tv + more, TmpName(k)) == tv[k].val {
          HiddenFound(env2, tv, more, k);
        }
        FreesAre(tv, |tv|, env2 + tv + more, h2, o, freshFns, fuel);
        assert tv[..|tv|] == tv;
        DropTemps(env2, tv, more);
      }
    }
  }

  lemma DropTemps(env: Env, tv: Env, more: Env)
    ensures Drop(env + tv + more, |env|, |tv|) == env + more
  {
  }

  /** The statements the emitter prints are of this form. */
  lemma EmitsHoisted(s: Stmt, k: Stack, freshFns: FreshFns)
    requires Simple(s)
    ensures var p := Chosen(SimpleExpr(s), !s.Eval?, freshFns);
      var owner := s.Assign? && Swaps(s.target, s.rhs, k, freshFns);
      EmitStmt(s, k, freshFns) == [Hoisted(p.temps, Inner(s, owner, p.rest))]
  {
  }

  // ---------- nobody keeps a freed temporary ----------

  /** Temporaries are handed to builtins only, and computed by builtins only. */
  predicate ThroughBuiltins(e: Expr, freshFns: FreshFns) {
    match e
    case Call(f, args) =>
      f !in freshFns && (f in SAFE_BUILTINS ==> forall i :: 0 <= i < |args| ==> ThroughBuiltins(args[i], freshFns))
    case Cond(_, _, _) => IsOwningInit(e, freshFns) ==> CleanInit(e, freshFns)
    case _ => true
  }

  lemma {:induction false} PlainIsOk(e: Expr, x: string)
    requires PlainExpr(e) && !Plain(x)
    ensures MutExprOk(e, x)
    decreases e
  {
    match e
    case Call(f, args) => forall i | 0 <= i < |args| ensures MutExprOk(args[i], x) { PlainIsOk(args[i], x); }
    case Cond(c, t, e2) => PlainIsOk(c, x); PlainIsOk(t, x); PlainIsOk(e2, x);
    case Compound(kids) => forall i | 0 <= i < |kids| ensures MutExprOk(kids[i], x) { PlainIsOk(kids[i], x); }
    case _ =>
  }

  /** The hidden bindings and what is left pass the escape test for every hidden name. */
  lemma {:induction false} HoistIsOk(e: Expr, bound: bool, first: nat, freshFns: FreshFns, x: string)
    requires PlainExpr(e) && ThroughBuiltins(e, freshFns) && !Plain(x)
    ensures var p := Hoist(e, bound, first, freshFns);
      (forall i :: 0 <= i < |p.temps| ==> MutExprOk(p.temps[i], x) && CleanInit(p.temps[i], freshFns)) &&
      (p.rest.Ident? || MutExprOk(p.rest, x))
    decreases e
  {
    PlainIsOk(e, x);
    if e.Call? && e.callee in SAFE_BUILTINS { HoistAllIsOk(e.args, first, freshFns, x); }
  }

  lemma {:induction false} HoistAllIsOk(es: seq<Expr>, first: nat, freshFns: FreshFns, x: string)
    requires !Plain(x) && forall i :: 0 <= i < |es| ==> PlainExpr(es[i]) && ThroughBuiltins(es[i], freshFns)
    ensures var (temps, rests) := HoistAll(es, first, freshFns);
      (forall i :: 0 <= i < |temps| ==> MutExprOk(temps[i], x) && CleanInit(temps[i], freshFns)) && MutArgsOk(rests, x)
    decreases es
  {
    if es != [] {
      HoistIsOk(es[0], false, first, freshFns, x);
      var n := |Hoist(es[0], false, first, freshFns).temps|;
      HoistAllIsOk(es[1..], first + n, freshFns, x);
    }
  }

  predicate Unkept(h: Heap, addrs: seq<nat>) { forall k :: 0 <= k < |addrs| ==> addrs[k] !in h.kept }

  /** A temporary's string is in its own hidden binding only. */
  lemma OnlyHere(st: CState, st1: CState, env: Env, first: nat, addrs: seq<nat>, k: nat, j: nat)
    requires Starts(st) && Holding(st, st1, first, addrs) && k < |addrs| && j < |env| &&
      env[j].name != TmpName(first + k)
    requires env == st1.env ||
      (|env| == |st1.env| + 1 && env[..|st1.env|] == st1.env && Below(env[|st1.env|].val, st.h.next))
    ensures env[j].val != Ptr(addrs[k])
  {
    hide HeapOk, TmpName, Plain;
    var m := |st.env|;
    if j < m {
      assert env[j] == st1.env[j] == st.env[j];
    } else if j < |st1.env| {
      assert env[j] == st1.env[j] == TmpVars(first, addrs)[j - m];
    }
  }

  /** An expression that passes the test for every hidden name lets nobody keep their strings. */
  lemma EvalUnkept(e: Expr, st: CState, st1: CState, env: Env, first: nat, addrs: seq<nat>, o: Choices,
      freshFns: FreshFns)
    requires Starts(st) && Holding(st, st1, first, addrs) && Unkept(st1.h, addrs) && freshFns.Keys !! SAFE_BUILTINS
    requires env == st1.env ||
      (|env| == |st1.env| + 1 && env[..|st1.env|] == st1.env && Below(env[|st1.env|].val, st.h.next))
    requires e.Ident? || forall x :: !Plain(x) ==> MutExprOk(e, x)
    ensures Unkept(EvalExpr(e, env, st1.h, o, freshFns).1, addrs)
  {
    var h1 := EvalExpr(e, env, st1.h, o, freshFns).1;
    if !e.Ident? {
      hide EvalExpr, HeapOk, TmpName, MutExprOk, TmpVars;
      forall k | 0 <= k < |addrs| ensures addrs[k] !in h1.kept {
        var x := TmpName(first + k);
        forall j | 0 <= j < |env| && env[j].name != x
          ensures env[j].val != Ptr(addrs[k]) { OnlyHere(st, st1, env, first, addrs, k, j); }
        assert !Plain(x);
        EvalAvoids(e, x, addrs[k], env, st1.h, o, freshFns);
      }
    }
  }

  lemma {:induction false} DeclsUnkept(temps: seq<Expr>, st: CState, st1: CState, first: nat, addrs: seq<nat>,
      o: Choices, freshFns: FreshFns, fuel: nat)
    returns (more: seq<nat>)
    requires Starts(st) && Holding(st, st1, first, addrs) && Unkept(st1.h, addrs) && freshFns.Keys !! SAFE_BUILTINS
    requires forall i :: 0 <= i < |temps| ==> CleanInit(temps[i], freshFns) && forall x ::
      !Plain(x) ==> MutExprOk(temps[i], x)
    requires RunAll(Decls(temps, first + |addrs|), st1, o, freshFns, fuel).1 == Normal
    ensures var st2 := RunAll(Decls(temps, first + |addrs|), st1, o, freshFns, fuel).0;
      |more| == |temps| && Holding(st, st2, first, addrs + more) && Unkept(st2.h, addrs + more)
    decreases temps
  {
    more := [];
    if temps == [] {
      assert addrs + [] == addrs;
    } else {
      hide EvalExpr, IsOwningInit, Holding, HeapOk, Starts, TmpName, RunAll, CleanInit, MutExprOk, Plain;
      var e := temps[0];
      HoldingBelow(st, st1, first, addrs);
      HoldingHeap(st, st1, first, addrs);
      CleanInitIsUnkept(e, st1.env, st1.h, o, freshFns);
      EvalUnkept(e, st, st1, st1.env, first, addrs, o, freshFns);
      RunCons(CDecl(TmpName(first + |addrs|), e), Decls(temps[1..], first + |addrs| + 1), st1, o, freshFns, fuel);
      var a := DeclHolds(e, st, st1, first, addrs, o, freshFns);
      var (v, h1) := EvalExpr(e, st1.env, st1.h, o, freshFns);
      var st2 := CState(st1.env + [Var(TmpName(first + |addrs|), v)], h1);
      var tail := DeclsUnkept(temps[1..], st, st2, first, addrs + [a], o, freshFns, fuel);
      more := [a] + tail;
      assert addrs + [a] + tail == addrs + more;
    }
  }

  /** What a statement with its temporaries in place lets others keep. */
  lemma InnerUnkept(s: Stmt, owner: bool, rest: Expr, st: CState, st1: CState, first: nat, addrs: seq<nat>, o: Choices,
      freshFns: FreshFns, fuel: nat)
    requires Applies(s, owner, st) && Holding(st, st1, first, addrs) && Unkept(st1.h, addrs) &&
      freshFns.Keys !! SAFE_BUILTINS
    requires rest.Ident? || forall x :: !Plain(x) ==> MutExprOk(rest, x)
    ensures Unkept(Run(Inner(s, owner, rest), st1, o, freshFns, fuel).0.h, addrs)
  {
    hide EvalExpr, HeapOk, MutExprOk, Plain, Find, Update;
    if s.Assign? && owner {
      var prev := Lookup(st.env, s.target);
      OwnerApart(s, st, st1, first, addrs);
      EvalUnkept(rest, st, st1, st1.env + [Var("tiq_old", prev)], first, addrs, o, freshFns);
      OwnerBlock(s.target, rest, st1, prev, o, freshFns, fuel);
    } else {
      EvalUnkept(rest, st, st1, st1.env, first, addrs, o, freshFns);
    }
  }

  /** When temporaries go to builtins only, a freed temporary is kept by nobody: with no
      program variable holding it, nothing dangles. */
  lemma TemporariesForgotten(s: Stmt, owner: bool, st: CState, first: nat, o: Choices, freshFns: FreshFns, fuel: nat)
      returns (addrs: seq<nat>)
    requires Applies(s, owner, st) && freshFns.Keys !! SAFE_BUILTINS
    requires PlainExpr(SimpleExpr(s)) && ThroughBuiltins(SimpleExpr(s), freshFns)
    requires RunAll(EmitSimple(s, owner, first, freshFns), st, o, freshFns, fuel).1 == Normal
    ensures var st1 := RunAll(EmitSimple(s, owner, first, freshFns), st, o, freshFns, fuel).0;
      st1.h.freed == st.h.freed + OwnFrees(s, owner, st.env) + Reversed(addrs) && Unkept(st1.h, addrs) &&
      Clean(st1.env, addrs)
  {
    hide HeapOk, EvalExpr, Run, Hoist, After, Holding, Clean, MutExprOk, CleanInit, Plain, PlainExpr, ThroughBuiltins;
    var e, bound := SimpleExpr(s), !s.Eval?;
    var p := ChosenAt(e, bound, first, freshFns);
    HoistOwning(e, bound, first, freshFns);
    forall x | !Plain(x) ensures p.rest.Ident? || MutExprOk(p.rest, x) {
      HoistIsOk(e, bound, first, freshFns, x);
      PlainIsOk(e, x);
    }
    forall i | 0 <= i < |p.temps| ensures CleanInit(p.temps[i], freshFns) && forall x :: !Plain(x) ==>
      MutExprOk(p.temps[i], x) {
      NotPlain();
      HoistIsOk(e, bound, first, freshFns, TmpName(0));
      forall x | !Plain(x) ensures MutExprOk(p.temps[i], x) { HoistIsOk(e, bound, first, freshFns, x); }
    }
    HoldsNothing(st, first);
    var decls, tail := Decls(p.temps, first), [Inner(s, owner, p.rest)] + Frees(first, |p.temps|);
    RunAllAppend(decls, tail, st, o, freshFns, fuel);
    addrs := DeclsUnkept(p.temps, st, st, first, [], o, freshFns, fuel);
    assert [] + addrs == addrs;
    var st1 := RunAll(decls, st, o, freshFns, fuel).0;
    RestFrees(s, owner, p, st, st1, first, addrs, o, freshFns, fuel);
    InnerUnkept(s, owner, p.rest, st, st1, first, addrs, o, freshFns, fuel);
    RunCons(Inner(s, owner, p.rest), Frees(first, |p.temps|), st1, o, freshFns, fuel);
    FreesKept(first, |p.temps|, Run(Inner(s, owner, p.rest), st1, o, freshFns, fuel).0, o, freshFns, fuel);
  }

  lemma NotPlain()
    ensures !Plain(TmpName(0))
  {
  }

  lemma {:induction false} FreesKept(first: nat, n: nat, st: CState, o: Choices, freshFns: FreshFns, fuel: nat)
    ensures RunAll(Frees(first, n), st, o, freshFns, fuel).0.h.kept == st.h.kept
    decreases n
  {
    if n > 0 {
      RunCons(CFree(TmpName(first + n - 1)), Frees(first, n - 1), st, o, freshFns, fuel);
      FreesKept(first, n - 1, st.(h := Release(Lookup(st.env, TmpName(first + n - 1)), st.h)), o, freshFns, fuel);
    }
  }
}
