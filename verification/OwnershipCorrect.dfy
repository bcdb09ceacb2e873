/** Running the emitted C has exactly the effect the language gives the source
    program: same variables, same heap, same frees in the same order, same way
    of ending, for every program, every sequence of choices and every amount of
    fuel. */
module OwnershipCorrect {
  import opened OwnershipSyntax
  import opened OwnershipTemps
  import opened OwnershipRun
  import opened OwnershipRef
  import opened OwnershipEmit

  // ---------- how the scope stack lines up with the variables ----------

  function Names(env: Env): set<string> { set i | 0 <= i < |env| :: env[i].name }

  predicate NoDup(env: Env) {
    forall i, j :: 0 <= i < j < |env| ==> env[i].name != env[j].name
  }

  /** Number of bindings among the first `i` statements. */
  function BindCount(sc: Scope, i: nat): nat
    requires i <= |sc.stmts|
  {
    if i == 0 then 0 else BindCount(sc, i - 1) + if sc.stmts[i - 1].Bind? then 1 else 0
  }

  /** The variables just below `hi` are the bindings among the first `i`
      statements of `sc`. */
  predicate SlotsMatch(sc: Scope, i: nat, env: Env, own: seq<Own>, hi: int, freshFns: FreshFns)
    requires i <= |sc.stmts| && |own| == |env| && hi <= |env|
    ensures SlotsMatch(sc, i, env, own, hi, freshFns) ==> BindCount(sc, i) <= hi
  {
    if i == 0 then 0 <= hi
    else if sc.stmts[i - 1].Bind? then
      hi > 0 && env[hi - 1].name == sc.stmts[i - 1].name && own[hi - 1] == OwnAt(sc, i - 1, freshFns) &&
      SlotsMatch(sc, i - 1, env, own, hi - 1, freshFns)
    else SlotsMatch(sc, i - 1, env, own, hi, freshFns)
  }

  /** Bindings of `sc` have names of their own, none of them in `outer`. */
  predicate ScopeFresh(sc: Scope, outer: set<string>) {
    (forall i :: 0 <= i < |sc.stmts| && sc.stmts[i].Bind? ==> sc.stmts[i].name !in outer) &&
    forall i, j :: 0 <= i < j < |sc.stmts| && sc.stmts[i].Bind? && sc.stmts[j].Bind? ==>
      sc.stmts[i].name != sc.stmts[j].name
  }

  function Base(s: EmitScope, hi: int): int
    requires s.emitted <= |s.sc.stmts|
  {
    hi - BindCount(s.sc, s.emitted)
  }

  /** The first `hi` variables without the hidden ones at their end. */
  function InSight(own: seq<Own>, hi: nat): (r: nat)
    requires hi <= |own|
    ensures r <= hi && (r > 0 ==> !own[r - 1].Hidden?)
    ensures forall i :: r <= i < hi ==> own[i].Hidden?
  {
    if hi > 0 && own[hi - 1].Hidden? then InSight(own, hi - 1) else hi
  }

  /** The variables in sight below those of the innermost scope. */
  function Bottom(s: EmitScope, own: seq<Own>, hi: nat): nat
    requires s.emitted <= |s.sc.stmts| && BindCount(s.sc, s.emitted) <= hi <= |own|
  {
    InSight(own, Base(s, hi))
  }

  /** The variables below `hi` are those of the scopes on the stack, up to hidden ones
      between two scopes. */
  predicate Aligned(scopes: seq<EmitScope>, hi: int, env: Env, own: seq<Own>, freshFns: FreshFns)
    requires |own| == |env|
  {
    0 <= hi <= |env| &&
    if scopes == [] then forall i :: 0 <= i < hi ==> !Active(own[i])
    else
      var s := scopes[|scopes| - 1];
      var h := InSight(own, hi);
      s.emitted <= |s.sc.stmts| &&
      SlotsMatch(s.sc, s.emitted, env, own, h, freshFns) &&
      var b := Bottom(s, own, h);
      ScopeFresh(s.sc, Names(env[..b])) && Aligned(scopes[..|scopes| - 1], b, env, own, freshFns)
  }

  /** Where the variables of the innermost loop body start. */
  function LoopBase(scopes: seq<EmitScope>, hi: int, env: Env, own: seq<Own>, freshFns: FreshFns): (b: int)
    requires |own| == |env| && Aligned(scopes, hi, env, own, freshFns)
    ensures 0 <= b <= InSight(own, hi)
  {
    if scopes == [] then InSight(own, hi)
    else
      var s, h := scopes[|scopes| - 1], InSight(own, hi);
      if s.isLoop then Bottom(s, own, h)
      else LoopBase(scopes[..|scopes| - 1], Bottom(s, own, h), env, own, freshFns)
  }

  /** Where the variables of the outermost scope start. */
  function ExitBase(scopes: seq<EmitScope>, hi: int, env: Env, own: seq<Own>, freshFns: FreshFns): (b: int)
    requires |own| == |env| && Aligned(scopes, hi, env, own, freshFns)
    ensures 0 <= b <= InSight(own, hi)
  {
    if scopes == [] then InSight(own, hi)
    else
      var s, h := scopes[|scopes| - 1], InSight(own, hi);
      ExitBase(scopes[..|scopes| - 1], Bottom(s, own, h), env, own, freshFns)
  }

  /** The innermost scope and the others. */
  predicate TopAligned(outer: seq<EmitScope>, s: EmitScope, hi: nat, env: Env, own: seq<Own>, freshFns: FreshFns)
    requires |own| == |env|
  {
    hi <= |env| && s.emitted <= |s.sc.stmts| &&
    var h := InSight(own, hi);
    SlotsMatch(s.sc, s.emitted, env, own, h, freshFns) &&
    var b := Bottom(s, own, h);
    ScopeFresh(s.sc, Names(env[..b])) && Aligned(outer, b, env, own, freshFns)
  }

  lemma AlignedTop(outer: seq<EmitScope>, s: EmitScope, hi: nat, env: Env, own: seq<Own>, freshFns: FreshFns)
    requires |own| == |env|
    ensures Aligned(outer + [s], hi, env, own, freshFns) <==> TopAligned(outer, s, hi, env, own, freshFns)
    ensures Aligned(outer + [s], hi, env, own, freshFns) ==>
      var b := Bottom(s, own, InSight(own, hi));
      LoopBase(outer + [s], hi, env, own, freshFns) ==
        (if s.isLoop then b else LoopBase(outer, b, env, own, freshFns)) &&
      ExitBase(outer + [s], hi, env, own, freshFns) == ExitBase(outer, b, env, own, freshFns)
  {
    hide SlotsMatch, ScopeFresh, Names;
    var all := outer + [s];
    assert all[..|all| - 1] == outer;
  }

  /** Same names and ownership below `n`. */
  predicate SamePrefix(env: Env, own: seq<Own>, env': Env, own': seq<Own>, n: nat)
    requires |own| == |env| && |own'| == |env'|
  {
    n <= |env| && n <= |env'| && own[..n] == own'[..n] &&
    forall i :: 0 <= i < n ==> env[i].name == env'[i].name
  }

  lemma SlotsMatchFrame(sc: Scope, i: nat, env: Env, own: seq<Own>, env': Env, own': seq<Own>, hi: int,
      freshFns: FreshFns)
    requires i <= |sc.stmts| && |own| == |env| && |own'| == |env'| && 0 <= hi
    requires SamePrefix(env, own, env', own', hi)
    ensures SlotsMatch(sc, i, env, own, hi, freshFns) == SlotsMatch(sc, i, env', own', hi, freshFns)
  {
    if i > 0 {
      if sc.stmts[i - 1].Bind? {
        if hi > 0 {
          assert own[..hi][hi - 1] == own'[..hi][hi - 1];
          assert own[..hi][..hi - 1] == own[..hi - 1] && own'[..hi][..hi - 1] == own'[..hi - 1];
          SlotsMatchFrame(sc, i - 1, env, own, env', own', hi - 1, freshFns);
        }
      } else {
        SlotsMatchFrame(sc, i - 1, env, own, env', own', hi, freshFns);
      }
    }
  }

  lemma NamesFrame(env: Env, env': Env, n: nat)
    requires n <= |env| && n <= |env'| && forall i :: 0 <= i < n ==> env[i].name == env'[i].name
    ensures Names(env[..n]) == Names(env'[..n])
  {
    forall x ensures x in Names(env[..n]) <==> x in Names(env'[..n]) {
      if x in Names(env[..n]) {
        var i :| 0 <= i < n && env[..n][i].name == x;
        assert env'[..n][i].name == x;
      }
      if x in Names(env'[..n]) {
        var i :| 0 <= i < n && env'[..n][i].name == x;
        assert env[..n][i].name == x;
      }
    }
  }

  lemma {:induction false} InSightFrame(own: seq<Own>, own': seq<Own>, hi: nat)
    requires hi <= |own| && hi <= |own'| && own[..hi] == own'[..hi]
    ensures InSight(own, hi) == InSight(own', hi)
    decreases hi
  {
    if hi > 0 {
      assert own[..hi][hi - 1] == own'[..hi][hi - 1];
      assert own[..hi][..hi - 1] == own[..hi - 1] && own'[..hi][..hi - 1] == own'[..hi - 1];
      InSightFrame(own, own', hi - 1);
    }
  }

  lemma InSightFixed(own: seq<Own>, hi: nat)
    requires hi <= |own| && (hi > 0 ==> !own[hi - 1].Hidden?)
    ensures InSight(own, hi) == hi
  {
  }

  lemma SamePrefixLess(env: Env, own: seq<Own>, env': Env, own': seq<Own>, n: nat, m: nat)
    requires |own| == |env| && |own'| == |env'| && m <= n && SamePrefix(env, own, env', own', n)
    ensures SamePrefix(env, own, env', own', m)
  {
    assert own[..n][..m] == own[..m] && own'[..n][..m] == own'[..m];
  }

  lemma {:induction false} AlignedFrame(scopes: seq<EmitScope>, hi: int, env: Env, own: seq<Own>, env': Env,
      own': seq<Own>, freshFns: FreshFns)
    requires |own| == |env| && |own'| == |env'|
    requires Aligned(scopes, hi, env, own, freshFns) && SamePrefix(env, own, env', own', hi)
    ensures Aligned(scopes, hi, env', own', freshFns)
    ensures LoopBase(scopes, hi, env, own, freshFns) == LoopBase(scopes, hi, env', own', freshFns)
    ensures ExitBase(scopes, hi, env, own, freshFns) == ExitBase(scopes, hi, env', own', freshFns)
    decreases |scopes|
  {
    InSightFrame(own, own', hi);
    if scopes == [] {
      forall i | 0 <= i < hi ensures !Active(own'[i]) {
        assert own'[i] == own'[..hi][i] == own[..hi][i];
      }
    } else {
      var s, h := scopes[|scopes| - 1], InSight(own, hi);
      var b := Bottom(s, own, h);
      SamePrefixLess(env, own, env', own', hi, h);
      SlotsMatchFrame(s.sc, s.emitted, env, own, env', own', h, freshFns);
      SamePrefixLess(env, own, env', own', hi, Base(s, h));
      InSightFrame(own, own', Base(s, h));
      SamePrefixLess(env, own, env', own', hi, b);
      NamesFrame(env, env', b);
      AlignedFrame(scopes[..|scopes| - 1], b, env, own, env', own', freshFns);
    }
  }

  // ---------- variables ----------

  lemma FindUnique(env: Env, i: int)
    requires NoDup(env) && 0 <= i < |env|
    ensures Find(env, env[i].name) == i
  {
  }

  lemma FindNames(env: Env, n: string)
    ensures Find(env, n) >= 0 <==> n in Names(env)
  {
  }

  lemma FindPush(env: Env, x: Var, n: string)
    requires n != x.name
    ensures Find(env + [x], n) == Find(env, n)
    ensures Lookup(env + [x], n) == Lookup(env, n)
    ensures forall v :: Update(env + [x], n, v) == Update(env, n, v) + [x]
  {
    assert (env + [x])[..|env|] == env;
  }

  /** A variable an expression does not mention does not matter to it. */
  lemma EvalIgnores(e: Expr, env: Env, x: Var, h: Heap, o: Choices, freshFns: FreshFns)
    requires Avoids(e, x.name)
    ensures EvalExpr(e, env + [x], h, o, freshFns) == EvalExpr(e, env, h, o, freshFns)
    decreases e
  {
    match e
    case Lit =>
    case Ident(n) => FindPush(env, x, n);
    case Call(f, args) => EvalAllIgnores(args, env, x, h, o, freshFns);
    case Cond(c, t, e2) =>
      EvalIgnores(c, env, x, h, o, freshFns);
      var h1 := Tick(EvalExpr(c, env, h, o, freshFns).1);
      EvalIgnores(t, env, x, h1, o, freshFns);
      EvalIgnores(e2, env, x, h1, o, freshFns);
    case Compound(kids) => EvalAllIgnores(kids, env, x, h, o, freshFns);
  }

  lemma EvalAllIgnores(es: seq<Expr>, env: Env, x: Var, h: Heap, o: Choices, freshFns: FreshFns)
    requires AllAvoid(es, x.name)
    ensures EvalAll(es, env + [x], h, o, freshFns) == EvalAll(es, env, h, o, freshFns)
    decreases es
  {
    if es != [] {
      EvalIgnores(es[0], env, x, h, o, freshFns);
      EvalAllIgnores(es[1..], env, x, EvalExpr(es[0], env, h, o, freshFns).1, o, freshFns);
    }
  }

  // ---------- frees ----------

  lemma {:induction false} DestroySplit(env: Env, own: seq<Own>, h: Heap, mid: nat, lo: nat)
    requires |own| == |env| && lo <= mid <= |env|
    ensures Destroy(env, own, h, lo) == Destroy(env[..mid], own[..mid], Destroy(env, own, h, mid), lo)
    decreases |env|
  {
    if |env| == mid {
      assert env[..mid] == env && own[..mid] == own;
    } else {
      var k := |env| - 1;
      var h1 := if Active(own[k]) then Release(env[k].val, h) else h;
      DestroySplit(env[..k], own[..k], h1, mid, lo);
      assert env[..k][..mid] == env[..mid] && own[..k][..mid] == own[..mid];
    }
  }

  /** Destroying skips variables that own nothing in sight. */
  lemma {:induction false} DestroySkips(env: Env, own: seq<Own>, h: Heap, hi: nat, lo: nat)
    requires |own| == |env| && lo <= hi <= |env|
    requires forall i :: hi <= i < |own| ==> !Active(own[i])
    ensures Destroy(env, own, h, lo) == Destroy(env[..hi], own[..hi], h, lo)
    decreases |env|
  {
    if |env| == hi {
      assert env[..hi] == env && own[..hi] == own;
    } else {
      var k := |env| - 1;
      DestroySkips(env[..k], own[..k], h, hi, lo);
      assert env[..k][..hi] == env[..hi] && own[..k][..hi] == own[..hi];
    }
  }

  /** The same, below `hi`. */
  lemma DestroyInSight(env: Env, own: seq<Own>, h: Heap, hi: nat, lo: nat)
    requires |own| == |env| && hi <= |env| && lo <= InSight(own, hi)
    ensures var s := InSight(own, hi);
      Destroy(env[..hi], own[..hi], h, lo) == Destroy(env[..s], own[..s], h, lo)
  {
    var s := InSight(own, hi);
    DestroySkips(env[..hi], own[..hi], h, s, lo);
    assert env[..hi][..s] == env[..s] && own[..hi][..s] == own[..s];
  }

  /** Destroying down from `hi`, past the variables of a scope starting at `base`. */
  lemma FreesSplit(env: Env, own: seq<Own>, h: Heap, hi: nat, base: nat, lo: nat)
    requires |own| == |env| && hi <= |env| && base <= InSight(own, hi) && lo <= InSight(own, base)
    ensures var top, b := InSight(own, hi), InSight(own, base);
      Destroy(env[..hi], own[..hi], h, lo) ==
      Destroy(env[..b], own[..b], Destroy(env[..top], own[..top], h, base), lo)
  {
    var top := InSight(own, hi);
    DestroyInSight(env, own, h, hi, lo);
    DestroySplit(env[..top], own[..top], h, base, lo);
    assert env[..top][..base] == env[..base] && own[..top][..base] == own[..base];
    DestroyInSight(env, own, Destroy(env[..top], own[..top], h, base), base, lo);
  }

  lemma RunOne(c: CStmt, st: CState, o: Choices, freshFns: FreshFns, fuel: nat)
    ensures RunAll([c], st, o, freshFns, fuel) == Run(c, st, o, freshFns, fuel)
  {
    assert [c][1..] == [];
  }

  lemma RunCons(c: CStmt, cs: seq<CStmt>, st: CState, o: Choices, freshFns: FreshFns, fuel: nat)
    ensures RunAll([c] + cs, st, o, freshFns, fuel) ==
            var (st1, out) := Run(c, st, o, freshFns, fuel);
            if out == Normal then RunAll(cs, st1, o, freshFns, fuel) else (st1, out)
  {
    assert ([c] + cs)[1..] == cs;
  }

  /** A free releases its variable's string. */
  lemma FreeRun(env: Env, k: int, rest: seq<CStmt>, h: Heap, o: Choices, freshFns: FreshFns, fuel: nat)
    requires NoDup(env) && 0 <= k < |env|
    ensures RunAll([CFree(env[k].name)] + rest, CState(env, h), o, freshFns, fuel) ==
            RunAll(rest, CState(env, Release(env[k].val, h)), o, freshFns, fuel)
  {
    hide RunAll, Release, NoDup;
    FindUnique(env, k);
    RunCons(CFree(env[k].name), rest, CState(env, h), o, freshFns, fuel);
  }

  /** Destroying down from `hi` starts with the variable just below it. */
  lemma DestroyStep(env: Env, own: seq<Own>, hi: int, h: Heap, lo: nat)
    requires |own| == |env| && lo < hi <= |env|
    ensures Destroy(env[..hi], own[..hi], h, lo) ==
      Destroy(env[..hi - 1], own[..hi - 1], if Active(own[hi - 1]) then Release(env[hi - 1].val, h) else h, lo)
  {
    hide Release;
    assert env[..hi][..hi - 1] == env[..hi - 1] && own[..hi][..hi - 1] == own[..hi - 1];
  }

  lemma NothingToDestroy(env: Env, own: seq<Own>, hi: int, h: Heap)
    requires |own| == |env| && 0 <= hi <= |env|
    ensures Destroy(env[..hi], own[..hi], h, hi) == h
  {
  }

  /** The frees of one more statement. */
  lemma ScopeFreesStep(sc: Scope, i: nat, freshFns: FreshFns)
    requires 0 < i <= |sc.stmts|
    ensures var rest := ScopeFrees(sc, i - 1, -1, freshFns);
      ScopeFrees(sc, i, -1, freshFns) ==
        if sc.stmts[i - 1].Bind? && OwnAt(sc, i - 1, freshFns) != NotOwner then [CFree(sc.stmts[i - 1].name)] + rest
          else rest
  {
    assert [] + ScopeFrees(sc, i - 1, -1, freshFns) == ScopeFrees(sc, i - 1, -1, freshFns);
  }

  /** Running a scope's frees destroys the variables of its bindings. */
  lemma {:induction false} ScopeFreesRun(sc: Scope, i: nat, env: Env, own: seq<Own>, hi: int, h: Heap,
                                         o: Choices, freshFns: FreshFns, fuel: nat)
    requires i <= |sc.stmts| && |own| == |env| && 0 <= hi <= |env|
    requires NoDup(env) && SlotsMatch(sc, i, env, own, hi, freshFns)
    ensures RunAll(ScopeFrees(sc, i, -1, freshFns), CState(env, h), o, freshFns, fuel) ==
            (CState(env, Destroy(env[..hi], own[..hi], h, hi - BindCount(sc, i))), Normal)
    decreases i
  {
    hide Destroy, ScopeFrees, RunAll, OwnAt, Release, NoDup;
    if i == 0 {
      NoFrees(sc, freshFns);
      RunNothing(CState(env, h), o, freshFns, fuel);
      NothingToDestroy(env, own, hi, h);
    } else {
      ScopeFreesStep(sc, i, freshFns);
      if sc.stmts[i - 1].Bind? {
        var k := hi - 1;
        var h1 := if Active(own[k]) then Release(env[k].val, h) else h;
        ScopeFreesRun(sc, i - 1, env, own, k, h1, o, freshFns, fuel);
        DestroyStep(env, own, hi, h, hi - BindCount(sc, i));
        if Active(own[k]) { FreeRun(env, k, ScopeFrees(sc, i - 1, -1, freshFns), h, o, freshFns, fuel); }
      } else {
        ScopeFreesRun(sc, i - 1, env, own, hi, h, o, freshFns, fuel);
      }
    }
  }

  lemma NoFrees(sc: Scope, freshFns: FreshFns)
    ensures ScopeFrees(sc, 0, -1, freshFns) == []
  {
  }

  lemma RunNothing(st: CState, o: Choices, freshFns: FreshFns, fuel: nat)
    ensures RunAll([], st, o, freshFns, fuel) == (st, Normal)
  {
  }

  lemma {:induction false} JumpFreesRun(scopes: seq<EmitScope>, hi: int, env: Env, own: seq<Own>, h: Heap,
                                        o: Choices, freshFns: FreshFns, fuel: nat)
    requires |own| == |env| && NoDup(env) && Aligned(scopes, hi, env, own, freshFns)
    ensures RunAll(JumpFrees(scopes, freshFns), CState(env, h), o, freshFns, fuel) ==
            (CState(env, Destroy(env[..hi], own[..hi], h, LoopBase(scopes, hi, env, own, freshFns))), Normal)
    decreases |scopes|
  {
    hide Destroy, ScopeFrees, RunAll, NoDup, SlotsMatch, ScopeFresh;
    var top := InSight(own, hi);
    if scopes == [] {
      RunNothing(CState(env, h), o, freshFns, fuel);
      DestroyInSight(env, own, h, hi, top);
      NothingToDestroy(env, own, top, h);
    } else {
      var s := scopes[|scopes| - 1];
      SlotsBound(s.sc, s.emitted, env, own, top, freshFns);
      var base, b := Base(s, top), Bottom(s, own, top);
      var first := ScopeFrees(s.sc, s.emitted, -1, freshFns);
      ScopeFreesRun(s.sc, s.emitted, env, own, top, h, o, freshFns, fuel);
      var h1 := Destroy(env[..top], own[..top], h, base);
      if s.isLoop {
        assert JumpFrees(scopes, freshFns) == first;
        FreesSplit(env, own, h, hi, base, b);
        NothingToDestroy(env, own, b, h1);
      } else {
        var outer := scopes[..|scopes| - 1];
        var rest := JumpFrees(outer, freshFns);
        assert JumpFrees(scopes, freshFns) == first + rest;
        RunAllAppend(first, rest, CState(env, h), o, freshFns, fuel);
        JumpFreesRun(outer, b, env, own, h1, o, freshFns, fuel);
        assert RunAll(first + rest, CState(env, h), o, freshFns, fuel) ==
               RunAll(rest, CState(env, h1), o, freshFns, fuel);
        FreesSplit(env, own, h, hi, base, LoopBase(outer, b, env, own, freshFns));
      }
    }
  }

  lemma {:induction false} ExitFreesRun(scopes: seq<EmitScope>, hi: int, env: Env, own: seq<Own>, h: Heap,
                                        o: Choices, freshFns: FreshFns, fuel: nat)
    requires |own| == |env| && NoDup(env) && Aligned(scopes, hi, env, own, freshFns)
    ensures RunAll(ExitFrees(scopes, freshFns), CState(env, h), o, freshFns, fuel) ==
            (CState(env, Destroy(env[..hi], own[..hi], h, ExitBase(scopes, hi, env, own, freshFns))), Normal)
    decreases |scopes|
  {
    hide Destroy, ScopeFrees, RunAll, NoDup, SlotsMatch, ScopeFresh;
    var top := InSight(own, hi);
    if scopes == [] {
      RunNothing(CState(env, h), o, freshFns, fuel);
      DestroyInSight(env, own, h, hi, top);
      NothingToDestroy(env, own, top, h);
    } else {
      var s := scopes[|scopes| - 1];
      SlotsBound(s.sc, s.emitted, env, own, top, freshFns);
      var base, b := Base(s, top), Bottom(s, own, top);
      var first := ScopeFrees(s.sc, s.emitted, -1, freshFns);
      var outer := scopes[..|scopes| - 1];
      ScopeFreesRun(s.sc, s.emitted, env, own, top, h, o, freshFns, fuel);
      RunAllAppend(first, ExitFrees(outer, freshFns), CState(env, h), o, freshFns, fuel);
      var h1 := Destroy(env[..top], own[..top], h, base);
      ExitFreesRun(outer, b, env, own, h1, o, freshFns, fuel);
      FreesSplit(env, own, h, hi, base, ExitBase(outer, b, env, own, freshFns));
    }
  }

  lemma SlotsBound(sc: Scope, i: nat, env: Env, own: seq<Own>, hi: int, freshFns: FreshFns)
    requires i <= |sc.stmts| && |own| == |env| && hi <= |env| && SlotsMatch(sc, i, env, own, hi, freshFns)
    ensures BindCount(sc, i) <= hi
  {
  }

  // ---------- finding the owner of a reassigned name ----------

  lemma {:induction false} SlotOf(sc: Scope, i: nat, env: Env, own: seq<Own>, hi: int, p: int, freshFns: FreshFns)
    returns (j: nat)
    requires i <= |sc.stmts| && |own| == |env| && 0 <= hi <= |env|
    requires SlotsMatch(sc, i, env, own, hi, freshFns)
    requires hi - BindCount(sc, i) <= p < hi
    ensures j < i && sc.stmts[j].Bind? && sc.stmts[j].name == env[p].name && own[p] == OwnAt(sc, j, freshFns)
    decreases i
  {
    if sc.stmts[i - 1].Bind? && p == hi - 1 {
      j := i - 1;
    } else {
      j := SlotOf(sc, i - 1, env, own, if sc.stmts[i - 1].Bind? then hi - 1 else hi, p, freshFns);
    }
  }

  /** The emitter's search of the scope stack finds out what a variable in sight owns. */
  lemma {:induction false} ReassignsOwnerIff(scopes: seq<EmitScope>, hi: int, env: Env, own: seq<Own>, p: int,
      freshFns: FreshFns)
    requires |own| == |env| && NoDup(env) && Aligned(scopes, hi, env, own, freshFns)
    requires 0 <= p < hi && !own[p].Hidden?
    ensures ReassignsOwner(scopes, env[p].name, freshFns) <==> own[p] == MutOwner
    decreases |scopes|
  {
    if scopes != [] {
      var s, h := scopes[|scopes| - 1], InSight(own, hi);
      var b := Bottom(s, own, h);
      var n := env[p].name;
      if p < Base(s, h) {
        assert p < b;
        assert env[..b][p].name == n;
        assert n in Names(env[..b]);
        ReassignsOwnerIff(scopes[..|scopes| - 1], b, env, own, p, freshFns);
      } else {
        var j := SlotOf(s.sc, s.emitted, env, own, h, p, freshFns);
        assert Declares(s.sc, n, 0) == j;
      }
    }
  }

  /** The scopes on the stack. */
  function ScopesOf(scopes: seq<EmitScope>): (r: seq<Scope>)
    ensures |r| == |scopes|
  {
    seq(|scopes|, i requires 0 <= i < |scopes| => scopes[i].sc)
  }

  /** A hidden variable is not on the stack: the search finds what else has its name. */
  lemma {:induction false} ReassignsIsSearch(scopes: seq<EmitScope>, n: string, freshFns: FreshFns)
    ensures ReassignsOwner(scopes, n, freshFns) == SearchOwner(ScopesOf(scopes), n, freshFns)
    decreases |scopes|
  {
    if scopes != [] {
      assert ScopesOf(scopes)[..|scopes| - 1] == ScopesOf(scopes[..|scopes| - 1]);
      ReassignsIsSearch(scopes[..|scopes| - 1], n, freshFns);
    }
  }
}
