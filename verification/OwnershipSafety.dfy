/** Ownership accounting over every run of the source semantics: nothing is
    freed twice or before it is bound, and every string handed to an owner ends
    up freed, still owned, or on the list of leaks, unless the run frees the value
    of a variable that owns nothing. */
module OwnershipSafety {
  import opened OwnershipSyntax
  import opened OwnershipTemps
  import opened OwnershipRun
  import opened OwnershipRef
  import opened OwnershipCorrect
  import opened OwnershipSim

  // ---------- the invariant ----------

  predicate Below(v: Val, n: nat) { v.Ptr? ==> v.addr < n }

  predicate AllBelow(env: Env, n: nat) { forall i :: 0 <= i < |env| ==> Below(env[i].val, n) }

  predicate NoRepeats(s: seq<nat>) { forall i, j :: 0 <= i < j < |s| ==> s[i] != s[j] }

  predicate HeapOk(h: Heap) {
    !h.bad && NoRepeats(h.freed) &&
    (forall a :: a in h.live ==> a < h.next) &&
    (forall a :: a in h.kept ==> a < h.next) &&
    (forall i :: 0 <= i < |h.freed| ==> h.freed[i] < h.next && h.freed[i] !in h.live)
  }

  /** Owners hold live strings, no two the same one. */
  predicate OwnersOk(env: Env, own: seq<Own>, h: Heap)
    requires |own| == |env|
  {
    (forall i :: 0 <= i < |own| && Owns(own[i]) ==> env[i].val.Ptr? && env[i].val.addr in h.live) &&
    forall i, j :: 0 <= i < j < |own| && Owns(own[i]) && Owns(own[j]) ==> env[i].val != env[j].val
  }

  /** Addresses in use have been handed out. */
  predicate Bounded(r: RState) {
    AllBelow(r.c.env, r.c.h.next) && (forall a :: a in r.c.h.kept ==> a < r.c.h.next) &&
    forall i :: 0 <= i < |r.bound| ==> r.bound[i] < r.c.h.next
  }

  predicate Sound(r: RState) { HeapOk(r.c.h) && OwnersOk(r.c.env, r.own, r.c.h) && NoRepeats(r.bound) }

  /** By how much the strings freed, still owned or given up outnumber those bound. */
  function Excess(r: RState, a: nat): int {
    Count(r.c.h.freed, a) + OwnedCount(r.c.env, r.own, 0, a) + Count(r.leaked, a) - Count(r.bound, a)
  }

  /** Every string ever handed to an owner has been freed, is still owned, or has
      been given up as a leak. */
  ghost predicate Balanced(r: RState) { forall a :: Excess(r, a) == 0 }

  /** Something else was freed, too. */
  ghost predicate Off(r: RState) { r.c.h.bad || exists a :: Excess(r, a) > 0 }

  ghost predicate Inv(r: RState) { Bounded(r) && if r.astray then Off(r) else Sound(r) && Balanced(r) }

  function Count(s: seq<nat>, a: nat): nat { multiset(s)[a] }

  /** How many of the variables from `lo` on own address `a`. */
  function OwnedCount(env: Env, own: seq<Own>, lo: nat, a: nat): nat
    requires |own| == |env|
    decreases |env|
  {
    if |env| <= lo then 0
    else
      var k := |env| - 1;
      OwnedCount(env[..k], own[..k], lo, a) + OwnedBy(own[k], env[k].val, a)
  }

  function OwnedBy(k: Own, v: Val, a: nat): nat { if Owns(k) && Addr(v) == a then 1 else 0 }

  /** The accounts are as balanced, or as far off, as before. */
  ghost predicate Keeps(r: RState, r1: RState) {
    (r.c.h.bad ==> r1.c.h.bad) && (!r1.c.h.bad ==> forall a :: Excess(r1, a) == Excess(r, a))
  }

  lemma StepInv(r: RState, r1: RState)
    requires Inv(r) && Bounded(r1) && Keeps(r, r1) && r1.astray == r.astray && (!r.astray ==> Sound(r1))
    ensures Inv(r1)
  {
    hide Excess, Bounded;
    if r.astray && !r1.c.h.bad {
      var a :| Excess(r, a) > 0;
      assert Excess(r1, a) == Excess(r, a);
    }
  }

  // ---------- expressions ----------

  /** What evaluation may do to the heap. */
  predicate Allocates(h: Heap, h': Heap) {
    h.next <= h'.next && h.live <= h'.live && h'.freed == h.freed && h'.bad == h.bad &&
    (forall a :: a in h'.live && a !in h.live ==> h.next <= a < h'.next) &&
    (forall a :: a in h'.kept ==> a in h.kept || a < h'.next)
  }

  lemma ApplyAllocates(f: string, vs: seq<Val>, h: Heap, o: Choices, freshFns: FreshFns)
    requires forall a :: a in h.kept ==> a < h.next
    requires forall i :: 0 <= i < |vs| ==> Below(vs[i], h.next)
    ensures var (v, h') := Apply(f, vs, h, o, freshFns); Allocates(h, h') && Below(v, h'.next)
  {
  }

  lemma {:induction false} EvalAllocates(e: Expr, env: Env, h: Heap, o: Choices, freshFns: FreshFns)
    requires AllBelow(env, h.next) && forall a :: a in h.kept ==> a < h.next
    ensures var (v, h') := EvalExpr(e, env, h, o, freshFns); Allocates(h, h') && Below(v, h'.next)
    decreases e
  {
    hide Apply;
    match e
    case Lit =>
    case Ident(n) =>
    case Call(f, args) =>
      EvalAllAllocates(args, env, h, o, freshFns);
      var (vs, h1) := EvalAll(args, env, h, o, freshFns);
      ApplyAllocates(f, vs, h1, o, freshFns);
    case Cond(c, t, e2) =>
      EvalAllocates(c, env, h, o, freshFns);
      var h1 := Tick(EvalExpr(c, env, h, o, freshFns).1);
      EvalAllocates(t, env, h1, o, freshFns);
      EvalAllocates(e2, env, h1, o, freshFns);
    case Compound(kids) => EvalAllAllocates(kids, env, h, o, freshFns);
  }

  lemma {:induction false} EvalAllAllocates(es: seq<Expr>, env: Env, h: Heap, o: Choices, freshFns: FreshFns)
    requires AllBelow(env, h.next) && forall a :: a in h.kept ==> a < h.next
    ensures var (vs, h') := EvalAll(es, env, h, o, freshFns);
      Allocates(h, h') && forall i :: 0 <= i < |vs| ==> Below(vs[i], h'.next)
    decreases es
  {
    if es != [] {
      EvalAllocates(es[0], env, h, o, freshFns);
      EvalAllAllocates(es[1..], env, EvalExpr(es[0], env, h, o, freshFns).1, o, freshFns);
    }
  }

  /** An owning initialiser that returns yields storage nobody had before. */
  lemma {:induction false} OwningInitIsFresh(e: Expr, env: Env, h: Heap, o: Choices, freshFns: FreshFns)
    requires IsOwningInit(e, freshFns) && freshFns.Keys !! SAFE_BUILTINS
    requires AllBelow(env, h.next) && forall a :: a in h.kept ==> a < h.next
    ensures var (v, h') := EvalExpr(e, env, h, o, freshFns);
      !h'.halted ==> v.Ptr? && h.next <= v.addr < h'.next && v.addr in h'.live
    decreases e
  {
    match e
    case Call(f, args) => EvalAllAllocates(args, env, h, o, freshFns);
    case Cond(c, t, e2) =>
      EvalAllocates(c, env, h, o, freshFns);
      var h1 := Tick(EvalExpr(c, env, h, o, freshFns).1);
      OwningInitIsFresh(t, env, h1, o, freshFns);
      OwningInitIsFresh(e2, env, h1, o, freshFns);
    case _ =>
  }

  // ---------- temporaries ----------

  /** The hidden bindings hold live strings with addresses from `lo` on, all different. */
  predicate NewTemps(tv: Env, lo: nat, h1: Heap) {
    (forall i :: 0 <= i < |tv| ==> tv[i].val.Ptr? && lo <= tv[i].val.addr < h1.next && tv[i].val.addr in h1.live) &&
    forall i, j :: 0 <= i < j < |tv| ==> tv[i].val != tv[j].val
  }

  lemma AllocatesTrans(a: Heap, b: Heap, c: Heap)
    requires Allocates(a, b) && Allocates(b, c)
    ensures Allocates(a, c)
  {
  }

  lemma {:induction false} TempsAllocate(temps: seq<Expr>, j: nat, env: Env, h: Heap, o: Choices, freshFns: FreshFns)
    requires AllBelow(env, h.next) && (forall a :: a in h.kept ==> a < h.next) && freshFns.Keys !! SAFE_BUILTINS
    requires forall i :: 0 <= i < |temps| ==> IsOwningInit(temps[i], freshFns)
    ensures var (env1, h1) := EvalTemps(temps, j, env, h, o, freshFns);
      Allocates(h, h1) && AllBelow(env1, h1.next) && (forall a :: a in h1.kept ==> a < h1.next) &&
      NewTemps(env1[|env|..], h.next, h1)
    decreases temps
  {
    if temps != [] {
      hide EvalExpr, IsOwningInit, Allocates, NewTemps, AllBelow, TmpName;
      EvalAllocates(temps[0], env, h, o, freshFns);
      OwningInitIsFresh(temps[0], env, h, o, freshFns);
      var (v, h1) := EvalExpr(temps[0], env, h, o, freshFns);
      OneAllocated(env, h, h1, Var(TmpName(j), v));
      if !h1.halted {
        var env1 := env + [Var(TmpName(j), v)];
        TempsAllocate(temps[1..], j + 1, env1, h1, o, freshFns);
        var (env2, h2) := EvalTemps(temps[1..], j + 1, env1, h1, o, freshFns);
        AllocatesTrans(h, h1, h2);
        assert env2[|env|..] == [env1[|env|]] + env2[|env1|..];
        OneMoreTemp(Var(TmpName(j), v), env2[|env1|..], h, h1, h2);
      } else {
        assert env[|env|..] == [];
        NoNewTemps(h.next, h1);
      }
    } else {
      assert env[|env|..] == [];
    }
  }

  lemma OneAllocated(env: Env, h: Heap, h1: Heap, x: Var)
    requires AllBelow(env, h.next) && Allocates(h, h1) && Below(x.val, h1.next) && forall a :: a in h.kept ==>
      a < h.next
    ensures AllBelow(env, h1.next) && AllBelow(env + [x], h1.next) && forall a :: a in h1.kept ==> a < h1.next
  {
  }

  lemma NoNewTemps(lo: nat, h: Heap)
    ensures NewTemps([], lo, h)
  {
  }

  lemma OneMoreTemp(x: Var, rest: Env, h: Heap, h1: Heap, h2: Heap)
    requires x.val.Ptr? && h.next <= x.val.addr < h1.next && x.val.addr in h1.live
    requires Allocates(h, h1) && Allocates(h1, h2) && NewTemps(rest, h1.next, h2)
    ensures NewTemps([x] + rest, h.next, h2)
  {
    var tv := [x] + rest;
    forall i | 0 <= i < |tv|
      ensures tv[i].val.Ptr? && h.next <= tv[i].val.addr < h2.next && tv[i].val.addr in h2.live {
      if i > 0 { assert tv[i] == rest[i - 1]; }
    }
    forall i, j | 0 <= i < j < |tv| ensures tv[i].val != tv[j].val {
      assert tv[j] == rest[j - 1];
      if i > 0 { assert tv[i] == rest[i - 1]; }
    }
  }

  // ---------- counting ----------

  lemma CountPush(s: seq<nat>, x: nat, a: nat)
    ensures Count(s + [x], a) == Count(s, a) + (if x == a then 1 else 0)
  {
  }

  lemma CountConcat(s: seq<nat>, t: seq<nat>, a: nat)
    ensures Count(s + t, a) == Count(s, a) + Count(t, a)
  {
  }

  lemma {:induction false} CountOwned(env: Env, own: seq<Own>, lo: nat, a: nat)
    requires |own| == |env|
    ensures Count(OwnedAddrs(env, own, lo), a) == OwnedCount(env, own, lo, a)
    decreases |env|
  {
    if |env| > lo {
      var k := |env| - 1;
      CountOwned(env[..k], own[..k], lo, a);
      if Owns(own[k]) {
        CountPush(OwnedAddrs(env[..k], own[..k], lo), Addr(env[k].val), a);
      } else {
        assert OwnedAddrs(env, own, lo) == OwnedAddrs(env[..k], own[..k], lo);
      }
    }
  }

  lemma {:induction false} OwnedSplit(env: Env, own: seq<Own>, mid: nat, a: nat)
    requires |own| == |env| && mid <= |env|
    ensures OwnedCount(env, own, 0, a) == OwnedCount(env[..mid], own[..mid], 0, a) + OwnedCount(env, own, mid, a)
    decreases |env|
  {
    if |env| == mid {
      assert env[..mid] == env && own[..mid] == own;
    } else {
      var k := |env| - 1;
      OwnedSplit(env[..k], own[..k], mid, a);
      assert env[..k][..mid] == env[..mid] && own[..k][..mid] == own[..mid];
    }
  }

  lemma {:induction false} OwnedUpdate(env: Env, own: seq<Own>, i: nat, x: Var, a: nat)
    requires |own| == |env| && i < |env|
    ensures OwnedCount(env[i := x], own, 0, a) + OwnedBy(own[i], env[i].val, a) ==
            OwnedCount(env, own, 0, a) + OwnedBy(own[i], x.val, a)
    decreases |env|
  {
    var k := |env| - 1;
    if i == k {
      assert env[i := x][..k] == env[..k];
    } else {
      assert env[i := x][..k] == env[..k][i := x];
      OwnedUpdate(env[..k], own[..k], i, x, a);
    }
  }

  /** What a variable owns counts whether it is hidden or not. */
  lemma {:induction false} OwnedSameKind(env: Env, own: seq<Own>, own': seq<Own>, lo: nat, a: nat)
    requires |own| == |env| && |own'| == |env| && forall i :: 0 <= i < |own| ==> Kind(own[i]) == Kind(own'[i])
    ensures OwnedCount(env, own, lo, a) == OwnedCount(env, own', lo, a)
    decreases |env|
  {
    if |env| > lo { OwnedSameKind(env[..|env| - 1], own[..|env| - 1], own'[..|env| - 1], lo, a); }
  }

  /** Hidden and other owners. */
  lemma {:induction false} OwnedApart(env: Env, own: seq<Own>, base: nat, a: nat)
    requires |own| == |env|
    ensures OwnedCount(env, own, base, a) ==
            OwnedCount(env, OnlyHidden(own), base, a) + OwnedCount(env, Forget(own, base), base, a)
    decreases |env|
  {
    if |env| > base {
      var k := |env| - 1;
      assert OnlyHidden(own)[..k] == OnlyHidden(own[..k]) && Forget(own, base)[..k] == Forget(own[..k], base);
      OwnedApart(env[..k], own[..k], base, a);
    }
  }

  // ---------- releasing ----------

  lemma ReleaseOk(h: Heap, v: Val)
    requires HeapOk(h) && v.Ptr? && v.addr in h.live
    ensures var h1 := Release(v, h);
      HeapOk(h1) && h1.next == h.next && h1.kept == h.kept && h1.live == h.live - {v.addr} &&
      h1.freed == h.freed + [v.addr]
  {
  }

  /** A free counts, unless it was a bad one. */
  lemma ReleaseCounts(h: Heap, v: Val, a: nat)
    ensures var h1 := Release(v, h);
      (h.bad ==> h1.bad) && h1.next == h.next && h1.kept == h.kept &&
      (!h1.bad ==> Count(h1.freed, a) == Count(h.freed, a) + (if Addr(v) == a then 1 else 0))
  {
    if v.Ptr? { CountPush(h.freed, v.addr, a); }
  }

  lemma OwnersPop(env: Env, own: seq<Own>, h: Heap)
    requires |own| == |env| && env != [] && HeapOk(h) && OwnersOk(env, own, h) && !own[|own| - 1].Hidden?
    ensures var k := |env| - 1;
      OwnersOk(env[..k], own[..k], if Active(own[k]) then Release(env[k].val, h) else h)
  {
  }

  lemma OwnerLive(env: Env, own: seq<Own>, h: Heap, k: nat)
    requires |own| == |env| && OwnersOk(env, own, h) && k < |env| && Owns(own[k])
    ensures env[k].val.Ptr? && env[k].val.addr in h.live
  {
  }

  predicate NoneHidden(own: seq<Own>, lo: nat) { forall i :: lo <= i < |own| ==> !own[i].Hidden? }

  /** Destroying a range of sound variables frees live strings only. */
  lemma {:induction false} DestroySound(env: Env, own: seq<Own>, h: Heap, lo: nat)
    requires |own| == |env| && HeapOk(h) && OwnersOk(env, own, h) && lo <= |env| && NoneHidden(own, lo)
    ensures var h' := Destroy(env, own, h, lo); HeapOk(h') && OwnersOk(env[..lo], own[..lo], h')
    decreases |env|
  {
    hide HeapOk, OwnersOk;
    if |env| > lo {
      var k := |env| - 1;
      var h1 := if Active(own[k]) then Release(env[k].val, h) else h;
      OwnersPop(env, own, h);
      if Active(own[k]) {
        OwnerLive(env, own, h, k);
        ReleaseOk(h, env[k].val);
      }
      DestroySound(env[..k], own[..k], h1, lo);
      assert env[..k][..lo] == env[..lo] && own[..k][..lo] == own[..lo];
    } else {
      assert env[..lo] == env && own[..lo] == own;
    }
  }

  /** Destroying a range frees exactly what it owns, once each, or is a bad free. */
  lemma {:induction false} DestroyCounts(env: Env, own: seq<Own>, h: Heap, lo: nat, a: nat)
    requires |own| == |env| && lo <= |env| && NoneHidden(own, lo)
    ensures var h' := Destroy(env, own, h, lo);
      (h.bad ==> h'.bad) && h'.next == h.next && h'.kept == h.kept &&
      (!h'.bad ==> Count(h'.freed, a) == Count(h.freed, a) + OwnedCount(env, own, lo, a))
    decreases |env|
  {
    hide Count;
    if |env| > lo {
      var k := |env| - 1;
      ReleaseCounts(h, env[k].val, a);
      DestroyCounts(env[..k], own[..k], if Active(own[k]) then Release(env[k].val, h) else h, lo, a);
    }
  }

  lemma OwnersPrefix(env: Env, own: seq<Own>, h: Heap, n: nat)
    requires |own| == |env| && n <= |env| && OwnersOk(env, own, h)
    ensures OwnersOk(env[..n], own[..n], h)
  {
    forall i | 0 <= i < n && Owns(own[..n][i])
      ensures env[..n][i].val.Ptr? && env[..n][i].val.addr in h.live
    {
      assert Owns(own[i]) && env[i].val.addr in h.live;
    }
  }

  // ---------- leaving scopes ----------

  lemma PrefixBelow(env: Env, base: nat, n: nat)
    requires AllBelow(env, n) && base <= |env|
    ensures AllBelow(env[..base], n)
  {
  }

  lemma DestroyScopeInv(r: RState, base: nat)
    requires Inv(r) && base <= |r.own| && NoneHidden(r.own, base)
    ensures Inv(DestroyScope(r, base))
  {
    hide Destroy, OwnedCount, Count, HeapOk, OwnersOk;
    var r1 := DestroyScope(r, base);
    DestroyCounts(r.c.env, r.own, r.c.h, base, 0);
    PrefixBelow(r.c.env, base, r.c.h.next);
    assert Keeps(r, r1) by {
      forall a ensures (r.c.h.bad ==> r1.c.h.bad) && (!r1.c.h.bad ==> Excess(r1, a) == Excess(r, a)) {
        OwnedSplit(r.c.env, r.own, base, a);
        DestroyCounts(r.c.env, r.own, r.c.h, base, a);
      }
    }
    if !r.astray { DestroySound(r.c.env, r.own, r.c.h, base); }
    StepInv(r, r1);
  }

  /** The accounting depends on variables, heap and logs only, and not on what is hidden. */
  lemma MarksInv(r: RState, r1: RState)
    requires Inv(r) && r1.c == r.c && r1.bound == r.bound && r1.leaked == r.leaked && r1.astray == r.astray
    requires forall i :: 0 <= i < |r.own| ==> Kind(r.own[i]) == Kind(r1.own[i])
    ensures Inv(r1)
  {
    hide OwnedCount, Count;
    assert Keeps(r, r1) by {
      forall a ensures Excess(r1, a) == Excess(r, a) { OwnedSameKind(r.c.env, r.own, r1.own, 0, a); }
    }
    StepInv(r, r1);
  }

  lemma GiveUpInv(r: RState, base: nat)
    requires Inv(r) && base <= |r.own|
    ensures Inv(GiveUpHidden(r, base))
  {
    hide OwnedCount, Count, OwnedAddrs, HeapOk;
    var r1 := GiveUpHidden(r, base);
    assert r1.own[..base] == r.own[..base];
    assert Keeps(r, r1) by {
      forall a ensures Excess(r1, a) == Excess(r, a) {
        OwnedSplit(r.c.env, r.own, base, a);
        OwnedSplit(r.c.env, r1.own, base, a);
        OwnedApart(r.c.env, r.own, base, a);
        CountOwned(r.c.env, OnlyHidden(r.own), base, a);
        CountConcat(r.leaked, OwnedAddrs(r.c.env, OnlyHidden(r.own), base), a);
      }
    }
    if !r.astray {
      assert OwnersOk(r.c.env, r1.own, r.c.h) by { OwnersLess(r.c.env, r.own, r1.own, r.c.h); }
    }
    StepInv(r, r1);
  }

  lemma OwnersLess(env: Env, own: seq<Own>, own1: seq<Own>, h: Heap)
    requires |own| == |env| && |own1| == |own| && OwnersOk(env, own, h)
    requires forall i :: 0 <= i < |own| && Owns(own1[i]) ==> Owns(own[i])
    ensures OwnersOk(env, own1, h)
  {
  }

  lemma LoseScopeInv(r: RState, base: nat)
    requires Inv(r) && base <= |r.own|
    ensures Inv(Pop(r.(leaked := r.leaked + OwnedAddrs(r.c.env, r.own, base)), base))
  {
    hide OwnedCount, Count, OwnedAddrs, HeapOk;
    var r1 := Pop(r.(leaked := r.leaked + OwnedAddrs(r.c.env, r.own, base)), base);
    PrefixBelow(r.c.env, base, r.c.h.next);
    assert Keeps(r, r1) by {
      forall a ensures Excess(r1, a) == Excess(r, a) {
        OwnedSplit(r.c.env, r.own, base, a);
        CountOwned(r.c.env, r.own, base, a);
        CountConcat(r.leaked, OwnedAddrs(r.c.env, r.own, base), a);
      }
    }
    if !r.astray { OwnersPrefix(r.c.env, r.own, r.c.h, base); }
    StepInv(r, r1);
  }

  lemma LeaveScopeInv(r: RState, base: nat, out: ROut)
    requires Inv(r) && base <= |r.own|
    ensures Inv(LeaveScope(r, base, out))
  {
    hide Inv, Destroy, OwnedAddrs;
    if out.RNormal? {
      MarksInv(r, r.(own := Show(r.own, base)));
      DestroyScopeInv(r.(own := Show(r.own, base)), base);
    } else if Lost(out) {
      LoseScopeInv(r, base);
    } else if !out.ROutOfFuel? {
      GiveUpInv(r, base);
      DestroyScopeInv(GiveUpHidden(r, base), base);
    }
  }

  // ---------- one statement ----------

  lemma BoundedNext(r: RState)
    requires Inv(r)
    ensures AllBelow(r.c.env, r.c.h.next) && (forall a :: a in r.c.h.kept ==> a < r.c.h.next) &&
      forall i :: 0 <= i < |r.bound| ==> r.bound[i] < r.c.h.next
  {
  }

  /** Only the heap changed, by allocation. */
  lemma HeapInv(r: RState, h1: Heap)
    requires Inv(r) && Allocates(r.c.h, h1)
    ensures Inv(r.(c := r.c.(h := h1)))
  {
    hide OwnedCount, Count;
    var r1 := r.(c := r.c.(h := h1));
    assert Keeps(r, r1) by {
      forall a ensures Excess(r1, a) == Excess(r, a) {}
    }
    if !r.astray {
      forall i | 0 <= i < |h1.freed| ensures h1.freed[i] !in h1.live { assert r.c.h.freed[i] < r.c.h.next; }
    }
    StepInv(r, r1);
  }

  function TickState(r: RState): RState { r.(c := r.c.(h := Tick(r.c.h))) }

  lemma TickInv(r: RState)
    requires Inv(r)
    ensures Inv(TickState(r))
  {
    hide Inv;
    HeapInv(r, Tick(r.c.h));
  }

  lemma EvalInv(e: Expr, r: RState, o: Choices, freshFns: FreshFns)
    requires Inv(r)
    ensures var (v, r1) := RefEval(e, r, o, freshFns);
      Inv(r1) && Inv(TickState(r1)) && Allocates(r.c.h, r1.c.h) && Below(v, r1.c.h.next)
  {
    BoundedNext(r);
    hide Inv, EvalExpr, Allocates;
    EvalAllocates(e, r.c.env, r.c.h, o, freshFns);
    var (_, r1) := RefEval(e, r, o, freshFns);
    HeapInv(r, r1.c.h);
    TickInv(r1);
  }

  /** A value nothing held before, not even a temporary. */
  predicate NewValue(v: Val, tv: Env, h: Heap, h1: Heap) {
    v.Ptr? && h.next <= v.addr < h1.next && v.addr in h1.live && forall i :: 0 <= i < |tv| ==> tv[i].val != v
  }

  /** What computing a statement's expression may do. */
  ghost predicate Computes(e: Expr, bound: bool, v: Val, r: RState, r1: RState, tv: Env, freshFns: FreshFns) {
    r1 == r.(c := r.c.(h := r1.c.h)) && Inv(r) && Inv(r1) && Allocates(r.c.h, r1.c.h) && Below(v, r1.c.h.next) &&
    NewTemps(tv, r.c.h.next, r1.c.h) &&
    (bound && IsOwningInit(e, freshFns) && !r1.c.h.halted ==> NewValue(v, tv, r.c.h, r1.c.h))
  }

  lemma NewTempsGrow(tv: Env, lo: nat, h1: Heap, h2: Heap)
    requires NewTemps(tv, lo, h1) && Allocates(h1, h2)
    ensures NewTemps(tv, lo, h2)
  {
  }

  lemma ComputeInv(e: Expr, bound: bool, r: RState, o: Choices, freshFns: FreshFns)
    requires Inv(r) && freshFns.Keys !! SAFE_BUILTINS
    ensures var (v, r1, tv) := RefCompute(e, bound, r, o, freshFns); Computes(e, bound, v, r, r1, tv, freshFns)
  {
    BoundedNext(r);
    hide Inv, EvalExpr, EvalTemps, Chosen, IsOwningInit, Allocates, NewTemps, NewValue, IsOwnedBuiltinCall, AllBelow;
    var p := Chosen(e, bound, freshFns);
    ChosenIs(e, bound, freshFns);
    TempsAllocate(p.temps, 0, r.c.env, r.c.h, o, freshFns);
    var (env1, h1) := EvalTemps(p.temps, 0, r.c.env, r.c.h, o, freshFns);
    var tv := env1[|r.c.env|..];
    if h1.halted {
      HeapInv(r, h1);
      OtherBelow(h1);
    } else {
      EvalAllocates(p.rest, env1, h1, o, freshFns);
      var (v, h2) := EvalExpr(p.rest, env1, h1, o, freshFns);
      AllocatesTrans(r.c.h, h1, h2);
      HeapInv(r, h2);
      NewTempsGrow(tv, r.c.h.next, h1, h2);
      if bound && IsOwningInit(e, freshFns) && !h2.halted {
        OwningInitIsFresh(p.rest, env1, h1, o, freshFns);
        LatestValue(v, tv, r.c.h, h1, h2);
      }
    }
  }

  lemma OtherBelow(h: Heap)
    ensures Below(Other, h.next)
  {
  }

  lemma LatestValue(v: Val, tv: Env, h: Heap, h1: Heap, h2: Heap)
    requires Allocates(h, h1) && NewTemps(tv, h.next, h1) && v.Ptr? && h1.next <= v.addr < h2.next && v.addr in h2.live
    ensures NewValue(v, tv, h, h2)
  {
  }

  /** The temporaries are live, unbound and nobody's property. */
  predicate TempsApart(tv: Env, r: RState) {
    NewTemps(tv, 0, r.c.h) &&
    (forall i, j :: 0 <= i < |tv| && 0 <= j < |r.bound| ==> tv[i].val != Ptr(r.bound[j])) &&
    forall i, p :: 0 <= i < |tv| && 0 <= p < |r.own| && Owns(r.own[p]) ==> tv[i].val != r.c.env[p].val
  }

  /** At once after they are computed. */
  lemma ComputedApart(e: Expr, bound: bool, v: Val, r: RState, r1: RState, tv: Env, freshFns: FreshFns)
    requires Computes(e, bound, v, r, r1, tv, freshFns)
    ensures TempsApart(tv, r1)
  {
    forall i, p | 0 <= i < |tv| && 0 <= p < |r1.own| && Owns(r1.own[p]) ensures tv[i].val != r1.c.env[p].val {
      assert Below(r.c.env[p].val, r.c.h.next);
    }
  }

  lemma BindInv(n: string, e: Expr, k: Own, v: Val, r: RState, r1: RState, tv: Env, freshFns: FreshFns)
    requires Computes(e, true, v, r, r1, tv, freshFns) && !r1.c.h.halted && !k.Hidden?
    requires k != NotOwner ==> IsOwningInit(e, freshFns)
    ensures var r2 := RefBind(n, v, k, r1); Inv(r2) && TempsApart(tv, r2)
  {
    hide HeapOk, OwnedCount, Count, Allocates;
    var env, h := r1.c.env, r1.c.h;
    var r2 := RefBind(n, v, k, r1);
    BoundedNext(r);
    ComputedApart(e, true, v, r, r1, tv, freshFns);
    BoundRepeats(r.bound, Addr(v), r.c.h.next);
    assert Keeps(r1, r2) by {
      forall a ensures Excess(r2, a) == Excess(r1, a) { BindCounts(n, v, k, r1, a); }
    }
    assert AllBelow(r2.c.env, h.next);
    forall i | 0 <= i < |env| && Owns(r1.own[i]) && k != NotOwner ensures env[i].val != v {
      assert Below(env[i].val, r.c.h.next);
    }
    StepInv(r1, r2);
  }

  lemma BindCounts(n: string, v: Val, k: Own, r: RState, a: nat)
    requires !k.Hidden?
    ensures Excess(RefBind(n, v, k, r), a) == Excess(r, a)
  {
    var r1 := RefBind(n, v, k, r);
    assert r1.c.env[..|r.c.env|] == r.c.env && r1.own[..|r.own|] == r.own;
    CountPush(r.bound, Addr(v), a);
  }

  lemma BoundRepeats(bound: seq<nat>, a: nat, n: nat)
    requires forall i :: 0 <= i < |bound| ==> bound[i] < n
    ensures NoRepeats(bound) && n <= a ==> NoRepeats(bound + [a])
  {
  }

  // ---------- the end of a statement's temporaries ----------

  lemma TmpAddrsSplit(tv: Env)
    requires tv != []
    ensures TmpAddrs(tv) == TmpAddrs(tv[..|tv| - 1]) + [Addr(tv[|tv| - 1].val)]
  {
  }

  lemma {:induction false} ReleaseTempsCounts(tv: Env, h: Heap, a: nat)
    ensures var h1 := ReleaseTemps(tv, h);
      (h.bad ==> h1.bad) && h1.next == h.next && h1.kept == h.kept &&
      (!h1.bad ==> Count(h1.freed, a) == Count(h.freed, a) + Count(TmpAddrs(tv), a))
    decreases |tv|
  {
    if tv != [] {
      hide Count;
      var k := |tv| - 1;
      ReleaseCounts(h, tv[k].val, a);
      ReleaseTempsCounts(tv[..k], Release(tv[k].val, h), a);
      TmpAddrsSplit(tv);
      CountPush(TmpAddrs(tv[..k]), Addr(tv[k].val), a);
    }
  }

  lemma {:induction false} ReleaseTempsSound(tv: Env, r: RState)
    requires HeapOk(r.c.h) && OwnersOk(r.c.env, r.own, r.c.h) && TempsApart(tv, r)
    ensures var h1 := ReleaseTemps(tv, r.c.h); HeapOk(h1) && OwnersOk(r.c.env, r.own, h1)
    decreases |tv|
  {
    if tv != [] {
      hide HeapOk;
      var k := |tv| - 1;
      var r1 := r.(c := r.c.(h := Release(tv[k].val, r.c.h)));
      ReleaseOk(r.c.h, tv[k].val);
      forall p | 0 <= p < |r.own| && Owns(r.own[p])
        ensures r.c.env[p].val.Ptr? && r.c.env[p].val.addr in r1.c.h.live { assert tv[k].val != r.c.env[p].val; }
      assert TempsApart(tv[..k], r1);
      ReleaseTempsSound(tv[..k], r1);
    }
  }

  lemma TempsRepeats(tv: Env, r: RState)
    requires TempsApart(tv, r) && NoRepeats(r.bound)
    ensures NoRepeats(r.bound + TmpAddrs(tv))
  {
    var all := r.bound + TmpAddrs(tv);
    var m := |r.bound|;
    forall i, j | 0 <= i < j < |all| ensures all[i] != all[j] {
      if j >= m {
        assert all[j] == Addr(tv[j - m].val) && tv[j - m].val.Ptr?;
        if i < m { assert tv[j - m].val != Ptr(r.bound[i]); }
        else { assert tv[i - m].val != tv[j - m].val && tv[i - m].val.Ptr?; }
      }
    }
  }

  lemma TempsBelow(tv: Env, r: RState)
    requires TempsApart(tv, r)
    ensures forall i :: 0 <= i < |tv| ==> TmpAddrs(tv)[i] < r.c.h.next
  {
  }

  lemma FinishInv(tv: Env, r: RState)
    requires Inv(r) && forall i :: 0 <= i < |tv| ==> Addr(tv[i].val) < r.c.h.next
    requires !r.astray ==> TempsApart(tv, r)
    ensures Inv(RefFinish(tv, r))
  {
    hide HeapOk, OwnersOk, OwnedCount, Count, NoRepeats, TempsApart;
    var r1 := RefFinish(tv, r);
    ReleaseTempsCounts(tv, r.c.h, 0);
    assert Keeps(r, r1) by {
      forall a ensures (r.c.h.bad ==> r1.c.h.bad) && (!r1.c.h.bad ==> Excess(r1, a) == Excess(r, a)) {
        ReleaseTempsCounts(tv, r.c.h, a);
        CountConcat(r.bound, TmpAddrs(tv), a);
      }
    }
    if !r.astray {
      ReleaseTempsSound(tv, r);
      TempsRepeats(tv, r);
    }
    StepInv(r, r1);
  }

  lemma LoseInv(tv: Env, r: RState)
    requires Inv(r) && TempsApart(tv, r)
    ensures Inv(RefLose(tv, r))
  {
    hide HeapOk, OwnersOk, OwnedCount, Count, NoRepeats, TempsApart;
    var r1 := RefLose(tv, r);
    TempsBelow(tv, r);
    assert Keeps(r, r1) by {
      forall a ensures Excess(r1, a) == Excess(r, a) {
        CountConcat(r.bound, TmpAddrs(tv), a);
        CountConcat(r.leaked, TmpAddrs(tv), a);
      }
    }
    if !r.astray { TempsRepeats(tv, r); }
    StepInv(r, r1);
  }

  // ---------- assignments ----------

  /** What the assigned variable may be: its escape test passed, and it is not immutable. */
  predicate Assignable(k: Own, e: Expr) { Kind(k) != ImmOwner && (Kind(k) == MutOwner ==> IsOwnedBuiltinCall(e)) }

  lemma ExcessAfterSet(n: string, v: Val, r: RState, r1: RState, i: nat, a: nat)
    requires i == Find(r.c.env, n) && r1.own == r.own && r1.c.env == r.c.env[i := Var(n, v)]
    ensures OwnedCount(r1.c.env, r1.own, 0, a) - OwnedCount(r.c.env, r.own, 0, a) ==
      OwnedBy(r.own[i], v, a) - OwnedBy(r.own[i], r.c.env[i].val, a)
  {
    OwnedUpdate(r.c.env, r.own, i, Var(n, v), a);
  }

  /** Giving a variable that owns nothing a new value, freeing nothing. */
  lemma AssignPlain(n: string, e: Expr, v: Val, r: RState, i: nat, d: nat, freshFns: FreshFns)
    requires Inv(r) && Below(v, r.c.h.next) && i == Find(r.c.env, n) && Kind(r.own[i]) == NotOwner
    requires !(IsOwnedBuiltinCall(e) && TakenForOwner(r.own[i], n, d, r.outer, freshFns))
    ensures var r1 := RefAssign(n, e, v, r, d, freshFns);
      Inv(r1) && r1.astray == r.astray && r1.bound == r.bound && r1.c.h == r.c.h
  {
    hide OwnedCount, Count, HeapOk, TakenForOwner;
    var r1 := RefAssign(n, e, v, r, d, freshFns);
    assert Keeps(r, r1) by {
      forall a ensures Excess(r1, a) == Excess(r, a) { ExcessAfterSet(n, v, r, r1, i, a); }
    }
    if !r.astray { assert OwnersOk(r1.c.env, r1.own, r1.c.h); }
    StepInv(r, r1);
  }

  /** Freeing the value of a variable that owns nothing. */
  lemma AssignAstray(n: string, e: Expr, v: Val, r: RState, i: nat, d: nat, freshFns: FreshFns)
    requires Inv(r) && Below(v, r.c.h.next) && i == Find(r.c.env, n) && Kind(r.own[i]) == NotOwner
    requires IsOwnedBuiltinCall(e) && TakenForOwner(r.own[i], n, d, r.outer, freshFns)
    ensures var r1 := RefAssign(n, e, v, r, d, freshFns); Inv(r1) && r1.astray
  {
    hide OwnedCount, Count, HeapOk, TakenForOwner, SearchOwner, OwnersOk, NoRepeats;
    var r1 := RefAssign(n, e, v, r, d, freshFns);
    var prev := r.c.env[i].val;
    assert Bounded(r1);
    if !r1.c.h.bad {
      ReleaseCounts(r.c.h, prev, Addr(prev));
      forall a ensures Excess(r1, a) == Excess(r, a) + (if Addr(prev) == a then 1 else 0) {
        ExcessAfterSet(n, v, r, r1, i, a);
        ReleaseCounts(r.c.h, prev, a);
      }
      if r.astray {
        var a :| Excess(r, a) > 0;
        assert Excess(r1, a) > 0;
      } else {
        assert Excess(r1, Addr(prev)) > 0;
      }
    }
  }

  /** Replacing a mutable owner's string by fresh storage `v`. */
  lemma SwapKeeps(n: string, e: Expr, v: Val, r: RState, i: nat, d: nat, freshFns: FreshFns)
    requires i == Find(r.c.env, n) && Kind(r.own[i]) == MutOwner && IsOwnedBuiltinCall(e)
    ensures Keeps(r, RefAssign(n, e, v, r, d, freshFns))
  {
    hide OwnedCount, Count, TakenForOwner, SearchOwner;
    var r1 := RefAssign(n, e, v, r, d, freshFns);
    var prev := r.c.env[i].val;
    forall a ensures (r.c.h.bad ==> r1.c.h.bad) && (!r1.c.h.bad ==> Excess(r1, a) == Excess(r, a)) {
      ExcessAfterSet(n, v, r, r1, i, a);
      ReleaseCounts(r.c.h, prev, a);
      CountPush(r.bound, Addr(v), a);
      CountPush(r.leaked, Addr(prev), a);
    }
  }

  lemma SwapOwners(env: Env, own: seq<Own>, h: Heap, h1: Heap, i: nat, n: string, v: Val, bound0: nat)
    requires |own| == |env| && i < |env| && Owns(own[i]) && OwnersOk(env, own, h)
    requires v.Ptr? && v.addr in h.live && bound0 <= v.addr && env[i].val.Ptr?
    requires h1.live == h.live || h1.live == h.live - {env[i].val.addr}
    requires AllBelow(env, bound0)
    ensures OwnersOk(env[i := Var(n, v)], own, h1)
  {
    var env1 := env[i := Var(n, v)];
    forall j | 0 <= j < |env| && j != i ensures env1[j].val != v {
      assert Below(env[j].val, bound0);
    }
    assert Below(env[i].val, bound0);
    forall p | 0 <= p < |env| && Owns(own[p])
      ensures env1[p].val.Ptr? && env1[p].val.addr in h1.live
    {
      assert env[p].val.addr in h.live;
      if p != i { assert env[p].val != env[i].val; }
    }
  }

  lemma SwapInv(n: string, e: Expr, v: Val, r: RState, r1: RState, i: nat, tv: Env, d: nat, freshFns: FreshFns)
    requires Computes(e, true, v, r, r1, tv, freshFns) && !r1.c.h.halted
    requires i == Find(r1.c.env, n) && Kind(r1.own[i]) == MutOwner && IsOwnedBuiltinCall(e)
    ensures var r2 := RefAssign(n, e, v, r1, d, freshFns);
      Inv(r2) && r2.astray == r1.astray && (!r2.astray ==> TempsApart(tv, r2))
  {
    hide OwnedCount, Count, TakenForOwner, SearchOwner, HeapOk, Allocates;
    var r2 := RefAssign(n, e, v, r1, d, freshFns);
    BoundedNext(r);
    SwapKeeps(n, e, v, r1, i, d, freshFns);
    assert Bounded(r2);
    if !r1.astray {
      var prev := r1.c.env[i].val;
      assert prev.Ptr? && Below(r.c.env[i].val, r.c.h.next);
      ReleaseOk(r1.c.h, prev);
      SwapOwners(r1.c.env, r1.own, r1.c.h, r2.c.h, i, n, v, r.c.h.next);
      BoundRepeats(r.bound, Addr(v), r.c.h.next);
      SwapApart(n, e, v, r, r1, r2, i, tv, freshFns);
    }
    StepInv(r1, r2);
  }

  lemma SwapApart(n: string, e: Expr, v: Val, r: RState, r1: RState, r2: RState, i: nat, tv: Env, freshFns: FreshFns)
    requires Computes(e, true, v, r, r1, tv, freshFns) && !r1.c.h.halted && IsOwnedBuiltinCall(e)
    requires i < |r1.own| && r2.c.env == r1.c.env[i := Var(n, v)] && r2.own == r1.own && r2.c.h.next == r1.c.h.next
    requires r2.c.h.live == r1.c.h.live || r2.c.h.live == r1.c.h.live - {Addr(r1.c.env[i].val)}
    requires r1.c.env[i].val.Ptr?
    requires r2.bound == r1.bound + [Addr(v)]
    ensures TempsApart(tv, r2)
  {
    BoundedNext(r);
    ComputedApart(e, true, v, r, r1, tv, freshFns);
    assert Below(r.c.env[i].val, r.c.h.next);
  }

  lemma AssignInv(n: string, e: Expr, v: Val, r: RState, r1: RState, tv: Env, d: nat, freshFns: FreshFns)
    requires Computes(e, true, v, r, r1, tv, freshFns) && !r1.c.h.halted
    requires var i := Find(r.c.env, n); 0 <= i && Assignable(r.own[i], e)
    ensures var r2 := RefAssign(n, e, v, r1, d, freshFns); Inv(r2) && (!r2.astray ==> TempsApart(tv, r2))
  {
    var i := Find(r.c.env, n);
    if Kind(r.own[i]) == MutOwner {
      hide Inv, TempsApart, Find, Owns, IsOwnedBuiltinCall;
      SwapInv(n, e, v, r, r1, i, tv, d, freshFns);
    } else if IsOwnedBuiltinCall(e) && TakenForOwner(r.own[i], n, d, r.outer, freshFns) {
      AssignAstray(n, e, v, r1, i, d, freshFns);
    } else {
      AssignPlain(n, e, v, r1, i, d, freshFns);
      ComputedApart(e, true, v, r, r1, tv, freshFns);
      PlainApart(n, v, r1, RefAssign(n, e, v, r1, d, freshFns), i, tv);
    }
  }

  lemma PlainApart(n: string, v: Val, r: RState, r1: RState, i: nat, tv: Env)
    requires TempsApart(tv, r) && i < |r.own| && Kind(r.own[i]) == NotOwner
    requires r1.c == CState(r.c.env[i := Var(n, v)], r.c.h) && r1.own == r.own && r1.bound == r.bound
    ensures TempsApart(tv, r1)
  {
  }

  // ---------- whole runs ----------

  predicate DeferredOk(ss: seq<Stmt>, x: string) { forall j :: 0 <= j < |ss| ==> MutStmtOk(ss[j], x) }

  /** Statements `i..` of the scope, its final statement and its deferred
      statements pass the escape test for `x`. */
  predicate RestOk(sc: Scope, i: nat, x: string) {
    (forall j :: i <= j < |sc.stmts| ==> MutStmtOk(sc.stmts[j], x)) &&
    (sc.fin.Final? ==> MutStmtOk(sc.fin.s, x)) && DeferredOk(sc.deferred, x)
  }

  predicate Ready(s: Stmt, r: RState) {
    forall p :: 0 <= p < |r.own| && Kind(r.own[p]) == MutOwner ==> MutStmtOk(s, r.c.env[p].name)
  }

  predicate ReadyFrom(sc: Scope, i: nat, r: RState) {
    forall p :: 0 <= p < |r.own| && Kind(r.own[p]) == MutOwner ==> RestOk(sc, i, r.c.env[p].name)
  }

  predicate ReadyBack(ss: seq<Stmt>, r: RState) {
    forall p :: 0 <= p < |r.own| && Kind(r.own[p]) == MutOwner ==> DeferredOk(ss, r.c.env[p].name)
  }

  /** The visible names are the variables, and an immutable owner is immutable. */
  predicate VisOk(vis: Visible, r: RState) {
    NamesOk(r, vis) &&
    forall p :: 0 <= p < |r.own| && Kind(r.own[p]) == ImmOwner && r.c.env[p].name in vis ==> !vis[r.c.env[p].name]
  }

  lemma StepVis(r: RState, r1: RState, s: Stmt, k: Own, vis: Visible, inLoop: bool)
    requires VisOk(vis, r) && WellFormed(s, vis, inLoop) && StmtShape(s, k, r, r1, RNormal)
    requires s.Bind? && k == ImmOwner ==> !s.isMut
    requires !k.Hidden?
    ensures VisOk(AfterStmt(vis, s), r1)
  {
    hide NoDup, WellFormed;
    ShapeNames(s, k, r, r1, vis, inLoop);
    var vis1 := AfterStmt(vis, s);
    forall p | 0 <= p < |r1.own| && Kind(r1.own[p]) == ImmOwner && r1.c.env[p].name in vis1
      ensures !vis1[r1.c.env[p].name]
    {
      if p < |r.own| {
        assert r.own[p] == r1.own[..|r.own|][p];
        assert r.c.env[p].name == r1.c.env[p].name;
        assert r.c.env[p].name in Names(r.c.env);
        if s.Bind? { BindFresh(s, vis, inLoop); }
      }
    }
  }

  lemma BindFresh(s: Stmt, vis: Visible, inLoop: bool)
    requires WellFormed(s, vis, inLoop)
    ensures s.Bind? ==> s.name !in vis && Plain(s.name)
  {
  }

  /** Scopes nested below leave the requirements on what follows unchanged. */
  lemma SameReady(sc: Scope, i: nat, s: Stmt, r: RState, r1: RState)
    requires Grows(r, r1) && |r1.own| == |r.own|
    ensures ReadyFrom(sc, i, r) ==> ReadyFrom(sc, i, r1)
    ensures Ready(s, r) ==> Ready(s, r1)
  {
    assert r1.own == r1.own[..|r.own|] && r.own == r.own[..|r.own|];
  }

  lemma SameVis(vis: Visible, r: RState, r1: RState)
    requires VisOk(vis, r) && Grows(r, r1) && |r1.own| == |r.own| && !r1.c.h.halted
    ensures VisOk(vis, r1)
  {
    StepVis(r, r1, Break, NotOwner, vis, true);
  }

  /** An assignment that passed the checks. */
  lemma AssignChecked(n: string, e: Expr, r: RState, vis: Visible)
    requires VisOk(vis, r) && Ready(Assign(n, e), r) && n in vis && vis[n]
    ensures var i := Find(r.c.env, n); 0 <= i && Assignable(r.own[i], e)
  {
    FindNames(r.c.env, n);
    var i := Find(r.c.env, n);
    if Kind(r.own[i]) == MutOwner { assert MutStmtOk(Assign(n, e), r.c.env[i].name); }
  }

  lemma {:induction false} StmtInv(s: Stmt, k: Own, r: RState, d: nat, vis: Visible, inLoop: bool,
                                   o: Choices, freshFns: FreshFns, fuel: nat)
    requires Inv(r) && VisOk(vis, r) && Ready(s, r) && WellFormed(s, vis, inLoop)
    requires freshFns.Keys !! SAFE_BUILTINS && !k.Hidden?
    requires s.Bind? && k != NotOwner ==> IsOwningInit(s.init, freshFns)
    ensures Inv(RefStmt(s, k, r, d, o, freshFns, fuel).0)
    decreases fuel, s, 0
  {
    hide Inv, EvalExpr, RefScope, RefIteration, WellFormedScope, WellFormedFrom, ExprNamesIn, IsOwningInit, VisOk,
      TickState, RefCompute, RefAssign, RefFinish, RefLose, RefBind;
    match s
    case Bind(n, m, e) => BindStmtInv(s, k, r, d, o, freshFns, fuel);
    case Assign(n, e) => AssignStmtInv(n, e, k, r, d, vis, o, freshFns, fuel);
    case Eval(e) => EvalStmtInv(e, k, r, d, o, freshFns, fuel);
    case ProcExit(e) => EvalInv(e, r, o, freshFns);
    case Block(sc) =>
      ReadyInside(s, sc, r, r);
      ScopeInv(sc, r, d, vis, inLoop, o, freshFns, fuel);
    case If(e, sc) => IfInv(e, sc, k, r, d, vis, inLoop, o, freshFns, fuel);
    case Loop(e, body) => LoopInv(s, k, r, d, vis, inLoop, o, freshFns, fuel);
    case Break =>
    case Skip =>
  }

  lemma ApartBelow(tv: Env, r: RState)
    requires TempsApart(tv, r)
    ensures forall i :: 0 <= i < |tv| ==> Addr(tv[i].val) < r.c.h.next
  {
  }

  lemma BindStmtInv(s: Stmt, k: Own, r: RState, d: nat, o: Choices, freshFns: FreshFns, fuel: nat)
    requires s.Bind? && Inv(r) && freshFns.Keys !! SAFE_BUILTINS && !k.Hidden?
    requires k != NotOwner ==> IsOwningInit(s.init, freshFns)
    ensures Inv(RefStmt(s, k, r, d, o, freshFns, fuel).0)
  {
    ComputeInv(s.init, true, r, o, freshFns);
    var (v, r1, tv) := RefCompute(s.init, true, r, o, freshFns);
    ComputedApart(s.init, true, v, r, r1, tv, freshFns);
    if r1.c.h.halted {
      hide Inv, RefLose, RefCompute;
      assert Inv(r1) by { ComputedInv(s.init, true, v, r, r1, tv, freshFns); }
      LoseInv(tv, r1);
    } else {
      BindInv(s.name, s.init, k, v, r, r1, tv, freshFns);
      hide Inv, RefFinish, RefCompute;
      ApartBelow(tv, RefBind(s.name, v, k, r1));
      FinishInv(tv, RefBind(s.name, v, k, r1));
    }
  }

  lemma ComputedInv(e: Expr, bound: bool, v: Val, r: RState, r1: RState, tv: Env, freshFns: FreshFns)
    requires Computes(e, bound, v, r, r1, tv, freshFns)
    ensures Inv(r) && Inv(r1) && r1 == r.(c := r.c.(h := r1.c.h))
    ensures forall i :: 0 <= i < |tv| ==> Addr(tv[i].val) < r1.c.h.next
  {
  }

  lemma AssignNext(n: string, e: Expr, v: Val, r: RState, d: nat, freshFns: FreshFns)
    ensures RefAssign(n, e, v, r, d, freshFns).c.h.next == r.c.h.next
  {
    hide TakenForOwner, SearchOwner;
  }

  lemma AssignStmtInv(n: string, e: Expr, k: Own, r: RState, d: nat, vis: Visible, o: Choices, freshFns: FreshFns,
      fuel: nat)
    requires Inv(r) && VisOk(vis, r) && Ready(Assign(n, e), r) && n in vis && vis[n] && freshFns.Keys !! SAFE_BUILTINS
    ensures Inv(RefStmt(Assign(n, e), k, r, d, o, freshFns, fuel).0)
  {
    AssignChecked(n, e, r, vis);
    hide Inv, RefLose, RefFinish, RefCompute, Computes, RefAssign, VisOk, Ready, Find, Assignable, Addr;
    ComputeInv(e, true, r, o, freshFns);
    var (v, r1, tv) := RefCompute(e, true, r, o, freshFns);
    ComputedApart(e, true, v, r, r1, tv, freshFns);
    ComputedInv(e, true, v, r, r1, tv, freshFns);
    if r1.c.h.halted {
      LoseInv(tv, r1);
    } else {
      AssignInv(n, e, v, r, r1, tv, d, freshFns);
      AssignNext(n, e, v, r1, d, freshFns);
      FinishInv(tv, RefAssign(n, e, v, r1, d, freshFns));
    }
  }

  lemma EvalStmtInv(e: Expr, k: Own, r: RState, d: nat, o: Choices, freshFns: FreshFns, fuel: nat)
    requires Inv(r) && freshFns.Keys !! SAFE_BUILTINS
    ensures Inv(RefStmt(Eval(e), k, r, d, o, freshFns, fuel).0)
  {
    hide Inv, RefLose, RefFinish, RefCompute, Computes, Addr;
    ComputeInv(e, false, r, o, freshFns);
    var (v, r1, tv) := RefCompute(e, false, r, o, freshFns);
    ComputedApart(e, false, v, r, r1, tv, freshFns);
    ComputedInv(e, false, v, r, r1, tv, freshFns);
    if r1.c.h.halted {
      LoseInv(tv, r1);
    } else {
      FinishInv(tv, r1);
    }
  }

  /** What a statement allows, its scope's contents allow. */
  lemma ReadyInside(s: Stmt, sc: Scope, r: RState, r1: RState)
    requires Ready(s, r) && r1.own == r.own && r1.c.env == r.c.env
    requires s == Block(sc) || (s.If? && s.body == sc) || (s.Loop? && sc == LoopScope(s.stmts))
    ensures ReadyFrom(sc, 0, r1)
  {
    forall p | 0 <= p < |r1.own| && Kind(r1.own[p]) == MutOwner ensures RestOk(sc, 0, r1.c.env[p].name) {
      assert MutStmtOk(s, r.c.env[p].name);
    }
  }

  lemma {:induction false} IfInv(e: Expr, sc: Scope, k: Own, r: RState, d: nat, vis: Visible, inLoop: bool,
                                 o: Choices, freshFns: FreshFns, fuel: nat)
    requires Inv(r) && VisOk(vis, r) && Ready(If(e, sc), r) && freshFns.Keys !! SAFE_BUILTINS
    requires WellFormedScope(sc, vis, inLoop)
    ensures Inv(RefStmt(If(e, sc), k, r, d, o, freshFns, fuel).0)
    decreases fuel, sc, 3
  {
    hide Inv, EvalExpr, RefScope, WellFormedScope, Ready, VisOk;
    EvalInv(e, r, o, freshFns);
    var (_, r1) := RefEval(e, r, o, freshFns);
    var r2 := TickState(r1);
    ReadyInside(If(e, sc), sc, r, r2);
    if !r1.c.h.halted && Decide(o, r1.c.h) {
      SameVis(vis, r, r2);
      ScopeInv(sc, r2, d, vis, inLoop, o, freshFns, fuel);
    }
  }

  lemma {:induction false} LoopInv(s: Stmt, k: Own, r: RState, d: nat, vis: Visible, inLoop: bool,
                                   o: Choices, freshFns: FreshFns, fuel: nat)
    requires s.Loop? && Inv(r) && VisOk(vis, r) && Ready(s, r) && freshFns.Keys !! SAFE_BUILTINS
    requires WellFormedFrom(s.stmts, 0, vis, true)
    ensures Inv(RefStmt(s, k, r, d, o, freshFns, fuel).0)
    decreases fuel, s.stmts, |s.stmts| + 2
  {
    hide Inv, EvalExpr, RefIteration, WellFormedFrom, VisOk, Ready, Grows, NamesOk;
    if fuel > 0 {
      var (r1, out, again) := RefIteration(s.domain, s.stmts, r, d, o, freshFns, fuel);
      IterationInv(s.domain, s.stmts, r, d, vis, o, freshFns, fuel);
      RefIterationFrame(s.domain, s.stmts, r, d, o, freshFns, fuel);
      if again {
        VisAlive(vis, r);
        SameReady(LoopScope(s.stmts), 0, s, r, r1);
        SameVis(vis, r, r1);
        LoopInv(s, k, r1, d, vis, inLoop, o, freshFns, fuel - 1);
      }
    }
  }

  lemma VisAlive(vis: Visible, r: RState)
    requires VisOk(vis, r)
    ensures !r.c.h.halted && NamesOk(r, vis)
  {
  }

  lemma {:induction false} IterationInv(e: Expr, body: seq<Stmt>, r: RState, d: nat, vis: Visible,
                                        o: Choices, freshFns: FreshFns, fuel: nat)
    requires Inv(r) && VisOk(vis, r) && Ready(Loop(e, body), r) && freshFns.Keys !! SAFE_BUILTINS
    requires WellFormedFrom(body, 0, vis, true)
    ensures Inv(RefIteration(e, body, r, d, o, freshFns, fuel).0)
    decreases fuel, body, |body| + 1
  {
    hide Inv, EvalExpr, RefFrom, LeaveScope, WellFormedFrom, Ready, Grows, VisOk;
    EvalInv(e, r, o, freshFns);
    var (_, r1) := RefEval(e, r, o, freshFns);
    var sc := LoopScope(body);
    var r2 := TickState(r1).(loop := |r.own|, outer := r.outer + [sc]);
    MarksInv(TickState(r1), r2);
    if !r1.c.h.halted && Decide(o, r1.c.h) {
      ReadyInside(Loop(e, body), sc, r, r2);
      SameVis(vis, r, TickState(r1));
      MovedVis(vis, TickState(r1), r2);
      FromInv(sc, 0, r2, d + 1, vis, true, o, freshFns, fuel);
      var (r3, out) := RefFrom(sc, 0, r2, d + 1, o, freshFns, fuel);
      RefFromFrame(sc, 0, r2, d + 1, o, freshFns, fuel);
      GrowsMore(r2, r3);
      LeaveScopeInv(r3, |r.own|, out);
      MarksInv(LeaveScope(r3, |r.own|, out), LeaveScope(r3, |r.own|, out).(loop := r.loop, outer := r.outer));
    }
  }

  lemma MovedVis(vis: Visible, r: RState, r1: RState)
    requires VisOk(vis, r) && r1.c == r.c && forall p :: 0 <= p < |r.own| ==> Kind(r1.own[p]) == Kind(r.own[p])
    ensures VisOk(vis, r1)
  {
  }

  lemma GrowsMore(r: RState, r1: RState)
    requires Grows(r, r1)
    ensures |r.own| <= |r1.own|
  {
  }

  lemma {:induction false} FromInv(sc: Scope, i: nat, r: RState, d: nat, vis: Visible, inLoop: bool,
                                   o: Choices, freshFns: FreshFns, fuel: nat)
    requires i <= |sc.stmts| && Inv(r) && VisOk(vis, r) && ReadyFrom(sc, i, r)
    requires WellFormedFrom(sc.stmts, i, vis, inLoop) && freshFns.Keys !! SAFE_BUILTINS
    ensures var (r1, out) := RefFrom(sc, i, r, d, o, freshFns, fuel);
      Inv(r1) && (out.RNormal? ==> VisOk(AfterFrom(sc.stmts, i, vis), r1) && ReadyFrom(sc, |sc.stmts|, r1))
    decreases fuel, sc.stmts, |sc.stmts| - i
  {
    hide Inv, EvalExpr, RefStmt, WellFormed, VisOk, StmtShape, ReadyFrom, OwnAt, IsOwningInit;
    if i < |sc.stmts| {
      var s := sc.stmts[i];
      var k := OwnAt(sc, i, freshFns);
      ReadyNext(sc, i, r);
      OwnAtInit(sc, i, freshFns);
      StmtInv(s, k, r, d, vis, inLoop, o, freshFns, fuel);
      RefStmtFrame(s, k, r, d, o, freshFns, fuel);
      var (r1, out) := RefStmt(s, k, r, d, o, freshFns, fuel);
      var r2 := Note(r1, s, false, d, out);
      MarksInv(r1, r2);
      if out.RNormal? {
        NotedShape(s, k, r, r1, r2);
        StepVis(r, r2, s, k, vis, inLoop);
        NextReady(sc, i, r, r2, freshFns);
        FromInv(sc, i + 1, r2, d, AfterStmt(vis, s), inLoop, o, freshFns, fuel);
      }
    }
  }

  lemma ReadyNext(sc: Scope, i: nat, r: RState)
    requires i < |sc.stmts| && ReadyFrom(sc, i, r)
    ensures Ready(sc.stmts[i], r)
  {
    forall p | 0 <= p < |r.own| && Kind(r.own[p]) == MutOwner ensures MutStmtOk(sc.stmts[i], r.c.env[p].name) {
      assert RestOk(sc, i, r.c.env[p].name);
    }
  }

  lemma OwnAtInit(sc: Scope, i: nat, freshFns: FreshFns)
    requires i < |sc.stmts|
    ensures OwnAt(sc, i, freshFns) != NotOwner ==> sc.stmts[i].Bind? && IsOwningInit(sc.stmts[i].init, freshFns)
    ensures OwnAt(sc, i, freshFns) == ImmOwner ==> !sc.stmts[i].isMut
  {
  }

  /** A freshly declared mutable owner has passed the escape test for the rest. */
  lemma NextReady(sc: Scope, i: nat, r: RState, r1: RState, freshFns: FreshFns)
    requires i < |sc.stmts| && ReadyFrom(sc, i, r)
    requires StmtShape(sc.stmts[i], OwnAt(sc, i, freshFns), r, r1, RNormal)
    ensures ReadyFrom(sc, i + 1, r1)
  {
    forall p | 0 <= p < |r1.own| && Kind(r1.own[p]) == MutOwner ensures RestOk(sc, i + 1, r1.c.env[p].name) {
      if p < |r.own| {
        assert r.own[p] == r1.own[..|r.own|][p];
        assert r.c.env[p].name == r1.c.env[p].name;
        assert RestOk(sc, i, r.c.env[p].name);
      } else {
        assert MutOwnerQualifies(sc, i, sc.stmts[i].name);
      }
    }
  }

  /** A statement in final or deferred position. */
  lemma {:induction false} TrailingInv(s: Stmt, r: RState, d: nat, vis: Visible, inLoop: bool,
                                       o: Choices, freshFns: FreshFns, fuel: nat)
    requires Inv(r) && VisOk(vis, r) && freshFns.Keys !! SAFE_BUILTINS
    requires Ready(s, r) && WellFormed(s, vis, inLoop)
    ensures var (r1, out) := RefTrailing(s, r, d, o, freshFns, fuel);
      Inv(r1) && (out.RNormal? ==> VisOk(AfterStmt(vis, s), r1))
    decreases fuel, s, 1
  {
    hide Inv, EvalExpr, RefStmt, WellFormed, VisOk, Ready, StmtShape, AfterStmt, IsOwningInit;
    StmtInv(s, NotOwner, r, d, vis, inLoop, o, freshFns, fuel);
    RefTrailingFrame(s, r, d, o, freshFns, fuel);
    var (r1, out) := RefStmt(s, NotOwner, r, d, o, freshFns, fuel);
    var r2 := Note(r1, s, true, d, out);
    MarksInv(r1, r2);
    if out.RNormal? {
      StepVis(r, RefTrailing(s, r, d, o, freshFns, fuel).0, s, NotOwner, vis, inLoop);
      if s.Bind? && IsOwningInit(s.init, freshFns) { LostBinding(s, r, d, o, freshFns, fuel); }
    }
  }

  /** An owning binding nobody destroys is bound and given up at once. */
  lemma LostBinding(s: Stmt, r: RState, d: nat, o: Choices, freshFns: FreshFns, fuel: nat)
    requires s.Bind? && IsOwningInit(s.init, freshFns) && freshFns.Keys !! SAFE_BUILTINS && Inv(r)
    requires RefStmt(s, NotOwner, r, d, o, freshFns, fuel).1.RNormal?
    requires Inv(RefStmt(s, NotOwner, r, d, o, freshFns, fuel).0)
    ensures Inv(RefTrailing(s, r, d, o, freshFns, fuel).0)
  {
    hide Inv, IsOwningInit, RefCompute, Computes, RefTrailing, RefStmt;
    ComputeInv(s.init, true, r, o, freshFns);
    LostIs(s, r, d, o, freshFns, fuel);
    var (v, r1, tv) := RefCompute(s.init, true, r, o, freshFns);
    NewIsUnbound(s.init, v, r, r1, tv, freshFns);
    GivenUpInv(RefStmt(s, NotOwner, r, d, o, freshFns, fuel).0, RefTrailing(s, r, d, o, freshFns, fuel).0, v.addr);
  }

  lemma LostIs(s: Stmt, r: RState, d: nat, o: Choices, freshFns: FreshFns, fuel: nat)
    requires s.Bind? && IsOwningInit(s.init, freshFns) && freshFns.Keys !! SAFE_BUILTINS && Inv(r)
    requires RefStmt(s, NotOwner, r, d, o, freshFns, fuel).1.RNormal?
    ensures var (v, r1, tv) := RefCompute(s.init, true, r, o, freshFns);
      var (r2, r3) := (RefStmt(s, NotOwner, r, d, o, freshFns, fuel).0, RefTrailing(s, r, d, o, freshFns, fuel).0);
      !r1.c.h.halted && v.Ptr? && v.addr < r2.c.h.next && r2.bound == r.bound + TmpAddrs(tv) &&
      r3.c == r2.c && r3.own == r2.own && r3.astray == r2.astray &&
      r3.bound == r2.bound + [v.addr] && r3.leaked == r2.leaked + [v.addr]
  {
    hide Inv, RefCompute, IsOwningInit, Allocates;
    ComputeInv(s.init, true, r, o, freshFns);
    var (v, r1, tv) := RefCompute(s.init, true, r, o, freshFns);
    ReleaseTempsCounts(tv, r1.c.h, 0);
  }

  /** A new string is none of those bound before, temporaries included. */
  lemma NewIsUnbound(e: Expr, v: Val, r: RState, r1: RState, tv: Env, freshFns: FreshFns)
    requires Computes(e, true, v, r, r1, tv, freshFns) && IsOwningInit(e, freshFns) && !r1.c.h.halted
    ensures v.Ptr? && forall i :: 0 <= i < |r.bound + TmpAddrs(tv)| ==> (r.bound + TmpAddrs(tv))[i] != v.addr
  {
    BoundedNext(r);
    hide Inv, IsOwningInit, Allocates;
    var all := r.bound + TmpAddrs(tv);
    forall i | 0 <= i < |all| ensures all[i] != v.addr {
      if i >= |r.bound| {
        var j := i - |r.bound|;
        assert all[i] == Addr(tv[j].val) && tv[j].val != v && tv[j].val.Ptr?;
      }
    }
  }

  lemma GivenUpInv(r: RState, r1: RState, x: nat)
    requires Inv(r) && r1.c == r.c && r1.own == r.own && r1.astray == r.astray && x < r.c.h.next
    requires r1.bound == r.bound + [x] && r1.leaked == r.leaked + [x]
    requires forall i :: 0 <= i < |r.bound| ==> r.bound[i] != x
    ensures Inv(r1)
  {
    hide HeapOk, OwnersOk, OwnedCount, Count;
    assert Keeps(r, r1) by {
      forall a ensures Excess(r1, a) == Excess(r, a) {
        CountPush(r.bound, x, a);
        CountPush(r.leaked, x, a);
      }
    }
    StepInv(r, r1);
  }

  lemma {:induction false} FinalInv(fin: Final, r: RState, d: nat, vis: Visible, inLoop: bool,
                                    o: Choices, freshFns: FreshFns, fuel: nat)
    requires Inv(r) && VisOk(vis, r) && freshFns.Keys !! SAFE_BUILTINS
    requires fin.Final? ==> Ready(fin.s, r) && WellFormed(fin.s, vis, inLoop)
    ensures var (r1, out) := RefFinal(fin, r, d, o, freshFns, fuel);
      Inv(r1) && (out.RNormal? ==> VisOk(AfterFinal(fin, vis), r1))
    decreases fuel, fin, 2
  {
    hide Inv, WellFormed, VisOk, Ready, RefTrailing, AfterStmt;
    if fin.Final? { TrailingInv(fin.s, r, d, vis, inLoop, o, freshFns, fuel); }
  }

  /** Hiding variables changes neither accounts nor requirements. */
  lemma HiddenOk(r: RState, base: nat, vis: Visible, ss: seq<Stmt>)
    requires Inv(r) && VisOk(vis, r) && ReadyBack(ss, r)
    ensures Inv(HideFrom(r, base)) && VisOk(vis, HideFrom(r, base)) && ReadyBack(ss, HideFrom(r, base))
  {
    hide Inv;
    var r1 := HideFrom(r, base);
    forall p | 0 <= p < |r.own| ensures Kind(r1.own[p]) == Kind(r.own[p]) {}
    MarksInv(r, r1);
    MovedVis(vis, r, r1);
  }

  /** A trailing statement declares no owner. */
  lemma BackStays(ss: seq<Stmt>, s: Stmt, r: RState, r1: RState)
    requires ReadyBack(ss, r) && StmtShape(s, NotOwner, r, r1, RNormal)
    ensures ReadyBack(ss, r1)
  {
    forall p | 0 <= p < |r1.own| && Kind(r1.own[p]) == MutOwner ensures DeferredOk(ss, r1.c.env[p].name) {
      assert r.own[p] == r1.own[..|r.own|][p];
      assert r.c.env[p].name == r1.c.env[p].name;
    }
  }

  lemma BackNext(ss: seq<Stmt>, i: nat, r: RState)
    requires i < |ss| && ReadyBack(ss, r)
    ensures Ready(ss[i], r)
  {
  }

  lemma {:induction false} DeferredInv(ss: seq<Stmt>, n: nat, r: RState, base: nat, d: nat, vis: Visible, inLoop: bool,
                                       o: Choices, freshFns: FreshFns, fuel: nat)
    requires n <= |ss| && base <= |r.own| && Inv(r) && VisOk(vis, r) && ReadyBack(ss, r)
    requires WellFormedBack(ss, n, vis, inLoop) && freshFns.Keys !! SAFE_BUILTINS
    ensures Inv(RefDeferred(ss, n, r, base, d, o, freshFns, fuel).0)
    decreases fuel, ss, n
  {
    hide Inv, WellFormed, VisOk, Ready, ReadyBack, RefTrailing, AfterStmt, StmtShape;
    if n > 0 {
      var s, r0 := ss[n - 1], HideFrom(r, base);
      HiddenOk(r, base, vis, ss);
      BackNext(ss, n - 1, r0);
      TrailingInv(s, r0, d, vis, inLoop, o, freshFns, fuel);
      RefTrailingFrame(s, r0, d, o, freshFns, fuel);
      var (r1, out) := RefTrailing(s, r0, d, o, freshFns, fuel);
      if out.RNormal? {
        BackStays(ss, s, r0, r1);
        ShapeEnd(s, r0, r1);
        DeferredInv(ss, n - 1, r1, base, d, AfterStmt(vis, s), inLoop, o, freshFns, fuel);
      }
    }
  }

  lemma {:induction false} ScopeInv(sc: Scope, r: RState, d: nat, vis: Visible, inLoop: bool,
                                    o: Choices, freshFns: FreshFns, fuel: nat)
    requires Inv(r) && VisOk(vis, r) && ReadyFrom(sc, 0, r) && freshFns.Keys !! SAFE_BUILTINS
    requires WellFormedScope(sc, vis, inLoop)
    ensures Inv(RefScope(sc, r, d, o, freshFns, fuel).0)
    decreases fuel, sc, 2
  {
    hide Inv, RefInside, WellFormedScope, VisOk, ReadyFrom, Grows, LeaveScope;
    InsideInv(sc, r, d, vis, inLoop, o, freshFns, fuel);
    RefInsideFrame(sc, r, d, o, freshFns, fuel);
    var (r1, out) := RefInside(sc, r, d, o, freshFns, fuel);
    GrowsMore(r, r1);
    LeaveScopeInv(r1, |r.own|, out);
  }

  lemma {:induction false} BodyInv(sc: Scope, r: RState, d: nat, vis: Visible, inLoop: bool,
                                   o: Choices, freshFns: FreshFns, fuel: nat)
    requires Inv(r) && VisOk(vis, r) && ReadyFrom(sc, 0, r) && freshFns.Keys !! SAFE_BUILTINS
    requires WellFormedScope(sc, vis, inLoop)
    ensures var (r1, out) := RefBody(sc, r, d, o, freshFns, fuel);
      Inv(r1) &&
      (out.RNormal? ==> VisOk(AfterFinal(sc.fin, AfterFrom(sc.stmts, 0, vis)), r1) && ReadyBack(sc.deferred, r1))
    decreases fuel, sc, 0
  {
    hide Inv, RefFrom, RefTrailing, WellFormed, WellFormedFrom, WellFormedBack, VisOk, ReadyFrom, AfterFrom, AfterFinal,
      ReadyBack, Ready, StmtShape;
    FromInv(sc, 0, r, d, vis, inLoop, o, freshFns, fuel);
    var (r1, out1) := RefFrom(sc, 0, r, d, o, freshFns, fuel);
    if out1.RNormal? {
      FinalOf(sc, r1);
      FinalInv(sc.fin, r1, d, AfterFrom(sc.stmts, 0, vis), inLoop, o, freshFns, fuel);
      if sc.fin.Final? {
        RefTrailingFrame(sc.fin.s, r1, d, o, freshFns, fuel);
        var (r2, out2) := RefTrailing(sc.fin.s, r1, d, o, freshFns, fuel);
        if out2.RNormal? { BackStays(sc.deferred, sc.fin.s, r1, r2); }
      }
    }
  }

  lemma {:induction false} InsideInv(sc: Scope, r: RState, d: nat, vis: Visible, inLoop: bool,
                                     o: Choices, freshFns: FreshFns, fuel: nat)
    requires Inv(r) && VisOk(vis, r) && ReadyFrom(sc, 0, r) && freshFns.Keys !! SAFE_BUILTINS
    requires WellFormedScope(sc, vis, inLoop)
    ensures Inv(RefInside(sc, r, d, o, freshFns, fuel).0)
    decreases fuel, sc, 1
  {
    hide Inv, RefBody, RefDeferred, WellFormed, WellFormedFrom, WellFormedBack, VisOk, ReadyFrom, AfterFrom, AfterFinal,
      ReadyBack;
    var ri := Inside(r, sc);
    MarksInv(r, ri);
    MovedVis(vis, r, ri);
    assert ReadyFrom(sc, 0, ri) by { MovedReady(sc, r, ri); }
    BodyInv(sc, ri, d + 1, vis, inLoop, o, freshFns, fuel);
    RefBodyFrame(sc, ri, d + 1, o, freshFns, fuel);
    var (r1, out1) := RefBody(sc, ri, d + 1, o, freshFns, fuel);
    var r2 := r1.(outer := r.outer);
    MarksInv(r1, r2);
    if out1.RNormal? {
      var vis2 := AfterFinal(sc.fin, AfterFrom(sc.stmts, 0, vis));
      MovedVis(vis2, r1, r2);
      MovedBack(sc.deferred, r1, r2);
      DeferredInv(sc.deferred, |sc.deferred|, r2, |r.own|, d, vis2, inLoop, o, freshFns, fuel);
    }
  }

  lemma MovedReady(sc: Scope, r: RState, r1: RState)
    requires ReadyFrom(sc, 0, r) && r1.c == r.c && r1.own == r.own
    ensures ReadyFrom(sc, 0, r1)
  {
  }

  lemma MovedBack(ss: seq<Stmt>, r: RState, r1: RState)
    requires ReadyBack(ss, r) && r1.c == r.c && r1.own == r.own
    ensures ReadyBack(ss, r1)
  {
  }

  lemma FinalOf(sc: Scope, r1: RState)
    requires ReadyFrom(sc, |sc.stmts|, r1)
    ensures (sc.fin.Final? ==> Ready(sc.fin.s, r1)) && ReadyBack(sc.deferred, r1)
  {
    forall p | 0 <= p < |r1.own| && Kind(r1.own[p]) == MutOwner
      ensures (sc.fin.Final? ==> MutStmtOk(sc.fin.s, r1.c.env[p].name)) && DeferredOk(sc.deferred, r1.c.env[p].name) {
      assert RestOk(sc, |sc.stmts|, r1.c.env[p].name);
    }
  }
}
