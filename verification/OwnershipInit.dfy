/** Which initialisers own: exactly those that give new storage however they are evaluated. */
module OwnershipInit {
  import opened OwnershipSyntax
  import opened OwnershipRun

  /** No part of the expression is a call of `proc_exit`. */
  predicate ExitFree(e: Expr) {
    match e
    case Lit => true
    case Ident(_) => true
    case Call(f, args) => f != "proc_exit" && forall i :: 0 <= i < |args| ==> ExitFree(args[i])
    case Cond(c, t, e) => ExitFree(c) && ExitFree(t) && ExitFree(e)
    case Compound(kids) => forall i :: 0 <= i < |kids| ==> ExitFree(kids[i])
  }

  predicate OldPointers(env: Env, bound: nat) {
    forall i :: 0 <= i < |env| && env[i].val.Ptr? ==> env[i].val.addr < bound
  }

  predicate IsNew(v: Val, h: Heap, h1: Heap) { v.Ptr? && h.next <= v.addr && v.addr in h1.live }

  /** Every evaluation that comes to an end gives a string allocated in it. */
  ghost predicate YieldsNew(e: Expr, freshFns: FreshFns) {
    forall env: Env, h: Heap, o: Choices :: !h.halted && OldPointers(env, h.next) ==>
      var (v, h1) := EvalExpr(e, env, h, o, freshFns);
      h1.halted || IsNew(v, h, h1)
  }

  // ---------- owners yield new storage ----------

  lemma {:induction false} EvalGrows(e: Expr, env: Env, h: Heap, o: Choices, freshFns: FreshFns)
    ensures var h1 := EvalExpr(e, env, h, o, freshFns).1; h.next <= h1.next && h.tick <= h1.tick
    decreases e
  {
    match e
    case Call(_, args) => AllGrows(args, env, h, o, freshFns);
    case Cond(c, t, e2) =>
      EvalGrows(c, env, h, o, freshFns);
      var h1 := EvalExpr(c, env, h, o, freshFns).1;
      EvalGrows(t, env, Tick(h1), o, freshFns);
      EvalGrows(e2, env, Tick(h1), o, freshFns);
    case Compound(kids) => AllGrows(kids, env, h, o, freshFns);
    case _ =>
  }

  lemma {:induction false} AllGrows(es: seq<Expr>, env: Env, h: Heap, o: Choices, freshFns: FreshFns)
    ensures var h1 := EvalAll(es, env, h, o, freshFns).1; h.next <= h1.next && h.tick <= h1.tick
    decreases es
  {
    if es != [] {
      EvalGrows(es[0], env, h, o, freshFns);
      AllGrows(es[1..], env, EvalExpr(es[0], env, h, o, freshFns).1, o, freshFns);
    }
  }

  lemma {:induction false} OwningYieldsNew(e: Expr, env: Env, h: Heap, o: Choices, freshFns: FreshFns)
    requires IsOwningInit(e, freshFns) && !h.halted && forall f :: f in freshFns ==> IsUserFunction(f)
    ensures var (v, h1) := EvalExpr(e, env, h, o, freshFns); h1.halted || IsNew(v, h, h1)
    decreases e
  {
    if e.Call? {
      AllGrows(e.args, env, h, o, freshFns);
    } else {
      EvalGrows(e.c, env, h, o, freshFns);
      var h1 := EvalExpr(e.c, env, h, o, freshFns).1;
      if !h1.halted {
        OwningYieldsNew(e.t, env, Tick(h1), o, freshFns);
        OwningYieldsNew(e.e, env, Tick(h1), o, freshFns);
      }
    }
  }

  // ---------- nothing else does ----------

  /** The choices are the same before tick `t`. */
  ghost predicate SameBefore(o: Choices, o1: Choices, t: nat) { forall k: nat :: k < t ==> o(k) == o1(k) }

  /** An evaluation looks at no choice beyond the tick it reaches. */
  lemma {:induction false} EvalLocal(e: Expr, env: Env, h: Heap, o: Choices, o1: Choices, freshFns: FreshFns)
    requires SameBefore(o, o1, EvalExpr(e, env, h, o, freshFns).1.tick)
    requires !EvalExpr(e, env, h, o, freshFns).1.halted
    ensures EvalExpr(e, env, h, o1, freshFns) == EvalExpr(e, env, h, o, freshFns)
    decreases e
  {
    match e
    case Call(f, args) =>
      var (vs, h1) := EvalAll(args, env, h, o, freshFns);
      assert !h1.halted && h1.tick <= Apply(f, vs, h1, o, freshFns).1.tick;
      AllLocal(args, env, h, o, o1, freshFns);
    case Cond(c, t, e2) =>
      EvalGrows(t, env, Tick(EvalExpr(c, env, h, o, freshFns).1), o, freshFns);
      EvalGrows(e2, env, Tick(EvalExpr(c, env, h, o, freshFns).1), o, freshFns);
      var h1 := EvalExpr(c, env, h, o, freshFns).1;
      HaltedStays(if Decide(o, h1) then t else e2, env, Tick(h1), o, freshFns);
      EvalLocal(c, env, h, o, o1, freshFns);
      if Decide(o, h1) { EvalLocal(t, env, Tick(h1), o, o1, freshFns); }
      else { EvalLocal(e2, env, Tick(h1), o, o1, freshFns); }
    case Compound(kids) => AllLocal(kids, env, h, o, o1, freshFns);
    case _ =>
  }

  lemma HaltedStays(e: Expr, env: Env, h: Heap, o: Choices, freshFns: FreshFns)
    requires !EvalExpr(e, env, h, o, freshFns).1.halted
    ensures !h.halted
  {
  }

  lemma {:induction false} AllHalted(es: seq<Expr>, env: Env, h: Heap, o: Choices, freshFns: FreshFns)
    requires h.halted
    ensures EvalAll(es, env, h, o, freshFns).1.halted
    decreases es
  {
    if es != [] { AllHalted(es[1..], env, h, o, freshFns); }
  }

  lemma {:induction false} AllLocal(es: seq<Expr>, env: Env, h: Heap, o: Choices, o1: Choices, freshFns: FreshFns)
    requires SameBefore(o, o1, EvalAll(es, env, h, o, freshFns).1.tick)
    requires !EvalAll(es, env, h, o, freshFns).1.halted
    ensures EvalAll(es, env, h, o1, freshFns) == EvalAll(es, env, h, o, freshFns)
    decreases es
  {
    if es != [] {
      var h1 := EvalExpr(es[0], env, h, o, freshFns).1;
      if h1.halted { AllHalted(es[1..], env, h1, o, freshFns); }
      AllGrows(es[1..], env, h1, o, freshFns);
      EvalLocal(es[0], env, h, o, o1, freshFns);
      AllLocal(es[1..], env, h1, o, o1, freshFns);
    }
  }


  lemma {:induction false} EvalEnds(e: Expr, env: Env, h: Heap, o: Choices, freshFns: FreshFns)
    requires ExitFree(e) && !h.halted && forall k: nat :: h.tick <= k ==> o(k) == 0
    ensures !EvalExpr(e, env, h, o, freshFns).1.halted
    decreases e
  {
    match e
    case Call(_, args) =>
      AllEnds(args, env, h, o, freshFns);
      AllGrows(args, env, h, o, freshFns);
    case Cond(c, t, e2) =>
      EvalEnds(c, env, h, o, freshFns);
      EvalGrows(c, env, h, o, freshFns);
      var h1 := EvalExpr(c, env, h, o, freshFns).1;
      EvalEnds(e2, env, Tick(h1), o, freshFns);
    case Compound(kids) => AllEnds(kids, env, h, o, freshFns);
    case _ =>
  }

  lemma {:induction false} AllEnds(es: seq<Expr>, env: Env, h: Heap, o: Choices, freshFns: FreshFns)
    requires (forall i :: 0 <= i < |es| ==> ExitFree(es[i])) && !h.halted && forall k: nat :: h.tick <= k ==> o(k) == 0
    ensures !EvalAll(es, env, h, o, freshFns).1.halted
    decreases es
  {
    if es != [] {
      EvalEnds(es[0], env, h, o, freshFns);
      EvalGrows(es[0], env, h, o, freshFns);
      AllEnds(es[1..], env, EvalExpr(es[0], env, h, o, freshFns).1, o, freshFns);
    }
  }

  /** Some number is not in the set. */
  lemma {:induction false} Outside(s: set<nat>) returns (k: nat)
    ensures forall x :: x in s ==> x < k
    decreases s
  {
    if s == {} {
      k := 0;
    } else {
      var x :| x in s;
      var rest := Outside(s - {x});
      k := if rest <= x then x + 1 else rest;
      assert forall y :: y in s ==> y == x || y in s - {x};
    }
  }

  /** What `o` says before tick `t`, then `k`, then zeros. */
  function Then(o: Choices, t: nat, k: nat): Choices { (i: nat) => if i < t then o(i) else if i == t then k else 0 }

  /** From any state, some choices make an expression that is no owner give something
      that was there before. They may be made from tick `h.tick` on. */
  lemma {:induction false} OthersMayNot(e: Expr, env: Env, h: Heap, bound: nat, o: Choices, freshFns: FreshFns)
    returns (o1: Choices)
    requires ExitFree(e) && !IsOwningInit(e, freshFns) && !h.halted && OldPointers(env, bound)
    ensures SameBefore(o, o1, h.tick)
    ensures var (v, h1) := EvalExpr(e, env, h, o1, freshFns); !h1.halted && (v.Ptr? ==> v.addr < bound)
    decreases e, 0
  {
    match e
    case Call(_, _) => o1 := CallMayNot(e, env, h, o, freshFns);
    case Cond(c, t, e2) =>
      var zero := Then(o, h.tick, 0);
      EvalEnds(c, env, h, zero, freshFns);
      EvalGrows(c, env, h, zero, freshFns);
      var h1 := EvalExpr(c, env, h, zero, freshFns).1;
      if !IsOwningInit(t, freshFns) {
        o1 := BranchMayNot(c, t, env, h, bound, zero, 1, freshFns);
      } else {
        o1 := BranchMayNot(c, e2, env, h, bound, zero, 0, freshFns);
      }
    case Compound(_) => o1 := CompoundMayNot(e, env, h, o, freshFns);
    case _ => o1 := o;
  }

  /** One arm of a conditional, with the choice that leads there. */
  lemma {:induction false} BranchMayNot(c: Expr, arm: Expr, env: Env, h: Heap, bound: nat, o: Choices, k: nat,
      freshFns: FreshFns)
    returns (o1: Choices)
    requires ExitFree(arm) && !IsOwningInit(arm, freshFns) && !h.halted && OldPointers(env, bound)
    requires var h1 := EvalExpr(c, env, h, o, freshFns).1; !h1.halted && h.tick <= h1.tick 
    ensures SameBefore(o, o1, h.tick)
    ensures EvalExpr(c, env, h, o1, freshFns) == EvalExpr(c, env, h, o, freshFns)
    ensures var h1 := EvalExpr(c, env, h, o, freshFns).1;
      var (v, h2) := EvalExpr(arm, env, Tick(h1), o1, freshFns);
      o1(h1.tick) == k && !h2.halted && (v.Ptr? ==> v.addr < bound)
    decreases arm, 1
  {
    var h1 := EvalExpr(c, env, h, o, freshFns).1;
    o1 := OthersMayNot(arm, env, Tick(h1), bound, Then(o, h1.tick, k), freshFns);
    EvalLocal(c, env, h, o, o1, freshFns);
  }

  lemma CallMayNot(e: Expr, env: Env, h: Heap, o: Choices, freshFns: FreshFns) returns (o1: Choices)
    requires e.Call? && ExitFree(e) && !IsOwningInit(e, freshFns) && !h.halted
    ensures SameBefore(o, o1, h.tick)
    ensures var (v, h1) := EvalExpr(e, env, h, o1, freshFns); !h1.halted && v == Other
  {
    var zero := Then(o, h.tick, 0);
    AllEnds(e.args, env, h, zero, freshFns);
    AllGrows(e.args, env, h, zero, freshFns);
    var (vs, h1) := EvalAll(e.args, env, h, zero, freshFns);
    o1 := PickOther(zero, h1.tick + 1, |vs|, Keep(vs, h1).kept);
    AllLocal(e.args, env, h, zero, o1, freshFns);
  }

  lemma CompoundMayNot(e: Expr, env: Env, h: Heap, o: Choices, freshFns: FreshFns) returns (o1: Choices)
    requires e.Compound? && ExitFree(e) && !h.halted
    ensures SameBefore(o, o1, h.tick)
    ensures var (v, h1) := EvalExpr(e, env, h, o1, freshFns); !h1.halted && v == Other
  {
    var zero := Then(o, h.tick, 0);
    AllEnds(e.kids, env, h, zero, freshFns);
    AllGrows(e.kids, env, h, zero, freshFns);
    var (vs, h1) := EvalAll(e.kids, env, h, zero, freshFns);
    o1 := PickOther(zero, h1.tick, |vs|, h1.kept);
    AllLocal(e.kids, env, h, zero, o1, freshFns);
  }

  lemma PickOther(o: Choices, t: nat, n: nat, kept: set<nat>) returns (o1: Choices)
    ensures SameBefore(o, o1, t) && n <= o1(t) && o1(t) - n !in kept
  {
    var k := Outside(kept);
    o1 := Then(o, t, n + k);
  }

  /** The emitter takes a binding's initialiser for an owner exactly when it gives a new
      string however it is evaluated; `proc_exit` aside, after which there is no value. */
  lemma OwningIff(e: Expr, freshFns: FreshFns)
    requires ExitFree(e) && forall f :: f in freshFns ==> IsUserFunction(f)
    ensures IsOwningInit(e, freshFns) <==> YieldsNew(e, freshFns)
  {
    if IsOwningInit(e, freshFns) {
      forall env: Env, h: Heap, o: Choices | !h.halted && OldPointers(env, h.next)
        ensures var (v, h1) := EvalExpr(e, env, h, o, freshFns); h1.halted || IsNew(v, h, h1)
      {
        OwningYieldsNew(e, env, h, o, freshFns);
      }
    } else {
      var h := Heap({}, 0, {}, [], false, 0, false);
      var o := OthersMayNot(e, [], h, 0, (_: nat) => 0, freshFns);
      assert OldPointers([], h.next);
    }
  }
}
