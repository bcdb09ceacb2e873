/** Hidden bindings stand for the expressions they were made from: put back one by one
    they give the statement's expression, each is used once and after it is computed, and
    none that could be made is missing. */
module OwnershipPutBack {
  import opened OwnershipSyntax
  import opened OwnershipTemps

  // ---------- putting expressions back ----------

  /** `e` with `by` in place of the variable `x`. */
  function Replace(e: Expr, x: string, sub: Expr): Expr {
    match e
    case Lit => e
    case Ident(n) => if n == x then sub else e
    case Call(f, args) => Call(f, ReplaceAll(args, x, sub))
    case Cond(c, t, e2) => Cond(Replace(c, x, sub), Replace(t, x, sub), Replace(e2, x, sub))
    case Compound(kids) => Compound(ReplaceAll(kids, x, sub))
  }

  function ReplaceAll(es: seq<Expr>, x: string, sub: Expr): (r: seq<Expr>)
    ensures |r| == |es|
  {
    if es == [] then [] else [Replace(es[0], x, sub)] + ReplaceAll(es[1..], x, sub)
  }

  /** The hidden bindings' initialisers put back for their names, newest first. */
  function PutBack(e: Expr, temps: seq<Expr>, first: nat): Expr
    decreases |temps|
  {
    if temps == [] then e
    else
      var n := |temps| - 1;
      PutBack(Replace(e, TmpName(first + n), temps[n]), temps[..n], first)
  }

  function PutBackAll(es: seq<Expr>, temps: seq<Expr>, first: nat): (r: seq<Expr>)
    ensures |r| == |es|
  {
    if es == [] then [] else [PutBack(es[0], temps, first)] + PutBackAll(es[1..], temps, first)
  }

  // ---------- counting uses ----------

  function Uses(e: Expr, x: string): nat {
    match e
    case Lit => 0
    case Ident(n) => if n == x then 1 else 0
    case Call(_, args) => UsesAll(args, x)
    case Cond(c, t, e2) => Uses(c, x) + Uses(t, x) + Uses(e2, x)
    case Compound(kids) => UsesAll(kids, x)
  }

  function UsesAll(es: seq<Expr>, x: string): nat { if es == [] then 0 else Uses(es[0], x) + UsesAll(es[1..], x) }

  lemma {:induction false} UnusedIs(e: Expr, x: string)
    ensures Avoids(e, x) <==> Uses(e, x) == 0
    decreases e
  {
    match e
    case Call(_, args) => AllUnusedIs(args, x);
    case Cond(c, t, e2) => UnusedIs(c, x); UnusedIs(t, x); UnusedIs(e2, x);
    case Compound(kids) => AllUnusedIs(kids, x);
    case _ =>
  }

  lemma {:induction false} AllUnusedIs(es: seq<Expr>, x: string)
    ensures AllAvoid(es, x) <==> UsesAll(es, x) == 0
    decreases es
  {
    if es != [] {
      UnusedIs(es[0], x);
      AllUnusedIs(es[1..], x);
      assert AllAvoid(es, x) <==> Avoids(es[0], x) && AllAvoid(es[1..], x) by {
        assert forall i :: 0 < i < |es| ==> es[i] == es[1..][i - 1];
      }
    }
  }

  lemma {:induction false} UsesConcat(a: seq<Expr>, b: seq<Expr>, x: string)
    ensures UsesAll(a + b, x) == UsesAll(a, x) + UsesAll(b, x)
  {
    if a == [] {
      assert a + b == b;
    } else {
      assert (a + b)[1..] == a[1..] + b;
      UsesConcat(a[1..], b, x);
    }
  }

  // ---------- replacing what is not there ----------

  lemma {:induction false} ReplaceNothing(e: Expr, x: string, sub: Expr)
    requires Avoids(e, x)
    ensures Replace(e, x, sub) == e
    decreases e
  {
    match e
    case Call(_, args) => ReplaceAllNothing(args, x, sub);
    case Cond(c, t, e2) => ReplaceNothing(c, x, sub); ReplaceNothing(t, x, sub); ReplaceNothing(e2, x, sub);
    case Compound(kids) => ReplaceAllNothing(kids, x, sub);
    case _ =>
  }

  lemma {:induction false} ReplaceAllNothing(es: seq<Expr>, x: string, sub: Expr)
    requires AllAvoid(es, x)
    ensures ReplaceAll(es, x, sub) == es
    decreases es
  {
    if es != [] {
      ReplaceNothing(es[0], x, sub);
      ReplaceAllNothing(es[1..], x, sub);
    }
  }

  /** The expression names none of the hidden bindings from `first` up to `last`. */
  predicate AvoidsRange(e: Expr, first: nat, last: nat) { forall k :: first <= k < last ==> AvoidsTmp(e, k) }

  predicate AvoidsTmp(e: Expr, k: nat) { Avoids(e, TmpName(k)) }

  /** Putting back what is not named changes nothing. */
  lemma {:induction false} PutBackNothing(e: Expr, temps: seq<Expr>, first: nat)
    requires AvoidsRange(e, first, first + |temps|)
    ensures PutBack(e, temps, first) == e
    decreases |temps|
  {
    hide Avoids;
    if temps != [] {
      var n := |temps| - 1;
      assert AvoidsTmp(e, first + n);
      ReplaceNothing(e, TmpName(first + n), temps[n]);
      PutBackNothing(e, temps[..n], first);
    }
  }

  lemma {:induction false} PutBackConcat(e: Expr, a: seq<Expr>, b: seq<Expr>, first: nat)
    ensures PutBack(e, a + b, first) == PutBack(PutBack(e, b, first + |a|), a, first)
    decreases |b|
  {
    if b == [] {
      assert a + b == a;
    } else {
      var n := |b| - 1;
      assert (a + b)[..|a| + n] == a + b[..n];
      PutBackConcat(Replace(e, TmpName(first + |a| + n), b[n]), a, b[..n], first);
    }
  }

  lemma {:induction false} PutBackCall(f: string, args: seq<Expr>, temps: seq<Expr>, first: nat)
    ensures PutBack(Call(f, args), temps, first) == Call(f, PutBackAll(args, temps, first))
    decreases |temps|
  {
    if temps == [] {
      PutBackNone(args, first);
    } else {
      var n := |temps| - 1;
      PutBackCall(f, ReplaceAll(args, TmpName(first + n), temps[n]), temps[..n], first);
      PutBackNewest(args, temps, first);
    }
  }

  lemma {:induction false} PutBackNone(es: seq<Expr>, first: nat)
    ensures PutBackAll(es, [], first) == es
    decreases |es|
  {
    if es != [] { PutBackNone(es[1..], first); }
  }

  lemma {:induction false} PutBackNewest(es: seq<Expr>, temps: seq<Expr>, first: nat)
    requires temps != []
    ensures var n := |temps| - 1;
      PutBackAll(es, temps, first) == PutBackAll(ReplaceAll(es, TmpName(first + n), temps[n]), temps[..n], first)
    decreases |es|
  {
    hide TmpName;
    if es != [] {
      var n := |temps| - 1;
      var rs := ReplaceAll(es, TmpName(first + n), temps[n]);
      assert rs[0] == Replace(es[0], TmpName(first + n), temps[n]);
      assert rs[1..] == ReplaceAll(es[1..], TmpName(first + n), temps[n]);
      PutBackNewest(es[1..], temps, first);
    }
  }

  // ---------- the names a plan uses ----------

  /** The hidden binding `k` is none of those numbered from `first` on. */
  predicate Beyond(k: nat, first: nat, n: nat) { k < first || first + n <= k }

  lemma NotTmp(k: nat, j: nat)
    requires k != j
    ensures TmpName(k) != TmpName(j)
  {
    if TmpName(k) == TmpName(j) { TmpNamesDiffer(k, j); }
  }

  /** A plan names no hidden bindings but its own. */
  lemma {:induction false} HoistWithin(e: Expr, bound: bool, first: nat, freshFns: FreshFns, k: nat)
    requires Avoids(e, TmpName(k)) && Beyond(k, first, |Hoist(e, bound, first, freshFns).temps|)
    ensures var p := Hoist(e, bound, first, freshFns); AllAvoid(p.temps, TmpName(k)) && Avoids(p.rest, TmpName(k))
    decreases e
  {
    hide TmpName, IsOwningInit;
    match e
    case Call(f, args) =>
      if HoistsInto(f, freshFns) {
        HoistAllWithin(args, first, freshFns, k);
        var n := |HoistAll(args, first, freshFns).0|;
        if k != first + n { NotTmp(k, first + n); }
      }
    case Cond(_, _, _) => if k != first { NotTmp(k, first); }
    case _ =>
  }

  lemma {:induction false} HoistAllWithin(es: seq<Expr>, first: nat, freshFns: FreshFns, k: nat)
    requires AllAvoid(es, TmpName(k)) && Beyond(k, first, |HoistAll(es, first, freshFns).0|)
    ensures var (temps, rests) := HoistAll(es, first, freshFns);
      AllAvoid(temps, TmpName(k)) && AllAvoid(rests, TmpName(k))
    decreases es
  {
    hide TmpName, Avoids, Hoist;
    if es != [] {
      HoistWithin(es[0], false, first, freshFns, k);
      HoistAllWithin(es[1..], first + |Hoist(es[0], false, first, freshFns).temps|, freshFns, k);
    }
  }

  lemma {:induction false} PlainAvoids(e: Expr, vis: set<string>, k: nat)
    requires ExprNamesIn(e, vis) && AllPlain(vis)
    ensures Avoids(e, TmpName(k))
  {
    TmpNotPlain(k);
    NamesAvoid(e, vis, TmpName(k));
  }

  lemma PlainAllAvoid(es: seq<Expr>, vis: set<string>, k: nat)
    requires (forall i :: 0 <= i < |es| ==> ExprNamesIn(es[i], vis)) && AllPlain(vis)
    ensures AllAvoid(es, TmpName(k))
  {
    hide TmpName, Avoids, AllPlain, ExprNamesIn;
    forall i | 0 <= i < |es| ensures Avoids(es[i], TmpName(k)) { PlainAvoids(es[i], vis, k); }
  }

  // ---------- the plan is the expression ----------

  /** Put back, the initialisers of the hidden bindings give the expression they were
      taken from. */
  lemma {:induction false} HoistPutsBack(e: Expr, bound: bool, first: nat, vis: set<string>, freshFns: FreshFns)
    requires ExprNamesIn(e, vis) && AllPlain(vis)
    ensures var p := Hoist(e, bound, first, freshFns); PutBack(p.rest, p.temps, first) == e
    decreases e, 0
  {
    hide TmpName, IsOwningInit, AllPlain, PutBack, PutBackAll, HoistAll, HoistsInto;
    PutBackNothing(e, [], first);
    match e
    case Call(f, args) =>
      if HoistsInto(f, freshFns) {
        var (temps, rests) := HoistAll(args, first, freshFns);
        HoistAllPutsBack(args, first, vis, freshFns);
        PutBackCall(f, rests, temps, first);
        PutBackOwn(Call(f, rests), temps, first);
      }
    case Cond(_, _, _) =>
      PutBackOwn(e, [], first);
      assert [] + [e] == [e];
    case _ =>
  }

  /** A value bound to the newest hidden binding. */
  lemma PutBackOwn(e: Expr, temps: seq<Expr>, first: nat)
    ensures PutBack(Ident(TmpName(first + |temps|)), temps + [e], first) == PutBack(e, temps, first)
  {
    assert (temps + [e])[..|temps|] == temps;
  }

  lemma {:induction false} HoistAllPutsBack(es: seq<Expr>, first: nat, vis: set<string>, freshFns: FreshFns)
    requires (forall i :: 0 <= i < |es| ==> ExprNamesIn(es[i], vis)) && AllPlain(vis)
    ensures var (temps, rests) := HoistAll(es, first, freshFns); PutBackAll(rests, temps, first) == es
    decreases es, 1
  {
    hide TmpName, IsOwningInit, AllPlain, Hoist, AvoidsRange, ExprNamesIn, PutBack;
    if es != [] {
      var p := Hoist(es[0], false, first, freshFns);
      var n := first + |p.temps|;
      var (temps, rests) := HoistAll(es[1..], n, freshFns);
      HoistPutsBack(es[0], false, first, vis, freshFns);
      HoistAllPutsBack(es[1..], n, vis, freshFns);
      RestRange(es[0], first, vis, n + |temps|, freshFns);
      PutBackNothing(p.rest, temps, n);
      PutBackConcat(p.rest, p.temps, temps, first);
      PutBackInTwo(rests, p.temps, temps, first);
      PlainRange(es[1..], vis, first, n);
      PutBackAllNothing(es[1..], p.temps, first);
      var all := [p.rest] + rests;
      assert all[1..] == rests;
    }
  }

  lemma RestRange(e: Expr, first: nat, vis: set<string>, last: nat, freshFns: FreshFns)
    requires ExprNamesIn(e, vis) && AllPlain(vis)
    ensures var p := Hoist(e, false, first, freshFns); AvoidsRange(p.rest, first + |p.temps|, last)
  {
    hide TmpName, Avoids, AllPlain, ExprNamesIn, Hoist;
    var p := Hoist(e, false, first, freshFns);
    forall k | first + |p.temps| <= k < last ensures AvoidsTmp(p.rest, k) {
      PlainAvoids(e, vis, k);
      HoistWithin(e, false, first, freshFns, k);
    }
  }

  lemma PlainRange(es: seq<Expr>, vis: set<string>, first: nat, last: nat)
    requires (forall i :: 0 <= i < |es| ==> ExprNamesIn(es[i], vis)) && AllPlain(vis)
    ensures forall i :: 0 <= i < |es| ==> AvoidsRange(es[i], first, last)
  {
    hide TmpName, Avoids, AllPlain, ExprNamesIn;
    forall i | 0 <= i < |es| ensures AvoidsRange(es[i], first, last) {
      forall k | first <= k < last ensures AvoidsTmp(es[i], k) { PlainAvoids(es[i], vis, k); }
    }
  }

  lemma {:induction false} PutBackInTwo(es: seq<Expr>, a: seq<Expr>, b: seq<Expr>, first: nat)
    ensures PutBackAll(es, a + b, first) == PutBackAll(PutBackAll(es, b, first + |a|), a, first)
    decreases |es|
  {
    if es != [] {
      PutBackConcat(es[0], a, b, first);
      PutBackInTwo(es[1..], a, b, first);
    }
  }

  lemma {:induction false} PutBackAllNothing(es: seq<Expr>, temps: seq<Expr>, first: nat)
    requires forall i :: 0 <= i < |es| ==> AvoidsRange(es[i], first, first + |temps|)
    ensures PutBackAll(es, temps, first) == es
    decreases |es|
  {
    hide AvoidsRange;
    if es != [] {
      PutBackNothing(es[0], temps, first);
      PutBackAllNothing(es[1..], temps, first);
    }
  }

  /** Each hidden binding is used once, and only by what is computed after it. */
  predicate UsedOnce(p: Plan, k: nat, x: string)
    requires k < |p.temps|
  {
    UsesAll(p.temps[..k + 1], x) == 0 && UsesAll(p.temps[k + 1..], x) + Uses(p.rest, x) == 1
  }

  predicate AllUsedOnce(temps: seq<Expr>, rests: seq<Expr>, k: nat, x: string)
    requires k < |temps|
  {
    UsesAll(temps[..k + 1], x) == 0 && UsesAll(temps[k + 1..], x) + UsesAll(rests, x) == 1
  }

  lemma {:induction false} HoistUsesOnce(e: Expr, bound: bool, first: nat, vis: set<string>, freshFns: FreshFns, k: nat)
    requires ExprNamesIn(e, vis) && AllPlain(vis) && k < |Hoist(e, bound, first, freshFns).temps|
    ensures UsedOnce(Hoist(e, bound, first, freshFns), k, TmpName(first + k))
    decreases e, 0
  {
    hide TmpName, IsOwningInit, AllPlain;
    if e.Cond? {
      PlainAvoids(e, vis, first + k);
      UnusedIs(e, TmpName(first + k));
      LastOnly([], e, TmpName(first + k));
      assert [] + [e] == [e];
    } else {
      var (temps, rests) := HoistAll(e.args, first, freshFns);
      if k < |temps| {
        HoistAllUsesOnce(e.args, first, vis, freshFns, k);
        OneMore(temps, Call(e.callee, rests), first, k);
      } else {
        OwnUse(e, first, vis, freshFns);
      }
    }
  }

  /** The binding a call makes for itself. */
  lemma {:induction false} OwnUse(e: Expr, first: nat, vis: set<string>, freshFns: FreshFns)
    requires ExprNamesIn(e, vis) && AllPlain(vis) && e.Call?
    ensures var (temps, rests) := HoistAll(e.args, first, freshFns);
      var x := TmpName(first + |temps|);
      UsedOnce(Plan(temps + [Call(e.callee, rests)], Ident(x)), |temps|, x)
  {
    hide TmpName, IsOwningInit, AllPlain, HoistAll, AllAvoid, UsedOnce;
    var (temps, rests) := HoistAll(e.args, first, freshFns);
    var x := TmpName(first + |temps|);
    PlainAllAvoid(e.args, vis, first + |temps|);
    HoistAllWithin(e.args, first, freshFns, first + |temps|);
    AllUnusedIs(temps, x);
    AllUnusedIs(rests, x);
    LastOnly(temps, Call(e.callee, rests), x);
  }

  /** The newest binding, used by what is left. */
  lemma LastOnly(temps: seq<Expr>, e: Expr, x: string)
    requires UsesAll(temps, x) == 0 && Uses(e, x) == 0
    ensures UsedOnce(Plan(temps + [e], Ident(x)), |temps|, x)
  {
    UsesConcat(temps, [e], x);
    assert (temps + [e])[..|temps| + 1] == temps + [e] && (temps + [e])[|temps| + 1..] == [];
  }

  /** What was left becomes a binding of its own. */
  lemma OneMore(temps: seq<Expr>, e: Expr, first: nat, k: nat)
    requires k < |temps| && UsedOnce(Plan(temps, e), k, TmpName(first + k))
    ensures UsedOnce(Plan(temps + [e], Ident(TmpName(first + |temps|))), k, TmpName(first + k))
  {
    NotTmp(first + k, first + |temps|);
    UsesConcat(temps[k + 1..], [e], TmpName(first + k));
    assert (temps + [e])[..k + 1] == temps[..k + 1] && (temps + [e])[k + 1..] == temps[k + 1..] + [e];
  }

  lemma {:induction false} HoistAllUsesOnce(es: seq<Expr>, first: nat, vis: set<string>, freshFns: FreshFns, k: nat)
    requires (forall i :: 0 <= i < |es| ==> ExprNamesIn(es[i], vis)) && AllPlain(vis)
    requires k < |HoistAll(es, first, freshFns).0|
    ensures var (temps, rests) := HoistAll(es, first, freshFns); AllUsedOnce(temps, rests, k, TmpName(first + k))
    decreases es, 1
  {
    hide TmpName, IsOwningInit, AllPlain, Hoist, Avoids, ExprNamesIn, Uses, UsesAll, UsedOnce, AllUsedOnce, AllAvoid;
    var p := Hoist(es[0], false, first, freshFns);
    var n := first + |p.temps|;
    var (temps, rests) := HoistAll(es[1..], n, freshFns);
    var x := TmpName(first + k);
    if k < |p.temps| {
      HoistUsesOnce(es[0], false, first, vis, freshFns, k);
      PlainAllAvoid(es[1..], vis, first + k);
      HoistAllWithin(es[1..], n, freshFns, first + k);
      AllUnusedIs(temps, x);
      AllUnusedIs(rests, x);
      UsedByFirst(p, temps, rests, k, x);
    } else {
      HoistAllUsesOnce(es[1..], n, vis, freshFns, k - |p.temps|);
      PlainAvoids(es[0], vis, first + k);
      HoistWithin(es[0], false, first, freshFns, first + k);
      AllUnusedIs(p.temps, x);
      UnusedIs(p.rest, x);
      UsedByOthers(p, temps, rests, k - |p.temps|, x);
    }
  }

  lemma UsedByFirst(p: Plan, temps: seq<Expr>, rests: seq<Expr>, k: nat, x: string)
    requires k < |p.temps| && UsedOnce(p, k, x) && UsesAll(temps, x) == 0 == UsesAll(rests, x)
    ensures AllUsedOnce(p.temps + temps, [p.rest] + rests, k, x)
  {
    hide Uses;
    var all, lefts := p.temps + temps, [p.rest] + rests;
    assert lefts[1..] == rests && all[..k + 1] == p.temps[..k + 1] && all[k + 1..] == p.temps[k + 1..] + temps;
    UsesConcat(p.temps[k + 1..], temps, x);
  }

  lemma UsedByOthers(p: Plan, temps: seq<Expr>, rests: seq<Expr>, j: nat, x: string)
    requires j < |temps| && AllUsedOnce(temps, rests, j, x) && UsesAll(p.temps, x) == 0 == Uses(p.rest, x)
    ensures AllUsedOnce(p.temps + temps, [p.rest] + rests, |p.temps| + j, x)
  {
    hide Uses;
    var all, lefts, k := p.temps + temps, [p.rest] + rests, |p.temps| + j;
    assert lefts[1..] == rests && all[..k + 1] == p.temps + temps[..j + 1] && all[k + 1..] == temps[j + 1..];
    UsesConcat(p.temps, temps[..j + 1], x);
  }

  // ---------- nothing is left out ----------

  /** No owned string is made where it could be hoisted: not in an argument of a
      standard-library or fresh-result function, nor as a value nobody takes. */
  predicate NoTemporaries(e: Expr, bound: bool, freshFns: FreshFns)
    decreases e
  {
    match e
    case Cond(_, _, _) => bound || !IsOwningInit(e, freshFns)
    case Call(f, args) =>
      f in SAFE_BUILTINS || f in freshFns ==>
        (bound || !IsOwningInit(e, freshFns)) &&
        forall i :: 0 <= i < |args| ==> NoTemporaries(args[i], false, freshFns)
    case _ => true
  }

  predicate NoneIn(es: seq<Expr>, bound: bool, freshFns: FreshFns) {
    forall i :: 0 <= i < |es| ==> NoTemporaries(es[i], bound, freshFns)
  }

  lemma {:induction false} HoistLeavesNone(e: Expr, bound: bool, first: nat, freshFns: FreshFns)
    ensures var p := Hoist(e, bound, first, freshFns);
      NoTemporaries(p.rest, bound, freshFns) && NoneIn(p.temps, true, freshFns)
    decreases e, 0
  {
    hide TmpName;
    if e.Call? && HoistsInto(e.callee, freshFns) { HoistAllLeavesNone(e.args, first, freshFns); }
  }

  lemma {:induction false} HoistAllLeavesNone(es: seq<Expr>, first: nat, freshFns: FreshFns)
    ensures var (temps, rests) := HoistAll(es, first, freshFns);
      NoneIn(rests, false, freshFns) && NoneIn(temps, true, freshFns)
    decreases es, 1
  {
    hide TmpName, IsOwningInit, NoTemporaries, Hoist;
    if es != [] {
      HoistLeavesNone(es[0], false, first, freshFns);
      HoistAllLeavesNone(es[1..], first + |Hoist(es[0], false, first, freshFns).temps|, freshFns);
    }
  }

  // ---------- the result ----------

  /** How many temporaries a statement has: the calls and conditionals that own, in the
      places they could be hoisted from. */
  function TemporaryCount(e: Expr, bound: bool, freshFns: FreshFns): nat {
    match e
    case Cond(_, _, _) => if !bound && IsOwningInit(e, freshFns) then 1 else 0
    case Call(f, args) =>
      if f !in SAFE_BUILTINS && f !in freshFns then 0
      else TemporaryCountAll(args, freshFns) + if !bound && IsOwningInit(e, freshFns) then 1 else 0
    case _ => 0
  }

  function TemporaryCountAll(es: seq<Expr>, freshFns: FreshFns): nat {
    if es == [] then 0 else TemporaryCount(es[0], false, freshFns) + TemporaryCountAll(es[1..], freshFns)
  }

  lemma {:induction false} HoistCounts(e: Expr, bound: bool, first: nat, freshFns: FreshFns)
    ensures |Hoist(e, bound, first, freshFns).temps| == TemporaryCount(e, bound, freshFns)
    decreases e, 0
  {
    hide TmpName, IsOwningInit;
    if e.Call? { HoistAllCounts(e.args, first, freshFns); }
  }

  lemma {:induction false} HoistAllCounts(es: seq<Expr>, first: nat, freshFns: FreshFns)
    ensures |HoistAll(es, first, freshFns).0| == TemporaryCountAll(es, freshFns)
    decreases es, 1
  {
    hide TmpName, IsOwningInit;
    if es != [] {
      HoistCounts(es[0], false, first, freshFns);
      HoistAllCounts(es[1..], first + |Hoist(es[0], false, first, freshFns).temps|, freshFns);
    }
  }

  /** What a statement computes instead of its expression is that expression: with the
      initialisers put back for the hidden bindings, newest first, it is `e` again; each
      hidden binding owns, and is used once, after it is computed; and up to sixteen
      temporaries no owned string is left without a binding, beyond that all are. */
  lemma ChosenIsExpression(e: Expr, bound: bool, vis: set<string>, freshFns: FreshFns)
    requires ExprNamesIn(e, vis) && AllPlain(vis)
    ensures var p := Chosen(e, bound, freshFns);
      PutBack(p.rest, p.temps, 0) == e &&
      (forall k :: 0 <= k < |p.temps| ==> IsOwningInit(p.temps[k], freshFns) && UsedOnce(p, k, TmpName(k))) &&
      if TemporaryCount(e, bound, freshFns) <= 16
      then NoTemporaries(p.rest, bound, freshFns) && NoneIn(p.temps, true, freshFns)
      else p == Plan([], e)
  {
    hide Hoist, TmpName, UsedOnce, AllPlain, ExprNamesIn, IsOwningInit, NoTemporaries;
    var p := Hoist(e, bound, 0, freshFns);
    HoistPutsBack(e, bound, 0, vis, freshFns);
    HoistOwning(e, bound, 0, freshFns);
    HoistLeavesNone(e, bound, 0, freshFns);
    HoistCounts(e, bound, 0, freshFns);
    forall k | 0 <= k < |p.temps| ensures UsedOnce(p, k, TmpName(k)) {
      HoistUsesOnce(e, bound, 0, vis, freshFns, k);
    }
  }
}
