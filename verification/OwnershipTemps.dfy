/** Unbound owned temporaries of a simple statement: which calls are hoisted into
    hidden bindings before the statement (src/emit_c.c, hoist_collect). */
module OwnershipTemps {
  import opened OwnershipSyntax

  const MAX_HOIST: nat := 16

  // ---------- names of the hidden bindings ----------

  function Digits(n: nat): (r: string)
    ensures r != []
  {
    if n < 10 then [('0' as int + n) as char] else Digits(n / 10) + [('0' as int + n % 10) as char]
  }

  /** Hidden bindings are numbered within their statement; the program's numbering goes on
      from statement to statement. */
  function TmpName(k: nat): string { TMP + Digits(k) }

  lemma {:induction false} DigitsDiffer(m: nat, n: nat)
    requires Digits(m) == Digits(n)
    ensures m == n
    decreases m
  {
    var dm, dn := Digits(m), Digits(n);
    assert dm[|dm| - 1] == dn[|dn| - 1];
    if m >= 10 && n >= 10 {
      assert dm[..|dm| - 1] == Digits(m / 10) && dn[..|dn| - 1] == Digits(n / 10);
      DigitsDiffer(m / 10, n / 10);
    }
  }

  lemma TmpNamesDiffer(m: nat, n: nat)
    requires TmpName(m) == TmpName(n)
    ensures m == n
  {
    assert TmpName(m)[|TMP|..] == Digits(m) && TmpName(n)[|TMP|..] == Digits(n);
    DigitsDiffer(m, n);
  }

  lemma TmpNotPlain(k: nat)
    ensures !Plain(TmpName(k)) && TmpName(k) !in RESERVED
  {
    assert TMP <= TmpName(k) && TmpName(k)[4] == 't';
    assert TmpName(k)[5] == 'm';
  }

  // ---------- what is hoisted ----------

  /** The initialisers of the hidden bindings, left to right and inner before outer,
      and the expression that is left. */
  datatype Plan = Plan(temps: seq<Expr>, rest: Expr)

  predicate HoistsInto(f: string, freshFns: FreshFns) { f in SAFE_BUILTINS || f in freshFns }

  /** `first` is the number of the next hidden binding; `bound` says that the value of
      `e` goes into a variable. */
  function Hoist(e: Expr, bound: bool, first: nat, freshFns: FreshFns): Plan
    decreases e
  {
    match e
    case Cond(_, _, _) =>
      if !bound && IsOwningInit(e, freshFns) then Plan([e], Ident(TmpName(first))) else Plan([], e)
    case Call(f, args) =>
      if !HoistsInto(f, freshFns) then Plan([], e)
      else
        var (temps, rests) := HoistAll(args, first, freshFns);
        var call := Call(f, rests);
        if !bound && IsOwningInit(e, freshFns) then Plan(temps + [call], Ident(TmpName(first + |temps|)))
        else Plan(temps, call)
    case _ => Plan([], e)
  }

  function HoistAll(es: seq<Expr>, first: nat, freshFns: FreshFns): (r: (seq<Expr>, seq<Expr>))
    ensures |r.1| == |es|
    decreases es
  {
    if es == [] then ([], [])
    else
      var p := Hoist(es[0], false, first, freshFns);
      var (temps, rests) := HoistAll(es[1..], first + |p.temps|, freshFns);
      (p.temps + temps, [p.rest] + rests)
  }

  /** A statement with too many temporaries hoists none. */
  function Chosen(e: Expr, bound: bool, freshFns: FreshFns): Plan {
    var p := Hoist(e, bound, 0, freshFns);
    if |p.temps| > MAX_HOIST then Plan([], e) else p
  }

  // ---------- what a plan looks like ----------

  lemma {:induction false} HoistOwning(e: Expr, bound: bool, first: nat, freshFns: FreshFns)
    ensures var p := Hoist(e, bound, first, freshFns);
      (forall i :: 0 <= i < |p.temps| ==> IsOwningInit(p.temps[i], freshFns)) && (p.temps == [] ==> p.rest == e) &&
      (bound && p.temps != [] ==>
        e.Call? && p.rest.Call? && p.rest.callee == e.callee && HoistsInto(e.callee, freshFns))
    decreases e
  {
    if e.Call? && HoistsInto(e.callee, freshFns) { HoistAllOwning(e.args, first, freshFns); }
  }

  lemma {:induction false} HoistAllOwning(es: seq<Expr>, first: nat, freshFns: FreshFns)
    ensures var (temps, rests) := HoistAll(es, first, freshFns);
      (forall i :: 0 <= i < |temps| ==> IsOwningInit(temps[i], freshFns)) && (temps == [] ==> rests == es)
    decreases es
  {
    if es != [] {
      HoistOwning(es[0], false, first, freshFns);
      HoistAllOwning(es[1..], first + |Hoist(es[0], false, first, freshFns).temps|, freshFns);
    }
  }

  /** What a statement computes in place of its expression keeps its shape. */
  lemma ChosenIs(e: Expr, bound: bool, freshFns: FreshFns)
    ensures var p := Chosen(e, bound, freshFns);
      (forall i :: 0 <= i < |p.temps| ==> IsOwningInit(p.temps[i], freshFns)) && (p.temps == [] ==> p.rest == e) &&
      (bound && p.temps != [] ==>
        e.Call? && p.rest.Call? && p.rest.callee == e.callee && HoistsInto(e.callee, freshFns)) &&
      (bound ==> (IsOwningInit(p.rest, freshFns) <==> IsOwningInit(e, freshFns)) &&
                 (IsOwnedBuiltinCall(p.rest) <==> IsOwnedBuiltinCall(e)))
  {
    HoistOwning(e, bound, 0, freshFns);
  }

  /** The expression does not use variable `x`. */
  predicate Avoids(e: Expr, x: string) {
    match e
    case Lit => true
    case Ident(n) => n != x
    case Call(_, args) => AllAvoid(args, x)
    case Cond(c, t, e) => Avoids(c, x) && Avoids(t, x) && Avoids(e, x)
    case Compound(kids) => AllAvoid(kids, x)
  }

  predicate AllAvoid(es: seq<Expr>, x: string) { forall i :: 0 <= i < |es| ==> Avoids(es[i], x) }

  lemma {:induction false} NamesAvoid(e: Expr, vis: set<string>, x: string)
    requires ExprNamesIn(e, vis) && x !in vis
    ensures Avoids(e, x)
    decreases e
  {
    match e
    case Call(_, args) => forall i | 0 <= i < |args| ensures Avoids(args[i], x) { NamesAvoid(args[i], vis, x); }
    case Cond(c, t, e2) => NamesAvoid(c, vis, x); NamesAvoid(t, vis, x); NamesAvoid(e2, vis, x);
    case Compound(kids) => forall i | 0 <= i < |kids| ensures Avoids(kids[i], x) { NamesAvoid(kids[i], vis, x); }
    case _ =>
  }

  /** Hoisting brings in the names of hidden bindings only. */
  lemma {:induction false} HoistAvoids(e: Expr, bound: bool, first: nat, freshFns: FreshFns, x: string)
    requires Avoids(e, x) && forall k: nat :: TmpName(k) != x
    ensures var p := Hoist(e, bound, first, freshFns); AllAvoid(p.temps, x) && Avoids(p.rest, x)
    decreases e
  {
    if e.Call? && HoistsInto(e.callee, freshFns) { HoistAllAvoids(e.args, first, freshFns, x); }
  }

  lemma {:induction false} HoistAllAvoids(es: seq<Expr>, first: nat, freshFns: FreshFns, x: string)
    requires AllAvoid(es, x) && forall k: nat :: TmpName(k) != x
    ensures var (temps, rests) := HoistAll(es, first, freshFns); AllAvoid(temps, x) && AllAvoid(rests, x)
    decreases es
  {
    if es != [] {
      HoistAvoids(es[0], false, first, freshFns, x);
      HoistAllAvoids(es[1..], first + |Hoist(es[0], false, first, freshFns).temps|, freshFns, x);
    }
  }

  /** Hoisting keeps the escape test for a name of the program. */
  lemma {:induction false} HoistMutOk(e: Expr, bound: bool, first: nat, freshFns: FreshFns, x: string)
    requires MutExprOk(e, x) && Plain(x)
    ensures var p := Hoist(e, bound, first, freshFns);
      (forall i :: 0 <= i < |p.temps| ==> MutExprOk(p.temps[i], x)) && MutExprOk(p.rest, x)
    decreases e
  {
    if e.Cond? { TmpNotPlain(first); }
    if e.Call? && HoistsInto(e.callee, freshFns) {
      HoistAllMutOk(e.args, first, freshFns, x);
      TmpNotPlain(first + |HoistAll(e.args, first, freshFns).0|);
    }
  }

  lemma {:induction false} HoistAllMutOk(es: seq<Expr>, first: nat, freshFns: FreshFns, x: string)
    requires MutArgsOk(es, x) && Plain(x)
    ensures var (temps, rests) := HoistAll(es, first, freshFns);
      (forall i :: 0 <= i < |temps| ==> MutExprOk(temps[i], x)) && MutArgsOk(rests, x) &&
      ((forall i :: 0 <= i < |es| ==> MutExprOk(es[i], x)) ==> forall i :: 0 <= i < |rests| ==> MutExprOk(rests[i], x))
    decreases es
  {
    if es != [] {
      if es[0] != Ident(x) { HoistMutOk(es[0], false, first, freshFns, x); }
      HoistAllMutOk(es[1..], first + |Hoist(es[0], false, first, freshFns).temps|, freshFns, x);
    }
  }
}
