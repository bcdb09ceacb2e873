/** The escape test for mutable owners, told by counting: what it asks of the text. */
module OwnershipEscape {
  import opened OwnershipSyntax
  import opened OwnershipPutBack
  import opened OwnershipInit

  // ---------- what a piece of text contains ----------

  /** Uses of `x` as an argument of a standard-library function. */
  function SafeUses(e: Expr, x: string): nat {
    match e
    case Lit => 0
    case Ident(_) => 0
    case Call(f, args) => SafeUsesAll(args, x) + if f in SAFE_BUILTINS then Handed(args, x) else 0
    case Cond(c, t, e2) => SafeUses(c, x) + SafeUses(t, x) + SafeUses(e2, x)
    case Compound(kids) => SafeUsesAll(kids, x)
  }

  function SafeUsesAll(es: seq<Expr>, x: string): nat {
    if es == [] then 0 else SafeUses(es[0], x) + SafeUsesAll(es[1..], x)
  }

  /** How many of these are `x` itself. */
  function Handed(es: seq<Expr>, x: string): nat {
    if es == [] then 0 else (if es[0] == Ident(x) then 1 else 0) + Handed(es[1..], x)
  }

  /** The functions called that are not in the standard library. */
  function Callees(e: Expr): set<string> {
    match e
    case Lit => {}
    case Ident(_) => {}
    case Call(f, args) => CalleesAll(args) + if f in SAFE_BUILTINS then {} else {f}
    case Cond(c, t, e2) => Callees(c) + Callees(t) + Callees(e2)
    case Compound(kids) => CalleesAll(kids)
  }

  function CalleesAll(es: seq<Expr>): set<string> { if es == [] then {} else Callees(es[0]) + CalleesAll(es[1..]) }

  /** All expressions of a statement and of the statements in it; `proc_exit` is a call. */
  function Parts(s: Stmt): set<Expr>
    decreases s
  {
    match s
    case Bind(_, _, e) => {e}
    case Assign(_, e) => {e}
    case Eval(e) => {e}
    case ProcExit(e) => {Call("proc_exit", [e])}
    case Block(sc) => ScopeParts(sc)
    case If(e, sc) => {e} + ScopeParts(sc)
    case Loop(e, body) => {e} + PartsAll(body)
    case Break => {}
    case Skip => {}
  }

  function PartsAll(ss: seq<Stmt>): set<Expr>
    decreases ss
  {
    if ss == [] then {} else Parts(ss[0]) + PartsAll(ss[1..])
  }

  function ScopeParts(sc: Scope): set<Expr>
    decreases sc
  {
    PartsAll(sc.stmts) + (if sc.fin.Final? then Parts(sc.fin.s) else {}) + PartsAll(sc.deferred)
  }

  /** The names bound; a loop binds `i`. */
  function Names(s: Stmt): set<string>
    decreases s
  {
    match s
    case Bind(n, _, _) => {n}
    case Block(sc) => ScopeNames(sc)
    case If(_, sc) => ScopeNames(sc)
    case Loop(_, body) => {"i"} + NamesAll(body)
    case _ => {}
  }

  function NamesAll(ss: seq<Stmt>): set<string>
    decreases ss
  {
    if ss == [] then {} else Names(ss[0]) + NamesAll(ss[1..])
  }

  function ScopeNames(sc: Scope): set<string>
    decreases sc
  {
    NamesAll(sc.stmts) + (if sc.fin.Final? then Names(sc.fin.s) else {}) + NamesAll(sc.deferred)
  }

  /** What is assigned to `x`. */
  function Given(s: Stmt, x: string): set<Expr>
    decreases s
  {
    match s
    case Assign(n, e) => if n == x then {e} else {}
    case Block(sc) => ScopeGiven(sc, x)
    case If(_, sc) => ScopeGiven(sc, x)
    case Loop(_, body) => GivenAll(body, x)
    case _ => {}
  }

  function GivenAll(ss: seq<Stmt>, x: string): set<Expr>
    decreases ss
  {
    if ss == [] then {} else Given(ss[0], x) + GivenAll(ss[1..], x)
  }

  function ScopeGiven(sc: Scope, x: string): set<Expr>
    decreases sc
  {
    GivenAll(sc.stmts, x) + (if sc.fin.Final? then Given(sc.fin.s, x) else {}) + GivenAll(sc.deferred, x)
  }

  // ---------- expressions ----------

  /** Every use of `x` is as an argument of a standard-library function. */
  predicate OnlyHanded(e: Expr, x: string) { Uses(e, x) == SafeUses(e, x) && x !in Callees(e) }

  lemma {:induction false} SafeAreUses(e: Expr, x: string)
    ensures SafeUses(e, x) <= Uses(e, x)
    decreases e, 0
  {
    match e
    case Call(_, args) => SafeAllAreUses(args, x);
    case Cond(c, t, e2) => SafeAreUses(c, x); SafeAreUses(t, x); SafeAreUses(e2, x);
    case Compound(kids) => SafeAllAreUses(kids, x);
    case _ =>
  }

  lemma {:induction false} SafeAllAreUses(es: seq<Expr>, x: string)
    ensures SafeUsesAll(es, x) + Handed(es, x) <= UsesAll(es, x)
    decreases es, 1
  {
    if es != [] {
      SafeAreUses(es[0], x);
      SafeAllAreUses(es[1..], x);
    }
  }

  /** The test on expressions is this count. */
  lemma {:induction false} ExprTestIs(e: Expr, x: string)
    ensures MutExprOk(e, x) <==> OnlyHanded(e, x)
    decreases e, 0
  {
    match e
    case Call(f, args) =>
      SafeAllAreUses(args, x);
      if f in SAFE_BUILTINS { ArgsTestIs(args, x); } else { AllTestIs(args, x); }
    case Cond(c, t, e2) =>
      ExprTestIs(c, x); ExprTestIs(t, x); ExprTestIs(e2, x);
      SafeAreUses(c, x); SafeAreUses(t, x); SafeAreUses(e2, x);
    case Compound(kids) => AllTestIs(kids, x);
    case _ =>
  }

  lemma {:induction false} ArgsTestIs(es: seq<Expr>, x: string)
    ensures MutArgsOk(es, x) <==> UsesAll(es, x) == SafeUsesAll(es, x) + Handed(es, x) && x !in CalleesAll(es)
    decreases es, 1
  {
    if es != [] {
      ExprTestIs(es[0], x);
      SafeAreUses(es[0], x);
      SafeAllAreUses(es[1..], x);
      ArgsTestIs(es[1..], x);
      FirstArg(es, x);
    }
  }

  lemma FirstArg(es: seq<Expr>, x: string)
    requires es != []
    ensures MutArgsOk(es, x) <==> (es[0] == Ident(x) || MutExprOk(es[0], x)) && MutArgsOk(es[1..], x)
  {
    hide MutExprOk;
    assert forall i :: 0 < i < |es| ==> es[i] == es[1..][i - 1];
  }

  lemma {:induction false} AllTestIs(es: seq<Expr>, x: string)
    ensures (forall i :: 0 <= i < |es| ==> MutExprOk(es[i], x)) <==>
      UsesAll(es, x) == SafeUsesAll(es, x) && x !in CalleesAll(es)
    decreases es, 1
  {
    if es != [] {
      ExprTestIs(es[0], x);
      SafeAreUses(es[0], x);
      SafeAllAreUses(es[1..], x);
      AllTestIs(es[1..], x);
      hide MutExprOk;
      assert forall i :: 0 < i < |es| ==> es[i] == es[1..][i - 1];
    }
  }

  // ---------- statements ----------

  /** The text keeps `x` to itself: it is not bound again, it is used only as an argument of
      standard-library functions, and it is assigned only the results of owned builtins. */
  predicate Keeps(parts: set<Expr>, names: set<string>, given: set<Expr>, x: string) {
    (forall e :: e in parts ==> OnlyHanded(e, x)) && x !in names && forall e :: e in given ==> IsOwnedBuiltinCall(e)
  }

  lemma {:induction false} StmtTestIs(s: Stmt, x: string)
    ensures MutStmtOk(s, x) <==> Keeps(Parts(s), Names(s), Given(s, x), x)
    decreases s, 0
  {
    hide OnlyHanded, MutExprOk, MutArgsOk;
    match s
    case Bind(_, _, e) => ExprTestIs(e, x);
    case Assign(n, e) =>
      ExprTestIs(e, x);
      if IsOwnedBuiltinCall(e) { OwnedTest(e, x); }
    case Eval(e) => ExprTestIs(e, x);
    case ProcExit(e) => ExitTest(e, x);
    case Block(sc) => ScopeTestIs(sc, x);
    case If(e, sc) => ExprTestIs(e, x); ScopeTestIs(sc, x);
    case Loop(e, body) => ExprTestIs(e, x); StmtsTestIs(body, x);
    case _ =>
  }

  lemma OwnedTest(e: Expr, x: string)
    requires IsOwnedBuiltinCall(e)
    ensures MutArgsOk(e.args, x) <==> MutExprOk(e, x)
  {
    assert OWNED_BUILTINS <= SAFE_BUILTINS;
  }

  lemma ExitTest(e: Expr, x: string)
    ensures e == Ident(x) || MutExprOk(e, x) <==> OnlyHanded(Call("proc_exit", [e]), x)
  {
    var call := Call("proc_exit", [e]);
    ExprTestIs(call, x);
    FirstArg([e], x);
    assert [e][1..] == [];
    assert MutExprOk(call, x) <==> MutArgsOk([e], x);
  }

  lemma {:induction false} StmtsTestIs(ss: seq<Stmt>, x: string)
    ensures (forall i :: 0 <= i < |ss| ==> MutStmtOk(ss[i], x)) <==>
      Keeps(PartsAll(ss), NamesAll(ss), GivenAll(ss, x), x)
    decreases ss, 0
  {
    hide MutStmtOk, OnlyHanded;
    if ss != [] {
      StmtTestIs(ss[0], x);
      StmtsTestIs(ss[1..], x);
      assert forall i :: 0 < i < |ss| ==> ss[i] == ss[1..][i - 1];
    }
  }

  lemma {:induction false} ScopeTestIs(sc: Scope, x: string)
    ensures MutScopeOk(sc, x) <==> Keeps(ScopeParts(sc), ScopeNames(sc), ScopeGiven(sc, x), x)
    decreases sc, 0
  {
    hide MutStmtOk, OnlyHanded, PartsAll, NamesAll, GivenAll;
    StmtsTestIs(sc.stmts, x);
    if sc.fin.Final? { StmtTestIs(sc.fin.s, x); }
    StmtsTestIs(sc.deferred, x);
  }

  /** A mutable binding whose initialiser owns is an owner exactly when the rest of its scope
      keeps its variable to itself. */
  lemma MutableOwnerIff(sc: Scope, decl: nat, freshFns: FreshFns)
    requires decl < |sc.stmts| && sc.stmts[decl].Bind? && sc.stmts[decl].isMut
    requires IsOwningInit(sc.stmts[decl].init, freshFns)
    ensures var after := Scope(sc.stmts[decl + 1..], sc.fin, sc.deferred);
      var x := sc.stmts[decl].name;
      OwnAt(sc, decl, freshFns) != NotOwner <==> Keeps(ScopeParts(after), ScopeNames(after), ScopeGiven(after, x), x)
  {
    hide MutStmtOk, Keeps, ScopeParts, ScopeNames, ScopeGiven;
    var after, x := Scope(sc.stmts[decl + 1..], sc.fin, sc.deferred), sc.stmts[decl].name;
    ScopeTestIs(after, x);
    forall i | decl < i < |sc.stmts| ensures sc.stmts[i] == after.stmts[i - decl - 1] {
    }
    assert MutScopeOk(after, x) <==> MutOwnerQualifies(sc, decl, x);
  }

  /** Which bindings own their string: those whose initialiser gives new storage however it is
      evaluated and, if mutable, whose variable the rest of the scope keeps to itself. */
  lemma OwnerIff(sc: Scope, decl: nat, freshFns: FreshFns)
    requires decl < |sc.stmts| && sc.stmts[decl].Bind? && ExitFree(sc.stmts[decl].init)
    requires forall f :: f in freshFns ==> IsUserFunction(f)
    ensures var after := Scope(sc.stmts[decl + 1..], sc.fin, sc.deferred);
      var x := sc.stmts[decl].name;
      OwnAt(sc, decl, freshFns) != NotOwner <==>
      YieldsNew(sc.stmts[decl].init, freshFns) &&
      (sc.stmts[decl].isMut ==> Keeps(ScopeParts(after), ScopeNames(after), ScopeGiven(after, x), x))
  {
    hide YieldsNew, MutOwnerQualifies, Keeps, ScopeParts, ScopeNames, ScopeGiven, IsOwningInit;
    OwningIff(sc.stmts[decl].init, freshFns);
    if sc.stmts[decl].isMut && IsOwningInit(sc.stmts[decl].init, freshFns) { MutableOwnerIff(sc, decl, freshFns); }
  }
}
