/** The meaning section 16.4 of the Tiq language specification gives to owned
    strings: every scope destroys the strings its own bindings hold, in reverse
    declaration order, whenever control leaves it, and a reassigned mutable
    owner destroys its previous string; temporaries die with their statement. What
    the code gives up instead is written into this semantics as well: a process that
    ends inside an expression destroys nothing, jumps, exits and reassignments do not
    reach beyond `MAX_SCOPE_DEPTH` nested scopes, and a block's deferred statements run
    without its own owners in sight. Nothing here mentions the emitted code. */
module OwnershipRef {
  import opened OwnershipSyntax
  import opened OwnershipTemps
  import opened OwnershipRun

  const MAX_SCOPE_DEPTH: nat := 64

  /** `tracked` is false when the jump happened inside too many scopes, or the
      process ended inside an expression. */
  datatype ROut = RNormal | RBroke(tracked: bool) | RSkipped(tracked: bool) | RExited(tracked: bool) | ROutOfFuel

  /** An executed statement: whether it was a block's final or deferred one, how many
      scopes enclosed it, how it ended, and the variables, heap and owners after it.
      `loop` is where the variables of the innermost loop body start, `gone` the
      addresses destroyed for mutable owners so far, `outer` the scopes around the
      statement, `temps` how many temporaries were alive when the process ended. */
  datatype Entry = Entry(s: Stmt, fin: bool, d: nat, out: ROut, loop: nat, c: CState, own: seq<Own>, gone: set<nat>,
                         outer: seq<Scope>, temps: nat)

  /** `own[i]` says what variable `i` owns. `bound` logs every address handed to
      an owner, `leaked` those given up without being destroyed, `trace` the
      statements executed. A temporary counts as bound once its statement has ended.
      `astray` says that a variable owning nothing had its value freed. */
  datatype RawState = RState(c: CState, own: seq<Own>, bound: seq<nat>, leaked: seq<nat>, loop: nat, gone: set<nat>,
                             trace: seq<Entry>, outer: seq<Scope>, temps: nat, astray: bool)

  type RState = r: RawState | |r.own| == |r.c.env|
    witness RState(CState([], Heap({}, 0, {}, [], false, 0, false)), [], [], [], 0, {}, [], [], 0, false)

  /** Record an executed statement. */
  function Note(r: RState, s: Stmt, fin: bool, d: nat, out: ROut): RState {
    r.(trace := r.trace + [Entry(s, fin, d, out, r.loop, r.c, r.own, r.gone, r.outer, r.temps)])
  }

  function Addr(v: Val): nat { if v.Ptr? then v.addr else 0 }

  // ---------- owners ----------

  /** Destroy what the variables from `lo` on own, last declared first. */
  function Destroy(env: Env, own: seq<Own>, h: Heap, lo: nat): Heap
    requires |own| == |env|
    decreases |env|
  {
    if |env| <= lo then h
    else
      var k := |env| - 1;
      Destroy(env[..k], own[..k], if Active(own[k]) then Release(env[k].val, h) else h, lo)
  }

  /** The addresses those variables own, hidden or not. */
  function OwnedAddrs(env: Env, own: seq<Own>, lo: nat): seq<nat>
    requires |own| == |env|
    decreases |env|
  {
    if |env| <= lo then []
    else
      var k := |env| - 1;
      OwnedAddrs(env[..k], own[..k], lo) + if Owns(own[k]) then [Addr(env[k].val)] else []
  }

  function Pop(r: RState, base: nat): RState {
    if base <= |r.own| then r.(c := r.c.(env := r.c.env[..base]), own := r.own[..base]) else r
  }

  /** The addresses of the mutable owners among the variables from `lo` on. */
  function MutAddrs(env: Env, own: seq<Own>, lo: nat): set<nat>
    requires |own| == |env|
  {
    set i | lo <= i < |env| && own[i] == MutOwner :: Addr(env[i].val)
  }

  /** Put the variables from `base` on out of the emitter's sight. */
  function Hide(own: seq<Own>, base: nat): (r: seq<Own>)
    ensures |r| == |own|
  {
    seq(|own|, i requires 0 <= i < |own| => if i >= base && !own[i].Hidden? then Hidden(own[i]) else own[i])
  }

  /** Back in sight. */
  function Show(own: seq<Own>, base: nat): (r: seq<Own>)
    ensures |r| == |own|
  {
    seq(|own|, i requires 0 <= i < |own| => if i >= base then Kind(own[i]) else own[i])
  }

  /** What is hidden from `base` on forgotten, and the rest of it. */
  function Forget(own: seq<Own>, base: nat): (r: seq<Own>)
    ensures |r| == |own|
  {
    seq(|own|, i requires 0 <= i < |own| => if i >= base && own[i].Hidden? then NotOwner else own[i])
  }

  function OnlyHidden(own: seq<Own>): (r: seq<Own>)
    ensures |r| == |own|
  {
    seq(|own|, i requires 0 <= i < |own| => if own[i].Hidden? then own[i] else NotOwner)
  }

  predicate Lost(out: ROut) {
    (out.RBroke? || out.RSkipped? || out.RExited?) && !out.tracked
  }

  /** Control leaves the scope whose variables start at `base`: by its end everything it
      owns is destroyed, by a jump or exit what is in sight, if anything is. */
  function LeaveScope(r: RState, base: nat, out: ROut): RState {
    if out.ROutOfFuel? then r
    else if out.RNormal? then DestroyScope(r.(own := Show(r.own, base)), base)
    else if Lost(out) then Pop(r.(leaked := r.leaked + OwnedAddrs(r.c.env, r.own, base)), base)
    else DestroyScope(GiveUpHidden(r, base), base)
  }

  function DestroyScope(r: RState, base: nat): RState {
    Pop(r.(c := r.c.(h := Destroy(r.c.env, r.own, r.c.h, base)), gone := r.gone + MutAddrs(r.c.env, r.own, base)), base)
  }

  function GiveUpHidden(r: RState, base: nat): RState {
    r.(leaked := r.leaked + OwnedAddrs(r.c.env, OnlyHidden(r.own), base), own := Forget(r.own, base))
  }

  // ---------- expressions ----------

  function RefEval(e: Expr, r: RState, o: Choices, freshFns: FreshFns): (Val, RState) {
    var (v, h1) := EvalExpr(e, r.c.env, r.c.h, o, freshFns);
    (v, r.(c := r.c.(h := h1)))
  }

  /** Compute the expression of a simple statement: its temporaries, then what is left. */
  function RefCompute(e: Expr, bound: bool, r: RState, o: Choices, freshFns: FreshFns): (Val, RState, Env) {
    var p := Chosen(e, bound, freshFns);
    var (env1, h1) := EvalTemps(p.temps, 0, r.c.env, r.c.h, o, freshFns);
    var tv := env1[|r.c.env|..];
    if h1.halted then (Other, r.(c := r.c.(h := h1)), tv)
    else
      var (v, h2) := EvalExpr(p.rest, env1, h1, o, freshFns);
      (v, r.(c := r.c.(h := h2)), tv)
  }

  function TmpAddrs(tv: Env): seq<nat> { seq(|tv|, i requires 0 <= i < |tv| => Addr(tv[i].val)) }

  /** Temporaries die at the end of their statement. */
  function RefFinish(tv: Env, r: RState): RState {
    r.(c := r.c.(h := ReleaseTemps(tv, r.c.h)), bound := r.bound + TmpAddrs(tv))
  }

  /** The process ended while temporaries were alive. */
  function RefLose(tv: Env, r: RState): RState {
    r.(bound := r.bound + TmpAddrs(tv), leaked := r.leaked + TmpAddrs(tv), temps := |tv|)
  }

  /** Bind a variable that owns its value as `k` says. */
  function RefBind(n: string, v: Val, k: Own, r: RState): RState {
    r.(c := r.c.(env := r.c.env + [Var(n, v)]), own := r.own + [k],
       bound := if k != NotOwner then r.bound + [Addr(v)] else r.bound)
  }

  /** Is the assigned variable taken for a mutable owner? A hidden one is when an
      enclosing scope declares a mutable owner of the same name. */
  predicate TakenForOwner(k: Own, n: string, d: nat, outer: seq<Scope>, freshFns: FreshFns) {
    d <= MAX_SCOPE_DEPTH && (k == MutOwner || (k.Hidden? && SearchOwner(outer, n, freshFns)))
  }

  /** Assign the value of `e`; a mutable owner gives up its previous string. */
  function RefAssign(n: string, e: Expr, v: Val, r: RState, d: nat, freshFns: FreshFns): RState {
    var i := Find(r.c.env, n);
    var r1 := r.(c := r.c.(env := Update(r.c.env, n, v)));
    if i < 0 || !IsOwnedBuiltinCall(e) then r1
    else
      var previous := r.c.env[i].val;
      var r2 := if Kind(r.own[i]) == MutOwner then r1.(bound := r1.bound + [Addr(v)]) else r1;
      if TakenForOwner(r.own[i], n, d, r.outer, freshFns)
      then r2.(c := r2.c.(h := Release(previous, r2.c.h)),
               gone := if Kind(r.own[i]) == MutOwner then r2.gone + {Addr(previous)} else r2.gone,
               astray := r2.astray || Kind(r.own[i]) != MutOwner)
      else if Kind(r.own[i]) == MutOwner then r2.(leaked := r2.leaked + [Addr(previous)])
      else r2
  }

  /** What an expression's evaluation does to control: an embedded `proc_exit`,
      or a callee that exits, ends the process with nothing destroyed. */
  function AfterEval(r: RState): ROut { if r.c.h.halted then RExited(false) else RNormal }

  // ---------- statements ----------

  /** `k` is what the binding owns when `s` is one; `d` counts enclosing scopes. */
  function RefStmt(s: Stmt, k: Own, r: RState, d: nat, o: Choices, freshFns: FreshFns, fuel: nat): (RState, ROut)
    decreases fuel, s, 0
  {
    match s
    case Bind(n, _, e) =>
      var (v, r1, tv) := RefCompute(e, true, r, o, freshFns);
      if r1.c.h.halted then (RefLose(tv, r1), RExited(false)) else (RefFinish(tv, RefBind(n, v, k, r1)), RNormal)
    case Assign(n, e) =>
      var (v, r1, tv) := RefCompute(e, true, r, o, freshFns);
      if r1.c.h.halted then (RefLose(tv, r1), RExited(false))
      else (RefFinish(tv, RefAssign(n, e, v, r1, d, freshFns)), RNormal)
    case Eval(e) =>
      var (_, r1, tv) := RefCompute(e, false, r, o, freshFns);
      if r1.c.h.halted then (RefLose(tv, r1), RExited(false)) else (RefFinish(tv, r1), RNormal)
    case ProcExit(e) =>
      var (_, r1) := RefEval(e, r, o, freshFns);
      (r1, RExited(!r1.c.h.halted && d <= MAX_SCOPE_DEPTH))
    case Block(sc) => RefScope(sc, r, d, o, freshFns, fuel)
    case If(e, sc) =>
      var (_, r1) := RefEval(e, r, o, freshFns);
      var r2 := r1.(c := r1.c.(h := Tick(r1.c.h)));
      if r1.c.h.halted then (r1, RExited(false))
      else if Decide(o, r1.c.h) then RefScope(sc, r2, d, o, freshFns, fuel) else (r2, RNormal)
    case Loop(e, body) =>
      if fuel == 0 then (r, ROutOfFuel)
      else
        var (r1, out, again) := RefIteration(e, body, r, d, o, freshFns, fuel);
        if again then RefStmt(s, k, r1, d, o, freshFns, fuel - 1) else (r1, out)
    case Break => (r, RBroke(d <= MAX_SCOPE_DEPTH))
    case Skip => (r, RSkipped(d <= MAX_SCOPE_DEPTH))
  }

  /** Test the loop condition and run the body at most once; the flag says
      whether the loop goes on. */
  function RefIteration(e: Expr, body: seq<Stmt>, r: RState, d: nat, o: Choices, freshFns: FreshFns, fuel: nat)
      : (RState, ROut, bool)
    decreases fuel, body, |body| + 1
  {
    var (_, r1) := RefEval(e, r, o, freshFns);
    var r2 := r1.(c := r1.c.(h := Tick(r1.c.h)));
    if r1.c.h.halted then (r1, RExited(false), false)
    else if !Decide(o, r1.c.h) then (r2, RNormal, false)
    else
      var sc := LoopScope(body);
      var (r3, out) := RefFrom(sc, 0, r2.(loop := |r.own|, outer := r.outer + [sc]), d + 1, o, freshFns, fuel);
      var r4 := LeaveScope(r3, |r.own|, out).(loop := r.loop, outer := r.outer);
      if out.RBroke? then (r4, RNormal, false) else (r4, out, out.RNormal? || out.RSkipped?)
  }

  /** Statements `i..` of `sc`. */
  function RefFrom(sc: Scope, i: nat, r: RState, d: nat, o: Choices, freshFns: FreshFns, fuel: nat): (RState, ROut)
    requires i <= |sc.stmts|
    decreases fuel, sc.stmts, |sc.stmts| - i
  {
    if i == |sc.stmts| then (r, RNormal)
    else
      var (r1, out) := RefStmt(sc.stmts[i], OwnAt(sc, i, freshFns), r, d, o, freshFns, fuel);
      var r2 := Note(r1, sc.stmts[i], false, d, out);
      if out.RNormal? then RefFrom(sc, i + 1, r2, d, o, freshFns, fuel) else (r2, out)
  }

  /** A statement in final or deferred position. An owning binding there is no owner for
      the emitter: its string is lost at once. */
  function RefTrailing(s: Stmt, r: RState, d: nat, o: Choices, freshFns: FreshFns, fuel: nat): (RState, ROut)
    decreases fuel, s, 1
  {
    var (r1, out) := RefStmt(s, NotOwner, r, d, o, freshFns, fuel);
    var r2 := Note(r1, s, true, d, out);
    if out.RNormal? && s.Bind? && IsOwningInit(s.init, freshFns) && r1.c.env != [] then
      var a := Addr(r1.c.env[|r1.c.env| - 1].val);
      (r2.(bound := r2.bound + [a], leaked := r2.leaked + [a]), out)
    else (r2, out)
  }

  function RefFinal(fin: Final, r: RState, d: nat, o: Choices, freshFns: FreshFns, fuel: nat): (RState, ROut)
    decreases fuel, fin, 2
  {
    if fin.NoFinal? then (r, RNormal) else RefTrailing(fin.s, r, d, o, freshFns, fuel)
  }

  /** The first `n` deferred statements of a block run last to first, until one does not
      end normally, with the block's own variables, from `base` on, hidden. */
  function RefDeferred(ss: seq<Stmt>, n: nat, r: RState, base: nat, d: nat, o: Choices, freshFns: FreshFns, fuel: nat)
      : (RState, ROut)
    requires n <= |ss|
    decreases fuel, ss, n
  {
    if n == 0 then (r, RNormal)
    else
      var (r1, out) := RefTrailing(ss[n - 1], r.(own := Hide(r.own, base)), d, o, freshFns, fuel);
      if out.RNormal? then RefDeferred(ss, n - 1, r1, base, d, o, freshFns, fuel) else (r1, out)
  }

  /** A block inside `d` scopes. */
  function RefScope(sc: Scope, r: RState, d: nat, o: Choices, freshFns: FreshFns, fuel: nat): (RState, ROut)
    decreases fuel, sc, 2
  {
    var (r1, out) := RefInside(sc, r, d, o, freshFns, fuel);
    (LeaveScope(r1, |r.own|, out), out)
  }

  /** The block's contents, before it is left. */
  function RefInside(sc: Scope, r: RState, d: nat, o: Choices, freshFns: FreshFns, fuel: nat): (RState, ROut)
    decreases fuel, sc, 1
  {
    var (r1, out1) := RefBody(sc, r.(outer := r.outer + [sc]), d + 1, o, freshFns, fuel);
    if !out1.RNormal? then (r1.(outer := r.outer), out1)
    else RefDeferred(sc.deferred, |sc.deferred|, r1.(outer := r.outer), |r.own|, d, o, freshFns, fuel)
  }

  /** Statements and final statement. */
  function RefBody(sc: Scope, r: RState, d: nat, o: Choices, freshFns: FreshFns, fuel: nat): (RState, ROut)
    decreases fuel, sc, 0
  {
    var (r1, out1) := RefFrom(sc, 0, r, d, o, freshFns, fuel);
    if !out1.RNormal? then (r1, out1) else RefFinal(sc.fin, r1, d, o, freshFns, fuel)
  }

  // ---------- functions and the program ----------

  datatype ResultType = ScalarResult | StrResult | OtherResult

  /** Statement index of the owner named `n`, or -1. */
  function OwnerIndex(sc: Scope, n: string, i: nat, freshFns: FreshFns): (r: int)
    requires i <= |sc.stmts|
    ensures r == -1 || (i <= r < |sc.stmts| && OwnAt(sc, r, freshFns) != NotOwner && sc.stmts[r].name == n)
    decreases |sc.stmts| - i
  {
    if i == |sc.stmts| then -1
    else if OwnAt(sc, i, freshFns) != NotOwner && sc.stmts[i].name == n then i
    else OwnerIndex(sc, n, i + 1, freshFns)
  }

  /** Is the last statement of a body an expression? `proc_exit` is one here. */
  predicate GivesResult(fin: Final) { fin.Final? && (fin.s.Eval? || fin.s.ProcExit?) }

  function ResultExpr(fin: Final): Expr
    requires GivesResult(fin)
  {
    if fin.s.Eval? then fin.s.e else Call("proc_exit", [fin.s.code])
  }

  /** What a function body does with its owners once the result is computed. */
  datatype Policy = FreeAll | FreeAllBut(n: string) | FreeNone

  function ResultPolicy(sc: Scope, ty: ResultType, freshFns: FreshFns): Policy {
    if !GivesResult(sc.fin) || ty.ScalarResult? then FreeAll
    else
      var e := ResultExpr(sc.fin);
      if ty.StrResult? && (e.Lit? || IsOwnedBuiltinCall(e)) then FreeAll
      else if ty.StrResult? && e.Ident? && OwnerIndex(sc, e.name, 0, freshFns) >= 0 then FreeAllBut(e.name)
      else FreeNone
  }

  /** Destroy all but the owner called `n`. */
  function DestroyBut(env: Env, own: seq<Own>, h: Heap, lo: nat, n: string): Heap
    requires |own| == |env|
    decreases |env|
  {
    if |env| <= lo then h
    else
      var k := |env| - 1;
      DestroyBut(env[..k], own[..k],
                 if Active(own[k]) && env[k].name != n then Release(env[k].val, h) else h, lo, n)
  }

  /** Is `fn` fresh-result? Classified before any function is known to be. */
  predicate IsFreshResult(sc: Scope, ty: ResultType) {
    ty.StrResult? && sc.fin.Final? && sc.fin.s.Eval? &&
    var e := sc.fin.s.e;
    IsOwnedBuiltinCall(e) || (e.Ident? && OwnerIndex(sc, e.name, 0, map[]) >= 0)
  }
}
