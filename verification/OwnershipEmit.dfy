/** What the C backend prints: where it inserts `free` calls
    (src/emit_c.c, emit_scope_frees_except, emit_jump_frees, emit_exit_frees,
    mut_reassign_owner, and the statement cases of emit_stmt). */
module OwnershipEmit {
  import opened OwnershipSyntax
  import opened OwnershipTemps
  import opened OwnershipRun
  import opened OwnershipRef

  /** A scope being emitted and the index of the statement it has reached. */
  datatype EmitScope = EmitScope(sc: Scope, emitted: nat, isLoop: bool)

  /** The tracked part of the scope stack, outermost first. `depth` counts the
      scopes entered, tracked or not. */
  datatype Stack = Stack(scopes: seq<EmitScope>, depth: nat)

  predicate Tracked(k: Stack) { k.depth <= MAX_SCOPE_DEPTH }

  /** The stack with `sc` entered and at statement `i`; an overflowing scope is
      only counted. */
  function Enter(k: Stack, sc: Scope, i: nat, isLoop: bool): Stack {
    Stack(if k.depth < MAX_SCOPE_DEPTH then k.scopes + [EmitScope(sc, i, isLoop)] else k.scopes, k.depth + 1)
  }

  /** Free the owners among the first `limit` statements except statement
      `keep`, last one first. */
  function ScopeFrees(sc: Scope, limit: nat, keep: int, freshFns: FreshFns): seq<CStmt>
    decreases limit
  {
    if limit == 0 then []
    else
      (if limit <= |sc.stmts| && limit - 1 != keep && OwnAt(sc, limit - 1, freshFns) != NotOwner
       then [CFree(sc.stmts[limit - 1].name)] else []) +
      ScopeFrees(sc, limit - 1, keep, freshFns)
  }

  /** Free the owners of every scope a break or skip leaves. */
  function JumpFrees(scopes: seq<EmitScope>, freshFns: FreshFns): seq<CStmt> {
    if scopes == [] then []
    else
      var s := scopes[|scopes| - 1];
      ScopeFrees(s.sc, s.emitted, -1, freshFns) +
      if s.isLoop then [] else JumpFrees(scopes[..|scopes| - 1], freshFns)
  }

  function ExitFrees(scopes: seq<EmitScope>, freshFns: FreshFns): seq<CStmt> {
    if scopes == [] then []
    else
      var s := scopes[|scopes| - 1];
      ScopeFrees(s.sc, s.emitted, -1, freshFns) + ExitFrees(scopes[..|scopes| - 1], freshFns)
  }

  /** Does the innermost declaration of `n` make it a mutable owner? */
  predicate ReassignsOwner(scopes: seq<EmitScope>, n: string, freshFns: FreshFns) {
    scopes != [] &&
    var s := scopes[|scopes| - 1];
    var i := Declares(s.sc, n, 0);
    if i >= 0 then OwnAt(s.sc, i, freshFns) == MutOwner
    else ReassignsOwner(scopes[..|scopes| - 1], n, freshFns)
  }

  /** A simple statement with its hidden bindings around it. */
  function Hoisted(temps: seq<Expr>, inner: CStmt): CStmt { if temps == [] then inner else CHoisted(temps, inner) }

  /** The assignment itself; a mutable owner's previous string is freed once the new one
      is there. */
  function EmitSet(n: string, rest: Expr, swap: bool): CStmt {
    if swap then CBlock([CDecl("tiq_old", Ident(n)), CSet(n, rest), CFree("tiq_old")]) else CSet(n, rest)
  }

  predicate Swaps(n: string, e: Expr, k: Stack, freshFns: FreshFns) {
    IsOwnedBuiltinCall(e) && Tracked(k) && ReassignsOwner(k.scopes, n, freshFns)
  }

  function EmitStmt(s: Stmt, k: Stack, freshFns: FreshFns): seq<CStmt>
    decreases s, 0
  {
    match s
    case Bind(n, _, e) =>
      var p := Chosen(e, true, freshFns);
      [Hoisted(p.temps, CDecl(n, p.rest))]
    case Assign(n, e) =>
      var p := Chosen(e, true, freshFns);
      [Hoisted(p.temps, EmitSet(n, p.rest, Swaps(n, e, k, freshFns)))]
    case Eval(e) =>
      var p := Chosen(e, false, freshFns);
      [Hoisted(p.temps, CExpr(p.rest))]
    case ProcExit(e) =>
      [CBlock([CDecl("tiq_exit_code", e)] +
              (if Tracked(k) then ExitFrees(k.scopes, freshFns) else []) + [CExit])]
    case Block(sc) => [EmitBlock(sc, k, freshFns)]
    case If(e, sc) => [CIf(e, EmitBlock(sc, k, freshFns))]
    case Loop(e, body) =>
      [CWhile(e, EmitFrom(LoopScope(body), 0, k, true, freshFns) +
                 ScopeFrees(LoopScope(body), |body|, -1, freshFns))]
    case Break => (if Tracked(k) then JumpFrees(k.scopes, freshFns) else []) + [CBreak]
    case Skip => (if Tracked(k) then JumpFrees(k.scopes, freshFns) else []) + [CContinue]
  }

  function EmitFrom(sc: Scope, i: nat, k: Stack, isLoop: bool, freshFns: FreshFns): seq<CStmt>
    requires i <= |sc.stmts|
    decreases sc.stmts, |sc.stmts| - i
  {
    if i == |sc.stmts| then []
    else EmitStmt(sc.stmts[i], Enter(k, sc, i, isLoop), freshFns) + EmitFrom(sc, i + 1, k, isLoop, freshFns)
  }

  /** A block: statements, final statement, deferred statements, frees. */
  function EmitBlock(sc: Scope, k: Stack, freshFns: FreshFns): CStmt
    decreases sc, 2
  {
    CBlock(EmitInside(sc, k, freshFns) + ScopeFrees(sc, |sc.stmts|, -1, freshFns))
  }

  /** The deferred statements are printed with the block's scope popped. */
  function EmitInside(sc: Scope, k: Stack, freshFns: FreshFns): seq<CStmt>
    decreases sc, 1
  {
    EmitBody(sc, k, freshFns) + EmitDeferred(sc.deferred, |sc.deferred|, k, freshFns)
  }

  function EmitBody(sc: Scope, k: Stack, freshFns: FreshFns): seq<CStmt>
    decreases sc, 0
  {
    EmitFrom(sc, 0, k, false, freshFns) + EmitFinal(sc.fin, Enter(k, sc, |sc.stmts|, false), freshFns)
  }

  function EmitFinal(fin: Final, k: Stack, freshFns: FreshFns): seq<CStmt>
    decreases fin, 1
  {
    if fin.Final? then EmitStmt(fin.s, k, freshFns) else []
  }

  /** The first `n` deferred statements, last one first. */
  function EmitDeferred(ss: seq<Stmt>, n: nat, k: Stack, freshFns: FreshFns): seq<CStmt>
    requires n <= |ss|
    decreases ss, n
  {
    if n == 0 then [] else EmitStmt(ss[n - 1], k, freshFns) + EmitDeferred(ss, n - 1, k, freshFns)
  }

  /** The top-level program: its statements, then the frees of its scope. */
  function EmitProgram(stmts: seq<Stmt>, freshFns: FreshFns): seq<CStmt> {
    EmitFrom(LoopScope(stmts), 0, Stack([], 0), false, freshFns) +
    ScopeFrees(LoopScope(stmts), |stmts|, -1, freshFns)
  }

  /** Statements from `i` on, all at the same place on the stack. */
  function InOrder(ss: seq<Stmt>, i: nat, k: Stack, freshFns: FreshFns): seq<CStmt>
    requires i <= |ss|
    decreases |ss| - i
  {
    if i == |ss| then [] else EmitStmt(ss[i], k, freshFns) + InOrder(ss, i + 1, k, freshFns)
  }

  predicate HasOwner(sc: Scope, freshFns: FreshFns) {
    exists i :: 0 <= i < |sc.stmts| && OwnAt(sc, i, freshFns) != NotOwner
  }

  /** The stack at the end of a function body. */
  function BodyEnd(sc: Scope): Stack { Enter(Stack([], 0), sc, |sc.stmts|, false) }

  /** A function body. Deferred statements run first to last here, with the body's
      scope in sight, before the result is computed. */
  function EmitFunction(sc: Scope, ty: ResultType, freshFns: FreshFns): seq<CStmt> {
    EmitFrom(sc, 0, Stack([], 0), false, freshFns) +
    (InOrder(sc.deferred, 0, BodyEnd(sc), freshFns) + FunctionTail(sc, ty, freshFns))
  }

  /** The result and the frees that go with it. A last statement that computes a value
      gives the result, even when it ends the process. */
  function FunctionTail(sc: Scope, ty: ResultType, freshFns: FreshFns): seq<CStmt> {
    var frees := ScopeFrees(sc, |sc.stmts|, -1, freshFns);
    var policy := ResultPolicy(sc, ty, freshFns);
    if !GivesResult(sc.fin) then
      EmitFinal(sc.fin, BodyEnd(sc), freshFns) + (frees + [CReturn(Lit)])
    else
      var e := ResultExpr(sc.fin);
      if policy.FreeNone? || (policy.FreeAll? && !HasOwner(sc, freshFns)) then [CReturn(e)]
      else
        var keep := if policy.FreeAllBut? then OwnerIndex(sc, policy.n, 0, freshFns) else -1;
        [CDecl("tiq_fn_ret", e)] +
        (ScopeFrees(sc, |sc.stmts|, keep, freshFns) + [CReturn(Ident("tiq_fn_ret"))])
  }
}
