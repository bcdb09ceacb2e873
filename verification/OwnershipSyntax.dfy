/** Source programs as the C backend's ownership pass sees them, and the
    predicates that decide which bindings own a heap string
    (src/emit_c.c, the "M9.2" block). */
module OwnershipSyntax {

  /** Expressions, cut down to what the ownership predicates look at.
      `Compound` stands for every construct whose predicate is the conjunction
      over its children: binary, unary, array, record, field access, match. */
  datatype Expr =
    | Lit
    | Ident(name: string)
    | Call(callee: string, args: seq<Expr>)
    | Cond(c: Expr, t: Expr, e: Expr)
    | Compound(kids: seq<Expr>)

  datatype Stmt =
    | Bind(name: string, isMut: bool, init: Expr)
    | Assign(target: string, rhs: Expr)
    | Eval(e: Expr)
    | ProcExit(code: Expr)
    | Block(scope: Scope)
    | If(cond: Expr, body: Scope)
    | Loop(domain: Expr, stmts: seq<Stmt>)
    | Break
    | Skip

  datatype Final = NoFinal | Final(s: Stmt)

  /** A brace-delimited scope. The parser stores the last statement of a block
      in `fin` and the deferred statements apart from the others. */
  datatype Scope = Scope(stmts: seq<Stmt>, fin: Final, deferred: seq<Stmt>)

  /** Loop bodies have neither a final statement nor deferred ones. */
  function LoopScope(body: seq<Stmt>): Scope { Scope(body, NoFinal, []) }

  // ---------- builtin tables ----------

  const OWNED_BUILTINS: set<string> := {
    "fs_read", "json_encode_str", "json_get", "json_arr_get", "net_fetch", "net_recv",
    "http_method", "http_path", "json_set", "json_del", "str_cat", "int_str", "http_header",
    "str_sub", "fs_list", "str_buf_to_str", "env_get" }

  const SAFE_BUILTINS: set<string> := {
    "print", "len", "fs_read", "fs_write", "fs_exists", "proc_exec", "proc_exit",
    "proc_spawn", "fs_remove", "env_get", "json_parse_int", "json_encode_str", "json_get",
    "json_arr_len", "json_arr_get", "net_fetch", "cli_arg_count", "cli_arg",
    "net_listen", "net_accept", "net_connect", "net_recv", "net_send", "net_close",
    "net_port", "net_shutdown", "http_method", "http_path", "ev_loop", "ev_add", "ev_wait",
    "ev_ready", "dl_open", "dl_sym", "dl_error", "dl_call", "json_set", "json_del", "str_cat",
    "int_str", "http_header", "str_sub", "str_eq", "eprint", "fs_list", "vec_new",
    "vec_with_allocator", "vec_push", "vec_get", "vec_set", "vec_len", "vec_pop",
    "str_buf_new", "str_buf_with_allocator", "str_buf_append", "str_buf_to_str", "str_buf_len",
    "map_new", "map_with_allocator", "map_set", "map_get", "map_has", "map_len", "map_key_at",
    "map_val_at" }

  /** A name the program may give its own functions. */
  predicate IsUserFunction(f: string) { f !in OWNED_BUILTINS && f !in SAFE_BUILTINS && f != "proc_exit" }

  /** Names the emitter itself declares beside user names. */
  const RESERVED: set<string> := { "tiq_old", "tiq_exit_code", "tiq_fn_ret" }

  const TMP: string := "tiq_tmp"

  /** A name the emitter does not use. */
  predicate Plain(n: string) { n !in RESERVED && !(TMP <= n) }

  predicate AllPlain(names: set<string>) { forall n :: n in names ==> Plain(n) }

  // ---------- owning initialisers ----------

  /** The fresh-result functions, and for each whether its result is kept by nobody. */
  type FreshFns = map<string, bool>

  /** `proc_exit` as a statement is `ProcExit`; anywhere else it is a call like any other. */
  predicate IsExitCall(e: Expr) { e.Call? && e.callee == "proc_exit" }

  predicate IsOwnedBuiltinCall(e: Expr) { e.Call? && e.callee in OWNED_BUILTINS }

  predicate IsFreshFnCall(e: Expr, freshFns: FreshFns) { e.Call? && e.callee in freshFns }

  predicate IsOwningInit(e: Expr, freshFns: FreshFns) {
    IsOwnedBuiltinCall(e) || IsFreshFnCall(e, freshFns) ||
    (e.Cond? && IsOwningInit(e.t, freshFns) && IsOwningInit(e.e, freshFns))
  }

  // ---------- the escape test for mutable owners ----------

  predicate MutExprOk(e: Expr, x: string) {
    match e
    case Lit => true
    case Ident(n) => n != x
    case Call(f, args) =>
      if f in SAFE_BUILTINS then MutArgsOk(args, x)
      else f != x && forall i :: 0 <= i < |args| ==> MutExprOk(args[i], x)
    case Cond(c, t, e) => MutExprOk(c, x) && MutExprOk(t, x) && MutExprOk(e, x)
    case Compound(kids) => forall i :: 0 <= i < |kids| ==> MutExprOk(kids[i], x)
  }

  predicate MutArgsOk(args: seq<Expr>, x: string) {
    forall i :: 0 <= i < |args| ==> args[i] == Ident(x) || MutExprOk(args[i], x)
  }

  predicate MutStmtOk(s: Stmt, x: string) {
    match s
    case Bind(n, _, e) => n != x && MutExprOk(e, x)
    case Assign(n, e) =>
      if n == x then IsOwnedBuiltinCall(e) && MutArgsOk(e.args, x) else MutExprOk(e, x)
    case Eval(e) => MutExprOk(e, x)
    case ProcExit(e) => e == Ident(x) || MutExprOk(e, x)
    case Block(sc) => MutScopeOk(sc, x)
    case If(e, sc) => MutExprOk(e, x) && MutScopeOk(sc, x)
    case Loop(e, body) =>
      x != "i" && MutExprOk(e, x) && forall i :: 0 <= i < |body| ==> MutStmtOk(body[i], x)
    case Break => true
    case Skip => true
  }

  predicate MutScopeOk(sc: Scope, x: string) {
    (forall i :: 0 <= i < |sc.stmts| ==> MutStmtOk(sc.stmts[i], x)) &&
    (sc.fin.Final? ==> MutStmtOk(sc.fin.s, x)) &&
    forall i :: 0 <= i < |sc.deferred| ==> MutStmtOk(sc.deferred[i], x)
  }

  /** The rest of the scope after statement `decl` passes the escape test. */
  predicate MutOwnerQualifies(sc: Scope, decl: nat, x: string) {
    (forall i :: decl < i < |sc.stmts| ==> MutStmtOk(sc.stmts[i], x)) &&
    (sc.fin.Final? ==> MutStmtOk(sc.fin.s, x)) &&
    forall i :: 0 <= i < |sc.deferred| ==> MutStmtOk(sc.deferred[i], x)
  }

  // ---------- classification ----------

  /** `Hidden` marks a variable whose scope is not on the emitter's stack although the
      variable is still there: its block's deferred statements are running. */
  datatype Own = NotOwner | ImmOwner | MutOwner | Hidden(of: Own)

  /** What the variable owns, hidden or not. */
  function Kind(k: Own): (r: Own)
    ensures !r.Hidden?
  {
    if k.Hidden? then Kind(k.of) else k
  }

  predicate Owns(k: Own) { Kind(k) != NotOwner }

  /** An owner the emitter knows about. */
  predicate Active(k: Own) { k.ImmOwner? || k.MutOwner? }

  /** What the binding at statement `i` of `sc` owns. */
  function OwnAt(sc: Scope, i: nat, freshFns: FreshFns): (k: Own)
    requires i < |sc.stmts|
    ensures !k.Hidden?
  {
    var s := sc.stmts[i];
    if !s.Bind? || !IsOwningInit(s.init, freshFns) then NotOwner
    else if !s.isMut then ImmOwner
    else if MutOwnerQualifies(sc, i, s.name) then MutOwner
    else NotOwner
  }

  /** First statement of `sc` from `i` on that binds `n`, or -1. */
  function Declares(sc: Scope, n: string, i: nat): (r: int)
    requires i <= |sc.stmts|
    ensures r == -1 || (i <= r < |sc.stmts| && sc.stmts[r].Bind? && sc.stmts[r].name == n)
    ensures r == -1 ==> forall j :: i <= j < |sc.stmts| && sc.stmts[j].Bind? ==> sc.stmts[j].name != n
    ensures r >= 0 ==> forall j :: i <= j < r && sc.stmts[j].Bind? ==> sc.stmts[j].name != n
    decreases |sc.stmts| - i
  {
    if i == |sc.stmts| then -1
    else if sc.stmts[i].Bind? && sc.stmts[i].name == n then i
    else Declares(sc, n, i + 1)
  }

  /** Does the innermost of these scopes that declares `n` anywhere declare it as a mutable owner? */
  predicate SearchOwner(scopes: seq<Scope>, n: string, freshFns: FreshFns) {
    scopes != [] &&
    var sc := scopes[|scopes| - 1];
    var i := Declares(sc, n, 0);
    if i >= 0 then OwnAt(sc, i, freshFns) == MutOwner else SearchOwner(scopes[..|scopes| - 1], n, freshFns)
  }

  // ---------- what semantic analysis guarantees ----------

  predicate ExprNamesIn(e: Expr, vis: set<string>) {
    match e
    case Lit => true
    case Ident(n) => n in vis
    case Call(_, args) => forall i :: 0 <= i < |args| ==> ExprNamesIn(args[i], vis)
    case Cond(c, t, e) => ExprNamesIn(c, vis) && ExprNamesIn(t, vis) && ExprNamesIn(e, vis)
    case Compound(kids) => forall i :: 0 <= i < |kids| ==> ExprNamesIn(kids[i], vis)
  }

  /** Visible names with their mutability. */
  type Visible = map<string, bool>

  function AfterStmt(vis: Visible, s: Stmt): Visible {
    if s.Bind? then vis[s.name := s.isMut] else vis
  }

  /** `s` passes name resolution: uses refer to visible names, a binding never
      reuses a visible name, only mutable bindings are reassigned, and jumps
      sit inside a loop. */
  predicate WellFormed(s: Stmt, vis: Visible, inLoop: bool)
    decreases s
  {
    match s
    case Bind(n, _, e) => n !in vis && Plain(n) && ExprNamesIn(e, vis.Keys)
    case Assign(n, e) => n in vis && vis[n] && ExprNamesIn(e, vis.Keys)
    case Eval(e) => !IsExitCall(e) && ExprNamesIn(e, vis.Keys)
    case ProcExit(e) => ExprNamesIn(e, vis.Keys)
    case Block(sc) => WellFormedScope(sc, vis, inLoop)
    case If(e, sc) => ExprNamesIn(e, vis.Keys) && WellFormedScope(sc, vis, inLoop)
    case Loop(e, body) => ExprNamesIn(e, vis.Keys) && WellFormedFrom(body, 0, vis, true)
    case Break => inLoop
    case Skip => inLoop
  }

  predicate WellFormedFrom(ss: seq<Stmt>, i: nat, vis: Visible, inLoop: bool)
    requires i <= |ss|
    decreases ss, |ss| - i
  {
    i < |ss| ==> WellFormed(ss[i], vis, inLoop) && WellFormedFrom(ss, i + 1, AfterStmt(vis, ss[i]), inLoop)
  }

  function AfterFrom(ss: seq<Stmt>, i: nat, vis: Visible): Visible
    requires i <= |ss|
    decreases |ss| - i
  {
    if i == |ss| then vis else AfterFrom(ss, i + 1, AfterStmt(vis, ss[i]))
  }

  function AfterFinal(fin: Final, vis: Visible): Visible { if fin.Final? then AfterStmt(vis, fin.s) else vis }

  /** A block is printed with its deferred statements last, in reverse order, and its
      names have to make sense in that order. */
  predicate WellFormedScope(sc: Scope, vis: Visible, inLoop: bool)
    decreases sc
  {
    WellFormedFrom(sc.stmts, 0, vis, inLoop) &&
    var vis1 := AfterFrom(sc.stmts, 0, vis);
    (sc.fin.Final? ==> WellFormed(sc.fin.s, vis1, inLoop)) &&
    WellFormedBack(sc.deferred, |sc.deferred|, AfterFinal(sc.fin, vis1), inLoop)
  }

  /** The first `n` statements, last one first. */
  predicate WellFormedBack(ss: seq<Stmt>, n: nat, vis: Visible, inLoop: bool)
    requires n <= |ss|
    decreases ss, n
  {
    n > 0 ==> WellFormed(ss[n - 1], vis, inLoop) && WellFormedBack(ss, n - 1, AfterStmt(vis, ss[n - 1]), inLoop)
  }
}
