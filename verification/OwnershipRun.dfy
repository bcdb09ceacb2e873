/** Running the emitted C: a heap of string allocations, C block scoping, and
    the statements the emitter prints. Conditions, the choice a user function
    makes among its arguments, and how often a loop runs all come from an
    arbitrary stream of choices, so a statement about `Run` is a statement
    about every run. */
module OwnershipRun {
  import opened OwnershipSyntax
  import opened OwnershipTemps

  datatype Val = Other | Ptr(addr: nat)

  datatype Var = Var(name: string, val: Val)

  /** Variables in scope, innermost last. */
  type Env = seq<Var>

  /** `next` is the next unused address, `kept` the addresses some user function
      or aggregate may still hold, `freed` the addresses freed so far in order.
      `bad` records a free of anything but a live allocation, `halted` that the
      process ended inside an expression. */
  datatype Heap = Heap(live: set<nat>, next: nat, kept: set<nat>, freed: seq<nat>, bad: bool, tick: nat, halted: bool)

  type Choices = nat -> nat

  // ---------- variables ----------

  /** Index of the innermost variable called `n`, or -1. */
  function Find(env: Env, n: string): (i: int)
    ensures -1 <= i < |env|
    ensures i >= 0 ==> env[i].name == n && forall j :: i < j < |env| ==> env[j].name != n
    ensures i < 0 ==> forall j :: 0 <= j < |env| ==> env[j].name != n
  {
    if env == [] then -1
    else if env[|env| - 1].name == n then |env| - 1
    else Find(env[..|env| - 1], n)
  }

  function Lookup(env: Env, n: string): Val {
    var i := Find(env, n);
    if i < 0 then Other else env[i].val
  }

  function Update(env: Env, n: string, v: Val): (r: Env)
    ensures |r| == |env|
  {
    var i := Find(env, n);
    if i < 0 then env else env[i := Var(n, v)]
  }

  function Truncate(env: Env, n: nat): Env { if n <= |env| then env[..n] else env }

  // ---------- heap ----------

  function Allocate(h: Heap): (Val, Heap) {
    (Ptr(h.next), h.(live := h.live + {h.next}, next := h.next + 1))
  }

  function Release(v: Val, h: Heap): Heap {
    if v.Ptr? && v.addr in h.live
    then h.(live := h.live - {v.addr}, freed := h.freed + [v.addr])
    else h.(bad := true)
  }

  function Pointers(vs: seq<Val>): set<nat> {
    set i | 0 <= i < |vs| && vs[i].Ptr? :: vs[i].addr
  }

  function Keep(vs: seq<Val>, h: Heap): Heap { h.(kept := h.kept + Pointers(vs)) }

  /** Any of `vs`, any address kept earlier, or no string at all. */
  function Pick(k: nat, vs: seq<Val>, kept: set<nat>): Val {
    if k < |vs| then vs[k]
    else if k - |vs| in kept then Ptr(k - |vs|)
    else Other
  }

  function Tick(h: Heap): Heap { h.(tick := h.tick + 1) }

  predicate Decide(o: Choices, h: Heap) { o(h.tick) % 2 == 1 }

  /** Does the function called now end the process? */
  predicate CalleeExits(o: Choices, h: Heap) { o(h.tick) % 3 == 2 }

  function Halt(h: Heap): Heap { h.(halted := true) }

  // ---------- expressions ----------

  /** `proc_exit` ends the process, owned builtins return new storage, other
      standard-library builtins neither keep nor return a caller's string, and
      any other function may keep and return whatever it was given, or end the
      process. A fresh-result function returns new storage, which it may have
      let others keep. */
  function Apply(f: string, vs: seq<Val>, h: Heap, o: Choices, freshFns: FreshFns): (Val, Heap) {
    if h.halted then (Other, h)
    else if f == "proc_exit" then (Other, Halt(h))
    else if f in OWNED_BUILTINS then Allocate(h)
    else if f in SAFE_BUILTINS then (Other, h)
    else if CalleeExits(o, h) then (Other, Halt(h))
    else
      var h1 := Tick(Keep(vs, h));
      if f in freshFns then
        var (v, h2) := Allocate(h1);
        (v, if freshFns[f] then h2 else Keep([v], h2))
      else (Pick(o(h1.tick), vs, h1.kept), Tick(h1))
  }

  /** Nothing is evaluated once the process has ended. */
  function EvalExpr(e: Expr, env: Env, h: Heap, o: Choices, freshFns: FreshFns): (Val, Heap)
    decreases e
  {
    if h.halted then (Other, h)
    else
      match e
      case Lit => (Other, h)
      case Ident(n) => (Lookup(env, n), h)
      case Call(f, args) =>
        var (vs, h1) := EvalAll(args, env, h, o, freshFns);
        Apply(f, vs, h1, o, freshFns)
      case Cond(c, t, e) =>
        var (_, h1) := EvalExpr(c, env, h, o, freshFns);
        if Decide(o, h1) then EvalExpr(t, env, Tick(h1), o, freshFns)
        else EvalExpr(e, env, Tick(h1), o, freshFns)
      case Compound(kids) =>
        var (vs, h1) := EvalAll(kids, env, h, o, freshFns);
        if h1.halted then (Other, h1) else (Pick(o(h1.tick), vs, h1.kept), Tick(Keep(vs, h1)))
  }

  function EvalAll(es: seq<Expr>, env: Env, h: Heap, o: Choices, freshFns: FreshFns): (r: (seq<Val>, Heap))
    ensures |r.0| == |es|
    decreases es
  {
    if es == [] then ([], h)
    else
      var (v, h1) := EvalExpr(es[0], env, h, o, freshFns);
      var (vs, h2) := EvalAll(es[1..], env, h1, o, freshFns);
      ([v] + vs, h2)
  }

  // ---------- hidden bindings ----------

  /** Compute hidden bindings one after another, each seeing the ones before it; `j` is
      the number of the next one. */
  function EvalTemps(temps: seq<Expr>, j: nat, env: Env, h: Heap, o: Choices, freshFns: FreshFns): (r: (Env, Heap))
    ensures env <= r.0 && |r.0| <= |env| + |temps|
    decreases temps
  {
    if temps == [] then (env, h)
    else
      var (v, h1) := EvalExpr(temps[0], env, h, o, freshFns);
      if h1.halted then (env, h1)
      else EvalTemps(temps[1..], j + 1, env + [Var(TmpName(j), v)], h1, o, freshFns)
  }

  /** Free the strings of hidden bindings, newest first. */
  function ReleaseTemps(tv: Env, h: Heap): Heap
    decreases |tv|
  {
    if tv == [] then h else ReleaseTemps(tv[..|tv| - 1], Release(tv[|tv| - 1].val, h))
  }

  /** The variables without the `n` hidden ones after the first `base`. */
  function Drop(env: Env, base: nat, n: nat): Env {
    if base + n <= |env| then env[..base] + env[base + n..] else env
  }

  // ---------- emitted statements ----------

  /** `CHoisted(temps, body)` stands for the declarations of the hidden bindings, the
      statement, and their frees. No other statement names those bindings, so they are
      dropped with the statement. */
  datatype CStmt =
    | CDecl(name: string, init: Expr)
    | CSet(name: string, rhs: Expr)
    | CExpr(e: Expr)
    | CFree(name: string)
    | CBlock(body: seq<CStmt>)
    | CHoisted(temps: seq<Expr>, inner: CStmt)
    | CIf(cond: Expr, branch: CStmt)
    | CWhile(cond: Expr, body: seq<CStmt>)
    | CBreak
    | CContinue
    | CExit
    | CReturn(e: Expr)

  datatype Out = Normal | Broke | Continued | Exited | Returned(v: Val) | OutOfFuel

  datatype CState = CState(env: Env, h: Heap)

  /** Leaving a block drops the variables declared in it. */
  function Leave(st: CState, base: nat, out: Out): CState {
    if out == OutOfFuel then st else st.(env := Truncate(st.env, base))
  }

  /** `fuel` bounds the iterations of each loop; a run that needs more stops
      where it is. */
  function Run(c: CStmt, st: CState, o: Choices, freshFns: FreshFns, fuel: nat): (CState, Out)
    decreases fuel, c
  {
    match c
    case CDecl(n, e) =>
      var (v, h1) := EvalExpr(e, st.env, st.h, o, freshFns);
      if h1.halted then (st.(h := h1), Exited) else (CState(st.env + [Var(n, v)], h1), Normal)
    case CSet(n, e) =>
      var (v, h1) := EvalExpr(e, st.env, st.h, o, freshFns);
      if h1.halted then (st.(h := h1), Exited) else (CState(Update(st.env, n, v), h1), Normal)
    case CExpr(e) =>
      var (_, h1) := EvalExpr(e, st.env, st.h, o, freshFns);
      (st.(h := h1), if h1.halted then Exited else Normal)
    case CFree(n) => (st.(h := Release(Lookup(st.env, n), st.h)), Normal)
    case CBlock(body) =>
      var (st1, out) := RunAll(body, st, o, freshFns, fuel);
      (Leave(st1, |st.env|, out), out)
    case CHoisted(temps, inner) =>
      var (env1, h1) := EvalTemps(temps, 0, st.env, st.h, o, freshFns);
      if h1.halted then (st.(h := h1), Exited)
      else
        var (st1, out) := Run(inner, CState(env1, h1), o, freshFns, fuel);
        var n := |env1| - |st.env|;
        if out == Normal then (CState(Drop(st1.env, |st.env|, n), ReleaseTemps(env1[|st.env|..], st1.h)), Normal)
        else (st1.(env := Truncate(st1.env, |st.env|)), out)
    case CIf(e, branch) =>
      var (_, h1) := EvalExpr(e, st.env, st.h, o, freshFns);
      if h1.halted then (st.(h := h1), Exited)
      else if Decide(o, h1) then Run(branch, st.(h := Tick(h1)), o, freshFns, fuel)
      else (st.(h := Tick(h1)), Normal)
    case CWhile(e, body) =>
      if fuel == 0 then (st, OutOfFuel)
      else
        var (st1, out, again) := RunIteration(e, body, st, o, freshFns, fuel);
        if again then Run(c, st1, o, freshFns, fuel - 1) else (st1, out)
    case CBreak => (st, Broke)
    case CContinue => (st, Continued)
    case CExit => (st, Exited)
    case CReturn(e) =>
      var (v, h1) := EvalExpr(e, st.env, st.h, o, freshFns);
      (st.(h := h1), if h1.halted then Exited else Returned(v))
  }

  /** One trip round a while loop; the flag says whether the loop goes on. */
  function RunIteration(e: Expr, body: seq<CStmt>, st: CState, o: Choices, freshFns: FreshFns, fuel: nat): (CState,
      Out, bool)
    decreases fuel, body, 1
  {
    var (_, h1) := EvalExpr(e, st.env, st.h, o, freshFns);
    if h1.halted then (st.(h := h1), Exited, false)
    else if !Decide(o, h1) then (st.(h := Tick(h1)), Normal, false)
    else
      var (st1, out) := RunAll(body, st.(h := Tick(h1)), o, freshFns, fuel);
      var st2 := Leave(st1, |st.env|, out);
      if out == Broke then (st2, Normal, false) else (st2, out, out == Normal || out == Continued)
  }

  function RunAll(cs: seq<CStmt>, st: CState, o: Choices, freshFns: FreshFns, fuel: nat): (CState, Out)
    decreases fuel, cs, 0
  {
    if cs == [] then (st, Normal)
    else
      var (st1, out) := Run(cs[0], st, o, freshFns, fuel);
      if out == Normal then RunAll(cs[1..], st1, o, freshFns, fuel) else (st1, out)
  }

  lemma {:induction false} RunAllAppend(a: seq<CStmt>, b: seq<CStmt>, st: CState, o: Choices,
                                        freshFns: FreshFns, fuel: nat)
    ensures RunAll(a + b, st, o, freshFns, fuel) ==
            var (st1, out) := RunAll(a, st, o, freshFns, fuel);
            if out == Normal then RunAll(b, st1, o, freshFns, fuel) else (st1, out)
    decreases a
  {
    if a == [] {
      assert a + b == b;
    } else {
      assert (a + b)[1..] == a[1..] + b;
      var (st1, out) := Run(a[0], st, o, freshFns, fuel);
      if out == Normal { RunAllAppend(a[1..], b, st1, o, freshFns, fuel); }
    }
  }
}
