/** Programs the language accepts for which the backend does not deliver what the
    language promises about owned strings. */
module OwnershipExamples {
  import opened OwnershipSyntax
  import opened OwnershipTemps
  import opened OwnershipRun
  import opened OwnershipRef
  import opened OwnershipEmit
  import opened OwnershipCorrect
  import opened OwnershipSim
  import opened OwnershipSafety
  import opened OwnershipHeld
  import opened OwnershipLeaks
  import opened OwnershipTidy
  import opened OwnershipTheorems
  import opened OwnershipFunctions

  const READ: Expr := Call("fs_read", [])

  /** `s = fs_read()` as the first statement. */
  const FIRST: Stmt := Bind("s", false, READ)

  const BOUND: CState := CState([Var("s", Ptr(0))], Heap({0}, 1, {}, [], false, 0, false))

  const SHOWN: Visible := map["s" := false]

  /** An expression with no temporaries is computed as it is. */
  lemma PlainCompute(e: Expr, bound: bool, r: RState, o: Choices, freshFns: FreshFns)
    requires Chosen(e, bound, freshFns) == Plan([], e) && !r.c.h.halted
    ensures var (v, r1) := RefEval(e, r, o, freshFns); RefCompute(e, bound, r, o, freshFns) == (v, r1, [])
    ensures forall x: RState :: RefFinish([], x) == x && RefLose([], x) == x.(temps := 0)
  {
    assert EvalTemps([], 0, r.c.env, r.c.h, o, freshFns) == (r.c.env, r.c.h);
    assert r.c.env[|r.c.env|..] == [];
    forall x: RState ensures RefFinish([], x) == x && RefLose([], x) == x.(temps := 0) {
      assert TmpAddrs([]) == [] && ReleaseTemps([], x.c.h) == x.c.h;
      assert x.bound + [] == x.bound && x.leaked + [] == x.leaked;
    }
  }

  lemma ReadAllocates(env: Env, h: Heap, o: Choices, freshFns: FreshFns)
    requires !h.halted
    ensures EvalExpr(READ, env, h, o, freshFns) == Allocate(h) && Chosen(READ, true, freshFns) == Plan([], READ)
  {
    assert EvalAll([], env, h, o, freshFns) == ([], h);
    assert HoistAll([], 0, freshFns) == ([], []);
  }

  /** A function of the program called without arguments. */
  lemma CallRuns(f: string, env: Env, h: Heap, o: Choices, freshFns: FreshFns)
    requires !h.halted && IsUserFunction(f)
    ensures EvalExpr(Call(f, []), env, h, o, freshFns) == Apply(f, [], h, o, freshFns)
    ensures Chosen(Call(f, []), true, freshFns) == Plan([], Call(f, []))
    ensures f !in freshFns ==> Chosen(Call(f, []), false, freshFns) == Plan([], Call(f, []))
  {
    assert EvalAll([], env, h, o, freshFns) == ([], h);
    assert HoistAll([], 0, freshFns) == ([], []);
  }

  /** The first statement of a scope entered with nothing bound, whatever it is an owner of. */
  lemma FirstRuns(m: bool, k: Own, r: RState, d: nat, o: Choices, freshFns: FreshFns, fuel: nat)
    requires r.c == CState([], EMPTY.c.h.(tick := r.c.h.tick)) && r.own == []
    ensures var (r1, out) := RefStmt(Bind("s", m, READ), k, r, d, o, freshFns, fuel);
      out == RNormal && r1.c == BOUND.(h := BOUND.h.(tick := r.c.h.tick)) && r1.own == [k] && r1.outer == r.outer &&
      r1.loop == r.loop
  {
    ReadAllocates([], r.c.h, o, freshFns);
    PlainCompute(READ, true, r, o, freshFns);
    assert {} + {0} == {0} && [] + [Var("s", Ptr(0))] == [Var("s", Ptr(0))] && [] + [k] == [k];
  }

  lemma FirstWellFormed()
    ensures WellFormed(FIRST, map[], false) && AfterStmt(map[], FIRST) == SHOWN && Plain("s")
  {
    assert "s"[0] != TMP[0];
  }

  lemma TwoWellFormed(s: Stmt)
    requires WellFormed(s, SHOWN, false)
    ensures WellFormedProgram([FIRST, s], map[])
  {
    FirstWellFormed();
    var p := [FIRST, s];
    assert p[0] == FIRST && p[1] == s;
    assert WellFormedFrom(p, 2, AfterStmt(SHOWN, s), false);
    assert WellFormedFrom(p, 1, SHOWN, false);
  }

  /** Where the second statement of `FIRST; s` starts. */
  function Second(s: Stmt, o: Choices): RState {
    var p := LoopScope([FIRST, s]);
    Note(RefStmt(FIRST, ImmOwner, Top([FIRST, s]), 1, o, map[], 1).0, FIRST, false, 1, RNormal)
  }

  lemma SecondIs(s: Stmt, o: Choices)
    ensures Second(s, o).c == BOUND && Second(s, o).own == [ImmOwner] && !Second(s, o).c.h.halted
  {
    FirstRuns(false, ImmOwner, Top([FIRST, s]), 1, o, map[], 1);
  }

  /** `s` binds a string, then a statement that does not run to its end. */
  lemma TwoRuns(s: Stmt, o: Choices)
    requires WellFormed(s, SHOWN, false)
    requires RefStmt(s, OwnAt(LoopScope([FIRST, s]), 1, map[]), Second(s, o), 1, o, map[], 1).1.RExited?
    ensures var (r, out) := RefStmt(s, OwnAt(LoopScope([FIRST, s]), 1, map[]), Second(s, o), 1, o, map[], 1);
      EmittedOut([FIRST, s], o, map[], 1) == Exited &&
      EmittedHeap([FIRST, s], o, map[], 1) == LeaveScope(r, 0, out).c.h
  {
    hide RunAll, EmitProgram, WellFormed, LeaveScope;
    var p := [FIRST, s];
    var sc := LoopScope(p);
    TwoWellFormed(s);
    EmittedProgramRefines(p, o, map[], 1);
    assert OwnAt(sc, 0, map[]) == ImmOwner by { assert sc.stmts[0] == FIRST; }
    FirstRuns(false, ImmOwner, Top(p), 1, o, map[], 1);
    var (r, out) := RefStmt(s, OwnAt(sc, 1, map[]), Second(s, o), 1, o, map[], 1);
    hide RefStmt;
    assert RefFrom(sc, 0, Top(p), 1, o, map[], 1) == RefFrom(sc, 1, Second(s, o), 1, o, map[], 1);
    assert RefFrom(sc, 1, Second(s, o), 1, o, map[], 1) == (Note(r, s, false, 1, out), out);
    NotedLeave(r, s, out);
  }

  lemma NotedLeave(r: RState, s: Stmt, out: ROut)
    ensures LeaveScope(Note(r, s, false, 1, out), 0, out).c == LeaveScope(r, 0, out).c
  {
  }

  /** `s = fs_read(); y = proc_exit(0)`: exiting inside an expression leaves `s` allocated. */
  lemma ExitInExpressionLeaks(o: Choices)
    ensures var p := [FIRST, Bind("y", false, Call("proc_exit", [Lit]))];
      WellFormedProgram(p, map[]) && EmittedOut(p, o, map[], 1) == Exited &&
      EmittedHeap(p, o, map[], 1).freed == [] && EmittedHeap(p, o, map[], 1).live == {0}
  {
    hide RefStmt, RunAll, EmitProgram, LeaveScope, Second, WellFormedProgram;
    var s := Bind("y", false, Call("proc_exit", [Lit]));
    assert WellFormed(s, SHOWN, false) by { assert "y"[0] != TMP[0]; }
    SecondIs(s, o);
    var k := OwnAt(LoopScope([FIRST, s]), 1, map[]);
    ExitBinding(k, Second(s, o), o);
    TwoWellFormed(s);
    TwoRuns(s, o);
    ExitLost(RefStmt(s, k, Second(s, o), 1, o, map[], 1).0, 0, RExited(false));
  }

  lemma ExitBinding(k: Own, r: RState, o: Choices)
    requires !r.c.h.halted
    ensures var (r1, out) := RefStmt(Bind("y", false, Call("proc_exit", [Lit])), k, r, 1, o, map[], 1);
      out == RExited(false) && r1.c.h == Halt(r.c.h)
  {
    LitCall("proc_exit", r.c.env, r.c.h, true, o);
    PlainCompute(Call("proc_exit", [Lit]), true, r, o, map[]);
  }

  /** A builtin that returns no new string, called with a literal. */
  lemma LitCall(f: string, env: Env, h: Heap, bound: bool, o: Choices)
    requires !h.halted && f in SAFE_BUILTINS && f !in OWNED_BUILTINS
    ensures EvalExpr(Call(f, [Lit]), env, h, o, map[]) == Apply(f, [Other], h, o, map[])
    ensures Chosen(Call(f, [Lit]), bound, map[]) == Plan([], Call(f, [Lit]))
  {
    assert EvalAll([], env, h, o, map[]) == ([], h);
    assert [Lit][1..] == [] && [Other] + [] == [Other];
    assert EvalAll([Lit], env, h, o, map[]) == ([Other], h);
    assert HoistAll([], 0, map[]) == ([], []) && Hoist([Lit][0], false, 0, map[]) == Plan([], Lit);
    var none: seq<Expr> := [];
    assert [Lit] + [] == [Lit] && none + none == none;
    assert HoistAll([Lit], 0, map[]).1 == [Lit] && HoistAll([Lit], 0, map[]).0 == [];
  }

  /** `s = fs_read(); f()` where `f` ends the process. */
  lemma CalleeExitLeaks(f: string)
    requires IsUserFunction(f)
    ensures var p := [FIRST, Eval(Call(f, []))];
      var o: Choices := n => 2;
      WellFormedProgram(p, map[]) && Tidy(p, map[]) && EmittedOut(p, o, map[], 1) == Exited &&
      EmittedHeap(p, o, map[], 1).freed == [] && EmittedHeap(p, o, map[], 1).live == {0}
  {
    hide RefStmt, RunAll, EmitProgram, LeaveScope, Second, WellFormedProgram;
    var o: Choices := n => 2;
    var s := Eval(Call(f, []));
    assert WellFormed(s, SHOWN, false);
    SecondIs(s, o);
    var k := OwnAt(LoopScope([FIRST, s]), 1, map[]);
    ExitingCall(f, k, Second(s, o), o);
    TwoWellFormed(s);
    TwoRuns(s, o);
    ExitLost(RefStmt(s, k, Second(s, o), 1, o, map[], 1).0, 0, RExited(false));
  }

  lemma ExitingCall(f: string, k: Own, r: RState, o: Choices)
    requires IsUserFunction(f) && !r.c.h.halted && forall n :: o(n) == 2
    ensures var (r1, out) := RefStmt(Eval(Call(f, [])), k, r, 1, o, map[], 1);
      out == RExited(false) && r1.c.h == Halt(r.c.h)
  {
    CallRuns(f, r.c.env, r.c.h, o, map[]);
    PlainCompute(Call(f, []), false, r, o, map[]);
    assert CalleeExits(o, r.c.h);
  }

  // ---------- blocks ----------

  const PRINT: Expr := Call("print", [Lit])

  /** `{ …; print(0) }` with deferred statements. */
  function Ending(stmts: seq<Stmt>, deferred: seq<Stmt>): Scope { Scope(stmts, Final(Eval(PRINT)), deferred) }

  lemma PrintRuns(r: RState, d: nat, o: Choices)
    requires !r.c.h.halted
    ensures var (r1, out) := RefFinal(Final(Eval(PRINT)), r, d, o, map[], 1);
      out == RNormal && r1.c == r.c && r1.own == r.own && r1.outer == r.outer
  {
    LitCall("print", r.c.env, r.c.h, false, o);
    PlainCompute(PRINT, false, r, o, map[]);
  }

  /** Running the statement and the final call of such a block. */
  lemma BodyRuns(s: Stmt, deferred: seq<Stmt>, r: RState, d: nat, o: Choices)
    requires var sc := Ending([s], deferred);
      var (r1, out) := RefStmt(s, OwnAt(sc, 0, map[]), r, d, o, map[], 1); out == RNormal && !r1.c.h.halted
    ensures var sc := Ending([s], deferred);
      var r1 := RefStmt(s, OwnAt(sc, 0, map[]), r, d, o, map[], 1).0;
      var (r2, out) := RefBody(sc, r, d, o, map[], 1);
      out == RNormal && r2.c == r1.c && r2.own == r1.own && r2.outer == r1.outer
  {
    hide RefStmt, RefFinal, OwnAt;
    var sc := Ending([s], deferred);
    var (r1, out) := RefStmt(s, OwnAt(sc, 0, map[]), r, d, o, map[], 1);
    var r2 := Note(r1, s, false, d, out);
    assert RefFrom(sc, 1, r2, d, o, map[], 1) == (r2, RNormal);
    PrintRuns(r2, d, o);
  }

  /** A program whose first statement is a block. */
  lemma BlockRuns(sc: Scope, o: Choices)
    requires WellFormedProgram([Block(sc)], map[])
    requires var (r, out) := RefScope(sc, Top([Block(sc)]), 1, o, map[], 1);
      r.own == [] && (out.RNormal? || out.RExited?)
    ensures var p := [Block(sc)];
      var (r, out) := RefScope(sc, Top(p), 1, o, map[], 1);
      EmittedHeap(p, o, map[], 1) == r.c.h && EmittedOut(p, o, map[], 1) == if out.RNormal? then Normal else Exited
  {
    var p := [Block(sc)];
    EmittedProgramRefines(p, o, map[], 1);
    hide RefScope, EmitProgram, RunAll, WellFormedProgram;
    var (r, out) := RefScope(sc, Top(p), 1, o, map[], 1);
    var k := OwnAt(LoopScope(p), 0, map[]);
    assert RefStmt(p[0], k, Top(p), 1, o, map[], 1) == (r, out);
    var r2 := Note(r, p[0], false, 1, out);
    assert RefFrom(LoopScope(p), 1, r2, 1, o, map[], 1) == (r2, RNormal);
    assert RefFrom(LoopScope(p), 0, Top(p), 1, o, map[], 1) == (r2, out);
    NothingToLeave(r2, out);
  }

  lemma NothingToLeave(r: RState, out: ROut)
    requires r.own == []
    ensures LeaveScope(r, 0, out).c == r.c
  {
  }

  /** A block that runs its one deferred statement. */
  lemma DeferredRuns(s: Stmt, t: Stmt, r: RState, d: nat, o: Choices) returns (r2: RState)
    requires var sc := Ending([s], [t]);
      var (r1, out) := RefStmt(s, OwnAt(sc, 0, map[]), Inside(r, sc), d + 1, o, map[], 1);
        out == RNormal && !r1.c.h.halted
    ensures var sc := Ending([s], [t]);
      var r1 := RefStmt(s, OwnAt(sc, 0, map[]), Inside(r, sc), d + 1, o, map[], 1).0;
      var (r3, out) := RefTrailing(t, HideFrom(r2, |r.own|), d, o, map[], 1);
      r2.c == r1.c && r2.own == r1.own && r2.outer == r.outer &&
      RefScope(sc, r, d, o, map[], 1) == (LeaveScope(r3, |r.own|, out), out)
  {
    hide RefStmt, RefBody, RefTrailing, LeaveScope, OwnAt;
    var sc := Ending([s], [t]);
    BodyRuns(s, [t], Inside(r, sc), d + 1, o);
    r2 := RefBody(sc, Inside(r, sc), d + 1, o, map[], 1).0.(outer := r.outer);
    var (r3, out) := RefTrailing(t, HideFrom(r2, |r.own|), d, o, map[], 1);
    assert RefDeferred([t], 0, r3, |r.own|, d, o, map[], 1) == (r3, RNormal);
    assert RefDeferred([t], 1, r2, |r.own|, d, o, map[], 1) == (r3, out);
    assert RefInside(sc, r, d, o, map[], 1) == (r3, out);
  }

  lemma EndingWellFormed(s: Stmt, deferred: seq<Stmt>, vis: Visible, inLoop: bool)
    requires WellFormed(s, vis, inLoop) && WellFormedBack(deferred, |deferred|, AfterStmt(vis, s), inLoop)
    ensures WellFormedScope(Ending([s], deferred), vis, inLoop)
  {
    var vis1 := AfterStmt(vis, s);
    assert WellFormedFrom([s], 1, vis1, inLoop) && AfterFrom([s], 1, vis1) == vis1;
    assert WellFormedFrom([s], 0, vis, inLoop) && AfterFrom([s], 0, vis) == vis1;
    assert WellFormed(Eval(PRINT), vis1, inLoop);
  }

  lemma OneWellFormed(s: Stmt)
    requires WellFormed(s, map[], false)
    ensures WellFormedProgram([s], map[])
  {
    assert WellFormedFrom([s], 1, AfterStmt(map[], s), false);
  }

  /** `{ s = fs_read() }`: the binding is the block's last statement, and its string is never freed. */
  lemma TrailingBindingNeverFreed(o: Choices)
    ensures var p := [Block(Scope([], Final(FIRST), []))];
      WellFormedProgram(p, map[]) && EmittedOut(p, o, map[], 1) == Normal &&
      EmittedHeap(p, o, map[], 1).freed == [] && EmittedHeap(p, o, map[], 1).live == {0}
  {
    var sc := Scope([], Final(FIRST), []);
    var p := [Block(sc)];
    FirstWellFormed();
    assert WellFormedFrom([], 0, map[], false) && AfterFrom([], 0, map[]) == map[];
    assert WellFormedScope(sc, map[], false);
    OneWellFormed(p[0]);
    var r := Top(p);
    var ri := Inside(r, sc);
    FirstRuns(false, NotOwner, ri, 2, o, map[], 1);
    assert RefFrom(sc, 0, ri, 2, o, map[], 1) == (ri, RNormal);
    var (r1, out) := RefBody(sc, ri, 2, o, map[], 1);
    assert out == RNormal && r1.c == BOUND && r1.own == [NotOwner];
    var r2 := r1.(outer := r.outer);
    assert RefDeferred([], 0, r2, 0, 1, o, map[], 1) == (r2, RNormal);
    assert RefInside(sc, r, 1, o, map[], 1) == (r2, RNormal);
    assert Show(r2.own, 0) == [NotOwner];
    assert Destroy(r2.c.env, [NotOwner], r2.c.h, 0) == Destroy([], [], r2.c.h, 0);
    BlockRuns(sc, o);
  }

  /** What a block that owns `s` gives up when its deferred part exits or jumps. */
  lemma HiddenLeave(r: RState, k: Own, out: ROut)
    requires r.c.env == BOUND.env && r.own == [Hidden(k)] && (out.RExited? || out.RBroke?) && out.tracked
    ensures LeaveScope(r, 0, out).c == CState([], r.c.h) && LeaveScope(r, 0, out).own == []
  {
    assert Forget(r.own, 0) == [NotOwner];
    assert Destroy(r.c.env, [NotOwner], r.c.h, 0) == Destroy([], [], r.c.h, 0);
  }

  /** `{ s = fs_read(); defer proc_exit(0); print(0) }`: the exit is printed with the block's
      scope popped, and `s` is not freed. */
  lemma DeferredExitLeaks(o: Choices)
    ensures var p := [Block(Ending([FIRST], [ProcExit(Lit)]))];
      WellFormedProgram(p, map[]) && EmittedOut(p, o, map[], 1) == Exited &&
      EmittedHeap(p, o, map[], 1).freed == [] && EmittedHeap(p, o, map[], 1).live == {0}
  {
    var t := ProcExit(Lit);
    var sc := Ending([FIRST], [t]);
    var p := [Block(sc)];
    FirstWellFormed();
    assert [t][0] == t && WellFormed(t, SHOWN, false);
    assert WellFormedBack([t], 0, AfterStmt(SHOWN, t), false) && WellFormedBack([t], 1, SHOWN, false);
    EndingWellFormed(FIRST, [t], map[], false);
    OneWellFormed(p[0]);
    HiddenScope(t, Top(p), 1, o);
    BlockRuns(sc, o);
  }

  /** `{ s = fs_read(); defer t; print(0) }` where `t` exits or jumps. */
  lemma HiddenScope(t: Stmt, r: RState, d: nat, o: Choices)
    requires (t == ProcExit(Lit) || t == Break) && d <= MAX_SCOPE_DEPTH
    requires r.c == CState([], EMPTY.c.h.(tick := r.c.h.tick)) && r.own == []
    ensures var (r1, out) := RefScope(Ending([FIRST], [t]), r, d, o, map[], 1);
      out == (if t.Break? then RBroke(true) else RExited(true)) &&
      r1.c == CState([], BOUND.h.(tick := r.c.h.tick)) && r1.own == []
  {
    hide RefScope, LeaveScope, OwnAt;
    var sc := Ending([FIRST], [t]);
    var k := OwnAt(sc, 0, map[]);
    FirstRuns(false, k, Inside(r, sc), d + 1, o, map[], 1);
    var r2 := DeferredRuns(FIRST, t, r, d, o);
    HiddenStops(t, HideFrom(r2, 0), d, o);
    assert HideFrom(r2, 0).own == [Hidden(k)];
    var (r3, out) := RefTrailing(t, HideFrom(r2, 0), d, o, map[], 1);
    HiddenLeave(r3, k, out);
  }

  lemma HiddenStops(t: Stmt, r: RState, d: nat, o: Choices)
    requires (t == ProcExit(Lit) || t == Break) && d <= MAX_SCOPE_DEPTH && !r.c.h.halted
    ensures var (r1, out) := RefTrailing(t, r, d, o, map[], 1);
      out == (if t.Break? then RBroke(true) else RExited(true)) && r1.c == r.c && r1.own == r.own
  {
  }

  /** `{ s = fs_read(); defer break; print(0) }` as the body of a loop. */
  const LEAVING: seq<Stmt> := [Block(Ending([FIRST], [Break]))]

  lemma LeavingRuns(r: RState, o: Choices)
    requires r.c == CState([], EMPTY.c.h.(tick := 1)) && r.own == [] && r.loop == 0
    ensures var (r1, out) := RefFrom(LoopScope(LEAVING), 0, r, 2, o, map[], 1);
      out == RBroke(true) && r1.c == CState([], BOUND.h.(tick := 1)) && r1.own == []
  {
    hide RefScope, LeaveScope;
    HiddenScope(Break, r, 2, o);
    assert LEAVING[0] == Block(Ending([FIRST], [Break]));
  }

  /** A break among a block's deferred statements leaves the loop without freeing the
      block's strings. */
  lemma DeferredBreakLeaks(o: Choices)
    requires o(0) == 1
    ensures var p := [Loop(Lit, LEAVING)];
      WellFormedProgram(p, map[]) && EmittedOut(p, o, map[], 1) == Normal &&
      EmittedHeap(p, o, map[], 1).freed == [] && EmittedHeap(p, o, map[], 1).live == {0}
  {
    var s := Loop(Lit, LEAVING);
    var p := [s];
    FirstWellFormed();
    assert [Break][0] == Break && WellFormedBack([Break], 0, AfterStmt(SHOWN, Break), true);
    assert WellFormedBack([Break], 1, SHOWN, true);
    EndingWellFormed(FIRST, [Break], map[], true);
    assert WellFormed(LEAVING[0], map[], true);
    assert WellFormedFrom(LEAVING, 1, map[], true);
    assert WellFormedFrom(LEAVING, 0, map[], true);
    OneWellFormed(s);
    LoopLeft(Top(p), OwnAt(LoopScope(p), 0, map[]), o);
    EmittedProgramRefines(p, o, map[], 1);
    hide EmitProgram, RunAll, WellFormedProgram, RefStmt, LeaveScope;
    var (r1, out) := RefStmt(s, OwnAt(LoopScope(p), 0, map[]), Top(p), 1, o, map[], 1);
    var r2 := Note(r1, s, false, 1, out);
    assert RefFrom(LoopScope(p), 1, r2, 1, o, map[], 1) == (r2, RNormal);
    assert RefFrom(LoopScope(p), 0, Top(p), 1, o, map[], 1) == (r2, RNormal);
    NothingToLeave(r2, RNormal);
  }

  lemma LoopLeft(r: RState, k: Own, o: Choices)
    requires o(0) == 1 && r.c == EMPTY.c && r.own == [] && r.loop == 0
    ensures var (r1, out) := RefStmt(Loop(Lit, LEAVING), k, r, 1, o, map[], 1);
      out == RNormal && r1.c == CState([], BOUND.h.(tick := 1)) && r1.own == []
  {
    hide RefFrom, LeaveScope;
    var sc := LoopScope(LEAVING);
    var r2 := r.(c := r.c.(h := Tick(r.c.h)), loop := 0, outer := r.outer + [sc]);
    LeavingRuns(r2, o);
    var r3 := RefFrom(sc, 0, r2, 2, o, map[], 1).0;
    NothingToLeave(r3, RBroke(true));
    LeaveOwns(r3, 0, RBroke(true));
  }

  const OWNER: Stmt := Bind("s", true, READ)
  const SWAP: Stmt := Assign("s", READ)
  const MUTABLE: Visible := map["s" := true]

  lemma SwapWellFormed(s: Stmt)
    requires s.Bind? && s.name == "s" && s.isMut && WellFormed(s, map[], false)
    ensures WellFormedScope(Ending([s], [SWAP]), map[], false)
  {
    var vis1 := AfterStmt(map[], s);
    assert vis1 == MUTABLE && WellFormed(SWAP, vis1, false);
    assert WellFormedBack([SWAP], 0, AfterStmt(vis1, SWAP), false) && WellFormedBack([SWAP], 1, vis1, false);
    EndingWellFormed(s, [SWAP], map[], false);
  }

  lemma OwnerQualifies()
    ensures OwnAt(Ending([OWNER], [SWAP]), 0, map[]) == MutOwner
  {
    var sc := Ending([OWNER], [SWAP]);
    assert sc.stmts[0] == OWNER;
    assert MutStmtOk(SWAP, "s") && MutStmtOk(Eval(PRINT), "s");
  }

  /** `{ mut s = fs_read(); defer s <- fs_read(); print(0) }`: the assignment is printed with
      the block's scope popped, and the first string is not freed. */
  lemma DeferredReassignLeaks(o: Choices)
    ensures var p := [Block(Ending([OWNER], [SWAP]))];
      WellFormedProgram(p, map[]) && EmittedOut(p, o, map[], 1) == Normal &&
      EmittedHeap(p, o, map[], 1).freed == [1] && EmittedHeap(p, o, map[], 1).live == {0}
  {
    var sc := Ending([OWNER], [SWAP]);
    var p := [Block(sc)];
    FirstWellFormed();
    SwapWellFormed(OWNER);
    OneWellFormed(p[0]);
    OwnerQualifies();
    SwapScope(p, sc, o);
    BlockRuns(sc, o);
  }

  lemma SwapScope(p: seq<Stmt>, sc: Scope, o: Choices)
    requires sc == Ending([OWNER], [SWAP]) && p == [Block(sc)] && OwnAt(sc, 0, map[]) == MutOwner
    ensures var (r, out) := RefScope(sc, Top(p), 1, o, map[], 1);
      out == RNormal && r.own == [] && r.c.h.freed == [1] && r.c.h.live == {0}
  {
    hide RefScope, RefTrailing, SearchOwner;
    FirstRuns(true, MutOwner, Inside(Top(p), sc), 2, o, map[], 1);
    var r2 := DeferredRuns(OWNER, SWAP, Top(p), 1, o);
    NotDeclared(p);
    SwapRuns(HideFrom(r2, 0), MutOwner, o);
    var (r3, out) := RefTrailing(SWAP, HideFrom(r2, 0), 1, o, map[], 1);
    assert Show(r3.own, 0) == [MutOwner];
    var env := r3.c.env;
    assert Destroy(env, [MutOwner], r3.c.h, 0) == Destroy(env[..0], [MutOwner][..0], Release(Ptr(1), r3.c.h), 0);
  }

  lemma NotDeclared(p: seq<Stmt>)
    requires |p| == 1 && p[0].Block?
    ensures !SearchOwner(Top(p).outer, "s", map[])
  {
    var outer := Top(p).outer;
    assert outer == [LoopScope(p)] && Declares(LoopScope(p), "s", 1) == -1 && Declares(LoopScope(p), "s", 0) == -1;
    assert outer[..0] == [] && !SearchOwner([], "s", map[]);
  }

  /** The deferred assignment, where no enclosing scope declares the name. */
  lemma SwapRuns(r: RState, k: Own, o: Choices)
    requires r.c == BOUND && r.own == [Hidden(k)] && !SearchOwner(r.outer, "s", map[])
    ensures var (r1, out) := RefTrailing(SWAP, r, 1, o, map[], 1);
      out == RNormal && r1.own == r.own &&
      r1.c == CState([Var("s", Ptr(1))], Heap({0, 1}, 2, {}, [], false, 0, false))
  {
    hide SearchOwner;
    ReadAllocates(r.c.env, r.c.h, o, map[]);
    PlainCompute(READ, true, r, o, map[]);
    assert Find(r.c.env, "s") == 0;
    assert {0} + {1} == {0, 1};
    assert r.c.env[0 := Var("s", Ptr(1))] == [Var("s", Ptr(1))];
  }

  /** `{ defer s = fs_read(); print(0) }`: a deferred binding owns nothing. */
  lemma DeferredBindingNeverFreed(o: Choices)
    ensures var p := [Block(Ending([], [FIRST]))];
      WellFormedProgram(p, map[]) && EmittedOut(p, o, map[], 1) == Normal &&
      EmittedHeap(p, o, map[], 1).freed == [] && EmittedHeap(p, o, map[], 1).live == {0}
  {
    var sc := Ending([], [FIRST]);
    var p := [Block(sc)];
    FirstWellFormed();
    assert WellFormedFrom([], 0, map[], false) && AfterFrom([], 0, map[]) == map[];
    assert WellFormed(Eval(PRINT), map[], false);
    assert WellFormedBack([FIRST], 0, SHOWN, false) && WellFormedBack([FIRST], 1, map[], false);
    assert WellFormedScope(sc, map[], false);
    OneWellFormed(p[0]);
    DeferredBinding(Top(p), o);
    BlockRuns(sc, o);
  }

  lemma DeferredBinding(r: RState, o: Choices)
    requires r.c == EMPTY.c && r.own == []
    ensures var (r1, out) := RefScope(Ending([], [FIRST]), r, 1, o, map[], 1);
      out == RNormal && r1.c == CState([], BOUND.h) && r1.own == []
  {
    hide RefStmt, RefFinal;
    var sc := Ending([], [FIRST]);
    var ri := Inside(r, sc);
    assert RefFrom(sc, 0, ri, 2, o, map[], 1) == (ri, RNormal);
    PrintRuns(ri, 2, o);
    var r1 := RefBody(sc, ri, 2, o, map[], 1).0.(outer := r.outer);
    var r0 := HideFrom(r1, 0);
    assert r0.own == [];
    FirstRuns(false, NotOwner, r0, 1, o, map[], 1);
    var (r2, out) := RefTrailing(FIRST, r0, 1, o, map[], 1);
    assert out == RNormal && r2.c == BOUND && r2.own == [NotOwner];
    assert RefDeferred([FIRST], 0, r2, 0, 1, o, map[], 1) == (r2, RNormal);
    assert RefDeferred([FIRST], 1, r1, 0, 1, o, map[], 1) == (r2, RNormal);
    assert RefInside(sc, r, 1, o, map[], 1) == (r2, RNormal);
    assert Show(r2.own, 0) == [NotOwner];
    assert Destroy(r2.c.env, [NotOwner], r2.c.h, 0) == Destroy([], [], r2.c.h, 0);
  }

  // ---------- nesting ----------

  /** `s` inside `n` blocks. */
  function Nest(n: nat, s: Stmt): Stmt {
    if n == 0 then s else Block(Scope([Nest(n - 1, s)], NoFinal, []))
  }

  lemma {:induction false} NestWellFormed(n: nat, vis: Visible)
    ensures WellFormed(Nest(n, ProcExit(Lit)), vis, false)
  {
    if n > 0 {
      NestWellFormed(n - 1, vis);
      var ss := [Nest(n - 1, ProcExit(Lit))];
      assert WellFormedFrom(ss, 1, AfterStmt(vis, ss[0]), false);
      assert WellFormedFrom(ss, 0, vis, false);
    }
  }

  /** An exit inside `n` blocks passes through them unchanged. */
  lemma {:induction false} NestRuns(n: nat, k: Own, r: RState, d: nat, o: Choices, fuel: nat)
    requires !r.c.h.halted
    ensures var (r1, out) := RefStmt(Nest(n, ProcExit(Lit)), k, r, d, o, map[], fuel);
      r1.c == r.c && r1.own == r.own && out == RExited(d + n <= MAX_SCOPE_DEPTH)
    decreases n
  {
    if n > 0 {
      hide OwnAt;
      var s := Nest(n - 1, ProcExit(Lit));
      var sc := Scope([s], NoFinal, []);
      var ri := Inside(r, sc);
      NestRuns(n - 1, OwnAt(sc, 0, map[]), ri, d + 1, o, fuel);
      var (r1, out) := RefStmt(s, OwnAt(sc, 0, map[]), ri, d + 1, o, map[], fuel);
      var r2 := Note(r1, s, false, d + 1, out);
      assert RefFrom(sc, 0, ri, d + 1, o, map[], fuel) == (r2, out);
      assert RefInside(sc, r, d, o, map[], fuel) == (r2.(outer := r.outer), out);
      PassesThrough(r2.(outer := r.outer), out);
    }
  }

  /** Leaving a scope without variables. */
  lemma PassesThrough(r: RState, out: ROut)
    requires out.RExited?
    ensures var r1 := LeaveScope(r, |r.own|, out); r1.c == r.c && r1.own == r.own
  {
    assert r.c.env[..|r.own|] == r.c.env && r.own[..|r.own|] == r.own;
    assert Forget(r.own, |r.own|) == r.own;
  }

  /** `s = fs_read(); { … proc_exit(0) … }` with `n` blocks: 63 of them are still
      tracked, with 64 or more the exit forgets `s`. */
  lemma DeepExit(n: nat, o: Choices)
    ensures var p := [FIRST, Nest(n, ProcExit(Lit))];
      WellFormedProgram(p, map[]) && EmittedOut(p, o, map[], 1) == Exited &&
      EmittedHeap(p, o, map[], 1).freed == if n < 64 then [0] else []
  {
    hide RefStmt, WellFormed, Nest, EmitProgram, RunAll, Second;
    var s := Nest(n, ProcExit(Lit));
    var k := OwnAt(LoopScope([FIRST, s]), 1, map[]);
    NestWellFormed(n, SHOWN);
    SecondIs(s, o);
    NestRuns(n, k, Second(s, o), 1, o, 1);
    TwoWellFormed(s);
    TwoRuns(s, o);
    OwnerLeft(RefStmt(s, k, Second(s, o), 1, o, map[], 1).0, n < MAX_SCOPE_DEPTH);
  }

  lemma OwnerLeft(r: RState, tracked: bool)
    requires r.c == BOUND && r.own == [ImmOwner]
    ensures LeaveScope(r, 0, RExited(tracked)).c.h.freed == if tracked then [0] else []
  {
    assert Forget(r.own, 0) == [ImmOwner];
    assert Destroy(r.c.env, [ImmOwner], r.c.h, 0) ==
           Destroy(r.c.env[..0], [ImmOwner][..0], Release(Ptr(0), r.c.h), 0);
  }

  // ---------- strings somebody else keeps ----------

  function Lend(g: string): Expr { Call(g, [Ident("s")]) }

  /** `s = fs_read(); g(s); s` */
  function Lender(g: string): Scope { Scope([FIRST, Eval(Lend(g))], Final(Eval(Ident("s"))), []) }

  lemma LendRuns(g: string, env: Env, h: Heap, o: Choices)
    requires IsUserFunction(g) && (forall n :: o(n) == 0) && env == BOUND.env && !h.halted
    ensures EvalExpr(Lend(g), env, h, o, map[]).1 == Tick(Tick(Keep([Ptr(0)], h)))
    ensures Chosen(Lend(g), false, map[]) == Plan([], Lend(g))
  {
    assert EvalAll([], env, h, o, map[]) == ([], h);
    assert Find(env, "s") == 0 && EvalExpr(Ident("s"), env, h, o, map[]) == (Ptr(0), h);
    assert [Ident("s")][1..] == [] && [Ptr(0)] + [] == [Ptr(0)];
    assert EvalAll([Ident("s")], env, h, o, map[]) == ([Ptr(0)], h);
    assert !CalleeExits(o, h);
  }

  lemma LenderWellFormed(g: string)
    requires IsUserFunction(g)
    ensures CallStart(EMPTY) && FunctionStart(Lender(g), EMPTY, map[], map[])
  {
    FirstWellFormed();
    var ss := Lender(g).stmts;
    assert ss[0] == FIRST && ss[1] == Eval(Lend(g)) && Lend(g).args[0] == Ident("s");
    assert AfterStmt(SHOWN, ss[1]) == SHOWN && WellFormed(ss[1], SHOWN, false);
    assert WellFormedFrom(ss, 2, SHOWN, false) && AfterFrom(ss, 2, SHOWN) == SHOWN;
    assert WellFormedFrom(ss, 1, SHOWN, false) && AfterFrom(ss, 1, SHOWN) == AfterFrom(ss, 2, AfterStmt(SHOWN, ss[1]));
    assert WellFormedFrom(ss, 0, map[], false) && AfterFrom(ss, 0, map[]) == SHOWN;
    assert WellFormedFrom([], 0, SHOWN, false) && AfterFrom([], 0, SHOWN) == SHOWN;
    assert WellFormed(Lender(g).fin.s, SHOWN, false);
    assert WellFormedFunction(Lender(g), map[]);
  }

  lemma LenderOwns(g: string)
    requires IsUserFunction(g)
    ensures IsFreshResult(Lender(g), StrResult) && !ResultUnkept(Lender(g))
    ensures ResultPolicy(Lender(g), StrResult, map[]) == FreeAllBut("s")
  {
    assert Lender(g).stmts[0] == FIRST && OwnAt(Lender(g), 0, map[]) == ImmOwner;
    assert OwnerIndex(Lender(g), "s", 0, map[]) == 0;
    assert Lend(g).args[0] == Ident("s") && !MutExprOk(Lend(g).args[0], "s");
    assert !MutExprOk(Lend(g), "s");
    assert Lender(g).stmts[1] == Eval(Lend(g));
    assert !MutStmtOk(Lender(g).stmts[1], "s");
  }

  lemma LenderRuns(g: string, o: Choices)
    requires IsUserFunction(g) && forall n :: o(n) == 0
    ensures var (r, out) := RefStart(Lender(g), EMPTY, o, map[], 1);
      out == RNormal && r.c == CState(BOUND.env, Tick(Tick(Keep([Ptr(0)], BOUND.h)))) && r.own == [ImmOwner]
  {
    hide EvalExpr, RefCompute, RefFinish, RefLose;
    var sc := Lender(g);
    var ri := Inside(EMPTY, sc);
    FirstRuns(false, ImmOwner, ri, 1, o, map[], 1);
    assert OwnAt(sc, 0, map[]) == ImmOwner by { assert sc.stmts[0] == FIRST; }
    var r1 := Note(RefStmt(FIRST, ImmOwner, ri, 1, o, map[], 1).0, FIRST, false, 1, RNormal);
    LendRuns(g, r1.c.env, r1.c.h, o);
    PlainCompute(Lend(g), false, r1, o, map[]);
    var (r2, out) := RefStmt(sc.stmts[1], OwnAt(sc, 1, map[]), r1, 1, o, map[], 1);
    assert out == RNormal && r2.own == [ImmOwner];
    hide RefStmt;
    var r3 := Note(r2, sc.stmts[1], false, 1, out);
    assert RefFrom(sc, 2, r3, 1, o, map[], 1) == (r3, RNormal);
    assert RefFrom(sc, 1, r1, 1, o, map[], 1) == (r3, RNormal);
    assert RefFrom(sc, 0, ri, 1, o, map[], 1) == (r3, RNormal);
    assert RefInOrder([], 0, r3, o, map[], 1) == (r3, RNormal);
  }

  /** A fresh-result function may return a string that a function it called keeps. */
  lemma ReturnedButKept(g: string)
    requires IsUserFunction(g)
    ensures IsFreshResult(Lender(g), StrResult) && !ResultUnkept(Lender(g))
    ensures CallStart(EMPTY) && FunctionStart(Lender(g), EMPTY, map[], map[])
    ensures var o: Choices := n => 0;
      var (c, out) := RunAll(EmitFunction(Lender(g), StrResult, map[]), EMPTY.c, o, map[], 1);
      out == Returned(Ptr(0)) && 0 in c.h.live && 0 in c.h.kept
  {
    hide RefStart, EmitFunction, RunAll, FunctionStart, IsFreshResult, ResultUnkept, ResultPolicy;
    var o: Choices := n => 0;
    LenderWellFormed(g);
    LenderOwns(g);
    LenderRuns(g, o);
    EmittedFunctionRefines(Lender(g), StrResult, EMPTY, map[], o, map[], 1);
    var r1 := RefStart(Lender(g), EMPTY, o, map[], 1).0;
    assert DestroyBut(r1.c.env, r1.own, r1.c.h, 0, "s") == DestroyBut([], [], r1.c.h, 0, "s");
    assert Find(r1.c.env, "s") == 0;
    assert RefEval(Ident("s"), r1, o, map[]) == (Ptr(0), r1);
    assert [Ptr(0)][0] == Ptr(0) && 0 in Pointers([Ptr(0)]);
  }

  /** `{ s = fs_read(); proc_exit(0) }` as a function's body. */
  const EXITING: Scope := Scope([FIRST], Final(ProcExit(Lit)), [])

  lemma ExitingStarts(o: Choices)
    ensures CallStart(EMPTY) && FunctionStart(EXITING, EMPTY, map[], map[])
    ensures var (r, out) := RefStart(EXITING, EMPTY, o, map[], 1);
      out == RNormal && r.c == BOUND && r.own == [ImmOwner]
  {
    ExitingWellFormed();
    hide FunctionStart, CallStart;
    var ri := Inside(EMPTY, EXITING);
    assert OwnAt(EXITING, 0, map[]) == ImmOwner by { assert EXITING.stmts[0] == FIRST; }
    FirstRuns(false, ImmOwner, ri, 1, o, map[], 1);
    hide RefStmt;
    var r1 := Note(RefStmt(FIRST, ImmOwner, ri, 1, o, map[], 1).0, FIRST, false, 1, RNormal);
    assert RefFrom(EXITING, 1, r1, 1, o, map[], 1) == (r1, RNormal);
    assert RefFrom(EXITING, 0, ri, 1, o, map[], 1) == (r1, RNormal);
    assert RefInOrder([], 0, r1, o, map[], 1) == (r1, RNormal);
  }

  lemma ExitingWellFormed()
    ensures CallStart(EMPTY) && FunctionStart(EXITING, EMPTY, map[], map[])
  {
    FirstWellFormed();
    var ss := EXITING.stmts;
    assert ss[0] == FIRST && WellFormedFrom(ss, 1, SHOWN, false) && AfterFrom(ss, 1, SHOWN) == SHOWN;
    assert WellFormedFrom(ss, 0, map[], false) && AfterFrom(ss, 0, map[]) == SHOWN;
    assert WellFormedFrom([], 0, SHOWN, false) && AfterFrom([], 0, SHOWN) == SHOWN;
  }

  /** A function's last statement is an expression even when it is `proc_exit`: nothing is freed before it. */
  lemma ExitingFunctionLeaks(ty: ResultType, o: Choices)
    ensures CallStart(EMPTY) && FunctionStart(EXITING, EMPTY, map[], map[])
    ensures var (c, out) := RunAll(EmitFunction(EXITING, ty, map[]), EMPTY.c, o, map[], 1);
      out == Exited && c.h.freed == [] && c.h.live == {0}
  {
    ExitingStarts(o);
    EmittedFunctionRefines(EXITING, ty, EMPTY, map[], o, map[], 1);
    hide RefStart, RefResult, EmitFunction, RunAll, FunctionStart, CallStart;
    ExitingResult(ty, RefStart(EXITING, EMPTY, o, map[], 1).0, o);
  }

  lemma ExitingResult(ty: ResultType, r: RState, o: Choices)
    requires r.c == BOUND
    ensures var (r1, out, _) := RefResult(EXITING, ty, 0, r, o, map[], 1);
      out == RExited(false) && r1.c.h.freed == [] && r1.c.h.live == {0}
  {
    hide ResultPolicy, LeaveScope;
    LitCall("proc_exit", r.c.env, r.c.h, true, o);
    var r3 := RefEval(ResultExpr(EXITING.fin), r, o, map[]).1;
    ExitLost(NoteResult(r3, EXITING.fin), 0, RExited(false));
  }

  /** `x` bound mutably to the result of `f`. */
  function Shared(f: string): Stmt { Bind("x", true, Call(f, [])) }

  lemma SharedWellFormed(f: string)
    requires IsUserFunction(f)
    ensures WellFormedProgram([Shared(f)], map[f := false]) && !MutClean(Shared(f), map[f := false])
    ensures OwnAt(LoopScope([Shared(f)]), 0, map[f := false]) == MutOwner
  {
    var freshFns: FreshFns := map[f := false];
    assert "x"[0] != TMP[0];
    assert WellFormedFrom([Shared(f)], 1, AfterStmt(map[], Shared(f)), false);
  }

  lemma SharedRuns(f: string, r: RState, o: Choices)
    requires IsUserFunction(f) && (forall n :: o(n) == 0) && r.c == EMPTY.c && r.own == []
    ensures var (r1, out) := RefStmt(Shared(f), MutOwner, r, 1, o, map[f := false], 1);
      out == RNormal && r1.own == [MutOwner] && r1.c.env == [Var("x", Ptr(0))] && 0 in r1.c.h.kept &&
      r1.trace == r.trace
  {
    var h := EMPTY.c.h;
    CallRuns(f, [], h, o, map[f := false]);
    PlainCompute(Call(f, []), true, r, o, map[f := false]);
    assert !CalleeExits(o, h);
    assert [Ptr(0)][0] == Ptr(0);
    assert Apply(f, [], h, o, map[f := false]).0 == Ptr(0);
    assert 0 in Apply(f, [], h, o, map[f := false]).1.kept;
  }

  /** So a mutable owner initialised by such a call need not be the string's only holder. */
  lemma MutableOwnerShared(f: string, o: Choices)
    requires IsUserFunction(f) && forall n :: o(n) == 0
    ensures var p := [Shared(f)];
      var freshFns := map[f := false];
      var trace := Executed(p, o, freshFns, 1);
      WellFormedProgram(p, freshFns) && !MutClean(p[0], freshFns) &&
      |trace| == 1 && trace[0].own == [MutOwner] && !HeldAt(trace[0])
  {
    hide RefStmt, WellFormedProgram, MutClean, OwnAt, LeaveScope;
    var s := Shared(f);
    var freshFns: FreshFns := map[f := false];
    var sc, r := LoopScope([s]), Top([s]);
    SharedWellFormed(f);
    SharedRuns(f, r, o);
    var (r1, out) := RefStmt(s, MutOwner, r, 1, o, freshFns, 1);
    var r2 := Note(r1, s, false, 1, out);
    assert RefFrom(sc, 1, r2, 1, o, freshFns, 1) == (r2, RNormal);
    assert RefFrom(sc, 0, r, 1, o, freshFns, 1) == (r2, RNormal);
    LeaveGivesUp(r2, 0, RNormal);
    assert r2.trace[0].own[0] == MutOwner && r2.trace[0].c.env[0].val == Ptr(0);
  }

  // ---------- a free of something that is no owner's ----------

  /** `{ mut s = "…"; defer s <- fs_read(); print(0) }` */
  const INNER: Scope := Ending([Bind("s", true, Lit)], [SWAP])

  /** That block, and after it `mut s = fs_read()`. */
  const CLASH: seq<Stmt> := [Block(INNER), OWNER]

  lemma ClashWellFormed()
    ensures WellFormedProgram(CLASH, map[])
  {
    FirstWellFormed();
    SwapWellFormed(Bind("s", true, Lit));
    assert CLASH[0] == Block(INNER) && CLASH[1] == OWNER;
    assert WellFormedFrom(CLASH, 2, AfterStmt(map[], OWNER), false);
    assert WellFormedFrom(CLASH, 1, map[], false);
  }

  lemma ClashUnsettled()
    ensures !Settled(CLASH, map[]) && SearchOwner(Top(CLASH).outer, "s", map[])
  {
    var s := Bind("s", true, Lit);
    assert CLASH[0] == Block(INNER) && CLASH[1] == OWNER;
    var sc := LoopScope(CLASH);
    assert Declares(sc, "s", 1) == 1 && Declares(sc, "s", 0) == 1;
    assert OwnAt(sc, 1, map[]) == MutOwner;
    assert Top(CLASH).outer == [sc];
    assert "s" in BoundIn(INNER) by { assert INNER.stmts[0] == s; }
    assert INNER.deferred[0] == SWAP;
    assert !OrderlyScope(false, INNER, 1, {}, false, [sc], map[]);
    assert !Orderly(false, CLASH[0], 1, {}, false, [sc], map[]);
  }

  /** The block's deferred assignment is taken for one of the owner declared after the block. */
  lemma ClashBlock(o: Choices)
    ensures var (r, out) := RefScope(INNER, Top(CLASH), 1, o, map[], 1);
      out == RNormal && r.c.h.bad && !r.c.h.halted && r.own == [] && r.c.env == []
  {
    hide RefScope, RefTrailing, SearchOwner;
    var s, r := Bind("s", true, Lit), Top(CLASH);
    ClashUnsettled();
    assert OwnAt(INNER, 0, map[]) == NotOwner by { assert INNER.stmts[0] == s; }
    LiteralRuns(Inside(r, INNER), o);
    var r2 := DeferredRuns(s, SWAP, r, 1, o);
    StraySwap(HideFrom(r2, 0), o);
    var (r3, out) := RefTrailing(SWAP, HideFrom(r2, 0), 1, o, map[], 1);
    assert Show(r3.own, 0) == [NotOwner];
    assert Destroy(r3.c.env, [NotOwner], r3.c.h, 0) == Destroy([], [], r3.c.h, 0);
  }

  lemma LiteralRuns(r: RState, o: Choices)
    requires r.c == EMPTY.c && r.own == []
    ensures var (r1, out) := RefStmt(Bind("s", true, Lit), NotOwner, r, 2, o, map[], 1);
      out == RNormal && r1.c == CState([Var("s", Other)], EMPTY.c.h) && r1.own == [NotOwner] && r1.outer == r.outer
  {
    PlainCompute(Lit, true, r, o, map[]);
    assert [] + [Var("s", Other)] == [Var("s", Other)];
  }

  lemma StraySwap(r: RState, o: Choices)
    requires r.c == CState([Var("s", Other)], EMPTY.c.h) && r.own == [Hidden(NotOwner)]
    requires SearchOwner(r.outer, "s", map[])
    ensures var (r1, out) := RefTrailing(SWAP, r, 1, o, map[], 1);
      out == RNormal && r1.own == r.own && r1.c.env == [Var("s", Ptr(0))] && r1.c.h.bad && !r1.c.h.halted
  {
    hide SearchOwner;
    ReadAllocates(r.c.env, r.c.h, o, map[]);
    PlainCompute(READ, true, r, o, map[]);
    assert Find(r.c.env, "s") == 0;
    assert r.c.env[0 := Var("s", Ptr(0))] == [Var("s", Ptr(0))];
  }

  /** `{ mut s = "…"; defer s <- fs_read(); print(0) }; mut s = fs_read()`: the emitted program
      frees the literal. */
  lemma LiteralFreed(o: Choices)
    ensures WellFormedProgram(CLASH, map[]) && !Settled(CLASH, map[]) && EmittedHeap(CLASH, o, map[], 1).bad
  {
    ClashWellFormed();
    ClashUnsettled();
    ClashBlock(o);
    EmittedProgramRefines(CLASH, o, map[], 1);
    hide RefScope, EmitProgram, RunAll, WellFormedProgram, SearchOwner, Settled;
    var sc, r0 := LoopScope(CLASH), Top(CLASH);
    var (r, out) := RefScope(INNER, r0, 1, o, map[], 1);
    var r1 := Note(r, CLASH[0], false, 1, out);
    assert RefStmt(CLASH[0], OwnAt(sc, 0, map[]), r0, 1, o, map[], 1) == (r, out);
    ReadAllocates(r1.c.env, r1.c.h, o, map[]);
    PlainCompute(READ, true, r1, o, map[]);
    var (r2, out2) := RefStmt(OWNER, OwnAt(sc, 1, map[]), r1, 1, o, map[], 1);
    assert out2 == RNormal && r2.c.h.bad;
    hide RefStmt;
    var r3 := Note(r2, OWNER, false, 1, out2);
    assert RefFrom(sc, 2, r3, 1, o, map[], 1) == (r3, RNormal);
    assert RefFrom(sc, 1, r1, 1, o, map[], 1) == (r3, RNormal);
    assert RefFrom(sc, 0, r0, 1, o, map[], 1) == (r3, RNormal);
    StaysBad(r3.c.env, Show(r3.own, 0), r3.c.h, 0);
  }

  lemma {:induction false} StaysBad(env: Env, own: seq<Own>, h: Heap, lo: nat)
    requires |own| == |env| && h.bad
    ensures Destroy(env, own, h, lo).bad
    decreases |env|
  {
    if |env| > lo {
      var k := |env| - 1;
      StaysBad(env[..k], own[..k], if Active(own[k]) then Release(env[k].val, h) else h, lo);
    }
  }
}
