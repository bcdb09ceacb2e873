/** Conditions on the text of a program under which no run frees the value of a variable
    that owns nothing, or loses a string. */
module OwnershipTidy {
  import opened OwnershipSyntax
  import opened OwnershipTemps
  import opened OwnershipRun
  import opened OwnershipRef
  import opened OwnershipCorrect
  import opened OwnershipSim
  import opened OwnershipLeaks

  // ---------- the conditions ----------

  function BoundBy(ss: seq<Stmt>): set<string> { set i | 0 <= i < |ss| && ss[i].Bind? :: ss[i].name }

  /** The names a block declares, outside the blocks and loops within it. */
  function BoundIn(sc: Scope): set<string> {
    BoundBy(sc.stmts) + (if sc.fin.Final? then BoundBy([sc.fin.s]) else {}) + BoundBy(sc.deferred)
  }

  predicate OwningBind(s: Stmt, freshFns: FreshFns) { s.Bind? && IsOwningInit(s.init, freshFns) }

  /** `s`, inside `d` scopes, does no harm. `outer` are those scopes and `hid` names the
      variables out of the emitter's sight; `held` says whether the innermost loop contains
      any. With `tidy` nothing is lost either: no jump, exit or owner reassignment inside
      more than 64 scopes or among the deferred statements of a block it
      concerns, and no owning binding in final or deferred position. */
  predicate Orderly(tidy: bool, s: Stmt, d: nat, hid: set<string>, held: bool, outer: seq<Scope>, freshFns: FreshFns)
    decreases s
  {
    match s
    case Assign(n, e) =>
      IsOwnedBuiltinCall(e) ==>
        if tidy then d <= 64 && n !in hid else n in hid ==> !SearchOwner(outer, n, freshFns)
    case ProcExit(_) => tidy ==> d <= 64 && hid == {}
    case Block(sc) => OrderlyScope(tidy, sc, d, hid, held, outer, freshFns)
    case If(_, sc) => OrderlyScope(tidy, sc, d, hid, held, outer, freshFns)
    case Loop(_, body) =>
      forall i :: 0 <= i < |body| ==> Orderly(tidy, body[i], d + 1, hid, false, outer + [LoopScope(body)], freshFns)
    case Break => tidy ==> d <= 64 && !held
    case Skip => tidy ==> d <= 64 && !held
    case _ => true
  }

  predicate OrderlyScope(tidy: bool, sc: Scope, d: nat, hid: set<string>, held: bool, outer: seq<Scope>,
                         freshFns: FreshFns)
    decreases sc
  {
    (forall i :: 0 <= i < |sc.stmts| ==> Orderly(tidy, sc.stmts[i], d + 1, hid, held, outer + [sc], freshFns)) &&
    (sc.fin.Final? ==>
      Orderly(tidy, sc.fin.s, d + 1, hid, held, outer + [sc], freshFns) &&
      (tidy ==> !OwningBind(sc.fin.s, freshFns))) &&
    forall i :: 0 <= i < |sc.deferred| ==>
      Orderly(tidy, sc.deferred[i], d, hid + BoundIn(sc), held || BoundIn(sc) != {}, outer, freshFns) &&
      (tidy ==> !OwningBind(sc.deferred[i], freshFns))
  }

  // ---------- what a run then shows ----------

  /** A recorded statement that did no harm. */
  predicate Fine(tidy: bool, en: Entry, freshFns: FreshFns) {
    !Strays(en, freshFns) && (tidy && !en.c.h.halted ==> !LosesString(en, freshFns))
  }

  /** All statements executed between the two states are fine, and none ended the process
      unless the process has ended. */
  predicate AllFine(tidy: bool, r: RState, r1: RState, freshFns: FreshFns) {
    r.trace <= r1.trace &&
    forall i :: |r.trace| <= i < |r1.trace| ==>
      Fine(tidy, r1.trace[i], freshFns) && (r1.trace[i].c.h.halted ==> r1.c.h.halted)
  }

  /** The variables out of sight have these names, and are in the innermost loop only if `held`. */
  predicate HidIn(hid: set<string>, held: bool, r: RState) {
    forall p :: 0 <= p < |r.own| && r.own[p].Hidden? ==> r.c.env[p].name in hid && (p >= r.loop ==> held)
  }

  predicate Starts(hid: set<string>, held: bool, outer: seq<Scope>, r: RState) {
    HidIn(hid, held, r) && r.outer == outer && r.loop <= |r.own| && !r.c.h.halted
  }

  lemma FineTrans(tidy: bool, a: RState, b: RState, c: RState, freshFns: FreshFns)
    requires AllFine(tidy, a, b, freshFns) && AllFine(tidy, b, c, freshFns) && !b.c.h.halted
    ensures AllFine(tidy, a, c, freshFns)
  {
    hide Fine;
    forall i | |a.trace| <= i < |c.trace|
      ensures Fine(tidy, c.trace[i], freshFns) && (c.trace[i].c.h.halted ==> c.c.h.halted)
    {
      if i < |b.trace| { assert c.trace[i] == b.trace[i]; }
    }
  }

  lemma NoneYet(tidy: bool, r: RState, r1: RState, freshFns: FreshFns)
    requires r1.trace == r.trace
    ensures AllFine(tidy, r, r1, freshFns)
  {
  }

  /** Recording one more fine statement. */
  lemma FineNote(tidy: bool, r: RState, r1: RState, s: Stmt, fin: bool, d: nat, out: ROut, freshFns: FreshFns)
    requires AllFine(tidy, r, r1, freshFns) && Fine(tidy, Record(r1, s, fin, d, out), freshFns)
    ensures AllFine(tidy, r, Note(r1, s, fin, d, out), freshFns)
  {
    hide Fine;
  }

  /** The same statements, in a state that differs in other things. */
  lemma FineMoved(tidy: bool, r: RState, r1: RState, r': RState, r1': RState, freshFns: FreshFns)
    requires AllFine(tidy, r, r1, freshFns) && r'.trace == r.trace && r1'.trace == r1.trace
    requires r1'.c.h.halted == r1.c.h.halted
    ensures AllFine(tidy, r', r1', freshFns)
  {
    hide Fine;
  }

  // ---------- statements ----------

  predicate Compound(s: Stmt) { s.Block? || s.If? || s.Loop? }

  /** A statement that runs no others. */
  lemma SimpleFine(tidy: bool, s: Stmt, k: Own, fin: bool, r: RState, d: nat, hid: set<string>, held: bool,
                   outer: seq<Scope>, o: Choices, freshFns: FreshFns, fuel: nat)
    requires !Compound(s) && Starts(hid, held, outer, r) && Orderly(tidy, s, d, hid, held, outer, freshFns)
    requires tidy && fin ==> !OwningBind(s, freshFns)
    ensures var (r1, out) := RefStmt(s, k, r, d, o, freshFns, fuel);
      AllFine(tidy, r, Note(r1, s, fin, d, out), freshFns)
  {
    var (r1, out) := RefStmt(s, k, r, d, o, freshFns, fuel);
    if s.Assign? {
      AssignFine(tidy, s.target, s.rhs, k, fin, r, d, hid, held, outer, o, freshFns, fuel);
    } else {
      hide RefCompute, ReleaseTemps, EvalExpr, Find, TakenForOwner, IsOwningInit;
      if s.Bind? || s.Eval? {
        var e := if s.Bind? then s.init else s.e;
        ComputeFrame(e, s.Bind?, r, o, freshFns);
      }
      NoneYet(tidy, r, r1, freshFns);
      assert Fine(tidy, Record(r1, s, fin, d, out), freshFns);
    }
    hide Fine;
    FineNote(tidy, r, r1, s, fin, d, out, freshFns);
  }

  lemma AssignFine(tidy: bool, n: string, e: Expr, k: Own, fin: bool, r: RState, d: nat, hid: set<string>, held: bool,
                   outer: seq<Scope>, o: Choices, freshFns: FreshFns, fuel: nat)
    requires Starts(hid, held, outer, r) && Orderly(tidy, Assign(n, e), d, hid, held, outer, freshFns)
    ensures var (r1, out) := RefStmt(Assign(n, e), k, r, d, o, freshFns, fuel);
      AllFine(tidy, r, r1, freshFns) && Fine(tidy, Record(r1, Assign(n, e), fin, d, out), freshFns)
  {
    hide RefCompute, ReleaseTemps, SearchOwner, Find, Update, LosesString, Strays;
    ComputeFrame(e, true, r, o, freshFns);
    var (v, r1, tv) := RefCompute(e, true, r, o, freshFns);
    if r1.c.h.halted {
      NotAssigned(RefLose(tv, r1), n, e, fin, d, freshFns);
    } else {
      var r2 := RefAssign(n, e, v, r1, d, freshFns);
      AssignFrame(n, e, v, r1, d, freshFns);
      ReleaseTempsFrame(tv, r2.c.h);
      FindUpdate(r.c.env, n, v);
      var r3 := RefFinish(tv, r2);
      assert r3.trace == r.trace && r3.own == r.own && r3.outer == outer && !r3.c.h.halted;
      AssignEntryFine(tidy, r, r3, n, e, fin, d, hid, held, outer, freshFns);
    }
  }

  lemma NotAssigned(r: RState, n: string, e: Expr, fin: bool, d: nat, freshFns: FreshFns)
    requires r.c.h.halted
    ensures !Strays(Record(r, Assign(n, e), fin, d, RExited(false)), freshFns)
  {
  }

  lemma AssignEntryFine(tidy: bool, r: RState, r1: RState, n: string, e: Expr, fin: bool, d: nat, hid: set<string>,
                        held: bool, outer: seq<Scope>, freshFns: FreshFns)
    requires Starts(hid, held, outer, r) && Orderly(tidy, Assign(n, e), d, hid, held, outer, freshFns)
    requires r1.own == r.own && r1.outer == r.outer && Find(r1.c.env, n) == Find(r.c.env, n) && !r1.c.h.halted
    ensures Fine(tidy, Record(r1, Assign(n, e), fin, d, RNormal), freshFns)
  {
    hide SearchOwner, OwnsFrom;
    var i := Find(r.c.env, n);
    if i >= 0 {
      assert r.c.env[i].name == n;
      assert r.own[i].Hidden? ==> n in hid;
      assert !r.own[i].Hidden? ==> Kind(r.own[i]) == r.own[i];
    }
  }

  lemma CompoundFine(tidy: bool, r: RState, r1: RState, s: Stmt, fin: bool, d: nat, out: ROut, freshFns: FreshFns)
    requires Compound(s) && AllFine(tidy, r, r1, freshFns)
    ensures AllFine(tidy, r, Note(r1, s, fin, d, out), freshFns)
  {
    assert Fine(tidy, Record(r1, s, fin, d, out), freshFns);
    hide Fine;
    FineNote(tidy, r, r1, s, fin, d, out, freshFns);
  }

  lemma {:induction false} StmtFine(tidy: bool, s: Stmt, k: Own, fin: bool, r: RState, d: nat, hid: set<string>,
                                    held: bool, outer: seq<Scope>, o: Choices, freshFns: FreshFns, fuel: nat)
    requires Starts(hid, held, outer, r) && Orderly(tidy, s, d, hid, held, outer, freshFns)
    requires tidy && fin ==> !OwningBind(s, freshFns)
    ensures var (r1, out) := RefStmt(s, k, r, d, o, freshFns, fuel);
      AllFine(tidy, r, Note(r1, s, fin, d, out), freshFns)
    decreases fuel, s, 0
  {
    hide EvalExpr, RefScope, RefIteration, AllFine, Starts, OrderlyScope, OwningBind;
    var (r1, out) := RefStmt(s, k, r, d, o, freshFns, fuel);
    match s
    case Block(sc) =>
      ScopeFine(tidy, sc, r, d, hid, held, outer, o, freshFns, fuel);
      CompoundFine(tidy, r, r1, s, fin, d, out, freshFns);
    case If(e, sc) =>
      IfFine(tidy, e, sc, k, r, d, hid, held, outer, o, freshFns, fuel);
      CompoundFine(tidy, r, r1, s, fin, d, out, freshFns);
    case Loop(e, body) =>
      LoopFine(tidy, s, k, r, d, hid, held, outer, o, freshFns, fuel);
      CompoundFine(tidy, r, r1, s, fin, d, out, freshFns);
    case _ => SimpleFine(tidy, s, k, fin, r, d, hid, held, outer, o, freshFns, fuel);
  }

  /** What the conditions say of a state does not depend on the heap or the trace. */
  lemma StartsLater(hid: set<string>, held: bool, outer: seq<Scope>, r: RState, r1: RState)
    requires Starts(hid, held, outer, r) && Grows(r, r1) && |r1.own| == |r.own| && r1.loop == r.loop
    requires !r1.c.h.halted
    ensures Starts(hid, held, outer, r1)
  {
    assert r1.own == r1.own[..|r.own|] && r.own == r.own[..|r.own|];
  }

  lemma {:induction false} IfFine(tidy: bool, e: Expr, sc: Scope, k: Own, r: RState, d: nat, hid: set<string>,
                                  held: bool, outer: seq<Scope>, o: Choices, freshFns: FreshFns, fuel: nat)
    requires Starts(hid, held, outer, r) && OrderlyScope(tidy, sc, d, hid, held, outer, freshFns)
    ensures AllFine(tidy, r, RefStmt(If(e, sc), k, r, d, o, freshFns, fuel).0, freshFns)
    decreases fuel, sc, 3
  {
    hide EvalExpr, RefScope, AllFine, Starts, OrderlyScope;
    var (_, r1) := RefEval(e, r, o, freshFns);
    var r2 := r1.(c := r1.c.(h := Tick(r1.c.h)));
    NoneYet(tidy, r, r1, freshFns);
    NoneYet(tidy, r, r2, freshFns);
    if !r1.c.h.halted && Decide(o, r1.c.h) {
      StartsLater(hid, held, outer, r, r2);
      ScopeFine(tidy, sc, r2, d, hid, held, outer, o, freshFns, fuel);
      FineTrans(tidy, r, r2, RefScope(sc, r2, d, o, freshFns, fuel).0, freshFns);
    }
  }

  lemma StartsFacts(hid: set<string>, held: bool, outer: seq<Scope>, r: RState)
    requires Starts(hid, held, outer, r)
    ensures r.outer == outer && r.loop <= |r.own| && !r.c.h.halted
  {
  }

  lemma {:induction false} LoopFine(tidy: bool, s: Stmt, k: Own, r: RState, d: nat, hid: set<string>, held: bool,
                                    outer: seq<Scope>, o: Choices, freshFns: FreshFns, fuel: nat)
    requires s.Loop? && Starts(hid, held, outer, r) && Orderly(tidy, s, d, hid, held, outer, freshFns)
    ensures AllFine(tidy, r, RefStmt(s, k, r, d, o, freshFns, fuel).0, freshFns)
    decreases fuel, s.stmts, |s.stmts| + 2
  {
    hide EvalExpr, RefIteration, AllFine, Starts, Grows, Orderly;
    if fuel == 0 {
      NoneYet(tidy, r, r, freshFns);
    } else {
      var (r1, out, again) := RefIteration(s.domain, s.stmts, r, d, o, freshFns, fuel);
      StartsFacts(hid, held, outer, r);
      IterationFine(tidy, s.domain, s.stmts, r, d, hid, held, outer, o, freshFns, fuel);
      RefIterationFrame(s.domain, s.stmts, r, d, o, freshFns, fuel);
      if again {
        StartsLater(hid, held, outer, r, r1);
        LoopFine(tidy, s, k, r1, d, hid, held, outer, o, freshFns, fuel - 1);
        FineTrans(tidy, r, r1, RefStmt(s, k, r1, d, o, freshFns, fuel - 1).0, freshFns);
      }
    }
  }

  /** A loop body starts with nothing of its loop out of sight. */
  lemma StartsLoop(hid: set<string>, held: bool, outer: seq<Scope>, r: RState, r1: RState, sc: Scope)
    requires Starts(hid, held, outer, r) && r1.own == r.own && r1.c.env == r.c.env && !r1.c.h.halted
    requires r1.loop == |r.own| && r1.outer == r.outer + [sc]
    ensures Starts(hid, false, outer + [sc], r1)
  {
  }

  lemma LeaveKeepsTrace(r: RState, base: nat, out: ROut)
    ensures LeaveScope(r, base, out).trace == r.trace && LeaveScope(r, base, out).c.h.halted == r.c.h.halted &&
      LeaveScope(r, base, out).loop == r.loop
  {
    DestroyFrame(r.c.env, Show(r.own, base), r.c.h, base);
    DestroyFrame(r.c.env, Forget(r.own, base), r.c.h, base);
  }

  lemma {:induction false} IterationFine(tidy: bool, e: Expr, body: seq<Stmt>, r: RState, d: nat, hid: set<string>,
                                         held: bool, outer: seq<Scope>, o: Choices, freshFns: FreshFns, fuel: nat)
    requires Starts(hid, held, outer, r) && Orderly(tidy, Loop(e, body), d, hid, held, outer, freshFns)
    ensures var r1 := RefIteration(e, body, r, d, o, freshFns, fuel).0;
      AllFine(tidy, r, r1, freshFns) && r1.loop == r.loop
    decreases fuel, body, |body| + 1
  {
    hide EvalExpr, RefFrom, AllFine, Starts, LeaveScope;
    var (_, r1) := RefEval(e, r, o, freshFns);
    var sc := LoopScope(body);
    var r2 := r1.(c := r1.c.(h := Tick(r1.c.h)), loop := |r.own|, outer := r.outer + [sc]);
    NoneYet(tidy, r, r1, freshFns);
    NoneYet(tidy, r, r2, freshFns);
    NoneYet(tidy, r, r2.(loop := r.loop, outer := r.outer), freshFns);
    if !r1.c.h.halted && Decide(o, r1.c.h) {
      StartsLoop(hid, held, outer, r, r2, sc);
      FromFine(tidy, sc, 0, r2, d + 1, hid, false, outer + [sc], o, freshFns, fuel);
      var (r3, out) := RefFrom(sc, 0, r2, d + 1, o, freshFns, fuel);
      FineTrans(tidy, r, r2, r3, freshFns);
      LeaveKeepsTrace(r3, |r.own|, out);
      FineMoved(tidy, r, r3, r, LeaveScope(r3, |r.own|, out).(loop := r.loop, outer := r.outer), freshFns);
    }
  }

  lemma StartsNext(hid: set<string>, held: bool, outer: seq<Scope>, r: RState, r1: RState, s: Stmt, k: Own)
    requires Starts(hid, held, outer, r) && StmtShape(s, k, r, r1, RNormal) && r1.loop == r.loop && !k.Hidden?
    ensures Starts(hid, held, outer, r1)
  {
    forall p | 0 <= p < |r1.own| && r1.own[p].Hidden? ensures r1.c.env[p].name in hid && (p >= r1.loop ==> held) {
      assert p < |r.own| && r1.own[p] == r1.own[..|r.own|][p] == r.own[..|r.own|][p];
    }
  }

  lemma {:induction false} FromFine(tidy: bool, sc: Scope, i: nat, r: RState, d: nat, hid: set<string>, held: bool,
                                    outer: seq<Scope>, o: Choices, freshFns: FreshFns, fuel: nat)
    requires i <= |sc.stmts| && Starts(hid, held, outer, r)
    requires forall j :: i <= j < |sc.stmts| ==> Orderly(tidy, sc.stmts[j], d, hid, held, outer, freshFns)
    ensures var (r1, out) := RefFrom(sc, i, r, d, o, freshFns, fuel);
      AllFine(tidy, r, r1, freshFns) && (out.RNormal? ==> Starts(hid, held, outer, r1))
    decreases fuel, sc.stmts, |sc.stmts| - i
  {
    hide EvalExpr, RefStmt, AllFine, Starts, OwnAt, Orderly, StmtShape, Shows;
    if i == |sc.stmts| {
      NoneYet(tidy, r, r, freshFns);
    } else {
      var s, k := sc.stmts[i], OwnAt(sc, i, freshFns);
      var (r1, out) := RefStmt(s, k, r, d, o, freshFns, fuel);
      var r2 := Note(r1, s, false, d, out);
      StartsFacts(hid, held, outer, r);
      StmtFine(tidy, s, k, false, r, d, hid, held, outer, o, freshFns, fuel);
      StmtShows(s, k, r, d, o, freshFns, fuel);
      RefStmtFrame(s, k, r, d, o, freshFns, fuel);
      if out.RNormal? {
        NotedShape(s, k, r, r1, r2);
        LoopKept(r, r2, freshFns);
        StartsNext(hid, held, outer, r, r2, s, k);
        FromFine(tidy, sc, i + 1, r2, d, hid, held, outer, o, freshFns, fuel);
        FineTrans(tidy, r, r2, RefFrom(sc, i + 1, r2, d, o, freshFns, fuel).0, freshFns);
      }
    }
  }

  lemma {:induction false} TrailingFine(tidy: bool, s: Stmt, r: RState, d: nat, hid: set<string>, held: bool,
                                        outer: seq<Scope>, o: Choices, freshFns: FreshFns, fuel: nat)
    requires Starts(hid, held, outer, r) && Orderly(tidy, s, d, hid, held, outer, freshFns)
    requires tidy ==> !OwningBind(s, freshFns)
    ensures var (r1, out) := RefTrailing(s, r, d, o, freshFns, fuel);
      AllFine(tidy, r, r1, freshFns) && (out.RNormal? ==> Starts(hid, held, outer, r1))
    decreases fuel, s, 1
  {
    hide RefStmt, AllFine, Starts, Orderly, StmtShape, Shows, IsOwningInit, OwningBind;
    var (r1, out) := RefStmt(s, NotOwner, r, d, o, freshFns, fuel);
    var r2, r3 := Note(r1, s, true, d, out), RefTrailing(s, r, d, o, freshFns, fuel).0;
    StartsFacts(hid, held, outer, r);
    StmtFine(tidy, s, NotOwner, true, r, d, hid, held, outer, o, freshFns, fuel);
    FineMoved(tidy, r, r2, r, r3, freshFns);
    StmtShows(s, NotOwner, r, d, o, freshFns, fuel);
    RefTrailingFrame(s, r, d, o, freshFns, fuel);
    if out.RNormal? {
      LoopKept(r, Note(r1, s, false, d, out), freshFns);
      StartsNext(hid, held, outer, r, r3, s, NotOwner);
    }
  }

  // ---------- the names a block declares ----------

  /** The variables added since `r` have names in `names`. */
  predicate NewIn(names: set<string>, base: nat, r1: RState) {
    forall p :: base <= p < |r1.own| ==> r1.c.env[p].name in names
  }

  lemma NewShape(names: set<string>, base: nat, s: Stmt, k: Own, r: RState, r1: RState)
    requires NewIn(names, base, r) && StmtShape(s, k, r, r1, RNormal) && (s.Bind? ==> s.name in names)
    ensures NewIn(names, base, r1)
  {
    forall p | base <= p < |r1.own| ensures r1.c.env[p].name in names {
      if p < |r.own| { assert r.c.env[p].name == r1.c.env[p].name; }
    }
  }

  lemma {:induction false} FromNames(sc: Scope, i: nat, r: RState, base: nat, d: nat, o: Choices, freshFns: FreshFns,
                                     fuel: nat)
    requires i <= |sc.stmts| && NewIn(BoundIn(sc), base, r)
    ensures var (r1, out) := RefFrom(sc, i, r, d, o, freshFns, fuel); out.RNormal? ==> NewIn(BoundIn(sc), base, r1)
    decreases |sc.stmts| - i
  {
    hide RefStmt, OwnAt, NewIn, StmtShape;
    if i < |sc.stmts| {
      var s, k := sc.stmts[i], OwnAt(sc, i, freshFns);
      var (r1, out) := RefStmt(s, k, r, d, o, freshFns, fuel);
      var r2 := Note(r1, s, false, d, out);
      RefStmtFrame(s, k, r, d, o, freshFns, fuel);
      if out.RNormal? {
        NotedShape(s, k, r, r1, r2);
        NewShape(BoundIn(sc), base, s, k, r, r2);
        FromNames(sc, i + 1, r2, base, d, o, freshFns, fuel);
      }
    }
  }

  /** A block's variables go out of sight. */
  lemma StartsHidden(hid: set<string>, held: bool, outer: seq<Scope>, r: RState, names: set<string>, base: nat)
    requires Starts(hid, held, outer, r) && NewIn(names, base, r) && base <= |r.own|
    ensures Starts(hid + names, held || names != {}, outer, HideFrom(r, base))
  {
  }

  lemma NewHidden(names: set<string>, base: nat, r: RState)
    requires NewIn(names, base, r)
    ensures NewIn(names, base, HideFrom(r, base))
  {
  }

  /** The same variables as the block was entered with, and its own ones hidden or not. */
  lemma {:induction false} DeferredFine(tidy: bool, sc: Scope, n: nat, r: RState, base: nat, d: nat, hid: set<string>,
      held: bool, outer: seq<Scope>, o: Choices, freshFns: FreshFns, fuel: nat)
    requires n <= |sc.deferred| && base <= |r.own| && Starts(hid, held, outer, HideFrom(r, base))
    requires NewIn(BoundIn(sc), base, r)
    requires forall i :: 0 <= i < n ==>
      Orderly(tidy, sc.deferred[i], d, hid, held, outer, freshFns) && (tidy ==> !OwningBind(sc.deferred[i], freshFns))
    requires BoundIn(sc) <= hid && (held || BoundIn(sc) == {})
    ensures AllFine(tidy, r, RefDeferred(sc.deferred, n, r, base, d, o, freshFns, fuel).0, freshFns)
    decreases fuel, sc.deferred, n
  {
    hide RefTrailing, AllFine, Starts, Orderly, StmtShape, OwningBind, NewIn;
    if n == 0 {
      NoneYet(tidy, r, r, freshFns);
    } else {
      var s, r0 := sc.deferred[n - 1], HideFrom(r, base);
      NoneYet(tidy, r, r0, freshFns);
      TrailingFine(tidy, s, r0, d, hid, held, outer, o, freshFns, fuel);
      StartsFacts(hid, held, outer, r0);
      FineTrans(tidy, r, r0, RefTrailing(s, r0, d, o, freshFns, fuel).0, freshFns);
      RefTrailingFrame(s, r0, d, o, freshFns, fuel);
      var (r1, out) := RefTrailing(s, r0, d, o, freshFns, fuel);
      if out.RNormal? {
        ShapeEnd(s, r0, r1);
        NewHidden(BoundIn(sc), base, r);
        DeclaredIn(sc, n - 1);
        NewShape(BoundIn(sc), base, s, NotOwner, r0, r1);
        StartsFacts(hid, held, outer, r1);
        StartsHidden(hid, held, outer, r1, BoundIn(sc), base);
        assert hid + BoundIn(sc) == hid;
        DeferredFine(tidy, sc, n - 1, r1, base, d, hid, held, outer, o, freshFns, fuel);
        FineTrans(tidy, r, r1, RefDeferred(sc.deferred, n - 1, r1, base, d, o, freshFns, fuel).0, freshFns);
      }
    }
  }

  lemma DeclaredIn(sc: Scope, i: nat)
    requires i < |sc.deferred|
    ensures sc.deferred[i].Bind? ==> sc.deferred[i].name in BoundIn(sc)
  {
  }

  lemma {:induction false} BodyFine(tidy: bool, sc: Scope, r: RState, d: nat, hid: set<string>, held: bool,
                                    outer: seq<Scope>, o: Choices, freshFns: FreshFns, fuel: nat)
    requires d > 0 && Starts(hid, held, outer + [sc], r) && OrderlyScope(tidy, sc, d - 1, hid, held, outer, freshFns)
    ensures var (r1, out) := RefBody(sc, r, d, o, freshFns, fuel);
      AllFine(tidy, r, r1, freshFns) &&
      (out.RNormal? ==> Starts(hid, held, outer + [sc], r1) && NewIn(BoundIn(sc), |r.own|, r1))
    decreases fuel, sc, 0
  {
    hide RefFrom, RefTrailing, AllFine, Starts, Orderly, StmtShape, OwningBind, NewIn, BoundIn;
    FromFine(tidy, sc, 0, r, d, hid, held, outer + [sc], o, freshFns, fuel);
    assert NewIn(BoundIn(sc), |r.own|, r) by { NothingNew(BoundIn(sc), r); }
    FromNames(sc, 0, r, |r.own|, d, o, freshFns, fuel);
    var (r1, out1) := RefFrom(sc, 0, r, d, o, freshFns, fuel);
    if out1.RNormal? && sc.fin.Final? {
      var s := sc.fin.s;
      TrailingFine(tidy, s, r1, d, hid, held, outer + [sc], o, freshFns, fuel);
      RefTrailingFrame(s, r1, d, o, freshFns, fuel);
      var (r2, out2) := RefTrailing(s, r1, d, o, freshFns, fuel);
      StartsFacts(hid, held, outer + [sc], r1);
      FineTrans(tidy, r, r1, r2, freshFns);
      if out2.RNormal? {
        FinalIn(sc);
        NewShape(BoundIn(sc), |r.own|, s, NotOwner, r1, r2);
      }
    }
  }

  lemma NothingNew(names: set<string>, r: RState)
    ensures NewIn(names, |r.own|, r)
  {
  }

  lemma FinalIn(sc: Scope)
    requires sc.fin.Final?
    ensures sc.fin.s.Bind? ==> sc.fin.s.name in BoundIn(sc)
  {
    if sc.fin.s.Bind? { assert [sc.fin.s][0].name in BoundBy([sc.fin.s]); }
  }

  lemma StartsInside(hid: set<string>, held: bool, outer: seq<Scope>, r: RState, sc: Scope)
    ensures Starts(hid, held, outer, r) <==> Starts(hid, held, outer + [sc], Inside(r, sc))
  {
    if r.outer + [sc] == outer + [sc] {
      assert r.outer == (r.outer + [sc])[..|r.outer + [sc]| - 1];
      assert outer == (outer + [sc])[..|outer + [sc]| - 1];
    }
  }

  lemma {:induction false} ScopeFine(tidy: bool, sc: Scope, r: RState, d: nat, hid: set<string>, held: bool,
                                     outer: seq<Scope>, o: Choices, freshFns: FreshFns, fuel: nat)
    requires Starts(hid, held, outer, r) && OrderlyScope(tidy, sc, d, hid, held, outer, freshFns)
    ensures AllFine(tidy, r, RefScope(sc, r, d, o, freshFns, fuel).0, freshFns)
    decreases fuel, sc, 2
  {
    hide RefBody, RefDeferred, AllFine, Starts, Orderly, OwningBind, NewIn, BoundIn, LeaveScope;
    var ri, base := Inside(r, sc), |r.own|;
    StartsInside(hid, held, outer, r, sc);
    BodyFine(tidy, sc, ri, d + 1, hid, held, outer, o, freshFns, fuel);
    RefBodyFrame(sc, ri, d + 1, o, freshFns, fuel);
    var (r1, out1) := RefBody(sc, ri, d + 1, o, freshFns, fuel);
    var r2 := r1.(outer := r.outer);
    FineMoved(tidy, ri, r1, r, r2, freshFns);
    var (r3, out) := RefInside(sc, r, d, o, freshFns, fuel);
    if out1.RNormal? {
      StartsFacts(hid, held, outer, r);
      StartsBack(hid, held, outer, sc, r1, r2);
      MovedNew(BoundIn(sc), base, r1, r2);
      StartsHidden(hid, held, outer, r2, BoundIn(sc), base);
      DeferredFine(tidy, sc, |sc.deferred|, r2, base, d, hid + BoundIn(sc), held || BoundIn(sc) != {}, outer, o,
        freshFns, fuel);
      StartsFacts(hid, held, outer, r2);
      FineTrans(tidy, r, r2, r3, freshFns);
    }
    LeaveKeepsTrace(r3, base, out);
    FineMoved(tidy, r, r3, r, LeaveScope(r3, base, out), freshFns);
  }

  lemma StartsBack(hid: set<string>, held: bool, outer: seq<Scope>, sc: Scope, r: RState, r1: RState)
    requires Starts(hid, held, outer + [sc], r) && r1 == r.(outer := outer)
    ensures Starts(hid, held, outer, r1)
  {
  }

  lemma MovedNew(names: set<string>, base: nat, r: RState, r1: RState)
    requires NewIn(names, base, r) && r1.c == r.c
    ensures NewIn(names, base, r1)
  {
  }
}
