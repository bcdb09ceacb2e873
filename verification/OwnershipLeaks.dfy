/** When a string is never freed. The statements a run executes show it: a run
    gives a string up exactly when it executes one of the statements below, and
    nothing else loses a string. */
module OwnershipLeaks {
  import opened OwnershipSyntax
  import opened OwnershipTemps
  import opened OwnershipRun
  import opened OwnershipRef
  import opened OwnershipCorrect
  import opened OwnershipSim

  /** Some variable from `lo` on owns a string. */
  predicate OwnsFrom(own: seq<Own>, lo: nat) { exists p :: lo <= p < |own| && Owns(own[p]) }

  /** Some variable out of the emitter's sight does: a block's deferred statements are running. */
  predicate HidesFrom(own: seq<Own>, lo: nat) { exists p :: lo <= p < |own| && own[p].Hidden? && Owns(own[p]) }

  /** The executed statement lost a string:
      - the process ended inside an expression while a variable owned a string or a
        temporary was alive;
      - it is an owning binding in a block's final position, or a deferred one;
      - it reassigned a mutable owner without the emitter knowing: inside more than
        64 scopes, or in the deferred part of the owner's block, with no
        enclosing scope that declares a mutable owner of that name;
      - inside more than 64 scopes it left a loop body with an owner in it, or
        exited with an owner anywhere;
      - in a block's deferred part it left the loop around the block, or exited, while the
        block owned a string. */
  predicate LosesString(en: Entry, freshFns: FreshFns) {
    (en.c.h.halted && OwnsFrom(en.own, 0)) ||
    match en.s
    case Bind(_, _, e) =>
      if en.c.h.halted then en.temps > 0 else en.fin && en.out.RNormal? && IsOwningInit(e, freshFns)
    case Assign(n, e) =>
      var i := Find(en.c.env, n);
      if en.c.h.halted then en.temps > 0
      else
        en.out.RNormal? && IsOwnedBuiltinCall(e) && 0 <= i < |en.own| && Kind(en.own[i]) == MutOwner &&
        !TakenForOwner(en.own[i], n, en.d, en.outer, freshFns)
    case Eval(_) => en.c.h.halted && en.temps > 0
    case ProcExit(_) => HidesFrom(en.own, 0) || (en.d > 64 && OwnsFrom(en.own, 0))
    case Break => HidesFrom(en.own, en.loop) || (en.d > 64 && OwnsFrom(en.own, en.loop))
    case Skip => HidesFrom(en.own, en.loop) || (en.d > 64 && OwnsFrom(en.own, en.loop))
    case _ => false
  }

  /** The executed statement freed the value of a variable that owns nothing: in a block's
      deferred part it assigned one of the block's variables, and the emitter took it for a
      mutable owner of the same name that an enclosing scope declares later. */
  predicate Strays(en: Entry, freshFns: FreshFns) {
    en.s.Assign? &&
    var i := Find(en.c.env, en.s.target);
    en.out.RNormal? && IsOwnedBuiltinCall(en.s.rhs) && 0 <= i < |en.own| && Kind(en.own[i]) != MutOwner &&
    TakenForOwner(en.own[i], en.s.target, en.d, en.outer, freshFns)
  }

  predicate LosesIn(trace: seq<Entry>, freshFns: FreshFns) {
    exists i :: 0 <= i < |trace| && LosesString(trace[i], freshFns)
  }

  predicate StraysIn(trace: seq<Entry>, freshFns: FreshFns) {
    exists i :: 0 <= i < |trace| && Strays(trace[i], freshFns)
  }

  /** Control on its way out of scopes that still own strings nobody will free. */
  predicate Pending(r: RState, out: ROut) {
    !out.RNormal? && !out.ROutOfFuel? &&
    var lo := if out.RExited? then 0 else r.loop;
    if out.tracked then HidesFrom(r.own, lo) else OwnsFrom(r.own, lo)
  }

  /** From `r` to `r1` a string was given up, or is about to be, exactly when a
      statement executed in between shows it; and one was freed by mistake likewise. */
  predicate Shows(r: RState, r1: RState, out: ROut, freshFns: FreshFns) {
    r.trace <= r1.trace && |r.leaked| <= |r1.leaked| && r1.loop == r.loop &&
    (r1.c.h.halted ==> out == RExited(false)) &&
    (LosesIn(r1.trace[|r.trace|..], freshFns) <==> |r.leaked| < |r1.leaked| || Pending(r1, out)) &&
    (r1.astray <==> r.astray || StraysIn(r1.trace[|r.trace|..], freshFns))
  }

  // ---------- composing ----------

  lemma LosesAppend(a: seq<Entry>, b: seq<Entry>, freshFns: FreshFns)
    ensures LosesIn(a + b, freshFns) <==> LosesIn(a, freshFns) || LosesIn(b, freshFns)
    ensures StraysIn(a + b, freshFns) <==> StraysIn(a, freshFns) || StraysIn(b, freshFns)
  {
    hide LosesString, Strays;
    if LosesIn(a, freshFns) {
      var i :| 0 <= i < |a| && LosesString(a[i], freshFns);
      assert (a + b)[i] == a[i];
    }
    if LosesIn(b, freshFns) {
      var i :| 0 <= i < |b| && LosesString(b[i], freshFns);
      assert (a + b)[|a| + i] == b[i];
    }
    if StraysIn(a, freshFns) {
      var i :| 0 <= i < |a| && Strays(a[i], freshFns);
      assert (a + b)[i] == a[i];
    }
    if StraysIn(b, freshFns) {
      var i :| 0 <= i < |b| && Strays(b[i], freshFns);
      assert (a + b)[|a| + i] == b[i];
    }
  }

  lemma ShowsTrans(a: RState, b: RState, c: RState, mid: ROut, out: ROut, freshFns: FreshFns)
    requires Shows(a, b, mid, freshFns) && Shows(b, c, out, freshFns) && !Pending(b, mid)
    ensures Shows(a, c, out, freshFns)
  {
    hide LosesIn, StraysIn, Pending;
    LosesAppend(b.trace[|a.trace|..], c.trace[|b.trace|..], freshFns);
    assert c.trace[|a.trace|..] == b.trace[|a.trace|..] + c.trace[|b.trace|..];
  }

  /** Evaluating an expression executes no statement. */
  lemma Unchanged(r: RState, r1: RState, out: ROut, freshFns: FreshFns)
    requires r1.trace == r.trace && r1.leaked == r.leaked && r1.loop == r.loop && r1.astray == r.astray &&
      (r1.c.h.halted ==> out == RExited(false))
    requires out.RNormal? || out.ROutOfFuel?
    ensures Shows(r, r1, out, freshFns)
  {
    assert r1.trace[|r.trace|..] == [];
  }

  /** What is recorded of a statement. */
  function Record(r: RState, s: Stmt, fin: bool, d: nat, out: ROut): Entry {
    Entry(s, fin, d, out, r.loop, r.c, r.own, r.gone, r.outer, r.temps)
  }

  /** One executed statement that runs no others. */
  lemma OneEntry(r: RState, r1: RState, s: Stmt, fin: bool, d: nat, out: ROut, freshFns: FreshFns)
    requires r1.trace == r.trace && |r.leaked| <= |r1.leaked| && r1.loop == r.loop &&
      (r1.c.h.halted ==> out == RExited(false))
    requires LosesString(Record(r1, s, fin, d, out), freshFns) <==> |r.leaked| < |r1.leaked| || Pending(r1, out)
    requires r1.astray <==> r.astray || Strays(Record(r1, s, fin, d, out), freshFns)
    ensures Shows(r, Note(r1, s, fin, d, out), out, freshFns)
  {
    hide LosesString, Strays;
    var en := Record(r1, s, fin, d, out);
    assert Note(r1, s, fin, d, out).trace[|r.trace|..] == [en];
    OnlyEntry(en, freshFns);
  }

  /** Recording a statement that ran others adds nothing they do not show. */
  lemma NoteShows(r: RState, r1: RState, s: Stmt, fin: bool, d: nat, out: ROut, freshFns: FreshFns)
    requires Shows(r, r1, out, freshFns)
    requires s.Block? || s.If? || s.Loop?
    ensures r.trace <= r1.trace && Shows(r, Note(r1, s, fin, d, out), out, freshFns)
  {
    var en := Record(r1, s, fin, d, out);
    var r2 := Note(r1, s, fin, d, out);
    assert LosesString(en, freshFns) ==> Pending(r1, out);
    assert !Strays(en, freshFns);
    hide LosesIn, StraysIn, LosesString, Strays;
    assert r2.trace[|r.trace|..] == r1.trace[|r.trace|..] + [en];
    LosesAppend(r1.trace[|r.trace|..], [en], freshFns);
    OnlyEntry(en, freshFns);
  }

  lemma OnlyEntry(en: Entry, freshFns: FreshFns)
    ensures LosesIn([en], freshFns) <==> LosesString(en, freshFns)
    ensures StraysIn([en], freshFns) <==> Strays(en, freshFns)
  {
    hide LosesString, Strays;
    if LosesString(en, freshFns) { assert [en][0] == en; }
    if Strays(en, freshFns) { assert [en][0] == en; }
  }

  // ---------- leaving scopes ----------

  lemma {:induction false} OwnedWhenOwns(env: Env, own: seq<Own>, lo: nat)
    requires |own| == |env|
    ensures OwnedAddrs(env, own, lo) != [] <==> OwnsFrom(own, lo)
    decreases |env|
  {
    if |env| > lo {
      var k := |env| - 1;
      OwnedWhenOwns(env[..k], own[..k], lo);
      if OwnsFrom(own, lo) && !Owns(own[k]) {
        var p :| lo <= p < |own| && Owns(own[p]);
        assert Owns(own[..k][p]);
      }
    }
  }

  lemma OwnsSplit(own: seq<Own>, lo: nat, base: nat)
    requires lo <= base <= |own|
    ensures OwnsFrom(own, lo) <==> OwnsFrom(own[..base], lo) || OwnsFrom(own, base)
    ensures HidesFrom(own, lo) <==> HidesFrom(own[..base], lo) || HidesFrom(own, base)
  {
    if OwnsFrom(own, lo) {
      var p :| lo <= p < |own| && Owns(own[p]);
      if p < base { assert Owns(own[..base][p]); }
    }
    if HidesFrom(own, lo) {
      var p :| lo <= p < |own| && own[p].Hidden? && Owns(own[p]);
      if p < base { assert own[..base][p].Hidden? && Owns(own[..base][p]); }
    }
  }

  lemma HidesAre(own: seq<Own>, base: nat)
    ensures OwnsFrom(OnlyHidden(own), base) <==> HidesFrom(own, base)
  {
    if HidesFrom(own, base) {
      var p :| base <= p < |own| && own[p].Hidden? && Owns(own[p]);
      assert Owns(OnlyHidden(own)[p]);
    }
  }

  /** What leaving a scope gives up. */
  lemma LeaveGivesUp(r: RState, base: nat, out: ROut)
    requires base <= |r.own|
    ensures var r1 := LeaveScope(r, base, out);
      r1.trace == r.trace && r1.loop == r.loop && r1.astray == r.astray && |r.leaked| <= |r1.leaked| &&
      r1.c.h.halted == r.c.h.halted && (!out.ROutOfFuel? ==> |r1.own| == base && r1.own == r1.own[..base]) &&
      (!out.ROutOfFuel? && !out.RNormal? ==>
        r1.own == r.own[..base] &&
        (|r.leaked| < |r1.leaked| <==> if out.tracked then HidesFrom(r.own, base) else OwnsFrom(r.own, base))) &&
      (out.ROutOfFuel? || out.RNormal? ==> r1.leaked == r.leaked)
  {
    hide Destroy, OwnedAddrs, OwnsFrom, HidesFrom;
    DestroyFrame(r.c.env, Show(r.own, base), r.c.h, base);
    DestroyFrame(r.c.env, Forget(r.own, base), r.c.h, base);
    OwnedWhenOwns(r.c.env, r.own, base);
    OwnedWhenOwns(r.c.env, OnlyHidden(r.own), base);
    HidesAre(r.own, base);
    assert Forget(r.own, base)[..base] == r.own[..base];
  }

  lemma LeaveShows(r: RState, r1: RState, out: ROut, freshFns: FreshFns)
    requires Shows(r, r1, out, freshFns) && r.loop <= |r.own| <= |r1.own|
    ensures Shows(r, LeaveScope(r1, |r.own|, out), out, freshFns)
  {
    hide LosesIn, StraysIn, LeaveScope, OwnsFrom, HidesFrom;
    LeaveGivesUp(r1, |r.own|, out);
    OwnsSplit(r1.own, if out.RExited? then 0 else r.loop, |r.own|);
  }

  // ---------- the induction ----------

  lemma FindUpdate(env: Env, n: string, v: Val)
    ensures Find(Update(env, n, v), n) == Find(env, n)
  {
    var i := Find(env, n);
    var env1 := Update(env, n, v);
    var j := Find(env1, n);
    if i >= 0 { assert env1[i].name == n; }
    if j >= 0 && i >= 0 {
      assert env[j].name == n;
    }
  }

  /** An expression whose evaluation ends the process, with the temporaries it leaves. */
  lemma HaltedShows(s: Stmt, fin: bool, r: RState, r1: RState, tv: Env, d: nat, freshFns: FreshFns)
    requires (s.Bind? || s.Assign? || s.Eval?) && r1 == r.(c := r.c.(h := r1.c.h)) && r1.c.h.halted
    ensures Shows(r, Note(RefLose(tv, r1), s, fin, d, RExited(false)), RExited(false), freshFns)
  {
    hide Find, TakenForOwner;
    OneEntry(r, RefLose(tv, r1), s, fin, d, RExited(false), freshFns);
  }

  lemma AssignShows(n: string, e: Expr, k: Own, fin: bool, r: RState, d: nat, o: Choices, freshFns: FreshFns, fuel: nat)
    requires !r.c.h.halted
    ensures var (r1, out) := RefStmt(Assign(n, e), k, r, d, o, freshFns, fuel);
      r1.trace == r.trace && Shows(r, Note(r1, Assign(n, e), fin, d, out), out, freshFns)
  {
    hide RefCompute, Find, Update, Shows, TakenForOwner, ReleaseTemps, Release, LosesString, Strays;
    ComputeFrame(e, true, r, o, freshFns);
    var (v, r1, tv) := RefCompute(e, true, r, o, freshFns);
    if r1.c.h.halted {
      HaltedShows(Assign(n, e), fin, r, r1, tv, d, freshFns);
    } else {
      AssignGivesUp(n, e, fin, v, r1, tv, d, freshFns);
      var r3 := RefFinish(tv, RefAssign(n, e, v, r1, d, freshFns));
      OneEntry(r, r3, Assign(n, e), fin, d, RNormal, freshFns);
    }
  }

  lemma AssignGivesUp(n: string, e: Expr, fin: bool, v: Val, r: RState, tv: Env, d: nat, freshFns: FreshFns)
    requires !r.c.h.halted
    ensures var r3 := RefFinish(tv, RefAssign(n, e, v, r, d, freshFns));
      var en := Record(r3, Assign(n, e), fin, d, RNormal);
      r3.trace == r.trace && r3.loop == r.loop && !r3.c.h.halted && |r.leaked| <= |r3.leaked| &&
      (LosesString(en, freshFns) <==> |r.leaked| < |r3.leaked|) &&
      (r3.astray <==> r.astray || Strays(en, freshFns))
  {
    hide Find, Update, TakenForOwner;
    var r2 := RefAssign(n, e, v, r, d, freshFns);
    AssignFrame(n, e, v, r, d, freshFns);
    ReleaseTempsFrame(tv, r2.c.h);
    FindUpdate(r.c.env, n, v);
  }

  lemma SimpleShows(s: Stmt, k: Own, r: RState, d: nat, o: Choices, freshFns: FreshFns, fuel: nat)
    requires (s.Bind? || s.Eval?) && !r.c.h.halted
    ensures var (r1, out) := RefStmt(s, k, r, d, o, freshFns, fuel);
      r1.trace == r.trace && Shows(r, Note(r1, s, false, d, out), out, freshFns) &&
      (s.Eval? ==> Shows(r, Note(r1, s, true, d, out), out, freshFns))
  {
    hide RefCompute, Shows, ReleaseTemps;
    var e := if s.Bind? then s.init else s.e;
    ComputeFrame(e, s.Bind?, r, o, freshFns);
    var (v, r1, tv) := RefCompute(e, s.Bind?, r, o, freshFns);
    ReleaseTempsFrame(tv, r1.c.h);
    if r1.c.h.halted {
      HaltedShows(s, false, r, r1, tv, d, freshFns);
      HaltedShows(s, true, r, r1, tv, d, freshFns);
    } else {
      var (r2, out) := RefStmt(s, k, r, d, o, freshFns, fuel);
      OneEntry(r, r2, s, false, d, out, freshFns);
      if s.Eval? { OneEntry(r, r2, s, true, d, out, freshFns); }
    }
  }

  lemma JumpShows(s: Stmt, k: Own, fin: bool, r: RState, d: nat, o: Choices, freshFns: FreshFns, fuel: nat)
    requires (s.ProcExit? || s.Break? || s.Skip?) && !r.c.h.halted
    ensures var (r1, out) := RefStmt(s, k, r, d, o, freshFns, fuel);
      r1.trace == r.trace && Shows(r, Note(r1, s, fin, d, out), out, freshFns)
  {
    hide EvalExpr, OwnsFrom, HidesFrom;
    var (r1, out) := RefStmt(s, k, r, d, o, freshFns, fuel);
    HidersOwn(r1.own, 0);
    HidersOwn(r1.own, r1.loop);
    OneEntry(r, r1, s, fin, d, out, freshFns);
  }

  lemma HidersOwn(own: seq<Own>, lo: nat)
    ensures HidesFrom(own, lo) ==> OwnsFrom(own, lo)
  {
  }

  lemma {:induction false} StmtShows(s: Stmt, k: Own, r: RState, d: nat, o: Choices, freshFns: FreshFns, fuel: nat)
    requires r.loop <= |r.own| && !r.c.h.halted
    ensures var (r1, out) := RefStmt(s, k, r, d, o, freshFns, fuel);
      r.trace <= r1.trace && Shows(r, Note(r1, s, false, d, out), out, freshFns)
    decreases fuel, s, 0
  {
    hide EvalExpr, RefCompute, RefFinish, RefLose, RefBind, RefScope, RefIteration, Shows, RefAssign;
    var (r1, out) := RefStmt(s, k, r, d, o, freshFns, fuel);
    match s
    case Assign(n, e) => AssignShows(n, e, k, false, r, d, o, freshFns, fuel);
    case Bind(_, _, _) => SimpleShows(s, k, r, d, o, freshFns, fuel);
    case Eval(_) => SimpleShows(s, k, r, d, o, freshFns, fuel);
    case Block(sc) =>
      ScopeShows(sc, r, d, o, freshFns, fuel);
      NoteShows(r, r1, s, false, d, out, freshFns);
    case If(e, sc) => IfShows(e, sc, k, r, d, o, freshFns, fuel);
    case Loop(e, body) => LoopShows(s, k, r, d, o, freshFns, fuel);
    case _ => JumpShows(s, k, false, r, d, o, freshFns, fuel);
  }

  lemma {:induction false} IfShows(e: Expr, sc: Scope, k: Own, r: RState, d: nat, o: Choices, freshFns: FreshFns,
      fuel: nat)
    requires r.loop <= |r.own| && !r.c.h.halted
    ensures var (r1, out) := RefStmt(If(e, sc), k, r, d, o, freshFns, fuel);
      r.trace <= r1.trace && Shows(r, Note(r1, If(e, sc), false, d, out), out, freshFns)
    decreases fuel, sc, 3
  {
    hide EvalExpr, RefScope, Shows, LosesString;
    var (r1, out) := RefStmt(If(e, sc), k, r, d, o, freshFns, fuel);
    var (_, r0) := RefEval(e, r, o, freshFns);
    if r0.c.h.halted {
      HaltShows(r, r0, If(e, sc), d, freshFns);
    } else {
      var r2 := r0.(c := r0.c.(h := Tick(r0.c.h)));
      Unchanged(r, r2, RNormal, freshFns);
      if Decide(o, r0.c.h) {
        ScopeShows(sc, r2, d, o, freshFns, fuel);
        ShowsTrans(r, r2, r1, RNormal, out, freshFns);
      }
      NoteShows(r, r1, If(e, sc), false, d, out, freshFns);
    }
  }

  /** A condition that ends the process. */
  lemma HaltShows(r: RState, r1: RState, s: Stmt, d: nat, freshFns: FreshFns)
    requires r1.trace == r.trace && r1.leaked == r.leaked && r1.loop == r.loop && r1.astray == r.astray &&
      r1.c.h.halted && (s.If? || s.Loop?)
    ensures Shows(r, Note(r1, s, false, d, RExited(false)), RExited(false), freshFns)
  {
    OneEntry(r, r1, s, false, d, RExited(false), freshFns);
  }

  /** The loop as a whole, as `Shows` without the entry of the loop statement. */
  lemma {:induction false} LoopShows(s: Stmt, k: Own, r: RState, d: nat, o: Choices, freshFns: FreshFns, fuel: nat)
    requires s.Loop? && r.loop <= |r.own| && !r.c.h.halted
    ensures var (r1, out) := RefStmt(s, k, r, d, o, freshFns, fuel);
      r.trace <= r1.trace && Shows(r, Note(r1, s, false, d, out), out, freshFns)
    decreases fuel, s.stmts, |s.stmts| + 2
  {
    hide EvalExpr, RefIteration, Shows, LosesString, Pending, Grows;
    var (r1, out) := RefStmt(s, k, r, d, o, freshFns, fuel);
    if fuel == 0 {
      Unchanged(r, r, ROutOfFuel, freshFns);
      NoteShows(r, r1, s, false, d, out, freshFns);
    } else {
      var (r2, out2, again) := RefIteration(s.domain, s.stmts, r, d, o, freshFns, fuel);
      RefIterationFrame(s.domain, s.stmts, r, d, o, freshFns, fuel);
      if EndsAtOnce(s.domain, r, o, freshFns) {
        HaltIteration(s.domain, s.stmts, r, d, o, freshFns, fuel);
        HaltShows(r, r2, s, d, freshFns);
      } else {
        IterationShows(s.domain, s.stmts, r, d, o, freshFns, fuel);
        if again {
          LoopKept(r, r2, freshFns);
          TraceGrows(r, r2, RNormal, freshFns);
          LoopShows(s, k, r2, d, o, freshFns, fuel - 1);
          NotPending(r2);
          ShowsTrans(r, r2, Note(r1, s, false, d, out), RNormal, out, freshFns);
        } else {
          NoteShows(r, r1, s, false, d, out, freshFns);
        }
      }
    }
  }

  lemma TraceGrows(r: RState, r1: RState, out: ROut, freshFns: FreshFns)
    requires Shows(r, r1, out, freshFns)
    ensures r.trace <= r1.trace
  {
  }

  lemma NotPending(r: RState)
    ensures !Pending(r, RNormal)
  {
  }

  lemma LoopKept(r: RState, r1: RState, freshFns: FreshFns)
    requires Shows(r, r1, RNormal, freshFns)
    ensures r1.loop == r.loop && !r1.c.h.halted
  {
  }

  predicate EndsAtOnce(e: Expr, r: RState, o: Choices, freshFns: FreshFns) { RefEval(e, r, o, freshFns).1.c.h.halted }

  lemma HaltIteration(e: Expr, body: seq<Stmt>, r: RState, d: nat, o: Choices, freshFns: FreshFns, fuel: nat)
    requires EndsAtOnce(e, r, o, freshFns)
    ensures RefIteration(e, body, r, d, o, freshFns, fuel) == (RefEval(e, r, o, freshFns).1, RExited(false), false)
  {
  }

  lemma {:induction false} IterationShows(e: Expr, body: seq<Stmt>, r: RState, d: nat, o: Choices, freshFns: FreshFns,
      fuel: nat)
    requires r.loop <= |r.own| && !r.c.h.halted && !EndsAtOnce(e, r, o, freshFns)
    ensures var (r1, out, again) := RefIteration(e, body, r, d, o, freshFns, fuel);
      Shows(r, r1, if again then RNormal else out, freshFns)
    decreases fuel, body, |body| + 1
  {
    hide EvalExpr, RefFrom, Shows, LeaveScope, Grows;
    var (_, r0) := RefEval(e, r, o, freshFns);
    var sc := LoopScope(body);
    var r2 := r0.(c := r0.c.(h := Tick(r0.c.h)), loop := |r.own|, outer := r.outer + [sc]);
    Unchanged(r, r2.(loop := r.loop, outer := r.outer), RNormal, freshFns);
    if Decide(o, r0.c.h) {
      var (r3, out) := RefFrom(sc, 0, r2, d + 1, o, freshFns, fuel);
      FromShows(sc, 0, r2, d + 1, o, freshFns, fuel);
      RefFromFrame(sc, 0, r2, d + 1, o, freshFns, fuel);
      GrowsLonger(r2, r3);
      LeaveShows(r2, r3, out, freshFns);
      LeaveScopeFrame(r2, r3, out);
      IterationLeaves(r, r2, LeaveScope(r3, |r.own|, out), r.outer, out, freshFns);
    }
  }

  lemma GrowsLonger(r: RState, r1: RState)
    requires Grows(r, r1)
    ensures |r.own| <= |r1.own|
  {
  }

  /** Jumps end with the iteration; an exit goes on. */
  lemma IterationLeaves(r: RState, r2: RState, r4: RState, outer: seq<Scope>, out: ROut, freshFns: FreshFns)
    requires Shows(r2, r4, out, freshFns) && (!out.ROutOfFuel? ==> |r4.own| == |r2.own|) && r2.loop == |r2.own|
    requires r2.trace == r.trace && r2.leaked == r.leaked && r2.astray == r.astray
    ensures var out1 := if out.RBroke? || out.RSkipped? then RNormal else out;
      Shows(r, r4.(loop := r.loop, outer := outer), out1, freshFns)
  {
    hide LosesIn, StraysIn;
  }

  lemma {:induction false} FromShows(sc: Scope, i: nat, r: RState, d: nat, o: Choices, freshFns: FreshFns, fuel: nat)
    requires i <= |sc.stmts| && r.loop <= |r.own| && !r.c.h.halted
    ensures var (r1, out) := RefFrom(sc, i, r, d, o, freshFns, fuel); Shows(r, r1, out, freshFns)
    decreases fuel, sc.stmts, |sc.stmts| - i
  {
    hide EvalExpr, RefStmt, Shows, OwnAt, Grows, Pending;
    if i == |sc.stmts| {
      Unchanged(r, r, RNormal, freshFns);
    } else {
      var s := sc.stmts[i];
      var k := OwnAt(sc, i, freshFns);
      var (r1, out) := RefStmt(s, k, r, d, o, freshFns, fuel);
      var r2 := Note(r1, s, false, d, out);
      StmtShows(s, k, r, d, o, freshFns, fuel);
      RefStmtFrame(s, k, r, d, o, freshFns, fuel);
      if out.RNormal? {
        GrowsLonger(r, r1);
        LoopKept(r, r2, freshFns);
        FromShows(sc, i + 1, r2, d, o, freshFns, fuel);
        NotPending(r2);
        var (r3, out3) := RefFrom(sc, i + 1, r2, d, o, freshFns, fuel);
        ShowsTrans(r, r2, r3, RNormal, out3, freshFns);
      }
    }
  }

  /** A statement in final or deferred position. */
  lemma {:induction false} TrailingShows(s: Stmt, r: RState, d: nat, o: Choices, freshFns: FreshFns, fuel: nat)
    requires r.loop <= |r.own| && !r.c.h.halted
    ensures var (r1, out) := RefTrailing(s, r, d, o, freshFns, fuel); Shows(r, r1, out, freshFns)
    decreases fuel, s, 1
  {
    hide EvalExpr, Shows, IsOwningInit, RefCompute, RefFinish, RefLose, RefBind, RefScope, RefIteration, RefAssign;
    var (r1, out) := RefStmt(s, NotOwner, r, d, o, freshFns, fuel);
    match s
    case Bind(_, _, _) => TrailingBindShows(s, r, d, o, freshFns, fuel);
    case Assign(n, e) => AssignShows(n, e, NotOwner, true, r, d, o, freshFns, fuel);
    case Eval(_) => SimpleShows(s, NotOwner, r, d, o, freshFns, fuel);
    case Block(sc) =>
      ScopeShows(sc, r, d, o, freshFns, fuel);
      NoteShows(r, r1, s, true, d, out, freshFns);
    case If(e, sc) =>
      IfShows(e, sc, NotOwner, r, d, o, freshFns, fuel);
      FlagShows(r, r1, s, d, out, freshFns);
    case Loop(_, _) =>
      LoopShows(s, NotOwner, r, d, o, freshFns, fuel);
      FlagShows(r, r1, s, d, out, freshFns);
    case _ => JumpShows(s, NotOwner, true, r, d, o, freshFns, fuel);
  }

  /** Only a binding's entry depends on its position. */
  lemma FlagShows(r: RState, r1: RState, s: Stmt, d: nat, out: ROut, freshFns: FreshFns)
    requires Shows(r, Note(r1, s, false, d, out), out, freshFns) && !s.Bind? && r.trace <= r1.trace
    ensures Shows(r, Note(r1, s, true, d, out), out, freshFns)
  {
    hide Find, TakenForOwner, OwnsFrom, HidesFrom;
    var en := Record(r1, s, false, d, out);
    var en' := en.(fin := true);
    assert LosesString(en', freshFns) <==> LosesString(en, freshFns);
    assert Strays(en', freshFns) <==> Strays(en, freshFns);
    hide LosesString, Strays, LosesIn, StraysIn;
    var before := r1.trace[|r.trace|..];
    assert Note(r1, s, false, d, out).trace[|r.trace|..] == before + [en];
    assert Note(r1, s, true, d, out).trace[|r.trace|..] == before + [en'];
    LosesAppend(before, [en], freshFns);
    LosesAppend(before, [en'], freshFns);
    OnlyEntry(en, freshFns);
    OnlyEntry(en', freshFns);
  }

  /** An owning binding in final or deferred position. */
  lemma TrailingBindShows(s: Stmt, r: RState, d: nat, o: Choices, freshFns: FreshFns, fuel: nat)
    requires s.Bind? && !r.c.h.halted
    ensures var (r1, out) := RefTrailing(s, r, d, o, freshFns, fuel); Shows(r, r1, out, freshFns)
  {
    hide RefCompute, IsOwningInit, ReleaseTemps;
    ComputeFrame(s.init, true, r, o, freshFns);
    var (v, r0, tv) := RefCompute(s.init, true, r, o, freshFns);
    if r0.c.h.halted {
      hide Shows, RefLose;
      HaltedShows(s, true, r, r0, tv, d, freshFns);
    } else {
      ReleaseTempsFrame(tv, r0.c.h);
      var (r1, out) := RefStmt(s, NotOwner, r, d, o, freshFns, fuel);
      var r2 := Note(r1, s, true, d, out);
      var en := Record(r1, s, true, d, out);
      assert r2.trace[|r.trace|..] == [en];
      OnlyEntry(en, freshFns);
    }
  }

  lemma {:induction false} DeferredShows(ss: seq<Stmt>, n: nat, r: RState, base: nat, d: nat, o: Choices,
      freshFns: FreshFns, fuel: nat)
    requires n <= |ss| && base <= |r.own| && r.loop <= |r.own| && !r.c.h.halted
    ensures var (r1, out) := RefDeferred(ss, n, r, base, d, o, freshFns, fuel); Shows(r, r1, out, freshFns)
    decreases fuel, ss, n
  {
    hide RefTrailing, Shows, Pending, StmtShape;
    if n == 0 {
      Unchanged(r, r, RNormal, freshFns);
    } else {
      var s, r0 := ss[n - 1], HideFrom(r, base);
      Unchanged(r, r0, RNormal, freshFns);
      NotPending(r0);
      TrailingShows(s, r0, d, o, freshFns, fuel);
      RefTrailingFrame(s, r0, d, o, freshFns, fuel);
      var (r1, out) := RefTrailing(s, r0, d, o, freshFns, fuel);
      ShowsTrans(r, r0, r1, RNormal, out, freshFns);
      if out.RNormal? {
        LoopKept(r0, r1, freshFns);
        NotPending(r1);
        ShapeEnd(s, r0, r1);
        DeferredShows(ss, n - 1, r1, base, d, o, freshFns, fuel);
        var (r2, out2) := RefDeferred(ss, n - 1, r1, base, d, o, freshFns, fuel);
        ShowsTrans(r, r1, r2, RNormal, out2, freshFns);
      }
    }
  }

  lemma {:induction false} ScopeShows(sc: Scope, r: RState, d: nat, o: Choices, freshFns: FreshFns, fuel: nat)
    requires r.loop <= |r.own| && !r.c.h.halted
    ensures var (r1, out) := RefScope(sc, r, d, o, freshFns, fuel); Shows(r, r1, out, freshFns)
    decreases fuel, sc, 2
  {
    hide RefInside, Shows, LeaveScope, Grows;
    InsideShows(sc, r, d, o, freshFns, fuel);
    RefInsideFrame(sc, r, d, o, freshFns, fuel);
    var (r1, out) := RefInside(sc, r, d, o, freshFns, fuel);
    GrowsLonger(r, r1);
    LeaveShows(r, r1, out, freshFns);
  }

  lemma {:induction false} BodyShows(sc: Scope, r: RState, d: nat, o: Choices, freshFns: FreshFns, fuel: nat)
    requires r.loop <= |r.own| && !r.c.h.halted
    ensures var (r1, out) := RefBody(sc, r, d, o, freshFns, fuel); Shows(r, r1, out, freshFns)
    decreases fuel, sc, 0
  {
    hide RefFrom, RefTrailing, Shows, Grows, Pending;
    FromShows(sc, 0, r, d, o, freshFns, fuel);
    RefFromFrame(sc, 0, r, d, o, freshFns, fuel);
    var (r1, out1) := RefFrom(sc, 0, r, d, o, freshFns, fuel);
    if out1.RNormal? && sc.fin.Final? {
      GrowsLonger(r, r1);
      LoopKept(r, r1, freshFns);
      NotPending(r1);
      TrailingShows(sc.fin.s, r1, d, o, freshFns, fuel);
      var (r2, out2) := RefTrailing(sc.fin.s, r1, d, o, freshFns, fuel);
      ShowsTrans(r, r1, r2, RNormal, out2, freshFns);
    }
  }

  /** The scopes around do not matter to what is shown. */
  lemma MovedShows(r: RState, r1: RState, outer: seq<Scope>, outer1: seq<Scope>, out: ROut, freshFns: FreshFns)
    requires Shows(r, r1, out, freshFns)
    ensures Shows(r.(outer := outer), r1.(outer := outer1), out, freshFns)
  {
  }

  lemma {:induction false} InsideShows(sc: Scope, r: RState, d: nat, o: Choices, freshFns: FreshFns, fuel: nat)
    requires r.loop <= |r.own| && !r.c.h.halted
    ensures var (r1, out) := RefInside(sc, r, d, o, freshFns, fuel); Shows(r, r1, out, freshFns)
    decreases fuel, sc, 1
  {
    hide RefBody, RefDeferred, Shows, Grows, Pending;
    var ri := Inside(r, sc);
    BodyShows(sc, ri, d + 1, o, freshFns, fuel);
    RefBodyFrame(sc, ri, d + 1, o, freshFns, fuel);
    var (r1, out1) := RefBody(sc, ri, d + 1, o, freshFns, fuel);
    var r2 := r1.(outer := r.outer);
    MovedShows(ri, r1, r.outer, r.outer, out1, freshFns);
    if out1.RNormal? {
      GrowsLonger(ri, r1);
      LoopKept(r, r2, freshFns);
      NotPending(r2);
      DeferredShows(sc.deferred, |sc.deferred|, r2, |r.own|, d, o, freshFns, fuel);
      var (r3, out3) := RefDeferred(sc.deferred, |sc.deferred|, r2, |r.own|, d, o, freshFns, fuel);
      ShowsTrans(r, r2, r3, RNormal, out3, freshFns);
    }
  }
}
