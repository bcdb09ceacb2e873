/** The ownership results for whole programs, stated about the code the backend
    emits. */
module OwnershipTheorems {
  import opened OwnershipSyntax
  import opened OwnershipRun
  import opened OwnershipRef
  import opened OwnershipEmit
  import opened OwnershipCorrect
  import opened OwnershipSim
  import opened OwnershipSafety
  import opened OwnershipHeld
  import opened OwnershipLeaks
  import opened OwnershipTidy

  const EMPTY: RState := RState(CState([], Heap({}, 0, {}, [], false, 0, false)), [], [], [], 0, {}, [], [], 0, false)

  /** The top-level scope just entered. */
  function Top(stmts: seq<Stmt>): RState { Inside(EMPTY, LoopScope(stmts)) }

  /** The source program's own semantics: its statements, then the end of the
      top-level scope. */
  function RefProgram(stmts: seq<Stmt>, o: Choices, freshFns: FreshFns, fuel: nat): (RState, ROut) {
    var (r1, out) := RefFrom(LoopScope(stmts), 0, Top(stmts), 1, o, freshFns, fuel);
    (LeaveScope(r1, 0, out), out)
  }

  /** How the emitted program runs: the heap it leaves, and how it stops. */
  function EmittedHeap(stmts: seq<Stmt>, o: Choices, freshFns: FreshFns, fuel: nat): Heap {
    RunAll(EmitProgram(stmts, freshFns), EMPTY.c, o, freshFns, fuel).0.h
  }

  function EmittedOut(stmts: seq<Stmt>, o: Choices, freshFns: FreshFns, fuel: nat): Out {
    RunAll(EmitProgram(stmts, freshFns), EMPTY.c, o, freshFns, fuel).1
  }

  /** The statements the run executes. */
  function Executed(stmts: seq<Stmt>, o: Choices, freshFns: FreshFns, fuel: nat): seq<Entry> {
    RefProgram(stmts, o, freshFns, fuel).0.trace
  }

  predicate WellFormedProgram(stmts: seq<Stmt>, freshFns: FreshFns) {
    WellFormedFrom(stmts, 0, map[], false) && freshFns.Keys !! SAFE_BUILTINS
  }

  lemma EmptyCtx(stmts: seq<Stmt>, freshFns: FreshFns)
    requires WellFormedProgram(stmts, freshFns)
    ensures var k := Enter(Stack([], 0), LoopScope(stmts), 0, false);
      Ctx(k, Top(stmts), map[], freshFns) && Tracked(k) &&
      LoopAt(k, Top(stmts), freshFns) == ExitAt(k, Top(stmts), freshFns) == 0
    ensures VisOk(map[], Top(stmts)) && ReadyFrom(LoopScope(stmts), 0, Top(stmts)) && Inv(Top(stmts))
  {
    assert Ctx(Stack([], 0), EMPTY, map[], freshFns);
    EnterCtx(Stack([], 0), LoopScope(stmts), false, EMPTY, map[], false, freshFns);
    assert Balanced(Top(stmts));
  }

  /** The emitted program leaves exactly the heap the source semantics leaves,
      with the same frees in the same order. */
  lemma EmittedProgramRefines(stmts: seq<Stmt>, o: Choices, freshFns: FreshFns, fuel: nat)
    requires WellFormedProgram(stmts, freshFns)
    ensures var cout := EmittedOut(stmts, o, freshFns, fuel);
      var (r, out) := RefProgram(stmts, o, freshFns, fuel);
      EmittedHeap(stmts, o, freshFns, fuel) == r.c.h &&
      (cout == Normal <==> out == RNormal) && (cout == Exited <==> out.RExited?)
  {
    hide EmitFrom, ScopeFrees, RunAll, RefFrom, WellFormedFrom, Names, AfterFrom, Destroy, Aligned, LeaveScope, AtEnd,
      SlotsMatch, NamesOk, OnStack, LoopAt, ExitAt;
    var sc, r0 := LoopScope(stmts), Top(stmts);
    EmptyCtx(stmts, freshFns);
    SlotsStart(sc, r0.c.env, r0.own, 0, freshFns);
    SimFrom(sc, 0, Stack([], 0), false, r0, map[], false, o, freshFns, fuel);
    RefFromFrame(sc, 0, r0, 1, o, freshFns, fuel);
    var code := EmitFrom(sc, 0, Stack([], 0), false, freshFns);
    RunAllAppend(code, ScopeFrees(sc, |stmts|, -1, freshFns), EMPTY.c, o, freshFns, fuel);
    var (c1, cout) := RunAll(code, r0.c, o, freshFns, fuel);
    var (r1, out) := RefFrom(sc, 0, r0, 1, o, freshFns, fuel);
    if out.RNormal? {
      NamesNoDup(r1, AfterFrom(stmts, 0, map[]));
      EndOfBody(sc, 0, r1, r1, freshFns);
      LeaveNormal(sc, 0, r1, o, freshFns, fuel);
    } else {
      LeaveJump(r0, r1, out, c1, cout, 0, 0);
      LeaveFuel(r1, 0, out);
      if !out.ROutOfFuel? { NothingLeft(LeaveScope(r1, 0, out), out, r1); }
    }
  }

  lemma NothingLeft(r: RState, out: ROut, r1: RState)
    requires r == LeaveScope(r1, 0, out) && !out.RNormal? && !out.ROutOfFuel?
    ensures forall t :: Freed(r, t, 0).h == r.c.h
  {
    assert |r.own| == 0;
  }

  lemma ProgramInv(stmts: seq<Stmt>, o: Choices, freshFns: FreshFns, fuel: nat)
    requires WellFormedProgram(stmts, freshFns)
    ensures var (r, out) := RefProgram(stmts, o, freshFns, fuel);
      Inv(r) && (!out.ROutOfFuel? ==> r.own == []) &&
      (r.astray <==> StraysIn(r.trace, freshFns)) &&
      (!out.ROutOfFuel? ==> (LosesIn(r.trace, freshFns) <==> r.leaked != []))
  {
    hide Inv, RefFrom, LosesIn, StraysIn, LeaveScope, VisOk, ReadyFrom, Shows, Ctx, WellFormedFrom;
    var sc, r0 := LoopScope(stmts), Top(stmts);
    EmptyCtx(stmts, freshFns);
    FromInv(sc, 0, r0, 1, map[], false, o, freshFns, fuel);
    RefFromFrame(sc, 0, r0, 1, o, freshFns, fuel);
    FromShows(sc, 0, r0, 1, o, freshFns, fuel);
    var (r1, out) := RefFrom(sc, 0, r0, 1, o, freshFns, fuel);
    LeaveScopeInv(r1, 0, out);
    LeaveShows(r0, r1, out, freshFns);
    LeaveGivesUp(r1, 0, out);
    ShownFromStart(r0, LeaveScope(r1, 0, out), out, freshFns);
  }

  lemma ShownFromStart(r0: RState, r: RState, out: ROut, freshFns: FreshFns)
    requires Shows(r0, r, out, freshFns) && r0.trace == [] && r0.leaked == [] && !r0.astray
    requires !out.ROutOfFuel? ==> r.own == []
    ensures (r.astray <==> StraysIn(r.trace, freshFns)) &&
      (!out.ROutOfFuel? ==> (LosesIn(r.trace, freshFns) <==> r.leaked != []))
  {
    hide LosesIn, StraysIn;
    assert r.trace[0..] == r.trace;
  }

  // ---------- nothing but owners' strings is freed ----------

  /** When an emitted program ends, its frees are all of live strings and come out even with
      the strings bound and given up, if and only if the run executed no statement that
      frees the value of a variable owning nothing. */
  lemma AccountsIff(stmts: seq<Stmt>, o: Choices, freshFns: FreshFns, fuel: nat)
    requires WellFormedProgram(stmts, freshFns)
    requires EmittedOut(stmts, o, freshFns, fuel) in {Normal, Exited}
    ensures var h, r := EmittedHeap(stmts, o, freshFns, fuel), RefProgram(stmts, o, freshFns, fuel).0;
      (!h.bad && forall a :: Count(r.bound, a) == Count(h.freed, a) + Count(r.leaked, a)) <==>
        !StraysIn(Executed(stmts, o, freshFns, fuel), freshFns)
  {
    EmittedProgramRefines(stmts, o, freshFns, fuel);
    ProgramInv(stmts, o, freshFns, fuel);
    hide RefProgram, EmittedHeap, EmittedOut, StraysIn, Count;
    var r := RefProgram(stmts, o, freshFns, fuel).0;
    forall a ensures Excess(r, a) == Count(r.c.h.freed, a) + Count(r.leaked, a) - Count(r.bound, a) {}
    if r.astray && !r.c.h.bad {
      var a :| Excess(r, a) > 0;
      assert Count(r.bound, a) != Count(r.c.h.freed, a) + Count(r.leaked, a);
    }
    if !r.astray { SoundHeap(r); }
  }

  lemma SoundHeap(r: RState)
    requires Inv(r) && !r.astray
    ensures HeapOk(r.c.h) && NoRepeats(r.bound) && Balanced(r)
  {
  }

  /** Running the emitted program, however deeply scopes nest and wherever the
      run stops, never frees anything but a live string, never frees a string
      twice, and frees only strings that were bound to an owner or a temporary before. */
  lemma NeverFreedTwice(stmts: seq<Stmt>, o: Choices, freshFns: FreshFns, fuel: nat)
    requires WellFormedProgram(stmts, freshFns) && !StraysIn(Executed(stmts, o, freshFns, fuel), freshFns)
    ensures var h := EmittedHeap(stmts, o, freshFns, fuel);
      !h.bad && NoRepeats(h.freed) &&
      forall i :: 0 <= i < |h.freed| ==>
        h.freed[i] !in h.live && h.freed[i] in RefProgram(stmts, o, freshFns, fuel).0.bound
  {
    EmittedProgramRefines(stmts, o, freshFns, fuel);
    ProgramInv(stmts, o, freshFns, fuel);
    hide RefProgram, EmittedHeap, StraysIn;
    var r := RefProgram(stmts, o, freshFns, fuel).0;
    SoundHeap(r);
    forall i | 0 <= i < |r.c.h.freed| ensures r.c.h.freed[i] in r.bound {
      var a := r.c.h.freed[i];
      assert Excess(r, a) == 0;
      assert Count(r.c.h.freed, a) > 0;
      assert Count(r.bound, a) > 0;
    }
  }

  /** No deferred statement assigns from an owned builtin to a variable of the blocks it is
      deferred in whose name an enclosing scope gives to a mutable owner. */
  predicate Settled(stmts: seq<Stmt>, freshFns: FreshFns) {
    forall i :: 0 <= i < |stmts| ==> Orderly(false, stmts[i], 1, {}, false, [LoopScope(stmts)], freshFns)
  }

  /** A condition on the text under which no run goes astray. */
  lemma SettledNeverStrays(stmts: seq<Stmt>, o: Choices, freshFns: FreshFns, fuel: nat)
    requires Settled(stmts, freshFns)
    ensures !StraysIn(Executed(stmts, o, freshFns, fuel), freshFns)
  {
    var sc, r0 := LoopScope(stmts), Top(stmts);
    FromFine(false, sc, 0, r0, 1, {}, false, [sc], o, freshFns, fuel);
    var (r1, out) := RefFrom(sc, 0, r0, 1, o, freshFns, fuel);
    LeaveKeepsTrace(r1, 0, out);
  }

  // ---------- every string is freed ----------

  /** When an emitted program ends, each string bound to an owner or a temporary has been
      freed exactly once if and only if the run executed none of the statements that lose a
      string. */
  lemma FreedExactlyOnceIff(stmts: seq<Stmt>, o: Choices, freshFns: FreshFns, fuel: nat)
    requires WellFormedProgram(stmts, freshFns) && !StraysIn(Executed(stmts, o, freshFns, fuel), freshFns)
    requires EmittedOut(stmts, o, freshFns, fuel) in {Normal, Exited}
    ensures var r := RefProgram(stmts, o, freshFns, fuel).0;
      (forall a :: Count(EmittedHeap(stmts, o, freshFns, fuel).freed, a) == Count(r.bound, a)) <==>
        !LosesIn(Executed(stmts, o, freshFns, fuel), freshFns)
  {
    AccountsIff(stmts, o, freshFns, fuel);
    EmittedProgramRefines(stmts, o, freshFns, fuel);
    ProgramInv(stmts, o, freshFns, fuel);
    var r := RefProgram(stmts, o, freshFns, fuel).0;
    if r.leaked != [] {
      assert Count(r.leaked, r.leaked[0]) > 0;
    } else {
      forall a ensures Count(r.c.h.freed, a) == Count(r.bound, a) { assert Count(r.leaked, a) == 0; }
    }
  }

  predicate Tidy(stmts: seq<Stmt>, freshFns: FreshFns) {
    forall i :: 0 <= i < |stmts| ==> Orderly(true, stmts[i], 1, {}, false, [LoopScope(stmts)], freshFns)
  }

  /** A condition on the text: in a tidy program every string bound to an owner or a
      temporary has been freed exactly once when the program ends, unless it ended inside an
      expression. */
  lemma FreedExactlyOnce(stmts: seq<Stmt>, o: Choices, freshFns: FreshFns, fuel: nat)
    requires WellFormedProgram(stmts, freshFns) && Tidy(stmts, freshFns)
    requires EmittedOut(stmts, o, freshFns, fuel) in {Normal, Exited} && !EmittedHeap(stmts, o, freshFns, fuel).halted
    ensures forall a ::
      Count(EmittedHeap(stmts, o, freshFns, fuel).freed, a) ==
      Count(RefProgram(stmts, o, freshFns, fuel).0.bound, a) <= 1
  {
    EmittedProgramRefines(stmts, o, freshFns, fuel);
    TidyRuns(stmts, o, freshFns, fuel);
    FreedExactlyOnceIff(stmts, o, freshFns, fuel);
    ProgramInv(stmts, o, freshFns, fuel);
    hide RefProgram, EmittedHeap, EmittedOut, LosesIn, StraysIn, Count;
    var r := RefProgram(stmts, o, freshFns, fuel).0;
    SoundHeap(r);
    forall a ensures Count(r.c.h.freed, a) == Count(r.bound, a) <= 1 { CountAtMostOnce(r.bound, a); }
  }

  lemma TidyRuns(stmts: seq<Stmt>, o: Choices, freshFns: FreshFns, fuel: nat)
    requires Tidy(stmts, freshFns) && !RefProgram(stmts, o, freshFns, fuel).0.c.h.halted
    ensures var trace := Executed(stmts, o, freshFns, fuel);
      !StraysIn(trace, freshFns) && !LosesIn(trace, freshFns)
  {
    var sc, r0 := LoopScope(stmts), Top(stmts);
    FromFine(true, sc, 0, r0, 1, {}, false, [sc], o, freshFns, fuel);
    var (r1, out) := RefFrom(sc, 0, r0, 1, o, freshFns, fuel);
    LeaveKeepsTrace(r1, 0, out);
  }

  lemma {:induction false} CountAtMostOnce(s: seq<nat>, a: nat)
    requires NoRepeats(s)
    ensures Count(s, a) <= 1
    decreases |s|
  {
    if s != [] {
      var k := |s| - 1;
      assert s == s[..k] + [s[k]];
      CountAtMostOnce(s[..k], a);
      CountPush(s[..k], s[k], a);
      if s[k] == a { assert Count(s[..k], a) == 0; }
    }
  }

  /** At this point of the run each mutable owner's string is live and held by no
      other variable and by nothing it was passed to, and the strings destroyed for
      mutable owners so far are held by nobody at all. */
  predicate HeldAt(en: Entry) {
    |en.own| == |en.c.env| &&
    (forall p :: 0 <= p < |en.own| && Kind(en.own[p]) == MutOwner ==>
      en.c.env[p].val.Ptr? && en.c.env[p].val.addr in en.c.h.live && en.c.env[p].val.addr !in en.c.h.kept &&
      forall j :: 0 <= j < |en.own| && j != p ==> en.c.env[j].val != en.c.env[p].val) &&
    forall a :: a in en.gone ==>
      a !in en.c.h.live && a !in en.c.h.kept && forall j :: 0 <= j < |en.own| ==> en.c.env[j].val != Ptr(a)
  }

  /** The escape test is sound: after every statement a run executes, at whatever
      nesting depth, mutable owners hold their strings alone. */
  lemma MutableOwnersHeldOnce(stmts: seq<Stmt>, o: Choices, freshFns: FreshFns, fuel: nat, i: nat)
    requires WellFormedProgram(stmts, freshFns) && forall j :: 0 <= j < |stmts| ==> MutClean(stmts[j], freshFns)
    requires !StraysIn(Executed(stmts, o, freshFns, fuel), freshFns) && i < |Executed(stmts, o, freshFns, fuel)|
    ensures HeldAt(Executed(stmts, o, freshFns, fuel)[i])
  {
    hide RefFrom, HeldAt, Inv, Held, LeaveScope, Ctx, Aligned, WellFormedFrom, StraysIn, LosesIn, VisOk, ReadyFrom;
    var sc, r0 := LoopScope(stmts), Top(stmts);
    EmptyCtx(stmts, freshFns);
    ProgramInv(stmts, o, freshFns, fuel);
    EmptyHeld(stmts);
    FromHeld(MUTS, sc, 0, r0, 1, map[], false, o, freshFns, fuel);
    var (r1, out) := RefFrom(sc, 0, r0, 1, o, freshFns, fuel);
    LeaveGivesUp(r1, 0, out);
    HeldEntry(r1, i);
  }

  lemma EmptyHeld(stmts: seq<Stmt>)
    ensures Held(MUTS, Top(stmts)) && SlotFrom(MUTS, LoopScope(stmts), 0, Top(stmts))
  {
  }

  /** What the recorded states say. */
  lemma HeldEntry(r: RState, i: nat)
    requires Held(MUTS, r) && !r.astray && i < |r.trace|
    ensures HeldAt(r.trace[i])
  {
    var en := r.trace[i];
    assert EntryHeld(en);
    forall p | 0 <= p < |en.own| && Kind(en.own[p]) == MutOwner
      ensures en.c.env[p].val.Ptr? && en.c.env[p].val.addr !in en.c.h.kept && Alone(en.c.env, en.c.h, p)
    {
      assert Guarded(MUTS, en.own, p);
    }
    forall a | a in en.gone
      ensures a !in en.c.h.live && a !in en.c.h.kept && forall j :: 0 <= j < |en.own| ==> en.c.env[j].val != Ptr(a)
    {
      assert Nowhere(en.c.env, en.c.h, a);
    }
  }
}
