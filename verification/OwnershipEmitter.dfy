/** The emitter as it runs: a scope stack of fixed size updated in place and a
    growing output. Each method is proved against the printing function of the
    same name in `OwnershipEmit`. */
module OwnershipEmitter {
  import opened OwnershipSyntax
  import opened OwnershipTemps
  import opened OwnershipRun
  import opened OwnershipRef
  import opened OwnershipEmit

  /** Printed text, one token per brace, loop or if head, and simple statement. */
  datatype Tok = Open | Close | While(cond: Expr) | IfHead(cond: Expr) | Simple(c: CStmt)

  function Print(c: CStmt): seq<Tok> {
    match c
    case CBlock(body) => [Open] + PrintAll(body) + [Close]
    case CIf(e, branch) => [IfHead(e)] + Print(branch)
    case CWhile(e, body) => [While(e), Open] + PrintAll(body) + [Close]
    case CHoisted(temps, inner) => TempDecls(temps, 0) + Print(inner) + TempFrees(|temps|)
    case _ => [Simple(c)]
  }

  /** The declarations of hidden bindings. */
  function TempDecls(temps: seq<Expr>, j: nat): seq<Tok> {
    if temps == [] then [] else [Simple(CDecl(TmpName(j), temps[0]))] + TempDecls(temps[1..], j + 1)
  }

  /** The frees of the first `n` of them, newest first. */
  function TempFrees(n: nat): seq<Tok> {
    if n == 0 then [] else [Simple(CFree(TmpName(n - 1)))] + TempFrees(n - 1)
  }

  lemma HoistedPrinted(temps: seq<Expr>, inner: CStmt)
    ensures PrintAll([Hoisted(temps, inner)]) == TempDecls(temps, 0) + Print(inner) + TempFrees(|temps|)
  {
    hide Print, PrintAll;
    PrintOne(Hoisted(temps, inner));
    if temps == [] {
      assert [] + Print(inner) + [] == Print(inner);
    } else {
      HoistedIs(temps, inner);
    }
  }

  lemma HoistedIs(temps: seq<Expr>, inner: CStmt)
    ensures Print(CHoisted(temps, inner)) == TempDecls(temps, 0) + Print(inner) + TempFrees(|temps|)
  {
  }

  function PrintAll(cs: seq<CStmt>): seq<Tok> {
    if cs == [] then [] else Print(cs[0]) + PrintAll(cs[1..])
  }

  lemma {:induction false} PrintAppend(a: seq<CStmt>, b: seq<CStmt>)
    ensures PrintAll(a + b) == PrintAll(a) + PrintAll(b)
    decreases a
  {
    if a == [] {
      assert a + b == b;
    } else {
      assert (a + b)[1..] == a[1..] + b;
      PrintAppend(a[1..], b);
    }
  }

  lemma PrintOne(c: CStmt)
    ensures PrintAll([c]) == Print(c)
  {
    assert [c][1..] == [];
  }

  lemma Assoc(a: seq<Tok>, b: seq<Tok>, c: seq<Tok>)
    ensures (a + b) + c == a + (b + c)
  {
  }

  /** One more piece printed: `start + done` becomes `start + (done + piece)`. */
  lemma Advance(start: seq<Tok>, done: seq<Tok>, piece: seq<CStmt>, rest: seq<CStmt>, all: seq<CStmt>)
    requires done + PrintAll(piece + rest) == PrintAll(all)
    ensures (start + done) + PrintAll(piece) == start + (done + PrintAll(piece))
    ensures (done + PrintAll(piece)) + PrintAll(rest) == PrintAll(all)
  {
    PrintAppend(piece, rest);
    Assoc(done, PrintAll(piece), PrintAll(rest));
    Assoc(start, done, PrintAll(piece));
  }

  lemma PrintThree(a: seq<CStmt>, b: seq<CStmt>, c: seq<CStmt>)
    ensures PrintAll(a + b + c) == PrintAll(a) + PrintAll(b) + PrintAll(c)
  {
    PrintAppend(a + b, c);
    PrintAppend(a, b);
  }

  lemma NothingPrinted()
    ensures PrintAll([]) == []
  {
  }

  /** Appending piece by piece and appending the whole. */
  lemma Wrapped(start: seq<Tok>, head: seq<Tok>, body: seq<Tok>, frees: seq<Tok>, tail: seq<Tok>)
    ensures start + head + body + frees + tail == start + (head + (body + frees) + tail)
    ensures start + head + body + tail == start + (head + (body + []) + tail)
  {
  }

  lemma BlockPrinted(sc: Scope, k: Stack, freshFns: FreshFns)
    ensures Print(EmitBlock(sc, k, freshFns)) ==
      [Open] + (PrintAll(EmitInside(sc, k, freshFns)) + PrintAll(ScopeFrees(sc, |sc.stmts|, -1, freshFns))) + [Close]
  {
    hide EmitInside, ScopeFrees, PrintAll;
    PrintAppend(EmitInside(sc, k, freshFns), ScopeFrees(sc, |sc.stmts|, -1, freshFns));
  }

  lemma LoopPrinted(s: Stmt, k: Stack, freshFns: FreshFns)
    requires s.Loop?
    ensures var sc := LoopScope(s.stmts);
      PrintAll(EmitStmt(s, k, freshFns)) ==
      [While(s.domain), Open] +
        (PrintAll(EmitFrom(sc, 0, k, true, freshFns)) + PrintAll(ScopeFrees(sc, |s.stmts|, -1, freshFns))) + [Close]
  {
    hide EmitFrom, ScopeFrees, PrintAll;
    var body, frees := EmitFrom(LoopScope(s.stmts), 0, k, true, freshFns),
      ScopeFrees(LoopScope(s.stmts), |s.stmts|, -1, freshFns);
    PrintAppend(body, frees);
    PrintOne(CWhile(s.domain, body + frees));
  }

  lemma ExitPrinted(e: Expr, k: Stack, freshFns: FreshFns, frees: seq<CStmt>)
    requires frees == if Tracked(k) then ExitFrees(k.scopes, freshFns) else []
    ensures PrintAll(EmitStmt(ProcExit(e), k, freshFns)) ==
      [Open, Simple(CDecl("tiq_exit_code", e))] + (PrintAll(frees) + []) + [Simple(CExit), Close]
  {
    hide ExitFrees, PrintAll;
    var decl := CDecl("tiq_exit_code", e);
    PrintOne(CBlock([decl] + frees + [CExit]));
    PrintThree([decl], frees, [CExit]);
    PrintOne(decl);
    PrintOne(CExit);
  }

  lemma SetPrinted(n: string, e: Expr)
    ensures Print(EmitSet(n, e, true)) ==
      [Open, Simple(CDecl("tiq_old", Ident(n))), Simple(CSet(n, e)), Simple(CFree("tiq_old")), Close]
  {
    var a, b, c := CDecl("tiq_old", Ident(n)), CSet(n, e), CFree("tiq_old");
    PrintThree([a], [b], [c]);
    PrintOne(a);
    PrintOne(b);
    PrintOne(c);
    assert [a] + [b] + [c] == [a, b, c];
    assert [Open] + ([Simple(a)] + [Simple(b)] + [Simple(c)]) + [Close] ==
           [Open, Simple(a), Simple(b), Simple(c), Close];
  }

  class EmitContext {
    const freshFns: FreshFns
    const scopes: array<EmitScope>
    var depth: nat
    var out: seq<Tok>

    constructor (freshFns: FreshFns)
      ensures Valid() && fresh(scopes) && depth == 0 && out == [] && this.freshFns == freshFns
    {
      this.freshFns := freshFns;
      scopes := new EmitScope[MAX_SCOPE_DEPTH](_ => EmitScope(LoopScope([]), 0, false));
      depth := 0;
      out := [];
    }

    predicate Valid() { scopes.Length == MAX_SCOPE_DEPTH }

    /** The tracked part of the stack. */
    ghost function View(): (k: Stack)
      reads this`depth, scopes
      requires Valid()
      ensures StackOk(k)
    {
      Stack(scopes[..if depth < MAX_SCOPE_DEPTH then depth else MAX_SCOPE_DEPTH], depth)
    }

    method Put(c: CStmt)
      requires !c.CBlock? && !c.CIf? && !c.CWhile? && !c.CHoisted?
      modifies this`out
      ensures out == old(out) + PrintAll([c])
    {
      out := out + [Simple(c)];
      PrintOne(c);
    }

    /** emit_scope_push: an overflowing scope is counted but not stored. */
    method Push(sc: Scope, isLoop: bool)
      requires Valid()
      modifies this`depth, scopes
      ensures View() == Enter(old(View()), sc, 0, isLoop)
    {
      if depth < MAX_SCOPE_DEPTH {
        scopes[depth] := EmitScope(sc, 0, isLoop);
      }
      depth := depth + 1;
      assert old(depth) < MAX_SCOPE_DEPTH ==>
        scopes[..depth] == old(scopes[..depth]) + [EmitScope(sc, 0, isLoop)];
    }

    /** emit_scope_pop undoes the push. */
    method Pop(ghost k: Stack, ghost sc: Scope, ghost j: nat, ghost isLoop: bool)
      requires Valid() && depth > 0 && StackOk(k) && View() == Enter(k, sc, j, isLoop)
      modifies this`depth
      ensures View() == k
    {
      depth := depth - 1;
      assert old(View()).scopes[..|k.scopes|] == k.scopes;
    }

    /** Record that the innermost tracked scope has reached statement `i`. */
    method Reach(i: nat, ghost k: Stack, ghost sc: Scope, ghost isLoop: bool, ghost j: nat)
      requires Valid() && depth > 0 && StackOk(k) && View() == Enter(k, sc, j, isLoop)
      modifies scopes
      ensures View() == Enter(k, sc, i, isLoop)
    {
      if depth <= MAX_SCOPE_DEPTH {
        assert scopes[depth - 1] == View().scopes[depth - 1];
        scopes[depth - 1] := scopes[depth - 1].(emitted := i);
        assert scopes[..depth - 1] == old(scopes[..depth])[..depth - 1];
        assert View().scopes == scopes[..depth - 1] + [EmitScope(sc, i, isLoop)];
      }
    }

    /** emit_scope_frees_except: last owner first. */
    method Frees(sc: Scope, limit: nat, keep: int)
      modifies this`out
      ensures out == old(out) + PrintAll(ScopeFrees(sc, limit, keep, freshFns))
    {
      var i := limit;
      ghost var done := [];
      ghost var all := ScopeFrees(sc, limit, keep, freshFns);
      while i > 0
        invariant 0 <= i <= limit
        invariant out == old(out) + done
        invariant done + PrintAll(ScopeFrees(sc, i, keep, freshFns)) == PrintAll(all)
      {
        i := i - 1;
        ghost var rest := ScopeFrees(sc, i, keep, freshFns);
        if i < |sc.stmts| && i != keep && OwnAt(sc, i, freshFns) != NotOwner {
          Advance(old(out), done, [CFree(sc.stmts[i].name)], rest, all);
          Put(CFree(sc.stmts[i].name));
          done := done + PrintAll([CFree(sc.stmts[i].name)]);
        } else {
          assert [] + rest == rest;
        }
      }
    }

    /** emit_jump_frees: innermost scope first, through the loop body. */
    method JumpFreesOut()
      requires Valid()
      modifies this`out
      ensures out == old(out) + PrintAll(if Tracked(View()) then JumpFrees(View().scopes, freshFns) else [])
    {
      hide PrintAll, ScopeFrees;
      NothingPrinted();
      if depth > MAX_SCOPE_DEPTH { return; }
      var d := depth;
      ghost var stack := View().scopes;
      ghost var all := JumpFrees(stack, freshFns);
      ghost var done := [];
      assert stack[..d] == stack;
      while d > 0
        invariant 0 <= d <= |stack|
        invariant out == old(out) + done
        invariant done + PrintAll(JumpFrees(stack[..d], freshFns)) == PrintAll(all)
      {
        d := d - 1;
        var s := scopes[d];
        assert stack[..d + 1][..d] == stack[..d] && stack[..d + 1][d] == s;
        ghost var piece := ScopeFrees(s.sc, s.emitted, -1, freshFns);
        ghost var rest := if s.isLoop then [] else JumpFrees(stack[..d], freshFns);
        Advance(old(out), done, piece, rest, all);
        Frees(s.sc, s.emitted, -1);
        done := done + PrintAll(piece);
        if s.isLoop {
          return;
        }
      }
    }

    /** emit_exit_frees. */
    method ExitFreesOut()
      requires Valid()
      modifies this`out
      ensures out == old(out) + PrintAll(if Tracked(View()) then ExitFrees(View().scopes, freshFns) else [])
    {
      hide PrintAll, ScopeFrees;
      NothingPrinted();
      if depth > MAX_SCOPE_DEPTH { return; }
      var d := depth;
      ghost var stack := View().scopes;
      ghost var all := ExitFrees(stack, freshFns);
      ghost var done := [];
      assert stack[..d] == stack;
      while d > 0
        invariant 0 <= d <= |stack|
        invariant out == old(out) + done
        invariant done + PrintAll(ExitFrees(stack[..d], freshFns)) == PrintAll(all)
      {
        d := d - 1;
        var s := scopes[d];
        assert stack[..d + 1][..d] == stack[..d] && stack[..d + 1][d] == s;
        ghost var piece := ScopeFrees(s.sc, s.emitted, -1, freshFns);
        Advance(old(out), done, piece, ExitFrees(stack[..d], freshFns), all);
        Frees(s.sc, s.emitted, -1);
        done := done + PrintAll(piece);
      }
    }

    /** mut_reassign_owner: search the stack for the declaration of `n`. */
    method FindsOwner(n: string) returns (owner: bool)
      requires Valid()
      ensures owner == (Tracked(View()) && ReassignsOwner(View().scopes, n, freshFns))
    {
      if depth > MAX_SCOPE_DEPTH { return false; }
      var d := depth;
      ghost var stack := View().scopes;
      assert stack[..d] == stack;
      while d > 0
        invariant 0 <= d <= |stack|
        invariant ReassignsOwner(stack[..d], n, freshFns) == ReassignsOwner(stack, n, freshFns)
      {
        d := d - 1;
        var s := scopes[d];
        assert stack[..d + 1][..d] == stack[..d] && stack[..d + 1][d] == s;
        var i := Declares(s.sc, n, 0);
        if i >= 0 {
          return OwnAt(s.sc, i, freshFns) == MutOwner;
        }
      }
      return false;
    }

    // ---------- statements ----------

    method EmitStatement(s: Stmt)
      requires Valid()
      modifies this, scopes
      ensures Valid() && View() == old(View())
      ensures out == old(out) + PrintAll(EmitStmt(s, old(View()), freshFns))
      decreases s, 3
    {
      match s
      case Bind(n, _, e) =>
        var p := Chosen(e, true, freshFns);
        EmitAround(p.temps, CDecl(n, p.rest));
      case Assign(n, e) => EmitAssign(n, e);
      case Eval(e) =>
        var p := Chosen(e, false, freshFns);
        EmitAround(p.temps, CExpr(p.rest));
      case ProcExit(e) => EmitExit(e);
      case Block(sc) =>
        PrintOne(EmitBlock(sc, View(), freshFns));
        EmitBraces(sc);
      case If(e, sc) =>
        PrintOne(CIf(e, EmitBlock(sc, View(), freshFns)));
        Assoc(out, [IfHead(e)], Print(EmitBlock(sc, View(), freshFns)));
        out := out + [IfHead(e)];
        EmitBraces(sc);
      case Loop(e, body) => EmitLoop(s);
      case Break => EmitJump(CBreak);
      case Skip => EmitJump(CContinue);
    }

    method EmitJump(last: CStmt)
      requires Valid() && (last.CBreak? || last.CContinue?)
      modifies this`out
      ensures out == old(out) +
        PrintAll((if Tracked(View()) then JumpFrees(View().scopes, freshFns) else []) + [last])
    {
      ghost var frees := if Tracked(View()) then JumpFrees(View().scopes, freshFns) else [];
      PrintAppend(frees, [last]);
      Assoc(out, PrintAll(frees), PrintAll([last]));
      JumpFreesOut();
      Put(last);
    }

    /** Declare the hidden bindings of a statement. */
    method PutTemps(temps: seq<Expr>)
      modifies this`out
      ensures out == old(out) + TempDecls(temps, 0)
    {
      var i := 0;
      ghost var done := [];
      while i < |temps|
        invariant 0 <= i <= |temps|
        invariant out == old(out) + done
        invariant done + TempDecls(temps[i..], i) == TempDecls(temps, 0)
      {
        assert temps[i..][1..] == temps[i + 1..];
        ghost var tok := [Simple(CDecl(TmpName(i), temps[i]))];
        Assoc(done, tok, TempDecls(temps[i + 1..], i + 1));
        Assoc(old(out), done, tok);
        out := out + [Simple(CDecl(TmpName(i), temps[i]))];
        done := done + tok;
        i := i + 1;
      }
    }

    /** Free them, newest first. */
    method PutReleases(n: nat)
      modifies this`out
      ensures out == old(out) + TempFrees(n)
    {
      var i := n;
      ghost var done := [];
      while i > 0
        invariant 0 <= i <= n
        invariant out == old(out) + done
        invariant done + TempFrees(i) == TempFrees(n)
      {
        i := i - 1;
        ghost var tok := [Simple(CFree(TmpName(i)))];
        Assoc(done, tok, TempFrees(i));
        Assoc(old(out), done, tok);
        out := out + [Simple(CFree(TmpName(i)))];
        done := done + tok;
      }
    }

    /** A simple statement with its hidden bindings. */
    method EmitAround(temps: seq<Expr>, c: CStmt)
      requires !c.CBlock? && !c.CIf? && !c.CWhile? && !c.CHoisted?
      modifies this`out
      ensures out == old(out) + PrintAll([Hoisted(temps, c)])
    {
      hide PrintAll, Print, TempDecls, TempFrees, Hoisted;
      HoistedPrinted(temps, c);
      PrintOne(c);
      Wrapped(out, TempDecls(temps, 0), Print(c), [], TempFrees(|temps|));
      PutTemps(temps);
      Put(c);
      PutReleases(|temps|);
    }

    method EmitAssign(n: string, e: Expr)
      requires Valid()
      modifies this`out
      ensures out == old(out) + PrintAll(EmitStmt(Assign(n, e), View(), freshFns))
    {
      hide PrintAll;
      var p := Chosen(e, true, freshFns);
      var owner := false;
      if IsOwnedBuiltinCall(e) { owner := FindsOwner(n); }
      if owner {
        HoistedPrinted(p.temps, EmitSet(n, p.rest, true));
        SetPrinted(n, p.rest);
        ghost var block := [Open, Simple(CDecl("tiq_old", Ident(n))), Simple(CSet(n, p.rest)),
            Simple(CFree("tiq_old")), Close];
        Wrapped(out, TempDecls(p.temps, 0), block, [], TempFrees(|p.temps|));
        PutTemps(p.temps);
        out := out +
          [Open, Simple(CDecl("tiq_old", Ident(n))), Simple(CSet(n, p.rest)), Simple(CFree("tiq_old")), Close];
        PutReleases(|p.temps|);
      } else {
        EmitAround(p.temps, CSet(n, p.rest));
      }
    }

    method EmitExit(e: Expr)
      requires Valid()
      modifies this`out
      ensures out == old(out) + PrintAll(EmitStmt(ProcExit(e), View(), freshFns))
    {
      hide PrintAll, Print, EmitStmt, ExitFrees;
      ghost var frees := if Tracked(View()) then ExitFrees(View().scopes, freshFns) else [];
      ExitPrinted(e, View(), freshFns, frees);
      Wrapped(out, [Open, Simple(CDecl("tiq_exit_code", e))], PrintAll(frees), [], [Simple(CExit), Close]);
      out := out + [Open, Simple(CDecl("tiq_exit_code", e))];
      ExitFreesOut();
      out := out + [Simple(CExit), Close];
    }

    /** The statements of a scope that has just been pushed. */
    method EmitStatements(sc: Scope, ghost k: Stack, isLoop: bool) returns (ghost j: nat)
      requires Valid() && depth > 0 && StackOk(k) && View() == Enter(k, sc, 0, isLoop)
      modifies this, scopes
      ensures Valid() && depth == old(depth) && View() == Enter(k, sc, j, isLoop)
      ensures out == old(out) + PrintAll(EmitFrom(sc, 0, k, isLoop, freshFns))
      decreases sc.stmts, 1
    {
      var i := 0;
      j := 0;
      ghost var done := [];
      ghost var all := EmitFrom(sc, 0, k, isLoop, freshFns);
      while i < |sc.stmts|
        invariant 0 <= i <= |sc.stmts|
        invariant Valid() && depth == old(depth) && View() == Enter(k, sc, j, isLoop)
        invariant out == old(out) + done
        invariant done + PrintAll(EmitFrom(sc, i, k, isLoop, freshFns)) == PrintAll(all)
      {
        Reach(i, k, sc, isLoop, j);
        j := i;
        ghost var piece := EmitStmt(sc.stmts[i], Enter(k, sc, i, isLoop), freshFns);
        Advance(old(out), done, piece, EmitFrom(sc, i + 1, k, isLoop, freshFns), all);
        EmitStatement(sc.stmts[i]);
        done := done + PrintAll(piece);
        i := i + 1;
      }
    }

    method EmitBraces(sc: Scope)
      requires Valid()
      modifies this, scopes
      ensures Valid() && View() == old(View())
      ensures out == old(out) + Print(EmitBlock(sc, old(View()), freshFns))
      decreases sc, 2
    {
      hide PrintAll, Print, ScopeFrees, EmitInside, EmitBlock;
      ghost var inside := EmitInside(sc, View(), freshFns);
      ghost var frees := ScopeFrees(sc, |sc.stmts|, -1, freshFns);
      BlockPrinted(sc, View(), freshFns);
      Wrapped(out, [Open], PrintAll(inside), PrintAll(frees), [Close]);
      out := out + [Open];
      EmitContents(sc);
      Frees(sc, |sc.stmts|, -1);
      out := out + [Close];
    }

    method EmitContents(sc: Scope)
      requires Valid()
      modifies this, scopes
      ensures Valid() && View() == old(View())
      ensures out == old(out) + PrintAll(EmitInside(sc, old(View()), freshFns))
      decreases sc, 1
    {
      hide PrintAll, EmitStmt, EmitFrom;
      ghost var k := View();
      Push(sc, false);
      ghost var j := EmitStatements(sc, k, false);
      j := EmitLast(sc, k, j);
      Pop(k, sc, j, false);
      EmitBackwards(sc.deferred, k);
      ghost var a, b := EmitFrom(sc, 0, k, false, freshFns),
          EmitFinal(sc.fin, Enter(k, sc, |sc.stmts|, false), freshFns);
      ghost var c := EmitDeferred(sc.deferred, |sc.deferred|, k, freshFns);
      PrintThree(a, b, c);
      Assoc(old(out), PrintAll(a), PrintAll(b));
      Assoc(old(out), PrintAll(a) + PrintAll(b), PrintAll(c));
    }

    method EmitLast(sc: Scope, ghost k: Stack, ghost j: nat) returns (ghost j': nat)
      requires Valid() && depth > 0 && StackOk(k) && View() == Enter(k, sc, j, false)
      modifies this, scopes
      ensures Valid() && depth == old(depth) && View() == Enter(k, sc, j', false)
      ensures out == old(out) + PrintAll(EmitFinal(sc.fin, Enter(k, sc, |sc.stmts|, false), freshFns))
      decreases sc, 0
    {
      j' := j;
      if sc.fin.Final? {
        Reach(|sc.stmts|, k, sc, false, j);
        j' := |sc.stmts|;
        EmitStatement(sc.fin.s);
      } else {
        NothingPrinted();
      }
    }

    /** The deferred statements of a block, its scope popped: last one first. */
    method EmitBackwards(ss: seq<Stmt>, ghost k: Stack)
      requires Valid() && View() == k
      modifies this, scopes
      ensures Valid() && View() == k
      ensures out == old(out) + PrintAll(EmitDeferred(ss, |ss|, k, freshFns))
      decreases ss
    {
      hide PrintAll, EmitStmt;
      var i := |ss|;
      ghost var done := [];
      ghost var all := EmitDeferred(ss, |ss|, k, freshFns);
      NothingPrinted();
      while i > 0
        invariant 0 <= i <= |ss|
        invariant Valid() && View() == k
        invariant out == old(out) + done
        invariant done + PrintAll(EmitDeferred(ss, i, k, freshFns)) == PrintAll(all)
      {
        i := i - 1;
        ghost var piece := EmitStmt(ss[i], k, freshFns);
        Advance(old(out), done, piece, EmitDeferred(ss, i, k, freshFns), all);
        EmitStatement(ss[i]);
        done := done + PrintAll(piece);
      }
    }

    /** The deferred statements of a function, its scope still pushed: first one first. */
    method EmitForwards(ss: seq<Stmt>, ghost k: Stack)
      requires Valid() && View() == k
      modifies this, scopes
      ensures Valid() && View() == k
      ensures out == old(out) + PrintAll(InOrder(ss, 0, k, freshFns))
    {
      hide PrintAll, EmitStmt;
      var i := 0;
      ghost var done := [];
      ghost var all := InOrder(ss, 0, k, freshFns);
      NothingPrinted();
      while i < |ss|
        invariant 0 <= i <= |ss|
        invariant Valid() && View() == k
        invariant out == old(out) + done
        invariant done + PrintAll(InOrder(ss, i, k, freshFns)) == PrintAll(all)
      {
        ghost var piece := EmitStmt(ss[i], k, freshFns);
        Advance(old(out), done, piece, InOrder(ss, i + 1, k, freshFns), all);
        EmitStatement(ss[i]);
        done := done + PrintAll(piece);
        i := i + 1;
      }
    }

    /** The result of a function and the frees that go with it. */
    method EmitTail(sc: Scope, ty: ResultType)
      requires Valid() && View() == BodyEnd(sc)
      modifies this, scopes
      ensures Valid() && View() == BodyEnd(sc)
      ensures out == old(out) + PrintAll(FunctionTail(sc, ty, freshFns))
    {
      hide PrintAll, EmitStmt, ScopeFrees, OwnAt;
      var policy := ResultPolicy(sc, ty, freshFns);
      if !GivesResult(sc.fin) {
        ghost var last := EmitFinal(sc.fin, BodyEnd(sc), freshFns);
        ghost var frees := ScopeFrees(sc, |sc.stmts|, -1, freshFns);
        PrintAppend(last, frees + [CReturn(Lit)]);
        PrintAppend(frees, [CReturn(Lit)]);
        Assoc(out, PrintAll(last), PrintAll(frees) + PrintAll([CReturn(Lit)]));
        Assoc(out + PrintAll(last), PrintAll(frees), PrintAll([CReturn(Lit)]));
        if sc.fin.Final? { EmitStatement(sc.fin.s); } else { NothingPrinted(); }
        Frees(sc, |sc.stmts|, -1);
        Put(CReturn(Lit));
      } else {
        var e := ResultExpr(sc.fin);
        var owns := OwnsAny(sc);
        if policy.FreeNone? || (policy.FreeAll? && !owns) {
          Put(CReturn(e));
        } else {
          var keep := if policy.FreeAllBut? then OwnerIndex(sc, policy.n, 0, freshFns) else -1;
          ghost var frees := ScopeFrees(sc, |sc.stmts|, keep, freshFns);
          ghost var decl, ret := [CDecl("tiq_fn_ret", e)], [CReturn(Ident("tiq_fn_ret"))];
          PrintAppend(decl, frees + ret);
          PrintAppend(frees, ret);
          Assoc(out, PrintAll(decl), PrintAll(frees) + PrintAll(ret));
          Assoc(out + PrintAll(decl), PrintAll(frees), PrintAll(ret));
          Put(CDecl("tiq_fn_ret", e));
          Frees(sc, |sc.stmts|, keep);
          Put(CReturn(Ident("tiq_fn_ret")));
        }
      }
    }

    /** scope_has_owned. */
    method OwnsAny(sc: Scope) returns (owns: bool)
      ensures owns == HasOwner(sc, freshFns)
    {
      for i := 0 to |sc.stmts|
        invariant forall j :: 0 <= j < i ==> OwnAt(sc, j, freshFns) == NotOwner
      {
        if OwnAt(sc, i, freshFns) != NotOwner { return true; }
      }
      return false;
    }

    /** A function's body: its scope is pushed until the end. */
    method EmitFunctionBody(sc: Scope, ty: ResultType)
      requires Valid() && depth == 0
      modifies this, scopes
      ensures Valid() && depth == 0
      ensures out == old(out) + PrintAll(EmitFunction(sc, ty, freshFns))
    {
      hide PrintAll, EmitFrom, InOrder, FunctionTail;
      ghost var k := View();
      assert k == Stack([], 0);
      ghost var a, b := EmitFrom(sc, 0, k, false, freshFns), InOrder(sc.deferred, 0, BodyEnd(sc), freshFns);
      ghost var c := FunctionTail(sc, ty, freshFns);
      PrintAppend(a, b + c);
      PrintAppend(b, c);
      Assoc(out, PrintAll(a), PrintAll(b) + PrintAll(c));
      Assoc(out + PrintAll(a), PrintAll(b), PrintAll(c));
      Push(sc, false);
      ghost var j := EmitStatements(sc, k, false);
      Reach(|sc.stmts|, k, sc, false, j);
      EmitForwards(sc.deferred, BodyEnd(sc));
      EmitTail(sc, ty);
      Pop(k, sc, |sc.stmts|, false);
    }

    method EmitLoop(s: Stmt)
      requires s.Loop? && Valid()
      modifies this, scopes
      ensures Valid() && View() == old(View())
      ensures out == old(out) + PrintAll(EmitStmt(s, old(View()), freshFns))
      decreases s.stmts, 2
    {
      hide PrintAll, Print, ScopeFrees, EmitFrom, EmitStmt;
      ghost var k := View();
      var sc := LoopScope(s.stmts);
      ghost var body := EmitFrom(sc, 0, k, true, freshFns);
      ghost var frees := ScopeFrees(sc, |s.stmts|, -1, freshFns);
      LoopPrinted(s, k, freshFns);
      Wrapped(out, [While(s.domain), Open], PrintAll(body), PrintAll(frees), [Close]);
      out := out + [While(s.domain), Open];
      Push(sc, true);
      ghost var j := EmitStatements(sc, k, true);
      Pop(k, sc, j, true);
      Frees(sc, |s.stmts|, -1);
      out := out + [Close];
    }

    /** The body of main for a top-level program. */
    method EmitMain(stmts: seq<Stmt>)
      requires Valid() && depth == 0
      modifies this, scopes
      ensures Valid() && depth == 0
      ensures out == old(out) + PrintAll(EmitProgram(stmts, freshFns))
    {
      var sc := LoopScope(stmts);
      ghost var k := View();
      assert k == Stack([], 0);
      ghost var body, frees := EmitFrom(sc, 0, k, false, freshFns), ScopeFrees(sc, |stmts|, -1, freshFns);
      PrintAppend(body, frees);
      Assoc(out, PrintAll(body), PrintAll(frees));
      Push(sc, false);
      ghost var j := EmitStatements(sc, k, false);
      Pop(k, sc, j, false);
      Frees(sc, |stmts|, -1);
    }
  }

  /** As many scopes are stored as the depth says, up to the limit. */
  ghost predicate StackOk(k: Stack) {
    |k.scopes| == (if k.depth < MAX_SCOPE_DEPTH then k.depth else MAX_SCOPE_DEPTH)
  }
}
