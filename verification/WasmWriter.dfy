/** Writing a function body into the output buffer (src/emit_wasm.c,
    regtypes_build, emit_instr, emit_phi_moves, emit_func_body). */
module WasmWriter {
  import opened Bits
  import opened Leb128
  import opened Ir
  import opened Wasm
  import opened WasmEmit
  import opened WasmBytes

  // ---------- what fits in the source's machine integers ----------

  const INT_MAX := 0x7FFF_FFFF

  predicate SmallInstr(i: Instr) {
    match i
    case Const(d, n) => d <= INT_MAX && -TWO63 <= n < TWO63
    case ConstBool(d, _) => d <= INT_MAX
    case Bin(d, _, a, b) => d <= INT_MAX && a <= INT_MAX && b <= INT_MAX
    case Un(d, _, a) => d <= INT_MAX && a <= INT_MAX
    case Copy(d, a) => d <= INT_MAX && a <= INT_MAX
    case Br(t) => t <= INT_MAX
    case Cbr(c, t, e) => c <= INT_MAX && t <= INT_MAX && e <= INT_MAX
    case Ret(a) => a <= INT_MAX
  }

  predicate SmallPhi(p: Phi) {
    p.dst <= INT_MAX && forall k :: 0 <= k < |p.args| ==> p.args[k].reg <= INT_MAX
  }

  predicate SmallBlock(b: Block) {
    (forall k :: 0 <= k < |b.instrs| ==> SmallInstr(b.instrs[k])) && forall k :: 0 <= k < |b.phis| ==>
      SmallPhi(b.phis[k])
  }

  /** Registers, block numbers and literals are machine integers. */
  predicate Sized(f: Func) {
    f.nextReg <= INT_MAX && |f.blocks| <= INT_MAX && forall b :: 0 <= b < |f.blocks| ==> SmallBlock(f.blocks[b])
  }

  predicate SmallPlain(i: W) {
    match i
    case Const64(n) => -TWO63 <= n < TWO63
    case Const32(n) => -TWO63 <= n < TWO63
    case Get(k) => k < TWO64
    case Set(k) => k < TWO64
    case Num(op) => Numeric(op)
    case Escape(d) => d < TWO64
    case Return => true
    case Unreachable => true
    case _ => false
  }

  // ---------- instructions ----------

  lemma Reassoc(a: seq<Byte>, b: seq<Byte>, c: seq<Byte>)
    ensures (a + b) + c == a + (b + c)
  {
  }

  method PutSigned(out: Buf, op: Byte, n: int)
    requires out.Valid() && -TWO63 <= n < TWO63
    modifies out, out.d
    ensures out.Valid() && out.Contents() == old(out.Contents()) + ([op] + Sleb(n))
    ensures out.d == old(out.d) || fresh(out.d)
  {
    hide Sleb;
    Reassoc(out.Contents(), [op], Sleb(n));
    out.Push(op);
    out.WriteSleb(n);
  }

  method PutUnsigned(out: Buf, op: Byte, n: nat)
    requires out.Valid() && n < TWO64
    modifies out, out.d
    ensures out.Valid() && out.Contents() == old(out.Contents()) + ([op] + Uleb(n))
    ensures out.d == old(out.d) || fresh(out.d)
  {
    hide Uleb;
    Reassoc(out.Contents(), [op], Uleb(n));
    out.Push(op);
    out.WriteUleb(n);
  }

  method Put(out: Buf, i: W)
    requires out.Valid() && SmallPlain(i)
    modifies out, out.d
    ensures out.Valid() && out.Contents() == old(out.Contents()) + OneBytes(i)
    ensures out.d == old(out.d) || fresh(out.d)
  {
    hide Uleb, Sleb, Bytes;
    match i
    case Const64(n) => PutSigned(out, 0x42, n);
    case Const32(n) => PutSigned(out, 0x41, n);
    case Get(k) => PutUnsigned(out, 0x20, k);
    case Set(k) => PutUnsigned(out, 0x21, k);
    case Num(op) => out.Push(op);
    case Escape(d) => PutUnsigned(out, 0x0C, d);
    case Return => out.Push(0x0F);
    case Unreachable => out.Push(0x00);
  }

  lemma BytesTwo(a: W, b: W)
    requires EncodableOne(a) && EncodableOne(b)
    ensures Encodable([a, b]) && Bytes([a, b]) == OneBytes(a) + OneBytes(b)
  {
    hide OneBytes;
    assert [a, b][1..] == [b] && [b][1..] == [];
    assert Bytes([b]) == OneBytes(b) + Bytes([]) == OneBytes(b);
  }

  lemma BytesFour(a: W, b: W, c: W, d: W)
    requires EncodableOne(a) && EncodableOne(b) && EncodableOne(c) && EncodableOne(d)
    ensures Encodable([a, b, c, d]) && Bytes([a, b, c, d]) == OneBytes(a) + OneBytes(b) + OneBytes(c) + OneBytes(d)
  {
    hide Bytes, OneBytes, EncodableOne;
    BytesTwo(a, b);
    BytesTwo(c, d);
    BytesConcat([a, b], [c, d]);
    assert [a, b] + [c, d] == [a, b, c, d];
    Reassoc(OneBytes(a) + OneBytes(b), OneBytes(c), OneBytes(d));
  }

  method PutTwo(out: Buf, a: W, b: W)
    requires out.Valid() && SmallPlain(a) && SmallPlain(b)
    modifies out, out.d
    ensures Encodable([a, b]) && out.Valid() && out.Contents() == old(out.Contents()) + Bytes([a, b])
    ensures out.d == old(out.d) || fresh(out.d)
  {
    hide OneBytes, Bytes;
    BytesTwo(a, b);
    Reassoc(out.Contents(), OneBytes(a), OneBytes(b));
    Put(out, a);
    Put(out, b);
  }

  method PutFour(out: Buf, a: W, b: W, c: W, d: W)
    requires out.Valid() && SmallPlain(a) && SmallPlain(b) && SmallPlain(c) && SmallPlain(d)
    modifies out, out.d
    ensures Encodable([a, b, c, d]) && out.Valid() && out.Contents() == old(out.Contents()) + Bytes([a, b, c, d])
    ensures out.d == old(out.d) || fresh(out.d)
  {
    hide OneBytes, Bytes;
    BytesFour(a, b, c, d);
    BytesTwo(a, b);
    BytesTwo(c, d);
    Reassoc(out.Contents(), Bytes([a, b]), Bytes([c, d]));
    Reassoc(OneBytes(a) + OneBytes(b), OneBytes(c), OneBytes(d));
    PutTwo(out, a, b);
    PutTwo(out, c, d);
  }

  method WriteInstr(out: Buf, i: Instr, rt: RegTypes)
    requires out.Valid() && SmallInstr(i)
    modifies out, out.d
    ensures Encodable(EmitInstr(i, rt)) && out.Valid() &&
      out.Contents() == old(out.Contents()) + Bytes(EmitInstr(i, rt))
    ensures out.d == old(out.d) || fresh(out.d)
  {
    InstrEncodable(i, rt);
    match i
    case Const(d, n) => PutTwo(out, Const64(n), Set(d));
    case ConstBool(d, flag) => PutTwo(out, Const32(if flag then 1 else 0), Set(d));
    case Bin(d, op, a, b) => PutFour(out, Get(a), Get(b), Num(BinOpcode(op, OperandTy(rt, a, b))), Set(d));
    case Un(d, op, a) =>
      if op.Neg? {
        PutFour(out, Const64(0), Get(a), Num(0x7D), Set(d));
      } else {
        PutFour(out, Get(a), Const32(1), Num(0x73), Set(d));
      }
    case Copy(d, a) => PutTwo(out, Get(a), Set(d));
    case Ret(a) => PutTwo(out, Get(a), Return);
    case Br(_) => assert out.Contents() == old(out.Contents()) + [];
    case Cbr(_, _, _) => assert out.Contents() == old(out.Contents()) + [];
  }

  // ---------- phi copies ----------

  lemma NoBytes()
    ensures Bytes([]) == [] && EmitMoves([]) == [] && Encodable([])
  {
  }

  /** One copy of a phi, if the argument is for this edge. */
  lemma ArgStep(p: Phi, a: nat, src: nat, rest: seq<Move>)
    requires a < |p.args|
    ensures var all := ArgMoves(p.dst, p.args[a..], src) + rest;
      var after := ArgMoves(p.dst, p.args[a + 1..], src) + rest;
      var m := Move(p.dst, p.args[a].reg);
      Encodable(EmitMoves(all)) && Encodable(EmitMoves(after)) && Encodable([Get(m.src), Set(m.dst)]) &&
      Bytes(EmitMoves(all)) ==
        (if p.args[a].pred == src then Bytes([Get(m.src), Set(m.dst)]) + Bytes(EmitMoves(after))
          else Bytes(EmitMoves(after)))
  {
    hide Bytes, OneBytes, EmitMoves, Encodable;
    var all := ArgMoves(p.dst, p.args[a..], src) + rest;
    var after := ArgMoves(p.dst, p.args[a + 1..], src) + rest;
    var m := Move(p.dst, p.args[a].reg);
    MovesEncodable(all);
    MovesEncodable(after);
    PairEncodable(m);
    assert p.args[a..][1..] == p.args[a + 1..];
    if p.args[a].pred == src {
      assert all == [m] + after;
      MovesUnfold(m, after);
      BytesConcat([Get(m.src), Set(m.dst)], EmitMoves(after));
    } else {
      assert all == after;
    }
  }

  lemma PairEncodable(m: Move)
    ensures Encodable([Get(m.src), Set(m.dst)])
  {
  }

  lemma MovesUnfold(m: Move, after: seq<Move>)
    ensures EmitMoves([m] + after) == [Get(m.src), Set(m.dst)] + EmitMoves(after)
  {
    assert ([m] + after)[1..] == after;
  }

  method WritePhi(out: Buf, p: Phi, src: nat, ghost rest: seq<Move>, ghost goal: seq<Byte>)
    requires out.Valid() && SmallPhi(p) && Encodable(EmitMoves(ArgMoves(p.dst, p.args, src) + rest))
    requires out.Contents() + Bytes(EmitMoves(ArgMoves(p.dst, p.args, src) + rest)) == goal
    modifies out, out.d
    ensures out.Valid() && Encodable(EmitMoves(rest)) && out.Contents() + Bytes(EmitMoves(rest)) == goal
    ensures out.d == old(out.d) || fresh(out.d)
  {
    hide Bytes, OneBytes, EmitMoves, Encodable;
    var a := 0;
    assert p.args[0..] == p.args;
    while a < |p.args|
      invariant 0 <= a <= |p.args| && out.Valid() && (out.d == old(out.d) || fresh(out.d))
      invariant Encodable(EmitMoves(ArgMoves(p.dst, p.args[a..], src) + rest))
      invariant out.Contents() + Bytes(EmitMoves(ArgMoves(p.dst, p.args[a..], src) + rest)) == goal
    {
      ArgStep(p, a, src, rest);
      if p.args[a].pred == src {
        ghost var before := out.Contents();
        PutTwo(out, Get(p.args[a].reg), Set(p.dst));
        Reassoc(before, Bytes([Get(p.args[a].reg), Set(p.dst)]),
          Bytes(EmitMoves(ArgMoves(p.dst, p.args[a + 1..], src) + rest)));
      }
      a := a + 1;
    }
    assert ArgMoves(p.dst, p.args[a..], src) + rest == rest;
  }

  method WritePhiMoves(out: Buf, f: Func, src: nat, target: nat)
    requires out.Valid() && Sized(f)
    modifies out, out.d
    ensures Encodable(EmitPhiMoves(f, src, target)) && out.Valid()
    ensures out.Contents() == old(out.Contents()) + Bytes(EmitPhiMoves(f, src, target))
    ensures out.d == old(out.d) || fresh(out.d)
  {
    hide Bytes, OneBytes, Encodable;
    GoToEncodable(f, src, target);
    NoBytes();
    if target >= |f.blocks| {
      assert out.Contents() == old(out.Contents()) + [];
      return;
    }
    var phis := f.blocks[target].phis;
    ghost var goal := out.Contents() + Bytes(EmitMoves(Moves(phis, src)));
    var p := 0;
    assert phis[0..] == phis;
    while p < |phis|
      invariant 0 <= p <= |phis| && out.Valid() && (out.d == old(out.d) || fresh(out.d))
      invariant Encodable(EmitMoves(Moves(phis[p..], src))) &&
        out.Contents() + Bytes(EmitMoves(Moves(phis[p..], src))) == goal
    {
      assert SmallBlock(f.blocks[target]) && SmallPhi(phis[p]);
      assert phis[p..][1..] == phis[p + 1..];
      assert Moves(phis[p..], src) == ArgMoves(phis[p].dst, phis[p].args, src) + Moves(phis[p + 1..], src);
      WritePhi(out, phis[p], src, Moves(phis[p + 1..], src), goal);
      p := p + 1;
    }
    assert out.Contents() + [] == out.Contents();
  }

  /** Push one more byte after `written` since `start`. */
  method Then(out: Buf, v: Byte, ghost start: seq<Byte>, ghost written: seq<Byte>)
    requires out.Valid() && out.Contents() == start + written
    modifies out, out.d
    ensures out.Valid() && out.Contents() == start + (written + [v])
    ensures out.d == old(out.d) || fresh(out.d)
  {
    Reassoc(start, written, [v]);
    out.Push(v);
  }

  method ThenPut(out: Buf, i: W, ghost start: seq<Byte>, ghost written: seq<Byte>)
    requires out.Valid() && SmallPlain(i) && out.Contents() == start + written
    modifies out, out.d
    ensures out.Valid() && out.Contents() == start + (written + OneBytes(i))
    ensures out.d == old(out.d) || fresh(out.d)
  {
    Reassoc(start, written, OneBytes(i));
    Put(out, i);
  }

  // ---------- terminators ----------

  method WriteGoTo(out: Buf, f: Func, src: nat, target: nat)
    requires out.Valid() && Sized(f) && target <= INT_MAX
    modifies out, out.d
    ensures Encodable(GoTo(f, src, target)) && out.Valid()
    ensures out.Contents() == old(out.Contents()) + Bytes(GoTo(f, src, target))
    ensures out.d == old(out.d) || fresh(out.d)
  {
    hide Bytes, OneBytes, EmitPhiMoves, Sized;
    GoToEncodable(f, src, target);
    ghost var start := out.Contents();
    WritePhiMoves(out, f, src, target);
    assert f.nextReg <= INT_MAX by { NextRegSmall(f); }
    PutTwo(out, Const32(target), Set(f.nextReg));
    BytesConcat(EmitPhiMoves(f, src, target), [Const32(target), Set(f.nextReg)]);
    Reassoc(start, Bytes(EmitPhiMoves(f, src, target)), Bytes([Const32(target), Set(f.nextReg)]));
  }

  lemma NextRegSmall(f: Func)
    requires Sized(f)
    ensures f.nextReg <= INT_MAX
  {
  }

  /** The bytes of a conditional jump, in the order they are written. */
  function CbrBytes(c: nat, thn: seq<W>, els: seq<W>): seq<Byte>
    requires Encodable(thn) && Encodable(els)
  {
    OneBytes(Get(c)) + [0x04] + [0x40] + Bytes(thn) + [ELSE] + Bytes(els) + [END] + OneBytes(Escape(1))
  }

  lemma CbrBytesAre(c: nat, thn: seq<W>, els: seq<W>)
    requires Encodable(thn) && Encodable(els) && els != []
    ensures var code := [Get(c), If(thn, els), Escape(1)];
      Encodable(code) && Bytes(code) == CbrBytes(c, thn, els)
  {
    var code := [Get(c), If(thn, els), Escape(1)];
    BytesTwo(If(thn, els), Escape(1));
    assert code[1..] == [If(thn, els), Escape(1)];
    IfBytes(thn, els);
    hide Bytes, OneBytes;
    assert OneBytes(Get(c)) + (([0x04] + [0x40] + Bytes(thn) + [ELSE] + Bytes(els) + [END]) + OneBytes(Escape(1)))
        == CbrBytes(c, thn, els);
  }

  lemma IfBytes(thn: seq<W>, els: seq<W>)
    requires Encodable(thn) && Encodable(els) && els != []
    ensures OneBytes(If(thn, els)) == [0x04] + [0x40] + Bytes(thn) + [ELSE] + Bytes(els) + [END]
  {
    hide Bytes, Encodable;
    assert [0x04, 0x40] + Bytes(thn) + ([ELSE] + Bytes(els)) + [END] == [0x04] + [0x40] + Bytes(thn) + [ELSE] +
      Bytes(els) + [END];
  }

  method WriteCbr(out: Buf, f: Func, src: nat, c: nat, t: nat, e: nat)
    requires out.Valid() && Sized(f) && c <= INT_MAX && t <= INT_MAX && e <= INT_MAX
    modifies out, out.d
    ensures Encodable(GoTo(f, src, t)) && Encodable(GoTo(f, src, e)) && out.Valid()
    ensures out.Contents() == old(out.Contents()) + CbrBytes(c, GoTo(f, src, t), GoTo(f, src, e))
    ensures out.d == old(out.d) || fresh(out.d)
  {
    hide Bytes, OneBytes, GoTo, Sized;
    GoToEncodable(f, src, t);
    GoToEncodable(f, src, e);
    ghost var start, thn, els := out.Contents(), Bytes(GoTo(f, src, t)), Bytes(GoTo(f, src, e));
    ghost var head := OneBytes(Get(c)) + [0x04] + [0x40];
    Put(out, Get(c));
    Then(out, 0x04, start, OneBytes(Get(c)));
    Then(out, 0x40, start, OneBytes(Get(c)) + [0x04]);
    WriteGoTo(out, f, src, t);
    Reassoc(start, head, thn);
    Then(out, ELSE, start, head + thn);
    WriteGoTo(out, f, src, e);
    Reassoc(start, head + thn + [ELSE], els);
    Then(out, END, start, head + thn + [ELSE] + els);
    ThenPut(out, Escape(1), start, head + thn + [ELSE] + els + [END]);
  }

  method WriteTerm(out: Buf, f: Func, src: nat, i: Instr)
    requires out.Valid() && Sized(f) && SmallInstr(i)
    modifies out, out.d
    ensures Encodable(EmitTerm(f, src, i)) && out.Valid()
    ensures out.Contents() == old(out.Contents()) + Bytes(EmitTerm(f, src, i))
    ensures out.d == old(out.d) || fresh(out.d)
  {
    TermEncodable(f, src, i);
    ghost var start := out.Contents();
    match i
    case Br(t) =>
      GoToEncodable(f, src, t);
      BytesConcat(GoTo(f, src, t), [Escape(1)]);
      assert [Escape(1)][1..] == [] && Bytes([Escape(1)]) == OneBytes(Escape(1)) + [];
      WriteGoTo(out, f, src, t);
      Put(out, Escape(1));
      Reassoc(start, Bytes(GoTo(f, src, t)), OneBytes(Escape(1)));
    case Cbr(c, t, e) =>
      GoToEncodable(f, src, t);
      GoToEncodable(f, src, e);
      CbrBytesAre(c, GoTo(f, src, t), GoTo(f, src, e));
      WriteCbr(out, f, src, c, t, e);
    case _ => assert out.Contents() == start + [];
  }

  // ---------- blocks and the dispatch loop ----------

  lemma InstrsStep(instrs: seq<Instr>, rt: RegTypes, k: nat)
    requires k < |instrs|
    ensures Encodable(EmitInstrs(instrs[k..], rt)) && Encodable(EmitInstr(instrs[k], rt)) &&
      Encodable(EmitInstrs(instrs[k + 1..], rt))
    ensures Bytes(EmitInstrs(instrs[k..], rt)) == Bytes(EmitInstr(instrs[k], rt)) +
      Bytes(EmitInstrs(instrs[k + 1..], rt))
  {
    assert instrs[k..][1..] == instrs[k + 1..];
    InstrEncodable(instrs[k], rt);
    InstrsEncodable(instrs[k + 1..], rt);
    BytesConcat(EmitInstr(instrs[k], rt), EmitInstrs(instrs[k + 1..], rt));
  }

  lemma TermsStep(f: Func, src: nat, instrs: seq<Instr>, k: nat)
    requires k < |instrs|
    ensures Encodable(EmitTerms(f, src, instrs[k..])) && Encodable(EmitTerm(f, src, instrs[k])) &&
      Encodable(EmitTerms(f, src, instrs[k + 1..]))
    ensures Bytes(EmitTerms(f, src, instrs[k..])) == Bytes(EmitTerm(f, src, instrs[k])) +
      Bytes(EmitTerms(f, src, instrs[k + 1..]))
  {
    assert instrs[k..][1..] == instrs[k + 1..];
    TermEncodable(f, src, instrs[k]);
    TermsEncodable(f, src, instrs[k + 1..]);
    BytesConcat(EmitTerm(f, src, instrs[k]), EmitTerms(f, src, instrs[k + 1..]));
  }

  lemma CasesStep(f: Func, rt: RegTypes, b: nat)
    requires b < |f.blocks|
    ensures Encodable(EmitCases(f, rt, b)) && Encodable(EmitCase(f, rt, b)) && Encodable(EmitCases(f, rt, b + 1))
    ensures Bytes(EmitCases(f, rt, b)) == Bytes(EmitCase(f, rt, b)) + Bytes(EmitCases(f, rt, b + 1))
  {
    CaseEncodable(f, rt, b);
    CasesEncodable(f, rt, b + 1);
    BytesConcat(EmitCase(f, rt, b), EmitCases(f, rt, b + 1));
  }

  lemma NothingLeft(f: Func, src: nat, instrs: seq<Instr>, rt: RegTypes)
    ensures Bytes(EmitInstrs(instrs[|instrs|..], rt)) == [] && Bytes(EmitTerms(f, src, instrs[|instrs|..])) == []
    ensures Bytes(EmitCases(f, rt, |f.blocks|)) == []
  {
  }

  method WriteInstrs(out: Buf, instrs: seq<Instr>, rt: RegTypes)
    requires out.Valid() && forall k :: 0 <= k < |instrs| ==> SmallInstr(instrs[k])
    modifies out, out.d
    ensures Encodable(EmitInstrs(instrs, rt)) && out.Valid()
    ensures out.Contents() == old(out.Contents()) + Bytes(EmitInstrs(instrs, rt))
    ensures out.d == old(out.d) || fresh(out.d)
  {
    hide Bytes, EmitInstrs, EmitInstr, Encodable, SmallInstr;
    InstrsEncodable(instrs, rt);
    ghost var goal := out.Contents() + Bytes(EmitInstrs(instrs, rt));
    var k := 0;
    assert instrs[0..] == instrs;
    while k < |instrs|
      invariant 0 <= k <= |instrs| && out.Valid() && (out.d == old(out.d) || fresh(out.d))
      invariant Encodable(EmitInstrs(instrs[k..], rt)) && out.Contents() + Bytes(EmitInstrs(instrs[k..], rt)) == goal
    {
      InstrsStep(instrs, rt, k);
      Reassoc(out.Contents(), Bytes(EmitInstr(instrs[k], rt)), Bytes(EmitInstrs(instrs[k + 1..], rt)));
      WriteInstr(out, instrs[k], rt);
      k := k + 1;
    }
    NothingLeft(Func([], 0), 0, instrs, rt);
    assert out.Contents() + [] == out.Contents();
  }

  method WriteTerms(out: Buf, f: Func, src: nat, instrs: seq<Instr>)
    requires out.Valid() && Sized(f) && forall k :: 0 <= k < |instrs| ==> SmallInstr(instrs[k])
    modifies out, out.d
    ensures Encodable(EmitTerms(f, src, instrs)) && out.Valid()
    ensures out.Contents() == old(out.Contents()) + Bytes(EmitTerms(f, src, instrs))
    ensures out.d == old(out.d) || fresh(out.d)
  {
    hide Bytes, EmitTerms, EmitTerm, Encodable, SmallInstr, Sized;
    TermsEncodable(f, src, instrs);
    ghost var goal := out.Contents() + Bytes(EmitTerms(f, src, instrs));
    var k := 0;
    assert instrs[0..] == instrs;
    while k < |instrs|
      invariant 0 <= k <= |instrs| && out.Valid() && (out.d == old(out.d) || fresh(out.d))
      invariant Encodable(EmitTerms(f, src, instrs[k..])) &&
        out.Contents() + Bytes(EmitTerms(f, src, instrs[k..])) == goal
    {
      TermsStep(f, src, instrs, k);
      Reassoc(out.Contents(), Bytes(EmitTerm(f, src, instrs[k])), Bytes(EmitTerms(f, src, instrs[k + 1..])));
      WriteTerm(out, f, src, instrs[k]);
      k := k + 1;
    }
    NothingLeft(f, src, instrs, map[]);
    assert out.Contents() + [] == out.Contents();
  }

  method FindTerminator(b: Block) returns (found: bool)
    ensures found == HasTerminator(b)
  {
    var i := 0;
    found := false;
    while i < |b.instrs|
      invariant 0 <= i <= |b.instrs| && forall k :: 0 <= k < i ==> !IsTerminator(b.instrs[k])
    {
      if IsTerminator(b.instrs[i]) { return true; }
      i := i + 1;
    }
  }

  lemma SizedBlock(f: Func, b: nat)
    requires Sized(f) && b < |f.blocks|
    ensures f.nextReg <= INT_MAX && b <= INT_MAX && forall k :: 0 <= k < |f.blocks[b].instrs| ==>
      SmallInstr(f.blocks[b].instrs[k])
  {
    assert SmallBlock(f.blocks[b]);
  }

  /** The bytes of one dispatch case, in the order they are written. */
  function CaseBytes(f: Func, rt: RegTypes, b: nat): seq<Byte>
    requires b < |f.blocks| && Encodable(EmitBlock(f, rt, b))
  {
    OneBytes(Get(f.nextReg)) + OneBytes(Const32(b)) + [0x46] + [0x04] + [0x40] + Bytes(EmitBlock(f, rt, b)) + [END]
  }

  lemma OneArmBytes(thn: seq<W>)
    requires Encodable(thn)
    ensures EncodableOne(If(thn, [])) && OneBytes(If(thn, [])) == [0x04] + [0x40] + Bytes(thn) + [END]
  {
    hide Bytes;
    assert [0x04, 0x40] + Bytes(thn) + [] + [END] == [0x04] + [0x40] + Bytes(thn) + [END];
  }

  lemma TestBytes(c: nat, b: nat)
    ensures EncodableOne(Get(c)) && EncodableOne(Const32(b)) && EncodableOne(Num(0x46)) && OneBytes(Num(0x46)) == [0x46]
  {
  }

  lemma CaseIs(f: Func, rt: RegTypes, b: nat)
    requires b < |f.blocks|
    ensures EmitCase(f, rt, b) == [Get(f.nextReg), Const32(b), Num(0x46), If(EmitBlock(f, rt, b), [])]
  {
    hide EmitBlock;
  }

  lemma CaseBytesAre(f: Func, rt: RegTypes, b: nat)
    requires b < |f.blocks|
    ensures Encodable(EmitBlock(f, rt, b)) && Encodable(EmitCase(f, rt, b))
    ensures Bytes(EmitCase(f, rt, b)) == CaseBytes(f, rt, b)
  {
    hide Bytes, OneBytes, EmitBlock, EmitCase, Encodable, EncodableOne;
    CaseEncodable(f, rt, b);
    CaseIs(f, rt, b);
    TestBytes(f.nextReg, b);
    OneArmBytes(EmitBlock(f, rt, b));
    BytesFour(Get(f.nextReg), Const32(b), Num(0x46), If(EmitBlock(f, rt, b), []));
    CaseAssoc(OneBytes(Get(f.nextReg)) + OneBytes(Const32(b)), Bytes(EmitBlock(f, rt, b)));
  }

  lemma CaseAssoc(head: seq<Byte>, body: seq<Byte>)
    ensures head + [0x46] + ([0x04] + [0x40] + body + [END]) == head + [0x46] + [0x04] + [0x40] + body + [END]
  {
  }

  /** One block; fails where the source reports that control may fall off the end. */
  method WriteCase(out: Buf, f: Func, rt: RegTypes, b: nat) returns (ok: bool)
    requires out.Valid() && Sized(f) && b < |f.blocks|
    modifies out, out.d
    ensures out.Valid() && (out.d == old(out.d) || fresh(out.d)) && ok == HasTerminator(f.blocks[b])
    ensures Encodable(EmitCase(f, rt, b)) && (ok ==> out.Contents() == old(out.Contents()) + Bytes(EmitCase(f, rt, b)))
  {
    hide Bytes, OneBytes, EmitInstrs, EmitTerms, EmitCase, SmallBlock, Sized, Encodable;
    ghost var start := out.Contents();
    CaseBytesAre(f, rt, b);
    SizedBlock(f, b);
    var instrs := f.blocks[b].instrs;
    ghost var body := EmitBlock(f, rt, b);
    InstrsEncodable(instrs, rt);
    TermsEncodable(f, b, instrs);
    BytesConcat(EmitInstrs(instrs, rt), EmitTerms(f, b, instrs));
    ghost var head := OneBytes(Get(f.nextReg)) + OneBytes(Const32(b));
    ghost var lead := head + [0x46] + [0x04] + [0x40];
    Put(out, Get(f.nextReg));
    ThenPut(out, Const32(b), start, OneBytes(Get(f.nextReg)));
    Then(out, 0x46, start, head);
    Then(out, 0x04, start, head + [0x46]);
    Then(out, 0x40, start, head + [0x46] + [0x04]);
    ok := FindTerminator(f.blocks[b]);
    WriteInstrs(out, instrs, rt);
    if !ok { return; }
    WriteTerms(out, f, b, instrs);
    Reassoc(start + lead, Bytes(EmitInstrs(instrs, rt)), Bytes(EmitTerms(f, b, instrs)));
    Reassoc(start, lead, Bytes(body));
    Then(out, END, start, lead + Bytes(body));
  }

  // ---------- the whole body ----------

  method BuildTable(f: Func, params: seq<Ty>) returns (rt: RegTypes)
    ensures rt == BuildRegTypes(f, params)
  {
    rt := map[];
    var p := 0;
    assert params[0..] == params;
    while p < |params|
      invariant 0 <= p <= |params| && NoteParams(rt, p, params[p..]) == NoteParams(map[], 0, params)
    {
      assert params[p..][1..] == params[p + 1..];
      rt := rt[p := params[p]];
      p := p + 1;
    }
    var b := 0;
    assert f.blocks[0..] == f.blocks;
    while b < |f.blocks|
      invariant 0 <= b <= |f.blocks| && NoteBlocks(rt, f.blocks[b..]) == BuildRegTypes(f, params)
    {
      assert f.blocks[b..][1..] == f.blocks[b + 1..];
      rt := TablePhis(rt, f.blocks[b].phis);
      rt := TableInstrs(rt, f.blocks[b].instrs);
      b := b + 1;
    }
  }

  method TablePhis(rt0: RegTypes, phis: seq<Phi>) returns (rt: RegTypes)
    ensures rt == NotePhis(rt0, phis)
  {
    rt := rt0;
    var p := 0;
    assert phis[0..] == phis;
    while p < |phis|
      invariant 0 <= p <= |phis| && NotePhis(rt, phis[p..]) == NotePhis(rt0, phis)
    {
      assert phis[p..][1..] == phis[p + 1..];
      if phis[p].dst < MAX_REGS { rt := rt[phis[p].dst := phis[p].ty]; }
      p := p + 1;
    }
  }

  method TableInstrs(rt0: RegTypes, instrs: seq<Instr>) returns (rt: RegTypes)
    ensures rt == NoteInstrs(rt0, instrs)
  {
    rt := rt0;
    var k := 0;
    assert instrs[0..] == instrs;
    while k < |instrs|
      invariant 0 <= k <= |instrs| && NoteInstrs(rt, instrs[k..]) == NoteInstrs(rt0, instrs)
    {
      assert instrs[k..][1..] == instrs[k + 1..];
      var i := instrs[k];
      if !IsTerminator(i) && i.dst < MAX_REGS { rt := rt[i.dst := DefTy(i)]; }
      k := k + 1;
    }
  }

  function ValType(t: Ty): Byte { if t.Int? then 0x7E else 0x7F }

  /** Groups of one local each. */
  function Groups(types: seq<Ty>): seq<Byte> {
    if types == [] then [] else [1, ValType(types[0])] + Groups(types[1..])
  }

  /** A function body as written: local groups, code, end. */
  function BodyBytes(f: Func, params: seq<Ty>, code: seq<W>): seq<Byte>
    requires |params| <= f.nextReg && Encodable(code)
  {
    Uleb(f.nextReg - |params| + 1) + Groups(LocalTypes(f, params)[|params|..]) + Bytes(code) + [END]
  }

  lemma {:induction false} GroupsConcat(a: seq<Ty>, b: seq<Ty>)
    ensures Groups(a + b) == Groups(a) + Groups(b)
    decreases a
  {
    if a == [] {
      assert a + b == b;
    } else {
      assert (a + b)[0] == a[0] && (a + b)[1..] == a[1..] + b;
      GroupsConcat(a[1..], b);
    }
  }

  method PutGroup(out: Buf, t: Ty, ghost start: seq<Byte>, ghost types: seq<Ty>)
    requires out.Valid() && out.Contents() == start + Groups(types)
    modifies out, out.d
    ensures out.Valid() && out.Contents() == start + Groups(types + [t])
    ensures out.d == old(out.d) || fresh(out.d)
  {
    GroupsConcat(types, [t]);
    assert [t][1..] == [] && Groups([t]) == [1, ValType(t)];
    assert Groups(types) + [1] + [ValType(t)] == Groups(types) + [1, ValType(t)];
    Then(out, 1, start, Groups(types));
    Then(out, ValType(t), start, Groups(types) + [1]);
  }

  /** The declarations of a body's locals beyond its parameters. */
  method WriteLocals(out: Buf, f: Func, rt: RegTypes, params: seq<Ty>)
    requires out.Valid() && Sized(f) && |params| <= f.nextReg && rt == BuildRegTypes(f, params)
    modifies out, out.d
    ensures out.Valid() &&
      out.Contents() == old(out.Contents()) +
      (Uleb(f.nextReg - |params| + 1) + Groups(LocalTypes(f, params)[|params|..]))
    ensures out.d == old(out.d) || fresh(out.d)
  {
    hide Uleb;
    ghost var types := LocalTypes(f, params);
    ghost var start := out.Contents() + Uleb(f.nextReg - |params| + 1);
    ghost var n := |params|;
    out.WriteUleb(f.nextReg - |params| + 1);
    var r := |params|;
    assert types[n..n] == [] && start + Groups([]) == start;
    while r < f.nextReg
      invariant n <= r <= f.nextReg && out.Valid() && (out.d == old(out.d) || fresh(out.d))
      invariant out.Contents() == start + Groups(types[n..r])
    {
      assert types[n..r + 1] == types[n..r] + [types[r]];
      PutGroup(out, TyOf(rt, r), start, types[n..r]);
      r := r + 1;
    }
    assert types[n..] == types[n..r] + [Bool];
    PutGroup(out, Bool, start, types[n..r]);
    Reassoc(old(out.Contents()), Uleb(f.nextReg - |params| + 1), Groups(types[n..]));
  }

  method WriteCases(out: Buf, f: Func, rt: RegTypes) returns (ok: bool)
    requires out.Valid() && Sized(f)
    modifies out, out.d
    ensures out.Valid() && (out.d == old(out.d) || fresh(out.d))
    ensures ok <==> forall b :: 0 <= b < |f.blocks| ==> HasTerminator(f.blocks[b])
    ensures Encodable(EmitCases(f, rt, 0)) &&
      (ok ==> out.Contents() == old(out.Contents()) + Bytes(EmitCases(f, rt, 0)))
  {
    hide Bytes, EmitCases, EmitCase, Encodable, Sized, HasTerminator;
    CasesEncodable(f, rt, 0);
    ghost var goal := out.Contents() + Bytes(EmitCases(f, rt, 0));
    var b := 0;
    while b < |f.blocks|
      invariant 0 <= b <= |f.blocks| && out.Valid() && (out.d == old(out.d) || fresh(out.d))
      invariant forall k :: 0 <= k < b ==> HasTerminator(f.blocks[k])
      invariant Encodable(EmitCases(f, rt, b)) && out.Contents() + Bytes(EmitCases(f, rt, b)) == goal
    {
      CasesStep(f, rt, b);
      Reassoc(out.Contents(), Bytes(EmitCase(f, rt, b)), Bytes(EmitCases(f, rt, b + 1)));
      var closed := WriteCase(out, f, rt, b);
      if !closed { return false; }
      b := b + 1;
    }
    NothingLeft(f, 0, [], rt);
    assert out.Contents() + [] == out.Contents();
    return true;
  }

  lemma LoopBytes(cases: seq<W>)
    requires Encodable(cases)
    ensures Encodable([Loop(cases), Unreachable])
    ensures Bytes([Loop(cases), Unreachable]) == [0x03] + [0x40] + Bytes(cases) + [END] + [0x00]
  {
    hide Bytes, Encodable;
    BytesTwo(Loop(cases), Unreachable);
    assert OneBytes(Loop(cases)) == [0x03, 0x40] + Bytes(cases) + [END] && OneBytes(Unreachable) == [0x00];
    assert [0x03] + [0x40] == [0x03, 0x40];
  }

  /** The bytes of a body's code, in the order they are written. */
  lemma BodyCode(f: Func, params: seq<Ty>)
    requires EmitFuncBody(f, params).Code?
    ensures var code, cases := EmitFuncBody(f, params).code, EmitCases(f, BuildRegTypes(f, params), 0);
      Encodable(code) && Encodable(cases) && EncodableOne(Const32(0)) && EncodableOne(Set(f.nextReg)) &&
      Bytes(code) == Bytes([Const32(0), Set(f.nextReg)]) + [0x03] + [0x40] + Bytes(cases) + [END] + [0x00]
  {
    hide Bytes, OneBytes, EmitCases, BuildRegTypes, Encodable;
    var code, cases := EmitFuncBody(f, params).code, EmitCases(f, BuildRegTypes(f, params), 0);
    CasesEncodable(f, BuildRegTypes(f, params), 0);
    LoopBytes(cases);
    PreludeEncodable(f.nextReg);
    BytesTwo(Const32(0), Set(f.nextReg));
    assert code == [Const32(0), Set(f.nextReg)] + [Loop(cases), Unreachable];
    BytesConcat([Const32(0), Set(f.nextReg)], [Loop(cases), Unreachable]);
    BodyAssoc(Bytes([Const32(0), Set(f.nextReg)]), Bytes(cases));
  }

  lemma PreludeEncodable(pc: nat)
    ensures EncodableOne(Const32(0)) && EncodableOne(Set(pc))
  {
  }

  lemma BodyAssoc(head: seq<Byte>, body: seq<Byte>)
    ensures head + ([0x03] + [0x40] + body + [END] + [0x00]) == head + [0x03] + [0x40] + body + [END] + [0x00]
  {
  }

  /** The code of a body: program counter, dispatch loop, fallback. */
  method WriteCode(out: Buf, f: Func, rt: RegTypes, params: seq<Ty>) returns (ok: bool)
    requires out.Valid() && Sized(f) && rt == BuildRegTypes(f, params)
    modifies out, out.d
    ensures out.Valid() && (out.d == old(out.d) || fresh(out.d)) && ok == EmitFuncBody(f, params).Code?
    ensures ok ==> Encodable(EmitFuncBody(f, params).code)
    ensures ok ==> out.Contents() == old(out.Contents()) + Bytes(EmitFuncBody(f, params).code)
  {
    hide Bytes, OneBytes, EmitCases, BuildRegTypes, Sized, SmallPlain, Encodable;
    ghost var start := out.Contents();
    if EmitFuncBody(f, params).Code? { BodyCode(f, params); }
    WritePrelude(out, f);
    ok := WriteCases(out, f, rt);
    if !ok { return; }
    ghost var lead, body := Bytes([Const32(0), Set(f.nextReg)]) + [0x03] + [0x40], Bytes(EmitCases(f, rt, 0));
    Reassoc(start, lead, body);
    Then(out, END, start, lead + body);
    Then(out, 0x00, start, lead + body + [END]);
  }

  method WritePrelude(out: Buf, f: Func)
    requires out.Valid() && Sized(f)
    modifies out, out.d
    ensures out.Valid() && (out.d == old(out.d) || fresh(out.d)) && Encodable([Const32(0), Set(f.nextReg)])
    ensures out.Contents() == old(out.Contents()) + (Bytes([Const32(0), Set(f.nextReg)]) + [0x03] + [0x40])
  {
    NextRegSmall(f);
    hide Bytes, Sized;
    ghost var start, head := out.Contents(), Bytes([Const32(0), Set(f.nextReg)]);
    PutTwo(out, Const32(0), Set(f.nextReg));
    Then(out, 0x03, start, head);
    Then(out, 0x40, start, head + [0x03]);
  }

  /** Writing a function body: it succeeds exactly for functions whose blocks all
      end in a terminator, and appends the body's bytes. */
  method WriteFuncBody(out: Buf, f: Func, params: seq<Ty>) returns (ok: bool)
    requires out.Valid() && Sized(f) && |params| <= f.nextReg
    modifies out, out.d
    ensures out.Valid() && (out.d == old(out.d) || fresh(out.d)) && ok == EmitFuncBody(f, params).Code?
    ensures ok ==> Encodable(EmitFuncBody(f, params).code)
    ensures ok ==> out.Contents() == old(out.Contents()) + BodyBytes(f, params, EmitFuncBody(f, params).code)
  {
    hide Bytes, EmitCases, Groups, BuildRegTypes, Uleb, Sized, EmitFuncBody;
    var rt := BuildTable(f, params);
    WriteLocals(out, f, rt, params);
    ghost var start := old(out.Contents());
    ghost var locals := Uleb(f.nextReg - |params| + 1) + Groups(LocalTypes(f, params)[|params|..]);
    ok := WriteCode(out, f, rt, params);
    if !ok { return; }
    ghost var code := Bytes(EmitFuncBody(f, params).code);
    Reassoc(start, locals, code);
    Then(out, END, start, locals + code);
  }

  // ---------- reading a body back ----------

  datatype Body = Body(locals: seq<Ty>, code: seq<W>)

  /** `n` groups of locals, each a count and a type. */
  function ReadGroups(n: nat, s: seq<Byte>): Parsed<seq<Ty>>
    decreases n
  {
    if n == 0 then Parsed([], s)
    else
      match ReadUleb(s)
      case Malformed => Bad
      case Got(count, rest) =>
        if rest == [] || (rest[0] != 0x7E && rest[0] != 0x7F) then Bad
        else
          var t := if rest[0] == 0x7E then Int else Bool;
          match ReadGroups(n - 1, rest[1..])
          case Bad => Bad
          case Parsed(more, rest1) => Parsed(seq(count, _ => t) + more, rest1)
  }

  /** A function body: local groups, code, end. */
  function ReadBody(s: seq<Byte>): Parsed<Body> {
    match ReadUleb(s)
    case Malformed => Bad
    case Got(n, rest) =>
      match ReadGroups(n, rest)
      case Bad => Bad
      case Parsed(locals, rest1) =>
        match Parse(rest1)
        case Bad => Bad
        case Parsed(code, rest2) =>
          if rest2 == [] || rest2[0] != 0x0B then Bad else Parsed(Body(locals, code), rest2[1..])
  }

  lemma {:induction false} GroupsRead(types: seq<Ty>, tail: seq<Byte>)
    ensures ReadGroups(|types|, Groups(types) + tail) == Parsed(types, tail)
    decreases types
  {
    if types == [] {
      assert [] + tail == tail;
    } else {
      var t, more := types[0], Groups(types[1..]) + tail;
      var s := Groups(types) + tail;
      assert s == [1] + ([ValType(t)] + more);
      assert s[1..] == [ValType(t)] + more && s[1..][1..] == more;
      assert ReadUleb(s) == Got(1, s[1..]);
      GroupsRead(types[1..], tail);
      assert seq(1, _ => t) + types[1..] == types;
    }
  }

  /** Reading a written body gives back the types of its locals and its code, and
      stops where the body ends. */
  lemma BodyReads(f: Func, params: seq<Ty>, tail: seq<Byte>)
    requires EmitFuncBody(f, params).Code? && |params| <= f.nextReg
    ensures var code := EmitFuncBody(f, params).code;
      Encodable(code) &&
      ReadBody(BodyBytes(f, params, code) + tail) == Parsed(Body(LocalTypes(f, params)[|params|..], code), tail)
  {
    hide Bytes, Parse, Groups, ReadGroups, ReadUleb, Uleb, EmitFuncBody, Encodable;
    BodyCode(f, params);
    var code := EmitFuncBody(f, params).code;
    var types := LocalTypes(f, params)[|params|..];
    var last := [END] + tail;
    var rest1 := Bytes(code) + last;
    var rest := Groups(types) + rest1;
    assert BodyBytes(f, params, code) + tail == Uleb(|types|) + rest;
    UlebRoundTrip(|types|, rest);
    GroupsRead(types, rest1);
    ParseBytes(code, last);
    assert last[0] == END && last[1..] == tail;
  }
}
