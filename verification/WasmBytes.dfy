/** The bytes of function bodies (src/emit_wasm.c): what is written decodes to
    exactly the structured code it stands for. */
module WasmBytes {
  import opened Leb128
  import opened Ir
  import opened Wasm
  import opened WasmEmit

  const END := 0x0B
  const ELSE := 0x05

  /** Numeric opcodes the backend uses. */
  predicate Numeric(op: nat) { 0x46 <= op <= 0x59 || 0x71 <= op <= 0x73 || 0x7C <= op <= 0x7E }

  predicate Encodable(code: seq<W>)
    decreases code
  {
    forall k :: 0 <= k < |code| ==> EncodableOne(code[k])
  }

  predicate EncodableOne(i: W)
    decreases i
  {
    match i
    case Num(op) => Numeric(op)
    case If(t, e) => Encodable(t) && Encodable(e)
    case Loop(b) => Encodable(b)
    case _ => true
  }

  /** An `if` without an else part has no else byte. */
  function Bytes(code: seq<W>): seq<Byte>
    requires Encodable(code)
    decreases code
  {
    if code == [] then [] else OneBytes(code[0]) + Bytes(code[1..])
  }

  function OneBytes(i: W): (r: seq<Byte>)
    requires EncodableOne(i)
    ensures r != []
    decreases i
  {
    match i
    case Const64(n) => [0x42] + Sleb(n)
    case Const32(n) => [0x41] + Sleb(n)
    case Get(k) => [0x20] + Uleb(k)
    case Set(k) => [0x21] + Uleb(k)
    case Num(op) => [op]
    case If(t, e) => [0x04, 0x40] + Bytes(t) + (if e == [] then [] else [ELSE] + Bytes(e)) + [END]
    case Loop(b) => [0x03, 0x40] + Bytes(b) + [END]
    case Escape(d) => [0x0C] + Uleb(d)
    case Return => [0x0F]
    case Unreachable => [0x00]
  }

  datatype Parsed<T> = Parsed(value: T, rest: seq<Byte>) | Bad

  /** Instructions up to an end or else byte, or the end of input. */
  function Parse(s: seq<Byte>): (r: Parsed<seq<W>>)
    ensures r.Parsed? ==> |r.rest| <= |s|
    decreases |s|, 1
  {
    if s == [] || s[0] == 0x0B || s[0] == 0x05 then Parsed([], s)
    else
      match ParseOne(s)
      case Bad => Bad
      case Parsed(i, rest) =>
        (match Parse(rest)
         case Bad => Bad
         case Parsed(more, rest1) => Parsed([i] + more, rest1))
  }

  function ParseOne(s: seq<Byte>): (r: Parsed<W>)
    requires s != []
    ensures r.Parsed? ==> |r.rest| < |s|
    decreases |s|, 0
  {
    var op, t := s[0], s[1..];
    if op == 0x42 || op == 0x41 then
      SlebShrinks(t);
      (match ReadSleb(t) case Got(n, rest) => Parsed(if op == 0x42 then Const64(n) else Const32(n),
        rest) case Malformed => Bad)
    else if op == 0x20 || op == 0x21 || op == 0x0C then
      UlebShrinks(t);
      (match ReadUleb(t)
       case Got(n, rest) => Parsed(if op == 0x20 then Get(n) else if op == 0x21 then Set(n) else Escape(n), rest)
       case Malformed => Bad)
    else if op == 0x0F then Parsed(Return, t)
    else if op == 0x00 then Parsed(Unreachable, t)
    else if Numeric(op) then Parsed(Num(op), t)
    else if (op == 0x04 || op == 0x03) && t != [] && t[0] == 0x40 then ParseNested(op, t[1..])
    else Bad
  }

  /** The body of an `if` or `loop`, after its block type. */
  function ParseNested(op: Byte, s: seq<Byte>): (r: Parsed<W>)
    ensures r.Parsed? ==> |r.rest| < |s|
    decreases |s|, 2
  {
    match Parse(s)
    case Bad => Bad
    case Parsed(body, rest) =>
      if rest == [] then Bad
      else if op == 0x03 then (if rest[0] == 0x0B then Parsed(Loop(body), rest[1..]) else Bad)
      else if rest[0] == 0x0B then Parsed(If(body, []), rest[1..])
      else
        match Parse(rest[1..])
        case Bad => Bad
        case Parsed(other, rest1) => if rest1 != [] &&
        rest1[0] == 0x0B then Parsed(If(body, other), rest1[1..]) else Bad
  }

  lemma {:induction false} SlebShrinks(s: seq<Byte>)
    ensures ReadSleb(s).Got? ==> |ReadSleb(s).rest| < |s|
    decreases s
  {
    if s != [] && s[0] >= 128 { SlebShrinks(s[1..]); }
  }

  lemma {:induction false} UlebShrinks(s: seq<Byte>)
    ensures ReadUleb(s).Got? ==> |ReadUleb(s).rest| < |s|
    decreases s
  {
    if s != [] && s[0] >= 128 { UlebShrinks(s[1..]); }
  }

  predicate Stops(tail: seq<Byte>) { tail == [] || tail[0] == 0x0B || tail[0] == 0x05 }

  /** Decoding gives back the code and stops at its end. */
  lemma {:induction false} ParseBytes(code: seq<W>, tail: seq<Byte>)
    requires Encodable(code) && Stops(tail)
    ensures Parse(Bytes(code) + tail) == Parsed(code, tail)
    decreases code, 2
  {
    hide OneBytes, EncodableOne, ParseOne;
    if code == [] {
      assert Bytes(code) + tail == tail;
    } else {
      var onward := Bytes(code[1..]) + tail;
      assert Bytes(code) + tail == OneBytes(code[0]) + onward;
      ParseOneBytes(code[0], onward);
      ParseBytes(code[1..], tail);
      assert [code[0]] + code[1..] == code;
      FirstByte(code[0], onward);
    }
  }

  lemma FirstByte(i: W, tail: seq<Byte>)
    requires EncodableOne(i)
    ensures var s := OneBytes(i) + tail; s != [] && s[0] != END && s[0] != ELSE
  {
  }

  lemma {:induction false} ParseOneBytes(i: W, tail: seq<Byte>)
    requires EncodableOne(i)
    ensures ParseOne(OneBytes(i) + tail) == Parsed(i, tail)
    decreases i, 1
  {
    hide Parse, ParseNested, Bytes, Sleb, Uleb, ReadSleb, ReadUleb;
    var s := OneBytes(i) + tail;
    match i
    case Const64(n) =>
      assert s[1..] == Sleb(n) + tail;
      SlebRoundTrip(n, tail);
    case Const32(n) =>
      assert s[1..] == Sleb(n) + tail;
      SlebRoundTrip(n, tail);
    case Get(k) =>
      assert s[1..] == Uleb(k) + tail;
      UlebRoundTrip(k, tail);
    case Set(k) =>
      assert s[1..] == Uleb(k) + tail;
      UlebRoundTrip(k, tail);
    case Escape(d) =>
      assert s[1..] == Uleb(d) + tail;
      UlebRoundTrip(d, tail);
    case Num(op) => assert s[1..] == tail;
    case Return => assert s[1..] == tail;
    case Unreachable => assert s[1..] == tail;
    case Loop(b) =>
      var inside := Bytes(b) + ([END] + tail);
      assert s[1..][1..] == inside;
      ParseLoop(b, tail);
      assert ParseOne(s) == ParseNested(0x03, inside);
    case If(t, e) =>
      var inside := Bytes(t) + ((if e == [] then [] else [ELSE] + Bytes(e)) + ([END] + tail));
      assert s[1..][1..] == inside;
      ParseIf(t, e, tail);
      assert ParseOne(s) == ParseNested(0x04, inside);
  }

  lemma {:induction false} ParseLoop(b: seq<W>, tail: seq<Byte>)
    requires Encodable(b)
    ensures ParseNested(0x03, Bytes(b) + ([END] + tail)) == Parsed(Loop(b), tail)
    decreases Loop(b), 0
  {
    hide Parse, ParseOne, OneBytes, Bytes;
    var last := [END] + tail;
    assert last[1..] == tail;
    ParseBytes(b, last);
  }

  lemma {:induction false} ParseIf(t: seq<W>, e: seq<W>, tail: seq<Byte>)
    requires Encodable(t) && Encodable(e)
    ensures var inside := Bytes(t) + ((if e == [] then [] else [ELSE] + Bytes(e)) + ([END] + tail));
      ParseNested(0x04, inside) == Parsed(If(t, e), tail)
    decreases If(t, e), 0
  {
    hide Parse, ParseOne, OneBytes, Bytes;
    var last := [END] + tail;
    assert last[1..] == tail;
    if e == [] {
      assert [] + last == last;
      ParseBytes(t, last);
    } else {
      var other := ([ELSE] + Bytes(e)) + last;
      assert other[1..] == Bytes(e) + last;
      ParseBytes(t, other);
      ParseBytes(e, last);
    }
  }

  // ---------- what the backend writes ----------

  lemma {:induction false} BytesConcat(a: seq<W>, b: seq<W>)
    requires Encodable(a) && Encodable(b)
    ensures Encodable(a + b) && Bytes(a + b) == Bytes(a) + Bytes(b)
    decreases a
  {
    if a == [] {
      assert a + b == b;
    } else {
      assert (a + b)[1..] == a[1..] + b;
      BytesConcat(a[1..], b);
    }
  }

  lemma {:induction false} MovesEncodable(moves: seq<Move>)
    ensures Encodable(EmitMoves(moves))
    decreases moves
  {
    if moves != [] {
      MovesEncodable(moves[1..]);
      BytesConcat([Get(moves[0].src), Set(moves[0].dst)], EmitMoves(moves[1..]));
    }
  }

  lemma {:induction false} MovesConcat(a: seq<Move>, b: seq<Move>)
    ensures EmitMoves(a + b) == EmitMoves(a) + EmitMoves(b)
    decreases a
  {
    if a == [] {
      assert a + b == b;
    } else {
      assert (a + b)[1..] == a[1..] + b;
      MovesConcat(a[1..], b);
    }
  }

  lemma InstrEncodable(i: Instr, rt: RegTypes)
    ensures Encodable(EmitInstr(i, rt))
  {
  }

  lemma {:induction false} InstrsEncodable(instrs: seq<Instr>, rt: RegTypes)
    ensures Encodable(EmitInstrs(instrs, rt))
    decreases instrs
  {
    if instrs != [] {
      InstrEncodable(instrs[0], rt);
      InstrsEncodable(instrs[1..], rt);
      BytesConcat(EmitInstr(instrs[0], rt), EmitInstrs(instrs[1..], rt));
    }
  }

  lemma GoToEncodable(f: Func, src: nat, target: nat)
    ensures Encodable(EmitPhiMoves(f, src, target)) && Encodable(GoTo(f, src, target))
  {
    if target < |f.blocks| { MovesEncodable(Moves(f.blocks[target].phis, src)); }
    BytesConcat(EmitPhiMoves(f, src, target), [Const32(target), Set(f.nextReg)]);
  }

  lemma TermEncodable(f: Func, src: nat, i: Instr)
    ensures Encodable(EmitTerm(f, src, i))
  {
    match i
    case Br(t) =>
      GoToEncodable(f, src, t);
      BytesConcat(GoTo(f, src, t), [Escape(1)]);
    case Cbr(c, t, e) =>
      GoToEncodable(f, src, t);
      GoToEncodable(f, src, e);
    case _ =>
  }

  lemma {:induction false} TermsEncodable(f: Func, src: nat, instrs: seq<Instr>)
    ensures Encodable(EmitTerms(f, src, instrs))
    decreases instrs
  {
    if instrs != [] {
      TermEncodable(f, src, instrs[0]);
      TermsEncodable(f, src, instrs[1..]);
      BytesConcat(EmitTerm(f, src, instrs[0]), EmitTerms(f, src, instrs[1..]));
    }
  }

  lemma CaseEncodable(f: Func, rt: RegTypes, b: nat)
    requires b < |f.blocks|
    ensures Encodable(EmitBlock(f, rt, b)) && Encodable(EmitCase(f, rt, b))
  {
    InstrsEncodable(f.blocks[b].instrs, rt);
    TermsEncodable(f, b, f.blocks[b].instrs);
    BytesConcat(EmitInstrs(f.blocks[b].instrs, rt), EmitTerms(f, b, f.blocks[b].instrs));
  }

  lemma {:induction false} CasesEncodable(f: Func, rt: RegTypes, b: nat)
    requires b <= |f.blocks|
    ensures Encodable(EmitCases(f, rt, b))
    decreases |f.blocks| - b
  {
    if b < |f.blocks| {
      CaseEncodable(f, rt, b);
      CasesEncodable(f, rt, b + 1);
      BytesConcat(EmitCase(f, rt, b), EmitCases(f, rt, b + 1));
    }
  }

  /** The bytes written for a function's code decode to the code whose meaning was
      established: decoding the body gives exactly the dispatch loop. */
  lemma BodyDecodes(f: Func, params: seq<Ty>)
    requires EmitFuncBody(f, params).Code?
    ensures var code := EmitFuncBody(f, params).code;
      Encodable(code) && Parse(Bytes(code) + [0x0B]) == Parsed(code, [0x0B])
  {
    var cases := EmitCases(f, BuildRegTypes(f, params), 0);
    CasesEncodable(f, BuildRegTypes(f, params), 0);
    var code := EmitFuncBody(f, params).code;
    assert EncodableOne(Loop(cases));
    ParseBytes(code, [END]);
  }
}
