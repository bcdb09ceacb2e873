/** The part of WebAssembly that function bodies use: typed values, structured
    control and the numeric instructions by opcode (WebAssembly Core
    Specification, sections 4.4 and 5.4). */
module Wasm {
  import opened Bits

  const TWO31: int := 0x8000_0000

  /** The signed 32-bit value congruent to `x`. */
  function Wrap32(x: int): (r: int)
    ensures -TWO31 <= r < TWO31
    ensures -TWO31 <= x < TWO31 ==> r == x
  {
    (x + TWO31) % TWO32 - TWO31
  }

  datatype Val = V64(n: int) | V32(n: int)

  datatype W =
    | Const64(n: int)
    | Const32(n: int)
    | Get(local: nat)
    | Set(local: nat)
    | Num(opcode: nat)
    | If(thn: seq<W>, els: seq<W>)
    | Loop(body: seq<W>)
    | Escape(depth: nat)
    | Return
    | Unreachable

  type Locals = map<nat, Val>

  datatype Outcome =
    | Next(locals: Locals, stack: seq<Val>)
    | Branch(depth: nat, after: Locals)
    | Returned(v: Val)
    | Trap
    | OutOfFuel

  function Truth32(b: bool): Val { V32(if b then 1 else 0) }

  /** The numeric instruction with the given opcode on its two operands; a type
      mismatch traps. */
  function NumValue(opcode: nat, x: Val, y: Val): (r: seq<Val>) {
    match (x, y)
    case (V64(a), V64(b)) =>
      if opcode == 0x7C then [V64(Wrap64(a + b))]
      else if opcode == 0x7D then [V64(Wrap64(a - b))]
      else if opcode == 0x7E then [V64(Wrap64(a * b))]
      else if opcode == 0x51 then [Truth32(a == b)]
      else if opcode == 0x52 then [Truth32(a != b)]
      else if opcode == 0x53 then [Truth32(a < b)]
      else if opcode == 0x55 then [Truth32(a > b)]
      else if opcode == 0x57 then [Truth32(a <= b)]
      else if opcode == 0x59 then [Truth32(a >= b)]
      else []
    case (V32(a), V32(b)) =>
      if opcode == 0x46 then [Truth32(a == b)]
      else if opcode == 0x47 then [Truth32(a != b)]
      else if opcode == 0x48 then [Truth32(a < b)]
      else if opcode == 0x4A then [Truth32(a > b)]
      else if opcode == 0x4C then [Truth32(a <= b)]
      else if opcode == 0x4E then [Truth32(a >= b)]
      else if opcode == 0x71 then [V32(Wrap32(BitAnd(a % TWO32, b % TWO32)))]
      else if opcode == 0x72 then [V32(Wrap32(BitOr(a % TWO32, b % TWO32)))]
      else if opcode == 0x73 then [V32(Wrap32(BitXor(a % TWO32, b % TWO32)))]
      else []
    case _ => []
  }

  /** Effect of an instruction without control flow; anything else traps. */
  function Simple(i: W, l: Locals, s: seq<Val>): Outcome {
    match i
    case Const64(n) => Next(l, s + [V64(n)])
    case Const32(n) => Next(l, s + [V32(n)])
    case Get(k) => if k in l then Next(l, s + [l[k]]) else Trap
    case Set(k) =>
      if s != [] && k in l && l[k].V64? == s[|s| - 1].V64? then Next(l[k := s[|s| - 1]], s[..|s| - 1]) else Trap
    case Num(op) =>
      if |s| >= 2 && NumValue(op, s[|s| - 2], s[|s| - 1]) != []
      then Next(l, s[..|s| - 2] + NumValue(op, s[|s| - 2], s[|s| - 1])) else Trap
    case Return => if s != [] then Returned(s[|s| - 1]) else Trap
    case Escape(d) => Branch(d, l)
    case _ => Trap
  }

  /** Running a sequence; `fuel` bounds how often loops are re-entered. */
  function Exec(code: seq<W>, l: Locals, s: seq<Val>, fuel: nat): Outcome
    decreases fuel, code
  {
    if code == [] then Next(l, s)
    else
      match code[0]
      case If(thn, els) =>
        if s == [] || !s[|s| - 1].V32? then Trap
        else
          var r := Exec(if s[|s| - 1].n != 0 then thn else els, l, [], fuel);
          (match r
           case Next(l1, _) => Exec(code[1..], l1, s[..|s| - 1], fuel)
           case Branch(d, l1) => if d == 0 then Exec(code[1..], l1, s[..|s| - 1], fuel) else Branch(d - 1, l1)
           case _ => r)
      case Loop(body) =>
        var r := Exec(body, l, [], fuel);
        (match r
         case Next(l1, _) => Exec(code[1..], l1, s, fuel)
         case Branch(d, l1) =>
           if d > 0 then Branch(d - 1, l1) else if fuel == 0 then OutOfFuel else Exec(code, l1, s, fuel - 1)
         case _ => r)
      case i =>
        var r := Simple(i, l, s);
        if r.Next? then Exec(code[1..], r.locals, r.stack, fuel) else r
  }

  /** A function body returns what it returns, or what it leaves on the stack. */
  function Call(code: seq<W>, l: Locals, fuel: nat): Outcome {
    var r := Exec(code, l, [], fuel);
    if r.Next? && r.stack != [] then Returned(r.stack[|r.stack| - 1]) else if r.Next? || r.Branch? then Trap else r
  }

  lemma {:induction false} ExecConcat(a: seq<W>, b: seq<W>, l: Locals, s: seq<Val>, fuel: nat)
    requires forall i :: 0 <= i < |a| ==> !a[i].Loop?
    ensures var r := Exec(a, l, s, fuel);
      Exec(a + b, l, s, fuel) == (if r.Next? then Exec(b, r.locals, r.stack, fuel) else r)
    decreases a
  {
    if a == [] {
      assert a + b == b;
    } else {
      assert (a + b)[0] == a[0] && (a + b)[1..] == a[1..] + b;
      if a[0].If? {
        if s != [] && s[|s| - 1].V32? {
          var r := Exec(if s[|s| - 1].n != 0 then a[0].thn else a[0].els, l, [], fuel);
          if r.Next? { ExecConcat(a[1..], b, r.locals, s[..|s| - 1], fuel); }
          if r.Branch? && r.depth == 0 { ExecConcat(a[1..], b, r.after, s[..|s| - 1], fuel); }
        }
      } else {
        var r := Simple(a[0], l, s);
        if r.Next? { ExecConcat(a[1..], b, r.locals, r.stack, fuel); }
      }
    }
  }

  /** A simple instruction at the front is one step. */
  lemma ExecSimple(i: W, rest: seq<W>, l: Locals, s: seq<Val>, fuel: nat)
    requires !i.If? && !i.Loop?
    ensures Exec([i] + rest, l, s, fuel) ==
            (var r := Simple(i, l, s); if r.Next? then Exec(rest, r.locals, r.stack, fuel) else r)
  {
    assert ([i] + rest)[1..] == rest;
  }

  lemma ExecIf(thn: seq<W>, els: seq<W>, rest: seq<W>, l: Locals, c: int, fuel: nat)
    ensures Exec([If(thn, els)] + rest, l, [V32(c)], fuel) ==
            (match Exec(if c != 0 then thn else els, l, [], fuel)
             case Next(l1, _) => Exec(rest, l1, [], fuel)
             case Branch(d, l1) => if d == 0 then Exec(rest, l1, [], fuel) else Branch(d - 1, l1)
             case r => r)
  {
    assert ([If(thn, els)] + rest)[1..] == rest;
    assert [V32(c)][..0] == [];
  }

  /** A branch to the loop's start goes round again. */
  lemma ExecLoop(body: seq<W>, rest: seq<W>, l: Locals, fuel: nat)
    ensures Exec([Loop(body)] + rest, l, [], fuel) ==
            (match Exec(body, l, [], fuel)
             case Next(l1, _) => Exec(rest, l1, [], fuel)
             case Branch(d, l1) =>
               if d > 0 then Branch(d - 1, l1)
               else if fuel == 0 then OutOfFuel else Exec([Loop(body)] + rest, l1, [], fuel - 1)
             case r => r)
  {
    assert ([Loop(body)] + rest)[1..] == rest;
  }
}
