/** The runtime's JSON scanner on positions in a NUL-terminated text (include/runtime_aux.h,
    tiq_json_*). A position of -1 stands for a null pointer. */
module JsonText {
  import opened Leb128

  const NUL: Byte := 0
  const QUOTE: Byte := 34
  const COMMA: Byte := 44
  const COLON: Byte := 58
  const BACKSLASH: Byte := 92
  const LBRACKET: Byte := 91
  const RBRACKET: Byte := 93
  const LBRACE: Byte := 123
  const RBRACE: Byte := 125
  const NEWLINE: Byte := 10
  const TAB: Byte := 9
  const RETURN: Byte := 13

  /** The byte at `p`; the text ends in a NUL. */
  function Char(s: seq<Byte>, p: nat): Byte { if p < |s| then s[p] else NUL }

  predicate Space(c: Byte) { c == 32 || c == TAB || c == NEWLINE || c == RETURN }

  // ---------- encoding a string ----------

  function Escape(c: Byte): (r: seq<Byte>)
    ensures 1 <= |r| <= 2
  {
    if c == QUOTE then [BACKSLASH, QUOTE] else if c == BACKSLASH then [BACKSLASH, BACKSLASH]
    else if c == NEWLINE then [BACKSLASH, 110] else [c]
  }

  function Body(x: seq<Byte>): (r: seq<Byte>)
    ensures |x| <= |r| <= 2 * |x|
  {
    if x == [] then [] else Escape(x[0]) + Body(x[1..])
  }

  function Encode(x: seq<Byte>): seq<Byte> { [QUOTE] + (Body(x) + [QUOTE]) }

  // ---------- scanning ----------

  function Ws(s: seq<Byte>, p: nat): (r: nat)
    ensures r >= p
    decreases |s| - p
  {
    if p < |s| && Space(s[p]) then Ws(s, p + 1) else p
  }

  /** From inside a string to just after its closing quote. */
  function StrScan(s: seq<Byte>, p: nat): (r: int)
    ensures r == -1 || p < r <= |s|
    decreases |s| - p
  {
    if Char(s, p) == NUL then -1
    else if Char(s, p) == QUOTE then p + 1
    else if Char(s, p) == BACKSLASH && Char(s, p + 1) != NUL then StrScan(s, p + 2)
    else StrScan(s, p + 1)
  }

  function StrEnd(s: seq<Byte>, p: nat): (r: int)
    ensures r == -1 || p < r <= |s|
  {
    if Char(s, p) != QUOTE then -1 else StrScan(s, p + 1)
  }

  predicate Open(c: Byte) { c == LBRACE || c == LBRACKET }
  predicate Close(c: Byte) { c == RBRACE || c == RBRACKET }

  /** To just after the bracket that brings `depth` back to zero. */
  function DepthScan(s: seq<Byte>, p: nat, depth: int): (r: int)
    ensures r == -1 || p < r <= |s|
    decreases |s| - p
  {
    var c := Char(s, p);
    if c == NUL then -1
    else if c == QUOTE then
      var e := StrEnd(s, p);
      if e < 0 then -1 else DepthScan(s, e, depth)
    else if Open(c) then DepthScan(s, p + 1, depth + 1)
    else if Close(c) then if depth - 1 == 0 then p + 1 else DepthScan(s, p + 1, depth - 1)
    else DepthScan(s, p + 1, depth)
  }

  predicate Stop(c: Byte) { c == NUL || c == COMMA || Close(c) || Space(c) }

  function AtomScan(s: seq<Byte>, p: nat): (r: nat)
    ensures p <= r <= |s| || r == p
    decreases |s| - p
  {
    if Stop(Char(s, p)) then p else AtomScan(s, p + 1)
  }

  function ValueEnd(s: seq<Byte>, p: nat): (r: int)
    ensures r == -1 || p < r <= |s|
  {
    if Char(s, p) == QUOTE then StrEnd(s, p)
    else if Open(Char(s, p)) then DepthScan(s, p, 0)
    else if AtomScan(s, p) == p then -1 else AtomScan(s, p)
  }

  // ---------- copying a value out ----------

  function Unescaped(c: Byte): Byte
      { if c == 110 then NEWLINE else if c == 116 then TAB else if c == 114 then RETURN else c }

  function Unescape(s: seq<Byte>, q: nat, e: int): (r: seq<Byte>)
    requires e <= |s|
    ensures |r| <= if q < e then e - q else 0
    decreases e - q
  {
    if q >= e then []
    else if s[q] == BACKSLASH && q + 1 < e then [Unescaped(s[q + 1])] + Unescape(s, q + 2, e)
    else [s[q]] + Unescape(s, q + 1, e)
  }

  function CopyValue(s: seq<Byte>, vs: nat, ve: int): seq<Byte>
    requires vs < ve <= |s|
  {
    if s[vs] == QUOTE then Unescape(s, vs + 1, ve - 1) else s[vs..ve]
  }

  // ---------- arrays ----------

  /** From the start of an element; `count` elements before it. */
  function LenFrom(s: seq<Byte>, p: nat, count: nat): nat
    decreases |s| - p
  {
    if Char(s, p) == NUL then 0
    else if Char(s, p) == RBRACKET then count
    else
      var ve := ValueEnd(s, p);
      if ve < 0 then 0
      else
        var q := Ws(s, ve);
        if Char(s, q) == COMMA then LenFrom(s, Ws(s, q + 1), count + 1) else if Char(s, q) == RBRACKET then count + 1
          else 0
  }

  function ArrLen(s: seq<Byte>): nat {
    var p := Ws(s, 0);
    if Char(s, p) != LBRACKET then 0 else LenFrom(s, Ws(s, p + 1), 0)
  }

  function GetFrom(s: seq<Byte>, p: nat, i: nat): seq<Byte>
    decreases |s| - p
  {
    if Char(s, p) == NUL || Char(s, p) == RBRACKET then []
    else
      var ve := ValueEnd(s, p);
      if ve < 0 then []
      else if i == 0 then CopyValue(s, p, ve)
      else
        var q := Ws(s, ve);
        if Char(s, q) == COMMA then GetFrom(s, Ws(s, q + 1), i - 1) else []
  }

  function ArrGet(s: seq<Byte>, i: int): seq<Byte> {
    var p := Ws(s, 0);
    if i < 0 || Char(s, p) != LBRACKET then [] else GetFrom(s, Ws(s, p + 1), i)
  }

  // ---------- objects ----------

  /** The spelling between the quotes at `p` and before `ke`. */
  predicate KeyIs(s: seq<Byte>, p: nat, ke: int, key: seq<Byte>)
    requires ke <= |s|
  {
    p + 1 <= ke - 1 && s[p + 1..ke - 1] == key
  }

  /** The value of the first member whose key, as spelled, is `key`. */
  function FindFrom(s: seq<Byte>, p: nat, key: seq<Byte>): seq<Byte>
    decreases |s| - p
  {
    if Char(s, p) == NUL || Char(s, p) == RBRACE then []
    else
      var ke := StrEnd(s, p);
      if ke < 0 then []
      else
        var colon := Ws(s, ke);
        if Char(s, colon) != COLON then []
        else
          var vs := Ws(s, colon + 1);
          var ve := ValueEnd(s, vs);
          if ve < 0 then []
          else if KeyIs(s, p, ke, key) then CopyValue(s, vs, ve)
          else
            var q := Ws(s, ve);
            if Char(s, q) == COMMA then FindFrom(s, Ws(s, q + 1), key) else []
  }

  function Get(s: seq<Byte>, key: seq<Byte>): seq<Byte> {
    var p := Ws(s, 0);
    if Char(s, p) != LBRACE then [] else FindFrom(s, Ws(s, p + 1), key)
  }

  // ---------- the same as loops ----------

  /** Fill a buffer of `2 * len + 3` bytes with the encoded string and its NUL. */
  method EncodeStr(str: seq<Byte>) returns (buf: array<Byte>, len: nat)
    ensures fresh(buf) && buf.Length == 2 * |str| + 3
    ensures len < buf.Length && buf[..len] == Encode(str) && buf[len] == NUL
  {
    hide Body;
    buf := new Byte[2 * |str| + 3];
    var pos := 0;
    buf[pos] := QUOTE;
    pos := pos + 1;
    var i := 0;
    EmptyBody();
    while i < |str|
      invariant 0 <= i <= |str| && 1 <= pos <= 2 * i + 1
      invariant buf[..pos] == [QUOTE] + Body(str[..i])
    {
      BodyMore(str[..i], str[i]);
      assert str[..i + 1] == str[..i] + [str[i]];
      pos := PutEscaped(buf, pos, str[i]);
      Assoc([QUOTE], Body(str[..i]), Escape(str[i]));
      i := i + 1;
    }
    assert str[..i] == str;
    Assoc([QUOTE], Body(str), [QUOTE]);
    pos := PutByte(buf, pos, QUOTE);
    buf[pos] := NUL;
    len := pos;
  }

  method PutEscaped(buf: array<Byte>, pos: nat, c: Byte) returns (next: nat)
    requires pos + 2 <= buf.Length
    modifies buf
    ensures pos < next <= pos + 2 && buf[..next] == old(buf[..pos]) + Escape(c)
  {
    if Escape(c) != [c] {
      next := PutByte(buf, pos, BACKSLASH);
      next := PutByte(buf, next, if c == NEWLINE then 110 else c);
    } else {
      next := PutByte(buf, pos, c);
    }
  }

  method PutByte(buf: array<Byte>, pos: nat, c: Byte) returns (next: nat)
    requires pos < buf.Length
    modifies buf
    ensures next == pos + 1 && buf[..next] == old(buf[..pos]) + [c]
  {
    buf[pos] := c;
    next := pos + 1;
  }

  lemma EmptyBody()
    ensures Body([]) == []
  {
  }

  lemma {:induction false} BodyMore(x: seq<Byte>, c: Byte)
    ensures Body(x + [c]) == Body(x) + Escape(c)
  {
    if x == [] {
      assert [c][1..] == [];
      assert x + [c] == [c];
    } else {
      assert (x + [c])[1..] == x[1..] + [c];
      BodyMore(x[1..], c);
    }
  }

  method ScanStr(s: seq<Byte>, start: nat) returns (r: int)
    ensures r == StrEnd(s, start)
  {
    if Char(s, start) != QUOTE { return -1; }
    var p := start + 1;
    while Char(s, p) != NUL && Char(s, p) != QUOTE
      invariant p > start && StrScan(s, p) == StrScan(s, start + 1)
      decreases |s| - p
    {
      if Char(s, p) == BACKSLASH && Char(s, p + 1) != NUL { p := p + 1; }
      p := p + 1;
    }
    return if Char(s, p) == QUOTE then p + 1 else -1;
  }

  method SkipSpace(s: seq<Byte>, start: nat) returns (p: nat)
    ensures p == Ws(s, start)
  {
    p := start;
    while p < |s| && Space(s[p])
      invariant Ws(s, p) == Ws(s, start)
      decreases |s| - p
    {
      p := p + 1;
    }
  }

  method ScanValue(s: seq<Byte>, start: nat) returns (r: int)
    ensures r == ValueEnd(s, start)
  {
    if Char(s, start) == QUOTE {
      r := ScanStr(s, start);
      return;
    }
    var p := start;
    if Open(Char(s, start)) {
      var depth := 0;
      while Char(s, p) != NUL
        invariant DepthScan(s, p, depth) == DepthScan(s, start, 0)
        decreases |s| - p
      {
        var c := Char(s, p);
        if c == QUOTE {
          var e := ScanStr(s, p);
          if e < 0 { return -1; }
          p := e;
        } else {
          if Open(c) {
            depth := depth + 1;
          } else if Close(c) {
            depth := depth - 1;
            if depth == 0 { return p + 1; }
          }
          p := p + 1;
        }
      }
      return -1;
    }
    while !Stop(Char(s, p))
      invariant start <= p && AtomScan(s, p) == AtomScan(s, start)
      decreases |s| - p
    {
      p := p + 1;
    }
    return if p == start then -1 else p;
  }

  /** Copy into a buffer one byte longer than the value's text. */
  method CopyOut(s: seq<Byte>, vs: nat, ve: nat) returns (buf: array<Byte>, len: nat)
    requires vs < ve <= |s|
    ensures fresh(buf) && buf.Length == ve - vs + 1
    ensures len < buf.Length && buf[..len] == CopyValue(s, vs, ve) && buf[len] == NUL
  {
    buf := new Byte[ve - vs + 1];
    if s[vs] == QUOTE {
      len := CopyUnescaped(s, vs + 1, ve - 1, buf);
    } else {
      len := CopyRaw(s, vs, ve, buf);
    }
    buf[len] := NUL;
  }

  method CopyUnescaped(s: seq<Byte>, start: nat, e: nat, buf: array<Byte>) returns (pos: nat)
    requires e <= |s| && (if start < e then e - start else 0) < buf.Length
    modifies buf
    ensures pos < buf.Length && buf[..pos] == Unescape(s, start, e)
  {
    hide Unescaped;
    pos := 0;
    var q := start;
    while q < e
      invariant start <= q && pos <= q - start && (q <= e || q == start)
      invariant pos <= buf.Length && buf[..pos] + Unescape(s, q, e) == Unescape(s, start, e)
      decreases e - q
    {
      ghost var done, rest := buf[..pos], Unescape(s, q, e);
      var c := s[q];
      if c == BACKSLASH && q + 1 < e {
        c := Unescaped(s[q + 1]);
        q := q + 2;
      } else {
        q := q + 1;
      }
      assert rest == [c] + Unescape(s, q, e);
      buf[pos] := c;
      pos := pos + 1;
      assert buf[..pos] == done + [c];
      Assoc(done, [c], Unescape(s, q, e));
    }
    assert Unescape(s, q, e) == [];
  }

  lemma Assoc(a: seq<Byte>, b: seq<Byte>, c: seq<Byte>)
    ensures a + (b + c) == (a + b) + c
  {
  }

  method CopyRaw(s: seq<Byte>, vs: nat, ve: nat, buf: array<Byte>) returns (pos: nat)
    requires vs < ve <= |s| && ve - vs < buf.Length
    modifies buf
    ensures pos == ve - vs && buf[..pos] == s[vs..ve]
  {
    pos := 0;
    while pos < ve - vs
      invariant 0 <= pos <= ve - vs && forall k :: 0 <= k < pos ==> buf[k] == s[vs + k]
    {
      buf[pos] := s[vs + pos];
      pos := pos + 1;
    }
  }

  method ArrayLength(s: seq<Byte>) returns (n: nat)
    ensures n == ArrLen(s)
  {
    var p := SkipSpace(s, 0);
    if Char(s, p) != LBRACKET { return 0; }
    p := SkipSpace(s, p + 1);
    n := 0;
    ghost var first := p;
    while Char(s, p) != NUL && Char(s, p) != RBRACKET
      invariant LenFrom(s, p, n) == LenFrom(s, first, 0)
      decreases |s| - p
    {
      var ve := ScanValue(s, p);
      if ve < 0 { return 0; }
      var q := SkipSpace(s, ve);
      if Char(s, q) != COMMA { return if Char(s, q) == RBRACKET then n + 1 else 0; }
      n := n + 1;
      p := SkipSpace(s, q + 1);
    }
    if Char(s, p) != RBRACKET { return 0; }
  }

  /** The copied element, or an empty string. */
  method ArrayGet(s: seq<Byte>, index: int) returns (buf: array<Byte>, len: nat)
    ensures fresh(buf) && len < buf.Length && buf[..len] == ArrGet(s, index) && buf[len] == NUL
  {
    hide ValueEnd, CopyValue, Ws;
    var p := SkipSpace(s, 0);
    if index >= 0 && Char(s, p) == LBRACKET {
      p := SkipSpace(s, p + 1);
      var i: nat := index;
      while Char(s, p) != NUL && Char(s, p) != RBRACKET
        invariant GetFrom(s, p, i) == ArrGet(s, index)
        decreases |s| - p
      {
        var ve := ScanValue(s, p);
        if ve < 0 { break; }
        if i == 0 {
          buf, len := CopyOut(s, p, ve);
          return;
        }
        i := i - 1;
        var q := SkipSpace(s, ve);
        if Char(s, q) != COMMA { break; }
        p := SkipSpace(s, q + 1);
      }
    }
    buf, len := EmptyString();
    assert buf[..0] == [];
  }

  method EmptyString() returns (buf: array<Byte>, len: nat)
    ensures fresh(buf) && len == 0 && buf.Length == 1 && buf[0] == NUL
  {
    buf := new Byte[1];
    buf[0] := NUL;
    len := 0;
  }

  method ObjectGet(s: seq<Byte>, key: seq<Byte>) returns (buf: array<Byte>, len: nat)
    ensures fresh(buf) && len < buf.Length && buf[..len] == Get(s, key) && buf[len] == NUL
  {
    hide ValueEnd, StrEnd, CopyValue, Ws, KeyIs;
    var p := SkipSpace(s, 0);
    if Char(s, p) == LBRACE {
      p := SkipSpace(s, p + 1);
      while Char(s, p) != NUL && Char(s, p) != RBRACE
        invariant FindFrom(s, p, key) == Get(s, key)
        decreases |s| - p
      {
        var ke := ScanStr(s, p);
        if ke < 0 { break; }
        var colon := SkipSpace(s, ke);
        if Char(s, colon) != COLON { break; }
        var vs := SkipSpace(s, colon + 1);
        var ve := ScanValue(s, vs);
        if ve < 0 { break; }
        if KeyIs(s, p, ke, key) {
          buf, len := CopyOut(s, vs, ve);
          return;
        }
        var q := SkipSpace(s, ve);
        if Char(s, q) != COMMA { break; }
        p := SkipSpace(s, q + 1);
      }
    }
    buf, len := EmptyString();
    assert buf[..0] == [];
  }
}
