/** The growing output buffer and LEB128 integers of the WebAssembly backend
    (src/emit_wasm.c, Buf, w_uleb, w_sleb; WebAssembly Core Specification,
    section 5.2.2). */
module Leb128 {
  import opened Bits

  type Byte = b: int | 0 <= b < 256

  datatype Read<T> = Got(value: T, rest: seq<Byte>) | Malformed

  // ---------- the encodings ----------

  function Uleb(v: nat): (r: seq<Byte>)
    ensures r != []
    decreases v
  {
    if v < 128 then [v] else [v % 128 + 128] + Uleb(v / 128)
  }

  /** Dividing by 128 rounds down, as the arithmetic shift does. */
  function Sleb(v: int): (r: seq<Byte>)
    ensures r != []
    decreases if v < 0 then -v else v
  {
    if -64 <= v < 64 then [v % 128] else [v % 128 + 128] + Sleb(v / 128)
  }

  function ReadUleb(s: seq<Byte>): Read<nat>
    decreases s
  {
    if s == [] then Malformed
    else if s[0] < 128 then Got(s[0], s[1..])
    else
      match ReadUleb(s[1..])
      case Got(hi, rest) => Got(s[0] - 128 + 128 * hi, rest)
      case Malformed => Malformed
  }

  function ReadSleb(s: seq<Byte>): Read<int>
    decreases s
  {
    if s == [] then Malformed
    else if s[0] < 128 then Got(if s[0] < 64 then s[0] as int else s[0] as int - 128, s[1..])
    else
      match ReadSleb(s[1..])
      case Got(hi, rest) => Got(s[0] - 128 + 128 * hi, rest)
      case Malformed => Malformed
  }

  /** Reading back an encoding yields the value and stops exactly at its end. */
  lemma {:induction false} UlebRoundTrip(v: nat, rest: seq<Byte>)
    ensures ReadUleb(Uleb(v) + rest) == Got(v, rest)
    decreases v
  {
    var s := Uleb(v) + rest;
    if v < 128 {
      assert s[1..] == rest;
    } else {
      assert s[1..] == Uleb(v / 128) + rest;
      UlebRoundTrip(v / 128, rest);
    }
  }

  lemma {:induction false} SlebRoundTrip(v: int, rest: seq<Byte>)
    ensures ReadSleb(Sleb(v) + rest) == Got(v, rest)
    decreases if v < 0 then -v else v
  {
    var s := Sleb(v) + rest;
    if -64 <= v < 64 {
      assert s[1..] == rest;
    } else {
      assert s[1..] == Sleb(v / 128) + rest;
      SlebRoundTrip(v / 128, rest);
    }
  }

  /** Encodings are self-delimiting: two concatenations that agree start with the
      same value and the same remainder. */
  lemma UlebDelimits(v: nat, w: nat, r: seq<Byte>, t: seq<Byte>)
    requires Uleb(v) + r == Uleb(w) + t
    ensures v == w && r == t
  {
    UlebRoundTrip(v, r);
    UlebRoundTrip(w, t);
  }

  lemma SlebDelimits(v: int, w: int, r: seq<Byte>, t: seq<Byte>)
    requires Sleb(v) + r == Sleb(w) + t
    ensures v == w && r == t
  {
    SlebRoundTrip(v, r);
    SlebRoundTrip(w, t);
  }

  /** No byte string that reads as `v` is shorter than its encoding. */
  lemma {:induction false} UlebShortest(s: seq<Byte>, v: nat)
    requires ReadUleb(s) == Got(v, [])
    ensures |Uleb(v)| <= |s|
    decreases s
  {
    if s[0] >= 128 {
      var hi := ReadUleb(s[1..]).value;
      assert v == s[0] - 128 + 128 * hi && v / 128 == hi;
      UlebShortest(s[1..], hi);
    } else {
      assert |s| >= 1;
    }
  }

  lemma {:induction false} SlebShortest(s: seq<Byte>, v: int)
    requires ReadSleb(s) == Got(v, [])
    ensures |Sleb(v)| <= |s|
    decreases s
  {
    if s[0] >= 128 {
      var hi := ReadSleb(s[1..]).value;
      assert v == s[0] - 128 + 128 * hi && v / 128 == hi;
      SlebShortest(s[1..], hi);
    } else {
      assert |s| >= 1 && -64 <= v < 64;
    }
  }

  /** `n` bytes reach exactly the values below 128 to the `n`. */
  lemma {:induction false} UlebLength(v: nat, n: nat)
    requires n >= 1
    ensures |Uleb(v)| <= n <==> v < Pow2(7 * n)
    decreases n
  {
    Pow2Add7(7 * (n - 1));
    assert 7 * n == 7 * (n - 1) + 7;
    if n == 1 {
      assert Pow2(0) == 1;
      if v >= 128 { assert |Uleb(v)| == 1 + |Uleb(v / 128)|; }
    } else if v >= 128 {
      UlebLength(v / 128, n - 1);
      assert v / 128 < Pow2(7 * (n - 1)) <==> v < 128 * Pow2(7 * (n - 1));
    } else {
      assert Pow2(7 * (n - 1)) >= 1;
    }
  }

  lemma Pow2Add7(k: nat)
    ensures Pow2(k + 7) == 128 * Pow2(k)
  {
    assert Pow2(k + 7) == 2 * Pow2(k + 6) && Pow2(k + 6) == 2 * Pow2(k + 5) && Pow2(k + 5) == 2 * Pow2(k + 4);
    assert Pow2(k + 4) == 2 * Pow2(k + 3) && Pow2(k + 3) == 2 * Pow2(k + 2) && Pow2(k + 2) == 2 * Pow2(k + 1);
  }

  lemma {:induction false} SlebLength(v: int, n: nat)
    requires n >= 1
    ensures |Sleb(v)| <= n <==> v + Pow2(7 * n - 1) >= 0 && v < Pow2(7 * n - 1)
    decreases n
  {
    if n == 1 {
      Pow2Six();
      if !(-64 <= v < 64) { assert |Sleb(v)| == 1 + |Sleb(v / 128)|; }
    } else {
      var p := Pow2(7 * (n - 1) - 1);
      Pow2Add7(7 * (n - 1) - 1);
      assert 7 * n - 1 == 7 * (n - 1) - 1 + 7;
      if -64 <= v < 64 {
        assert p >= 1;
      } else {
        SlebLength(v / 128, n - 1);
        assert v / 128 + p >= 0 <==> v + 128 * p >= 0;
      assert v / 128 < p <==> v < 128 * p;
      }
    }
  }

  lemma Pow2Six()
    ensures Pow2(6) == 64 && Pow2(7) == 128
  {
    assert Pow2(0) == 1;
    Pow2Add7(0);
    assert Pow2(7) == 2 * Pow2(6);
  }

  lemma Pow2Words()
    ensures Pow2(63) == TWO63 && Pow2(64) == TWO64
  {
    Pow2Six();
    Pow2Add7(7);
    Pow2Add7(14);
    Pow2Add7(21);
    Pow2Add7(28);
    Pow2Add7(35);
    Pow2Add7(42);
    Pow2Add7(49);
    Pow2Add7(56);
    assert Pow2(64) == 2 * Pow2(63);
  }

  /** Any 64-bit value takes at most ten bytes. */
  lemma TenBytes(u: nat, s: int)
    requires u < TWO64 && -TWO63 <= s < TWO63
    ensures |Uleb(u)| <= 10 && |Sleb(s)| <= 10
  {
    Pow2Words();
    Pow2Add7(63);
    assert Pow2(70) == 2 * Pow2(69);
    UlebLength(u, 10);
    SlebLength(s, 10);
  }

  lemma UlebStep(v: nat, before: seq<Byte>)
    ensures v < 128 ==> Uleb(v) == [v % 128]
    ensures v >= 128 ==> before + Uleb(v) == (before + [v % 128 + 128]) + Uleb(v / 128)
  {
  }

  lemma SlebStep(v: int, before: seq<Byte>)
    ensures -64 <= v < 64 ==> Sleb(v) == [v % 128]
    ensures !(-64 <= v < 64) ==> before + Sleb(v) == (before + [v % 128 + 128]) + Sleb(v / 128)
    ensures -64 <= v < 64 <==> (v / 128 == 0 && v % 128 < 64) || (v / 128 == -1 && v % 128 >= 64)
  {
  }

  // ---------- the buffer ----------

  /** A byte buffer that doubles its storage when full. */
  class Buf {
    var d: array<Byte>
    var len: nat

    ghost predicate Valid() reads this { len <= d.Length }

    ghost function Contents(): seq<Byte>
      requires Valid()
      reads this, d
    {
      d[..len]
    }

    constructor ()
      ensures Valid() && Contents() == [] && fresh(d)
    {
      d := new Byte[0];
      len := 0;
    }

    /** Make room for `n` more bytes: keep doubling, then move the contents. */
    method Need(n: nat)
      requires Valid()
      modifies this`d
      ensures Valid() && Contents() == old(Contents()) && len + n <= d.Length
      ensures d == old(d) || fresh(d)
    {
      if len + n > d.Length {
        var cap := if d.Length > 0 then d.Length * 2 else 256;
        while cap < len + n
          invariant cap > 0
          decreases len + n - cap
        {
          cap := cap * 2;
        }
        var bigger := new Byte[cap];
        var i := 0;
        while i < len
          invariant 0 <= i <= len <= cap && len <= d.Length && bigger.Length == cap
          invariant bigger[..i] == d[..i] && d == old(d) && d[..] == old(d[..])
        {
          bigger[i] := d[i];
          i := i + 1;
        }
        d := bigger;
      }
    }

    method Push(v: Byte)
      requires Valid()
      modifies this, d
      ensures Valid() && Contents() == old(Contents()) + [v]
      ensures d == old(d) || fresh(d)
    {
      Need(1);
      d[len] := v;
      len := len + 1;
    }

    /** Append an unsigned value, seven bits at a time. */
    method WriteUleb(value: nat)
      requires Valid() && value < TWO64
      modifies this, d
      ensures Valid() && Contents() == old(Contents()) + Uleb(value)
      ensures d == old(d) || fresh(d)
    {
      var v := value;
      ghost var start := Contents();
      assert start + Uleb(v) == old(Contents()) + Uleb(value);
      var more := true;
      while more
        invariant Valid() && 0 <= v < TWO64 && (d == old(d) || fresh(d))
        invariant more ==> Contents() + Uleb(v) == start + Uleb(value)
        invariant !more ==> Contents() == start + Uleb(value)
        decreases more, v
      {
        UlebStep(v, Contents());
        var byte := v % 128;
        v := v / 128;
        if v != 0 { byte := byte + 128; }
        Push(byte);
        more := v != 0;
      }
    }

    /** Append a signed value; stop once the rest is only sign. */
    method WriteSleb(value: int)
      requires Valid() && -TWO63 <= value < TWO63
      modifies this, d
      ensures Valid() && Contents() == old(Contents()) + Sleb(value)
      ensures d == old(d) || fresh(d)
    {
      var v := value;
      ghost var start := Contents();
      while true
        invariant Valid() && -TWO63 <= v < TWO63 && (d == old(d) || fresh(d))
        invariant Contents() + Sleb(v) == start + Sleb(value)
        decreases if v < 0 then -v else v
      {
        SlebStep(v, Contents());
        var byte := v % 128;
        v := v / 128;
        if (v == 0 && byte < 64) || (v == -1 && byte >= 64) {
          Push(byte);
          return;
        }
        Push(byte + 128);
      }
    }
  }
}
