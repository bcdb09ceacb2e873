/** JSON strings as RFC 8259, section 7, writes them, beside the runtime's reader and
    writer (include/runtime_aux.h, tiq_json_*). */
module JsonEscapes {
  import opened Leb128
  import opened Slices
  import opened JsonText
  import opened JsonRoundTrip

  /** A character of a string: as it is, or a backslash and a letter. */
  datatype Piece = Raw(c: Byte) | Esc(c: Byte)

  /** The two-character escapes of the standard, and what they stand for. */
  const Escapes: map<Byte,
    Byte> := map[34 := 34, 92 := 92, 47 := 47, 98 := 8, 102 := 12, 110 := 10, 114 := 13, 116 := 9]

  predicate Legal(p: Piece) { if p.Raw? then p.c != 34 && p.c != 92 && p.c != 0 else p.c in Escapes }

  predicate AllLegal(ps: seq<Piece>) { forall k :: 0 <= k < |ps| ==> Legal(ps[k]) }

  /** The standard wants control characters escaped. */
  predicate Strict(ps: seq<Piece>) { AllLegal(ps) && forall k :: 0 <= k < |ps| && ps[k].Raw? ==> ps[k].c >= 32 }

  function Spelled(p: Piece): (r: seq<Byte>)
    ensures r != []
  {
    if p.Raw? then [p.c] else [92, p.c]
  }

  function Inside(ps: seq<Piece>): seq<Byte> { if ps == [] then [] else Spelled(ps[0]) + Inside(ps[1..]) }

  function Written(ps: seq<Piece>): seq<Byte> { [34] + (Inside(ps) + [34]) }

  function Means(p: Piece): Byte
    requires Legal(p)
  {
    if p.Raw? then p.c else Escapes[p.c]
  }

  function Meaning(ps: seq<Piece>): (r: seq<Byte>)
    requires AllLegal(ps)
    ensures |r| == |ps|
  {
    seq(|ps|, k requires 0 <= k < |ps| => Means(ps[k]))
  }

  // ---------- reading ----------

  /** What the runtime makes of a character. */
  function Taken(p: Piece): Byte { if p.Raw? then p.c else JsonText.Unescaped(p.c) }

  function AllTaken(ps: seq<Piece>): (r: seq<Byte>)
    ensures |r| == |ps|
  {
    seq(|ps|, k requires 0 <= k < |ps| => Taken(ps[k]))
  }

  lemma {:induction false} InsideScans(s: seq<Byte>, p: nat, ps: seq<Piece>)
    requires AllLegal(ps) && At(s, p, Inside(ps) + [34])
    ensures StrScan(s, p) == p + |Inside(ps)| + 1
    decreases |ps|
  {
    hide At;
    if ps == [] {
      assert Inside(ps) + [34] == [34];
      FirstByte(s, p, [34]);
    } else {
      var c := Spelled(ps[0]);
      assert Legal(ps[0]);
      assert Inside(ps) + [34] == c + (Inside(ps[1..]) + [34]);
      AtConcat(s, p, c, Inside(ps[1..]) + [34]);
      FirstByte(s, p, c);
      if |c| == 2 { SecondByte(s, p, c); }
      InsideScans(s, p + |c|, ps[1..]);
    }
  }

  lemma {:induction false} InsideTaken(s: seq<Byte>, p: nat, ps: seq<Piece>, e: int)
    requires AllLegal(ps) && At(s, p, Inside(ps)) && e == p + |Inside(ps)| <= |s|
    ensures Unescape(s, p, e) == AllTaken(ps)
    decreases |ps|
  {
    hide At, JsonText.Unescaped;
    if ps != [] {
      var c := Spelled(ps[0]);
      assert Legal(ps[0]);
      AtConcat(s, p, c, Inside(ps[1..]));
      FirstByte(s, p, c);
      if |c| == 2 { SecondByte(s, p, c); }
      InsideTaken(s, p + |c|, ps[1..], e);
      assert AllTaken(ps) == [Taken(ps[0])] + AllTaken(ps[1..]);
    }
  }

  /** The runtime finds the end of every string the standard allows (but for `\u`), and
      reads it for what it means exactly when it has no `\b` and no `\f`. */
  lemma ReadsIff(s: seq<Byte>, p: nat, ps: seq<Piece>)
    requires AllLegal(ps) && At(s, p, Written(ps))
    ensures StrEnd(s, p) == ValueEnd(s, p) == p + |Written(ps)| <= |s|
    ensures CopyValue(s, p, p + |Written(ps)|) == Meaning(ps) <==> Esc(98) !in ps && Esc(102) !in ps
  {
    hide StrScan, Unescape, AllTaken, Meaning, Inside, AllLegal, DepthScan, AtomScan;
    AtConcat(s, p, [34], Inside(ps) + [34]);
    FirstByte(s, p, [34]);
    InsideScans(s, p + 1, ps);
    AtConcat(s, p + 1, Inside(ps), [34]);
    InsideTaken(s, p + 1, ps, p + 1 + |Inside(ps)|);
    TakenIff(ps);
  }

  lemma TakenIff(ps: seq<Piece>)
    requires AllLegal(ps)
    ensures AllTaken(ps) == Meaning(ps) <==> Esc(98) !in ps && Esc(102) !in ps
  {
    forall k | 0 <= k < |ps| ensures Taken(ps[k]) == Means(ps[k]) <==> ps[k] != Esc(98) && ps[k] != Esc(102) {
      assert Legal(ps[k]);
    }
    if AllTaken(ps) == Meaning(ps) {
      forall k | 0 <= k < |ps| ensures ps[k] != Esc(98) && ps[k] != Esc(102) {
        assert AllTaken(ps)[k] == Meaning(ps)[k];
      }
    }
  }

  // ---------- writing ----------

  /** The characters the runtime writes for `x`. */
  function Pieces(x: seq<Byte>): (r: seq<Piece>)
    ensures |r| == |x|
  {
    seq(|x|, k requires 0 <= k < |x| =>
      if x[k] == 34 || x[k] == 92 then Esc(x[k]) else if x[k] == 10 then Esc(110) else Raw(x[k]))
  }

  lemma {:induction false} BodyIsInside(x: seq<Byte>)
    ensures Body(x) == Inside(Pieces(x))
  {
    if x != [] {
      BodyIsInside(x[1..]);
      assert Pieces(x)[1..] == Pieces(x[1..]);
    }
  }

  predicate Writes(ps: seq<Piece>, x: seq<Byte>) { AllLegal(ps) && Written(ps) == Encode(x) && Meaning(ps) == x }

  /** What the runtime writes is a JSON string that means `x`, in the standard's own form
      exactly when `x` has no control character but newlines. */
  lemma WritesIff(x: seq<Byte>)
    requires NulFree(x)
    ensures exists ps :: Writes(ps, x)
    ensures (exists ps :: Writes(ps, x) && Strict(ps)) <==> forall k :: 0 <= k < |x| ==> x[k] >= 32 || x[k] == 10
  {
    BodyIsInside(x);
    assert Writes(Pieces(x), x);
    if forall k :: 0 <= k < |x| ==> x[k] >= 32 || x[k] == 10 {
      assert Strict(Pieces(x));
    }
    if ps :| Writes(ps, x) && Strict(ps) { StrictMeansClean(ps, x); }
  }

  lemma StrictMeansClean(ps: seq<Piece>, x: seq<Byte>)
    requires Writes(ps, x) && Strict(ps)
    ensures forall k :: 0 <= k < |x| ==> x[k] >= 32 || x[k] == 10
  {
    StrictIsClean(ps);
    forall k | 0 <= k < |x| ensures x[k] >= 32 || x[k] == 10 {
      if x[k] != 10 {
        BodyHas(x, k);
        assert x[k] in Encode(x);
        var i :| 0 <= i < |Encode(x)| && Encode(x)[i] == x[k];
        assert Written(ps)[i] == x[k];
      }
    }
  }

  /** Every byte but a newline is there in the text written. */
  lemma {:induction false} BodyHas(x: seq<Byte>, k: nat)
    requires k < |x| && x[k] != 10
    ensures x[k] in Body(x)
    decreases k
  {
    if k > 0 { BodyHas(x[1..], k - 1); } else { assert x[0] in Escape(x[0]); }
  }

  lemma {:induction false} InsideIsClean(ps: seq<Piece>)
    requires Strict(ps)
    ensures forall i :: 0 <= i < |Inside(ps)| ==> Inside(ps)[i] >= 32
    decreases |ps|
  {
    if ps != [] {
      assert Legal(ps[0]);
      InsideIsClean(ps[1..]);
    }
  }

  lemma StrictIsClean(ps: seq<Piece>)
    requires Strict(ps)
    ensures forall i :: 0 <= i < |Written(ps)| ==> Written(ps)[i] >= 32
  {
    InsideIsClean(ps);
  }
}
