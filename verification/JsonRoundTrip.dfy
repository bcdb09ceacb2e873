/** Scanning agrees with printing (include/runtime_aux.h, tiq_json_*): strings come back, a
    value's end is found whatever its nesting and spacing, and elements are found by index and key. */
module JsonRoundTrip {
  import opened Leb128
  import opened Slices
  import opened JsonText

  // ---------- JSON texts ----------

  /** A value together with the spacing it is written with. */
  datatype Json =
    | Str(x: seq<Byte>)
    | Atom(raw: seq<Byte>)
    | Arr(lead: seq<Byte>, items: Items)
    | Obj(lead: seq<Byte>, members: Members)

  /** `value post , pre value post , ...` */
  datatype Items = NoItems | Item(value: Json, post: seq<Byte>, pre: seq<Byte>, rest: Items)

  /** `key sp1 : sp2 value post , pre key ...` */
  datatype Members = NoMembers | Member(key: seq<Byte>, sp1: seq<Byte>, sp2: seq<Byte>, value: Json, post: seq<Byte>,
    pre: seq<Byte>, rest: Members)

  /** In the characters of RFC 8259, section 2: `[` is 91, `]` 93, `{` 123, `}` 125, `:` 58
      and `,` 44. */
  function Print(j: Json): seq<Byte>
    decreases j, 0
  {
    match j
    case Str(x) => Encode(x)
    case Atom(raw) => raw
    case Arr(lead, items) => [91] + (lead + (PrintItems(items) + [93]))
    case Obj(lead, members) => [123] + (lead + (PrintMembers(members) + [125]))
  }

  function PrintItems(items: Items): seq<Byte>
    decreases items, 1
  {
    if items.NoItems? then [] else Print(items.value) + (items.post + ItemTail(items.pre, items.rest))
  }

  function ItemTail(pre: seq<Byte>, rest: Items): seq<Byte>
    decreases rest, 2
  {
    if rest.NoItems? then [] else [44] + (pre + PrintItems(rest))
  }

  function PrintMembers(members: Members): seq<Byte>
    decreases members, 1
  {
    match members
    case NoMembers => []
    case Member(key, sp1, sp2, value, post, pre, rest) =>
      Encode(key) + (sp1 + ([58] + (sp2 + (Print(value) + (post + MemberTail(pre, rest))))))
  }

  function MemberTail(pre: seq<Byte>, rest: Members): seq<Byte>
    decreases rest, 2
  {
    if rest.NoMembers? then [] else [44] + (pre + PrintMembers(rest))
  }

  /** White space of the grammar: tab, line feed, carriage return, space. */
  predicate Spaces(w: seq<Byte>) { forall k :: 0 <= k < |w| ==> w[k] == 9 || w[k] == 10 || w[k] == 13 || w[k] == 32 }

  predicate NulFree(x: seq<Byte>) { forall k :: 0 <= k < |x| ==> x[k] != NUL }

  /** What no number and none of `true`, `false` and `null` contains: NUL, white space, a quote,
      a comma, a bracket. Everything else is let through. */
  predicate Plain(c: Byte) { c !in {0, 9, 10, 13, 32, 34, 44, 91, 93, 123, 125} }

  predicate IsAtom(raw: seq<Byte>) { raw != [] && forall k :: 0 <= k < |raw| ==> Plain(raw[k]) }

  predicate Good(j: Json) {
    match j
    case Str(x) => NulFree(x)
    case Atom(raw) => IsAtom(raw)
    case Arr(lead, items) => Spaces(lead) && GoodItems(items)
    case Obj(lead, members) => Spaces(lead) && GoodMembers(members)
  }

  predicate GoodItems(items: Items) {
    items.NoItems? || (Good(items.value) && Spaces(items.post) && Spaces(items.pre) && GoodItems(items.rest))
  }

  predicate GoodMembers(members: Members) {
    members.NoMembers? ||
    (NulFree(members.key) && Spaces(members.sp1) && Spaces(members.sp2) && Good(members.value) &&
      Spaces(members.post) &&
     Spaces(members.pre) && GoodMembers(members.rest))
  }

  // ---------- strings ----------

  lemma FirstByte(s: seq<Byte>, p: nat, part: seq<Byte>)
    requires part != [] && At(s, p, part)
    ensures p < |s| && s[p] == part[0] && Char(s, p) == part[0]
  {
    assert s[p..p + |part|][0] == s[p];
  }

  lemma SecondByte(s: seq<Byte>, p: nat, part: seq<Byte>)
    requires |part| >= 2 && At(s, p, part)
    ensures p + 1 < |s| && s[p + 1] == part[1] && Char(s, p + 1) == part[1]
  {
    assert s[p..p + |part|][1] == s[p + 1];
  }

  /** Scanning the inside of an encoded string stops just after its closing quote. */
  lemma {:induction false} BodyScans(s: seq<Byte>, p: nat, x: seq<Byte>)
    requires NulFree(x) && At(s, p, Body(x) + [QUOTE])
    ensures StrScan(s, p) == p + |Body(x)| + 1
    decreases |x|
  {
    hide At;
    if x == [] {
      assert Body(x) + [QUOTE] == [QUOTE];
      FirstByte(s, p, [QUOTE]);
    } else {
      var c := Escape(x[0]);
      assert Body(x) + [QUOTE] == c + (Body(x[1..]) + [QUOTE]);
      AtConcat(s, p, c, Body(x[1..]) + [QUOTE]);
      FirstByte(s, p, c);
      if |c| == 2 { SecondByte(s, p, c); }
      BodyScans(s, p + |c|, x[1..]);
    }
  }

  lemma EncodedEnds(s: seq<Byte>, p: nat, x: seq<Byte>)
    requires NulFree(x) && At(s, p, Encode(x))
    ensures StrEnd(s, p) == p + |Encode(x)| && Char(s, p) == QUOTE
    ensures |Encode(x)| == |Body(x)| + 2 && At(s, p + 1, Body(x)) && s[p + 1..p + 1 + |Body(x)|] == Body(x)
  {
    AtConcat(s, p, [QUOTE], Body(x) + [QUOTE]);
    FirstByte(s, p, [QUOTE]);
    BodyScans(s, p + 1, x);
    AtConcat(s, p + 1, Body(x), [QUOTE]);
  }

  /** Unescaping undoes escaping. */
  lemma {:induction false} BodyUnescapes(s: seq<Byte>, p: nat, x: seq<Byte>, e: int)
    requires At(s, p, Body(x)) && e == p + |Body(x)|
    ensures Unescape(s, p, e) == x
    decreases |x|
  {
    hide At;
    AtEndsInside(s, p, Body(x));
    if x != [] {
      var c := Escape(x[0]);
      AtConcat(s, p, c, Body(x[1..]));
      FirstByte(s, p, c);
      if |c| == 2 { SecondByte(s, p, c); }
      BodyUnescapes(s, p + |c|, x[1..], e);
      assert x == [x[0]] + x[1..];
    }
  }

  lemma AtEndsInside(s: seq<Byte>, p: nat, part: seq<Byte>)
    requires At(s, p, part)
    ensures p + |part| <= |s|
  {
  }

  /** The text a value is copied out as: a string's contents, anything else as written. */
  function CopyOf(j: Json): seq<Byte> { if j.Str? then j.x else Print(j) }

  lemma CopiesBack(s: seq<Byte>, p: nat, j: Json)
    requires Good(j) && At(s, p, Print(j))
    ensures p < p + |Print(j)| <= |s| && CopyValue(s, p, p + |Print(j)|) == CopyOf(j)
  {
    FirstByte(s, p, Print(j));
    if j.Str? {
      EncodedEnds(s, p, j.x);
      BodyUnescapes(s, p + 1, j.x, p + 1 + |Body(j.x)|);
    }
  }

  // ---------- values ----------

  /** A run of bytes that are neither quotes nor brackets does not change the depth. */
  lemma {:induction false} SkipPlain(s: seq<Byte>, p: nat, w: seq<Byte>, d: int)
    requires At(s, p, w) && forall k :: 0 <= k < |w| ==> Plain(w[k]) || Space(w[k]) || w[k] == 44
    ensures DepthScan(s, p, d) == DepthScan(s, p + |w|, d)
    decreases |w|
  {
    hide At;
    if w != [] {
      FirstByte(s, p, w);
      assert w == [w[0]] + w[1..];
      AtConcat(s, p, [w[0]], w[1..]);
      SkipPlain(s, p + 1, w[1..], d);
    }
  }

  lemma SkipString(s: seq<Byte>, p: nat, x: seq<Byte>, d: int)
    requires NulFree(x) && At(s, p, Encode(x))
    ensures DepthScan(s, p, d) == DepthScan(s, p + |Encode(x)|, d)
  {
    hide At;
    EncodedEnds(s, p, x);
  }

  /** Inside brackets, scanning a value leaves the depth as it was. */
  lemma {:induction false} SkipValue(s: seq<Byte>, p: nat, j: Json, d: int)
    requires Good(j) && At(s, p, Print(j)) && d >= 1
    ensures DepthScan(s, p, d) == DepthScan(s, p + |Print(j)|, d)
    decreases j
  {
    hide At, Encode;
    match j
    case Str(x) => SkipString(s, p, x, d);
    case Atom(raw) => SkipPlain(s, p, raw, d);
    case Arr(lead, items) =>
      var inside := PrintItems(items);
      Brackets(s, p, LBRACKET, lead, inside, RBRACKET, d);
      SkipItems(s, p + 1 + |lead|, items, d + 1);
    case Obj(lead, members) =>
      var inside := PrintMembers(members);
      Brackets(s, p, LBRACE, lead, inside, RBRACE, d);
      SkipMembers(s, p + 1 + |lead|, members, d + 1);
  }

  /** The bracket, spacing and closing bracket around something. */
  lemma Brackets(s: seq<Byte>, p: nat, o: Byte, lead: seq<Byte>, inside: seq<Byte>, c: Byte, d: int)
    requires Spaces(lead) && Open(o) && Close(c) && At(s, p, [o] + (lead + (inside + [c]))) && d >= 0
    ensures Char(s, p) == o && At(s, p + 1, lead) && At(s, p + 1 + |lead|, inside) &&
      Char(s, p + 1 + |lead| + |inside|) == c
    ensures DepthScan(s, p, d) == DepthScan(s, p + 1 + |lead|, d + 1)
    ensures var q := p + 1 + |lead| + |inside|;
      DepthScan(s, q, d + 1) == if d == 0 then q + 1 else DepthScan(s, q + 1, d)
  {
    hide At;
    AtConcat(s, p, [o], lead + (inside + [c]));
    AtConcat(s, p + 1, lead, inside + [c]);
    AtConcat(s, p + 1 + |lead|, inside, [c]);
    FirstByte(s, p, [o]);
    FirstByte(s, p + 1 + |lead| + |inside|, [c]);
    SkipPlain(s, p + 1, lead, d + 1);
  }

  /** The parts of a list of elements. */
  lemma ItemSplit(s: seq<Byte>, p: nat, items: Items)
    requires items.Item? && At(s, p, PrintItems(items))
    ensures var v := p + |Print(items.value)|;
      At(s, p, Print(items.value)) && At(s, v, items.post) &&
      At(s, v + |items.post|, ItemTail(items.pre, items.rest)) &&
      p + |PrintItems(items)| == v + |items.post| + |ItemTail(items.pre, items.rest)|
  {
    hide At, Print, ItemTail;
    AtConcat(s, p, Print(items.value), items.post + ItemTail(items.pre, items.rest));
    AtConcat(s, p + |Print(items.value)|, items.post, ItemTail(items.pre, items.rest));
  }

  lemma ItemTailSplit(s: seq<Byte>, p: nat, pre: seq<Byte>, rest: Items)
    requires At(s, p, ItemTail(pre, rest))
    ensures rest.NoItems? ==> |ItemTail(pre, rest)| == 0
    ensures rest.Item? ==>
      Char(s, p) == COMMA && At(s, p, [COMMA]) && At(s, p + 1, pre) && At(s, p + 1 + |pre|, PrintItems(rest))
    ensures rest.Item? ==> |ItemTail(pre, rest)| == 1 + |pre| + |PrintItems(rest)|
  {
    hide At, PrintItems;
    if rest.Item? {
      AtConcat(s, p, [COMMA], pre + PrintItems(rest));
      AtConcat(s, p + 1, pre, PrintItems(rest));
      FirstByte(s, p, [COMMA]);
    }
  }

  lemma GoodParts(items: Items)
    requires items.Item? && GoodItems(items)
    ensures Good(items.value) && GoodItems(items.rest) && Spaces(items.pre) && Spaces(items.post)
  {
  }

  lemma {:induction false} SkipItems(s: seq<Byte>, p: nat, items: Items, d: int)
    requires GoodItems(items) && At(s, p, PrintItems(items)) && d >= 1
    ensures DepthScan(s, p, d) == DepthScan(s, p + |PrintItems(items)|, d)
    decreases items
  {
    hide At, Print, PrintItems, ItemTail, Good, GoodItems, Spaces, DepthScan;
    if items.NoItems? {
      NoItemsPrint();
    } else {
      GoodParts(items);
      ItemSplit(s, p, items);
      SkipValue(s, p, items.value, d);
      var q := p + |Print(items.value)|;
      SkipSpaces(s, q, items.post, d);
      q := q + |items.post|;
      ItemTailSplit(s, q, items.pre, items.rest);
      if items.rest.Item? {
        SkipPlain(s, q, [COMMA], d);
        SkipSpaces(s, q + 1, items.pre, d);
        SkipItems(s, q + 1 + |items.pre|, items.rest, d);
      }
    }
  }

  lemma SkipSpaces(s: seq<Byte>, p: nat, w: seq<Byte>, d: int)
    requires At(s, p, w) && Spaces(w)
    ensures DepthScan(s, p, d) == DepthScan(s, p + |w|, d)
  {
    hide At, DepthScan;
    SkipPlain(s, p, w, d);
  }

  lemma NoItemsPrint()
    ensures PrintItems(NoItems) == []
  {
  }

  /** The parts of a list of members. */
  lemma MemberSplit(s: seq<Byte>, p: nat, m: Members)
    requires m.Member? && At(s, p, PrintMembers(m))
    ensures var k := p + |Encode(m.key)|;
      var v := k + |m.sp1| + 1 + |m.sp2|;
      var q := v + |Print(m.value)|;
      At(s, p, Encode(m.key)) && At(s, k, m.sp1) && At(s, k + |m.sp1|, [COLON]) && At(s, k + |m.sp1| + 1, m.sp2) &&
      At(s, v, Print(m.value)) &&
      At(s, q, m.post) && At(s, q + |m.post|, MemberTail(m.pre, m.rest)) &&
      p + |PrintMembers(m)| == q + |m.post| + |MemberTail(m.pre, m.rest)|
  {
    hide At, Encode, Print, MemberTail;
    var k := p + |Encode(m.key)|;
    var rest := m.post + MemberTail(m.pre, m.rest);
    AtConcat(s, p, Encode(m.key), m.sp1 + ([COLON] + (m.sp2 + (Print(m.value) + rest))));
    AtConcat(s, k, m.sp1, [COLON] + (m.sp2 + (Print(m.value) + rest)));
    AtConcat(s, k + |m.sp1|, [COLON], m.sp2 + (Print(m.value) + rest));
    AtConcat(s, k + |m.sp1| + 1, m.sp2, Print(m.value) + rest);
    AtConcat(s, k + |m.sp1| + 1 + |m.sp2|, Print(m.value), rest);
    AtConcat(s, k + |m.sp1| + 1 + |m.sp2| + |Print(m.value)|, m.post, MemberTail(m.pre, m.rest));
  }

  lemma MemberTailSplit(s: seq<Byte>, p: nat, pre: seq<Byte>, rest: Members)
    requires At(s, p, MemberTail(pre, rest))
    ensures rest.NoMembers? ==> |MemberTail(pre, rest)| == 0
    ensures rest.Member? ==>
      Char(s, p) == COMMA && At(s, p, [COMMA]) && At(s, p + 1, pre) && At(s, p + 1 + |pre|, PrintMembers(rest))
    ensures rest.Member? ==> |MemberTail(pre, rest)| == 1 + |pre| + |PrintMembers(rest)|
  {
    hide At, PrintMembers;
    if rest.Member? {
      AtConcat(s, p, [COMMA], pre + PrintMembers(rest));
      AtConcat(s, p + 1, pre, PrintMembers(rest));
      FirstByte(s, p, [COMMA]);
    }
  }

  lemma GoodMember(m: Members)
    requires m.Member? && GoodMembers(m)
    ensures NulFree(m.key) && Good(m.value) && GoodMembers(m.rest) && Spaces(m.sp1) && Spaces(m.sp2) &&
      Spaces(m.pre) && Spaces(m.post)
  {
  }

  lemma {:induction false} SkipMembers(s: seq<Byte>, p: nat, m: Members, d: int)
    requires GoodMembers(m) && At(s, p, PrintMembers(m)) && d >= 1
    ensures DepthScan(s, p, d) == DepthScan(s, p + |PrintMembers(m)|, d)
    decreases m
  {
    hide At, Print, PrintMembers, MemberTail, Good, GoodMembers, Spaces, DepthScan, Encode, NulFree;
    if m.NoMembers? {
      NoMembersPrint();
    } else {
      GoodMember(m);
      MemberSplit(s, p, m);
      var k := p + |Encode(m.key)|;
      SkipString(s, p, m.key, d);
      SkipSpaces(s, k, m.sp1, d);
      SkipPlain(s, k + |m.sp1|, [COLON], d);
      SkipSpaces(s, k + |m.sp1| + 1, m.sp2, d);
      var v := k + |m.sp1| + 1 + |m.sp2|;
      SkipValue(s, v, m.value, d);
      var q := v + |Print(m.value)|;
      SkipSpaces(s, q, m.post, d);
      q := q + |m.post|;
      MemberTailSplit(s, q, m.pre, m.rest);
      if m.rest.Member? {
        SkipPlain(s, q, [COMMA], d);
        SkipSpaces(s, q + 1, m.pre, d);
        SkipMembers(s, q + 1 + |m.pre|, m.rest, d);
      }
    }
  }

  lemma NoMembersPrint()
    ensures PrintMembers(NoMembers) == []
  {
  }

  lemma {:induction false} AtomEnds(s: seq<Byte>, p: nat, raw: seq<Byte>)
    requires At(s, p, raw) && (forall k :: 0 <= k < |raw| ==> Plain(raw[k])) && Stop(Char(s, p + |raw|))
    ensures AtomScan(s, p) == p + |raw|
    decreases |raw|
  {
    hide At;
    if raw != [] {
      FirstByte(s, p, raw);
      assert raw == [raw[0]] + raw[1..];
      AtConcat(s, p, [raw[0]], raw[1..]);
      AtomEnds(s, p + 1, raw[1..]);
    }
  }

  /** A printed value's end is found exactly; an atom needs something after it that ends it. */
  lemma ValueEnds(s: seq<Byte>, p: nat, j: Json)
    requires Good(j) && At(s, p, Print(j)) && (j.Atom? ==> Stop(Char(s, p + |Print(j)|)))
    ensures ValueEnd(s, p) == p + |Print(j)|
  {
    hide At, Encode;
    match j
    case Str(x) => EncodedEnds(s, p, x);
    case Atom(raw) =>
      FirstByte(s, p, raw);
      AtomEnds(s, p, raw);
    case Arr(lead, items) =>
      Brackets(s, p, LBRACKET, lead, PrintItems(items), RBRACKET, 0);
      SkipItems(s, p + 1 + |lead|, items, 1);
    case Obj(lead, members) =>
      Brackets(s, p, LBRACE, lead, PrintMembers(members), RBRACE, 0);
      SkipMembers(s, p + 1 + |lead|, members, 1);
  }

  // ---------- elements ----------

  lemma {:induction false} WsEnds(s: seq<Byte>, p: nat, w: seq<Byte>)
    requires At(s, p, w) && Spaces(w) && !Space(Char(s, p + |w|))
    ensures Ws(s, p) == p + |w|
    decreases |w|
  {
    hide At;
    if w != [] {
      FirstByte(s, p, w);
      assert w == [w[0]] + w[1..];
      AtConcat(s, p, [w[0]], w[1..]);
      WsEnds(s, p + 1, w[1..]);
    }
  }

  function Count(items: Items): nat { if items.NoItems? then 0 else 1 + Count(items.rest) }

  function Nth(items: Items, i: nat): Json
    requires i < Count(items)
  {
    if i == 0 then items.value else Nth(items.rest, i - 1)
  }

  lemma FirstOfValue(s: seq<Byte>, p: nat, j: Json)
    requires Good(j) && At(s, p, Print(j))
    ensures var c := Char(s, p); p < |s| && c != NUL && !Space(c) && !Close(c) && c != COMMA
  {
    FirstByte(s, p, Print(j));
  }

  /** Spacing ends where something else begins. */
  lemma SpacesEnd(s: seq<Byte>, p: nat, w: seq<Byte>)
    requires At(s, p, w) && Spaces(w) && !Space(Char(s, p + |w|))
    ensures Ws(s, p) == p + |w|
    ensures Stop(Char(s, p + |w|)) ==> Stop(Char(s, p))
  {
    hide At, Ws;
    WsEnds(s, p, w);
    if w != [] { FirstByte(s, p, w); }
  }

  /** A list of elements begins with neither spacing nor a closing bracket. */
  lemma ItemsStart(s: seq<Byte>, p: nat, items: Items)
    requires items.Item? && GoodItems(items) && At(s, p, PrintItems(items))
    ensures var c := Char(s, p); p < |s| && c != NUL && !Space(c) && !Close(c) && c != COMMA
  {
    hide At, Print, ItemTail;
    ItemSplit(s, p, items);
    FirstOfValue(s, p, items.value);
  }

  /** Where an element's value and spacing end, and what comes next. */
  lemma ElementParts(s: seq<Byte>, p: nat, items: Items)
    requires items.Item? && GoodItems(items) && At(s, p, PrintItems(items)) &&
      Char(s, p + |PrintItems(items)|) == RBRACKET
    ensures At(s, p, Print(items.value)) && ValueEnd(s, p) == p + |Print(items.value)|
    ensures var q := Ws(s, p + |Print(items.value)|);
      (items.rest.NoItems? ==> q == p + |PrintItems(items)|) &&
      (items.rest.Item? ==> (Char(s, q) == COMMA && At(s, Ws(s, q + 1), PrintItems(items.rest)) &&
        Ws(s, q + 1) + |PrintItems(items.rest)| == p + |PrintItems(items)|))
  {
    hide At, ValueEnd, Print, PrintItems, ItemTail, Good, GoodItems, Spaces, Ws;
    GoodParts(items);
    ItemSplit(s, p, items);
    var v := p + |Print(items.value)|;
    var q := v + |items.post|;
    ItemTailSplit(s, q, items.pre, items.rest);
    if items.rest.Item? {
      ItemsStart(s, q + 1 + |items.pre|, items.rest);
      SpacesEnd(s, q + 1, items.pre);
    }
    SpacesEnd(s, v, items.post);
    ValueEnds(s, p, items.value);
  }

  /** Walking an array finds each element. */
  lemma {:induction false} GetFinds(s: seq<Byte>, p: nat, items: Items, i: nat)
    requires GoodItems(items) && At(s, p, PrintItems(items)) && Char(s, p + |PrintItems(items)|) == RBRACKET
    ensures GetFrom(s, p, i) == if i < Count(items) then CopyOf(Nth(items, i)) else []
    decreases items
  {
    hide At, ValueEnd, CopyValue, Print, PrintItems, Ws, Good;
    match items
    case NoItems => NoItemsPrint();
    case Item(value, post, pre, rest) =>
      ElementParts(s, p, items);
      GoodParts(items);
      FirstOfValue(s, p, value);
      CopiesBack(s, p, value);
      if i > 0 {
        if !rest.NoItems? { GetFinds(s, Ws(s, Ws(s, p + |Print(value)|) + 1), rest, i - 1); }
      }
  }

  /** Walking an array counts its elements. */
  lemma {:induction false} LenCounts(s: seq<Byte>, p: nat, items: Items, n: nat)
    requires GoodItems(items) && At(s, p, PrintItems(items)) && Char(s, p + |PrintItems(items)|) == RBRACKET
    ensures LenFrom(s, p, n) == n + Count(items)
    decreases items
  {
    hide At, ValueEnd, CopyValue, Print, PrintItems, Ws, Good;
    match items
    case NoItems => NoItemsPrint();
    case Item(value, post, pre, rest) =>
      ElementParts(s, p, items);
      GoodParts(items);
      FirstOfValue(s, p, value);
      if !rest.NoItems? { LenCounts(s, Ws(s, Ws(s, p + |Print(value)|) + 1), rest, n + 1); }
  }

  /** A text between spacing and anything else. */
  lemma Framed(lead: seq<Byte>, mid: seq<Byte>, rest: seq<Byte>)
    ensures var s := lead + mid + rest; At(s, 0, lead) && At(s, |lead|, mid)
  {
    var s := lead + mid + rest;
    assert s[..|lead|] == lead && s[|lead|..|lead| + |mid|] == mid;
  }

  /** Where scanning an array's elements starts. */
  lemma ArrayStart(s: seq<Byte>, lead: seq<Byte>, j: Json)
    requires Spaces(lead) && Good(j) && j.Arr? && At(s, 0, lead) && At(s, |lead|, Print(j))
    ensures var p := |lead| + 1 + |j.lead|;
      Ws(s, 0) == |lead| && Char(s, |lead|) == LBRACKET && Ws(s, |lead| + 1) == p &&
      At(s, p, PrintItems(j.items)) && Char(s, p + |PrintItems(j.items)|) == RBRACKET
  {
    hide At, PrintItems, Ws, DepthScan, Spaces;
    Brackets(s, |lead|, LBRACKET, j.lead, PrintItems(j.items), RBRACKET, 0);
    SpacesEnd(s, 0, lead);
    if j.items.Item? { ItemsStart(s, |lead| + 1 + |j.lead|, j.items); } else { NoItemsPrint(); }
    SpacesEnd(s, |lead| + 1, j.lead);
  }

  /** Getting from a printed array, with spacing before it and anything after it. */
  lemma ArrayReads(lead: seq<Byte>, j: Json, rest: seq<Byte>, i: int)
    requires Spaces(lead) && Good(j) && j.Arr?
    ensures ArrLen(lead + Print(j) + rest) == Count(j.items)
    ensures ArrGet(lead + Print(j) + rest, i) == if 0 <= i < Count(j.items) then CopyOf(Nth(j.items, i)) else []
  {
    hide At, Print, PrintItems, Ws, Spaces, Good, GoodItems, CopyOf, GetFrom, LenFrom;
    GoodArr(j);
    Framed(lead, Print(j), rest);
    var s := lead + Print(j) + rest;
    ArrayStart(s, lead, j);
    var p := |lead| + 1 + |j.lead|;
    LenCounts(s, p, j.items, 0);
    if i >= 0 { GetFinds(s, p, j.items, i); }
  }

  lemma GoodArr(j: Json)
    requires Good(j)
    ensures j.Arr? ==> GoodItems(j.items)
    ensures j.Obj? ==> GoodMembers(j.members)
  {
  }

  // ---------- members ----------

  /** The value of the first member whose encoded key is `key`. */
  function Lookup(members: Members, key: seq<Byte>): seq<Byte> {
    if members.NoMembers? then [] else if Body(members.key) == key then CopyOf(members.value)
      else Lookup(members.rest, key)
  }

  lemma MembersStart(s: seq<Byte>, p: nat, m: Members)
    requires m.Member? && NulFree(m.key) && At(s, p, PrintMembers(m))
    ensures Char(s, p) == QUOTE
  {
    hide At, Print, PrintMembers, MemberTail, Encode;
    MemberSplit(s, p, m);
    EncodedEnds(s, p, m.key);
  }

  /** The key and what is between it and its value. */
  lemma KeyParts(s: seq<Byte>, p: nat, m: Members)
    requires m.Member? && GoodMembers(m) && At(s, p, PrintMembers(m))
    ensures var ke := p + |Encode(m.key)|;
      var colon := Ws(s, ke);
      StrEnd(s, p) == ke && Char(s, p) == QUOTE && ke <= |s| &&
      (forall key :: KeyIs(s, p, ke, key) <==> Body(m.key) == key) &&
      Char(s, colon) == COLON && Ws(s, colon + 1) == ke + |m.sp1| + 1 + |m.sp2|
  {
    hide At, Print, PrintMembers, MemberTail, Good, GoodMembers, Spaces, Ws, Encode, NulFree, StrEnd;
    GoodMember(m);
    MemberSplit(s, p, m);
    EncodedEnds(s, p, m.key);
    var ke := p + |Encode(m.key)|;
    FirstByte(s, ke + |m.sp1|, [COLON]);
    SpacesEnd(s, ke, m.sp1);
    FirstOfValue(s, ke + |m.sp1| + 1 + |m.sp2|, m.value);
    SpacesEnd(s, ke + |m.sp1| + 1, m.sp2);
  }

  /** Where a member's value ends, and what comes next. */
  lemma MemberEnds(s: seq<Byte>, p: nat, m: Members)
    requires m.Member? && GoodMembers(m) && At(s, p, PrintMembers(m)) && Char(s, p + |PrintMembers(m)|) == RBRACE
    ensures var vs := p + |Encode(m.key)| + |m.sp1| + 1 + |m.sp2|;
      At(s, vs, Print(m.value)) && ValueEnd(s, vs) == vs + |Print(m.value)| &&
      var q := Ws(s, vs + |Print(m.value)|);
      (m.rest.NoMembers? ==> q == p + |PrintMembers(m)|) &&
      (m.rest.Member? ==> (Char(s, q) == COMMA && At(s, Ws(s, q + 1), PrintMembers(m.rest)) &&
        Ws(s, q + 1) + |PrintMembers(m.rest)| == p + |PrintMembers(m)|))
  {
    hide At, ValueEnd, Print, PrintMembers, MemberTail, Good, Spaces, Ws, Encode, NulFree;
    GoodMember(m);
    MemberSplit(s, p, m);
    var vs := p + |Encode(m.key)| + |m.sp1| + 1 + |m.sp2|;
    var v := vs + |Print(m.value)|;
    var q := v + |m.post|;
    MemberTailSplit(s, q, m.pre, m.rest);
    if m.rest.Member? {
      MembersStart(s, q + 1 + |m.pre|, m.rest);
      SpacesEnd(s, q + 1, m.pre);
    }
    SpacesEnd(s, v, m.post);
    ValueEnds(s, vs, m.value);
  }

  /** Walking an object finds the first member with the key's spelling. */
  lemma {:induction false} FindFinds(s: seq<Byte>, p: nat, members: Members, key: seq<Byte>)
    requires GoodMembers(members) && At(s, p, PrintMembers(members)) && Char(s, p + |PrintMembers(members)|) == RBRACE
    ensures FindFrom(s, p, key) == Lookup(members, key)
    decreases members
  {
    hide At, ValueEnd, StrEnd, CopyValue, Print, PrintMembers, Encode, Body, Ws, Good, GoodMembers, KeyIs, CopyOf;
    match members
    case NoMembers => NoMembersPrint();
    case Member(k, sp1, sp2, value, post, pre, rest) =>
      KeyParts(s, p, members);
      MemberEnds(s, p, members);
      GoodMember(members);
      var vs := p + |Encode(k)| + |sp1| + 1 + |sp2|;
      CopiesBack(s, vs, value);
      if !rest.NoMembers? { FindFinds(s, Ws(s, Ws(s, vs + |Print(value)|) + 1), rest, key); }
  }

  /** Where scanning an object's members starts. */
  lemma ObjectStart(s: seq<Byte>, lead: seq<Byte>, j: Json)
    requires Spaces(lead) && Good(j) && j.Obj? && At(s, 0, lead) && At(s, |lead|, Print(j))
    ensures var p := |lead| + 1 + |j.lead|;
      Ws(s, 0) == |lead| && Char(s, |lead|) == LBRACE && Ws(s, |lead| + 1) == p &&
      At(s, p, PrintMembers(j.members)) && Char(s, p + |PrintMembers(j.members)|) == RBRACE
  {
    hide At, PrintMembers, Ws, DepthScan, Spaces;
    Brackets(s, |lead|, LBRACE, j.lead, PrintMembers(j.members), RBRACE, 0);
    SpacesEnd(s, 0, lead);
    if j.members.Member? { MembersStart(s, |lead| + 1 + |j.lead|, j.members); } else { NoMembersPrint(); }
    SpacesEnd(s, |lead| + 1, j.lead);
  }

  /** Getting a key from a printed object. */
  lemma ObjectReads(lead: seq<Byte>, j: Json, rest: seq<Byte>, key: seq<Byte>)
    requires Spaces(lead) && Good(j) && j.Obj?
    ensures Get(lead + Print(j) + rest, key) == Lookup(j.members, key)
  {
    hide At, Print, PrintMembers, Ws, Spaces, Good, GoodMembers, FindFrom, Lookup;
    GoodArr(j);
    Framed(lead, Print(j), rest);
    ObjectStart(lead + Print(j) + rest, lead, j);
    FindFinds(lead + Print(j) + rest, |lead| + 1 + |j.lead|, j.members, key);
  }

  // ---------- which keys are found under their own name ----------

  predicate Unescaped(key: seq<Byte>) {
    forall k :: 0 <= k < |key| ==> key[k] != QUOTE && key[k] != BACKSLASH && key[k] != NEWLINE
  }

  lemma {:induction false} SpelledAsIsIff(key: seq<Byte>)
    ensures Body(key) == key <==> Unescaped(key)
  {
    if key != [] {
      SpelledAsIsIff(key[1..]);
      assert key == [key[0]] + key[1..];
      if Escape(key[0]) == [key[0]] {
        assert Body(key) == [key[0]] + Body(key[1..]);
        assert Body(key) == key ==> Body(key)[1..] == key[1..];
      } else {
        assert |Body(key)| > |key|;
      }
    }
  }

  /** A spelling without escapes is that of one key only. */
  lemma {:induction false} SpellingIsKey(key: seq<Byte>)
    requires Unescaped(Body(key))
    ensures Body(key) == key
    decreases |key|
  {
    if key != [] {
      assert Body(key)[0] == Escape(key[0])[0];
      assert Body(key)[1..] == Body(key[1..]);
      SpellingIsKey(key[1..]);
      assert key == [key[0]] + key[1..];
    }
  }

  predicate HasKey(members: Members, key: seq<Byte>) {
    members.Member? && (members.key == key || HasKey(members.rest, key))
  }

  /** The value of the first member called `key`. */
  function ValueOf(members: Members, key: seq<Byte>): Json
    requires HasKey(members, key)
  {
    if members.key == key then members.value else ValueOf(members.rest, key)
  }

  lemma {:induction false} LookupByName(members: Members, key: seq<Byte>)
    requires HasKey(members, key) && Unescaped(key)
    ensures Lookup(members, key) == CopyOf(ValueOf(members, key))
    decreases members
  {
    hide CopyOf;
    SpelledAsIsIff(key);
    if Body(members.key) == key { SpellingIsKey(members.key); }
    if members.key != key { LookupByName(members.rest, key); }
  }

  /** Whatever printed object has a member called `key`, getting `key` from it gives the value. */
  ghost predicate FoundByName(key: seq<Byte>) {
    forall lead: seq<Byte>, j: Json, rest: seq<Byte> ::
      Spaces(lead) && Good(j) && j.Obj? && HasKey(j.members, key) ==>
        Get(lead + Print(j) + rest, key) == CopyOf(ValueOf(j.members, key))
  }

  /** `{key:"0"}` */
  function OneMember(key: seq<Byte>): Json { Obj([], Member(key, [], [], Str([48]), [], [], NoMembers)) }

  /** A key that needs an escape is not found in an object of its own. */
  lemma EscapedIsLost(key: seq<Byte>, lead: seq<Byte>, rest: seq<Byte>)
    requires NulFree(key) && !Unescaped(key) && Spaces(lead)
    ensures var j := OneMember(key);
      Good(j) && HasKey(j.members, key) && CopyOf(ValueOf(j.members, key)) == [48] &&
      Get(lead + Print(j) + rest, key) == []
  {
    hide Get, Print;
    SpelledAsIsIff(key);
    assert Good(Str([48])) && GoodMembers(NoMembers) && GoodMembers(OneMember(key).members);
    ObjectReads(lead, OneMember(key), rest, key);
    assert Lookup(NoMembers, key) == [];
  }

  /** A printed object's members are found under their own names exactly when those need no
      escape: the get compares the key it is given with the text between the quotes. */
  lemma FoundByNameIff(key: seq<Byte>)
    requires NulFree(key)
    ensures FoundByName(key) <==> Unescaped(key)
  {
    hide Print, Get, CopyOf, Lookup, Good, Unescaped;
    if Unescaped(key) {
      forall lead: seq<Byte>, j: Json, rest: seq<Byte> |
        Spaces(lead) && Good(j) && j.Obj? && HasKey(j.members, key)
        ensures Get(lead + Print(j) + rest, key) == CopyOf(ValueOf(j.members, key))
      {
        ObjectReads(lead, j, rest, key);
        LookupByName(j.members, key);
      }
    } else {
      EscapedIsLost(key, [], []);
      var j := OneMember(key);
      assert Spaces([]) && j.Obj?;
      assert Get([] + Print(j) + [], key) != CopyOf(ValueOf(j.members, key));
    }
  }

  /** `{"\"":"0"}`: the member called `"` is not found. */
  lemma QuoteIsLost()
    ensures var j := OneMember([QUOTE]);
      Good(j) && HasKey(j.members, [QUOTE]) && Get(Print(j), [QUOTE]) == []
  {
    hide Print, Get;
    assert [QUOTE][0] == QUOTE;
    EscapedIsLost([QUOTE], [], []);
    assert [] + Print(OneMember([QUOTE])) + [] == Print(OneMember([QUOTE]));
  }

  /** A string encoded and copied back. */
  lemma StringRoundTrip(x: seq<Byte>)
    requires NulFree(x)
    ensures StrEnd(Encode(x), 0) == |Encode(x)| && CopyValue(Encode(x), 0, |Encode(x)|) == x
  {
    assert Encode(x)[0..|Encode(x)|] == Encode(x);
    EncodedEnds(Encode(x), 0, x);
    CopiesBack(Encode(x), 0, Str(x));
  }
}
