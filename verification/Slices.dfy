/** Contents of a sequence at an offset. */
module Slices {

  predicate At<T(==)>(out: seq<T>, off: nat, part: seq<T>) { off + |part| <= |out| && out[off..off + |part|] == part }

  lemma AtConcat<T>(out: seq<T>, off: nat, a: seq<T>, b: seq<T>)
    requires At(out, off, a + b)
    ensures At(out, off, a) && At(out, off + |a|, b)
  {
    var s := out[off..off + |a| + |b|];
    assert out[off..off + |a|] == s[..|a|] && out[off + |a|..off + |a| + |b|] == s[|a|..];
  }

  lemma AtFront<T>(a: seq<T>, b: seq<T>, off: nat, part: seq<T>)
    requires At(a, off, part)
    ensures At(a + b, off, part)
  {
    assert (a + b)[off..off + |part|] == a[off..off + |part|];
  }

  lemma AtEnd<T>(a: seq<T>, b: seq<T>)
    ensures At(a + b, |a|, b)
  {
  }

  lemma AtWithin<T>(out: seq<T>, off: nat, part: seq<T>, base: nat, inner: seq<T>, v: nat)
    requires At(out, off, part) && At(part, base, inner) && v < |inner|
    ensures off + base + v < |out| && out[off + base + v] == inner[v]
  {
    assert part[base + v] == part[base..base + |inner|][v];
    assert out[off + (base + v)] == out[off..off + |part|][base + v];
  }
}
