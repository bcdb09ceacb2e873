/** Rounding up to a multiple (align_up in src/arena.c and src/elf_link.c, and the masks in src/elf_obj.c). */
module Alignment {
  import opened Bits

  function AlignUp(v: nat, a: nat): (r: nat)
    requires a > 0
    ensures r >= v
  {
    assert (v + a - 1) == (v + a - 1) / a * a + (v + a - 1) % a;
    (v + a - 1) / a * a
  }

  lemma MulMono(x: int, y: int, a: nat)
    requires x <= y
    ensures x * a <= y * a
  {
  }

  /** Multiples of `a` are at least `a` apart. */
  lemma NoMultipleBetween(r: nat, q: nat, a: nat)
    requires a > 0 && r % a == 0 && r + a > q * a
    ensures r >= q * a
  {
    var k := r / a;
    assert r == k * a + r % a;
    assert r + a == (k + 1) * a;
    if k + 1 <= q { MulMono(k + 1, q, a); }
    MulMono(q, k, a);
  }

  lemma AlignUpIs(v: nat, a: nat)
    requires a > 0
    ensures AlignUp(v, a) % a == 0 && AlignUp(v, a) < v + a
    ensures forall r :: v <= r && r % a == 0 ==> AlignUp(v, a) <= r
  {
    var q := (v + a - 1) / a;
    assert v + a - 1 == q * a + (v + a - 1) % a;
    ModUnique(q * a, a, q, 0);
    forall r | v <= r && r % a == 0 ensures q * a <= r {
      NoMultipleBetween(r, q, a);
    }
  }

  lemma AlignUpUnique(v: nat, a: nat, r: nat)
    requires a > 0 && v <= r < v + a && r % a == 0
    ensures AlignUp(v, a) == r
  {
    AlignUpIs(v, a);
    var x := AlignUp(v, a);
    assert x == x / a * a + x % a;
    assert r == r / a * a + r % a;
    NoMultipleBetween(x, r / a, a);
  }

  /** Aligning relative to an aligned base. */
  lemma AlignUpShift(base: nat, v: nat, a: nat)
    requires a > 0 && base % a == 0
    ensures AlignUp(base + v, a) == base + AlignUp(v, a)
  {
    AlignUpIs(v, a);
    var x := AlignUp(v, a);
    assert base == base / a * a && x == x / a * a;
    ModUnique(base + x, a, base / a + x / a, 0) by { assert (base / a + x / a) * a == base / a * a + x / a * a; }
    AlignUpUnique(base + v, a, base + x);
  }

  lemma AlignUpAligned(v: nat, a: nat)
    requires a > 0 && v % a == 0
    ensures AlignUp(v, a) == v
  {
    AlignUpUnique(v, a, v);
  }
}
