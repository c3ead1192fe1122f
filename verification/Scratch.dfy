/** The scratch space of the multi-exponentiation: a stack of allocations with checkpoints. */
module Scratch {
  import opened Integers

  const SIZE_MAX: int := TWO64 - 1

  /** The size rounded up to the alignment */
  function RoundUp(size: int, align: nat): int
    requires align >= 1
  {
    (size + align - 1) / align * align
  }

  function Sum(sizes: seq<int>): int {
    if |sizes| == 0 then 0 else Sum(sizes[..|sizes| - 1]) + sizes[|sizes| - 1]
  }

  /** What allocations of these sizes take up together */
  function Footprint(sizes: seq<int>, align: nat): int
    requires align >= 1
  {
    if |sizes| == 0 then 0 else Footprint(sizes[..|sizes| - 1], align) + RoundUp(sizes[|sizes| - 1], align)
  }

  lemma SumSnoc(sizes: seq<int>, size: int)
    ensures Sum(sizes + [size]) == Sum(sizes) + size
  {
    assert (sizes + [size])[..|sizes|] == sizes;
  }

  lemma FootprintSnoc(sizes: seq<int>, size: int, align: nat)
    requires align >= 1
    ensures Footprint(sizes + [size], align) == Footprint(sizes, align) + RoundUp(size, align)
  {
    hide RoundUp;
    assert (sizes + [size])[..|sizes|] == sizes;
  }

  /** The least multiple of the alignment that is not smaller */
  lemma RoundUpBounds(size: int, align: nat)
    requires align >= 1
    ensures size <= RoundUp(size, align) <= size + align - 1 && RoundUp(size, align) % align == 0
  {
    var q, r := (size + align - 1) / align, (size + align - 1) % align;
    assert size + align - 1 == align * q + r;
    assert q * align == align * q;
    ModMultiple(q, align);
  }

  /** Rounding never loses and gains less than an alignment for each size. */
  lemma {:induction false} FootprintBounds(sizes: seq<int>, align: nat)
    requires align >= 1
    ensures Sum(sizes) <= Footprint(sizes, align) <= Sum(sizes) + |sizes| * (align - 1)
    decreases |sizes|
  {
    hide RoundUp;
    if |sizes| != 0 {
      var n := |sizes| - 1;
      FootprintBounds(sizes[..n], align);
      RoundUpBounds(sizes[n], align);
      assert (n + 1) * (align - 1) == n * (align - 1) + (align - 1);
    }
  }

  lemma {:induction false} FootprintNotNegative(sizes: seq<int>, align: nat)
    requires align >= 1 && forall i :: 0 <= i < |sizes| ==> 0 <= sizes[i]
    ensures Footprint(sizes, align) >= 0
    decreases |sizes|
  {
    hide RoundUp;
    if |sizes| != 0 {
      FootprintNotNegative(sizes[..|sizes| - 1], align);
      RoundUpBounds(sizes[|sizes| - 1], align);
    }
  }

  /** A size that is a multiple of d, a divisor of the alignment, gains at most align - d. */
  lemma RoundMultiple(size: int, align: nat, d: nat)
    requires align >= 1 && d >= 1 && align % d == 0 && size % d == 0
    ensures RoundUp(size, align) <= size + align - d
  {
    var q, r := (size + align - 1) / align, (size + align - 1) % align;
    assert size + align - 1 == align * q + r;
    var s, a := size / d, align / d;
    assert size == d * s && align == d * a;
    GainIsMultiple(size, align, d, q, s, a);
    assert q * align == align * q;
  }

  lemma GainIsMultiple(size: int, align: int, d: int, q: int, s: int, a: int)
    requires d >= 1 && size == d * s && align == d * a && align * q <= size + align - 1
    ensures align * q <= size + align - d
  {
    assert align * q == (a * q) * d && (s + a) * d == size + align && (s + a - 1) * d == size + align - d;
    if a * q > s + a - 1 {
      MulMono(s + a, a * q, d);
    } else {
      MulMono(a * q, s + a - 1, d);
    }
  }

  class Space {
    const maxSize: nat
    const align: nat
    var allocSize: nat

    /** Alignments are powers of two, so they divide 2^64. */
    predicate Valid()
      reads this
    {
      1 <= align < TWO32 && TWO64 % align == 0 && allocSize <= maxSize <= SIZE_MAX
    }

    constructor (size: nat, alignment: nat)
      requires size <= SIZE_MAX && 1 <= alignment < TWO32 && TWO64 % alignment == 0
      ensures Valid() && maxSize == size && align == alignment && allocSize == 0
    {
      maxSize, align, allocSize := size, alignment, 0;
    }

    function Free(): int
      reads this
    {
      maxSize - allocSize
    }

    /** The bytes that can be promised to a number of allocations. */
    function MaxAllocation(objects: nat): (bytes: int)
      reads this
      requires Valid() && objects < TWO32
      ensures bytes >= 0 && (bytes > 0 <==> objects * (align - 1) < maxSize - allocSize)
      ensures bytes > 0 ==> bytes + objects * (align - 1) == Free()
    {
      if Free() <= objects * (align - 1) then 0 else Free() - objects * (align - 1)
    }

    method Alloc(size: int) returns (ok: bool)
      requires Valid() && 0 <= size <= SIZE_MAX
      modifies this
      ensures Valid() && (ok <==> RoundUp(size, align) <= maxSize - old(allocSize))
      ensures allocSize == old(allocSize) + if ok then RoundUp(size, align) else 0
    {
      RoundUpBounds(size, align);
      // rounding would wrap around
      if size + align - 1 > SIZE_MAX {
        WrapsAround(size, align);
        return false;
      }
      var rounded := RoundUp(size, align);
      if rounded > Free() {
        return false;
      }
      allocSize := allocSize + rounded;
      ok := true;
    }

    /** One allocation after the other; a failure does not keep the later ones from being tried. */
    method AllocAll(sizes: seq<int>) returns (ok: bool)
      requires Valid() && forall i :: 0 <= i < |sizes| ==> 0 <= sizes[i] <= SIZE_MAX
      modifies this
      ensures Valid() && (ok <==> Footprint(sizes, align) <= maxSize - old(allocSize))
      ensures old(allocSize) <= allocSize && (ok ==> allocSize == old(allocSize) + Footprint(sizes, align))
    {
      hide RoundUp;
      ok := true;
      var i := 0;
      while i < |sizes|
        invariant 0 <= i <= |sizes| && Valid() && old(allocSize) <= allocSize
        invariant ok ==> allocSize == old(allocSize) + Footprint(sizes[..i], align)
        invariant ok <==> Footprint(sizes[..i], align) <= old(Free())
      {
        RoundUpBounds(sizes[i], align);
        assert sizes[..i + 1][..i] == sizes[..i];
        var given := Alloc(sizes[i]);
        ok := ok && given;
        i := i + 1;
      }
      assert sizes[..|sizes|] == sizes;
    }

    method ApplyCheckpoint(checkpoint: nat)
      requires Valid()
      modifies this
      ensures Valid() && allocSize == if checkpoint > old(allocSize) then old(allocSize) else checkpoint
    {
      if checkpoint > allocSize {
        return;
      }
      allocSize := checkpoint;
    }
  }

  lemma WrapsAround(size: int, align: nat)
    requires 1 <= align && TWO64 % align == 0 && size + align - 1 >= TWO64
    ensures RoundUp(size, align) >= TWO64
  {
    var q, r := (size + align - 1) / align, (size + align - 1) % align;
    assert size + align - 1 == align * q + r;
    var k := TWO64 / align;
    assert TWO64 == align * k;
    assert (q + 1) * align == align * q + align && k * align == TWO64;
    if q < k {
      MulMono(q + 1, k, align);
    }
    MulMono(k, q, align);
  }
}
