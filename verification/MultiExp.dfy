/** Multi-scalar multiplication: batching, and the choice between the simple, Strauss and Pippenger algorithms. */
module MultiExp {
  import opened Integers
  import opened Groups
  import opened Recoding
  import opened RecodingFixed
  import opened RecodingConst
  import opened SplitLambda
  import opened Curves
  import opened Pippenger
  import opened Strauss
  import opened Scratch
  import opened Wrappers

  const MAX_BUCKET_WINDOW: nat := 12
  const PIPPENGER_THRESHOLD: nat := 88
  const MAX_POINTS_PER_BATCH: nat := 5000000
  const SCRATCH_OBJECTS: nat := 6

  /** A scalar and the point it multiplies, as the caller's callback hands them out. */
  datatype Term<T> = Term(scalar: Residue, point: T)

  // ---------- bucket windows ----------

  function BucketWindow(n: nat): (w: nat)
    ensures 1 <= w <= MAX_BUCKET_WINDOW
  {
    if n <= 1 then 1
    else if n <= 4 then 2
    else if n <= 20 then 3
    else if n <= 57 then 4
    else if n <= 136 then 5
    else if n <= 235 then 6
    else if n <= 1260 then 7
    else if n <= 4420 then 9
    else if n <= 7880 then 10
    else if n <= 16050 then 11
    else MAX_BUCKET_WINDOW
  }

  function BucketWindowInv(bucketWindow: nat): int {
    match bucketWindow
    case 1 => 1
    case 2 => 4
    case 3 => 20
    case 4 => 57
    case 5 => 136
    case 6 => 235
    case 7 => 1260
    case 8 => 1260
    case 9 => 4420
    case 10 => 7880
    case 11 => 16050
    case 12 => SIZE_MAX
    case _ => 0
  }

  /** The two tables are inverse: a window serves n points exactly when n is at most its inverse. */
  lemma WindowTablesAgree(n: nat, w: nat)
    requires n <= SIZE_MAX && 1 <= w <= MAX_BUCKET_WINDOW
    ensures BucketWindow(n) <= w <==> n <= BucketWindowInv(w)
  {
  }

  /** Sizes of the C structures, in bytes. */
  datatype Sizes = Sizes(ge: nat, gej: nat, scalar: nat, fe: nat, pointState: nat, state: nat, straussPoint: nat, int_: nat) {
    predicate Valid() {
      ge > 0 && gej > 0 && scalar > 0 && fe > 0 && pointState > 0 && state > 0 && straussPoint > 0 && int_ > 0
    }

    function Entry(w: nat): (e: int)
      requires Valid()
      ensures e > 0
    {
      ge + scalar + pointState + Words(w + 1)
    }

    function Words(w: nat): (b: int)
      requires w >= 1
      ensures b >= 0
    {
      MulMono(0, WnafSize(128, w) + 1, int_);
      (WnafSize(128, w) + 1) * int_
    }

    function Overhead(w: nat): int
      requires Valid()
    {
      gej * Pow2(w) + 2 * Entry(w) + state
    }

    /** Bytes needed for n points besides the generator. */
    function ScratchSize(n: nat, w: nat): int
      requires Valid()
    {
      gej * Pow2(w) + state + (2 * n + 2) * Entry(w)
    }

    lemma HasRoom(n: nat, w: nat, maxAlloc: int)
      requires Valid() && Overhead(w) <= maxAlloc && n <= (maxAlloc - Overhead(w)) / (2 * Entry(w))
      ensures ScratchSize(n, w) <= maxAlloc
    {
      hide Entry, Pow2;
      var e := 2 * Entry(w);
      var space := maxAlloc - Overhead(w);
      assert space == e * (space / e) + space % e;
      MulMono(n, space / e, e);
      ScratchAlgebra(n, Entry(w), gej * Pow2(w), state);
    }

    lemma ScratchAlgebra(n: int, e: int, b: int, s: int)
      ensures b + s + (2 * n + 2) * e == (b + 2 * e + s) + n * (2 * e)
    {
    }

    lemma DoesNotFit(n: nat, w: nat, maxAlloc: int)
      requires Valid() && (Overhead(w) > maxAlloc || n > (maxAlloc - Overhead(w)) / (2 * Entry(w)))
      ensures ScratchSize(n, w) > maxAlloc
    {
      hide Entry, Pow2;
      var e := 2 * Entry(w);
      ScratchAlgebra(n, Entry(w), gej * Pow2(w), state);
      MulMono(0, n, e);
      if Overhead(w) <= maxAlloc {
        var space := maxAlloc - Overhead(w);
        assert space == e * (space / e) + space % e;
        MulMono(space / e + 1, n, e);
      }
    }

    /** The largest number of points such that it, and every smaller number, fits: one point more does not. */
    method PippengerMaxPoints(maxAlloc: nat) returns (res: nat)
      requires Valid() && maxAlloc <= SIZE_MAX
      ensures res <= SIZE_MAX
      ensures forall n :: 1 <= n <= res ==> ScratchSize(n, BucketWindow(n)) <= maxAlloc
      ensures res < SIZE_MAX ==> ScratchSize(res + 1, BucketWindow(res + 1)) > maxAlloc
    {
      hide Pow2, Entry, ScratchSize, Overhead, BucketWindow, BucketWindowInv;
      res := 0;
      var w: nat := 1;
      while w <= MAX_BUCKET_WINDOW
        invariant 1 <= w <= MAX_BUCKET_WINDOW + 1
        invariant 0 <= res <= SIZE_MAX
        invariant res == if w == 1 then 0 else BucketWindowInv(w - 1)
        invariant forall n :: 1 <= n <= res ==> ScratchSize(n, BucketWindow(n)) <= maxAlloc
      {
        InvSteps(w);
        var maxPoints := BucketWindowInv(w);
        var overhead := Overhead(w);
        if overhead > maxAlloc {
          NextDoesNotFit(w, res, maxAlloc);
          break;
        }
        var entry := 2 * Entry(w);
        var nPoints := (maxAlloc - overhead) / entry;
        ghost var space := nPoints;
        nPoints := if nPoints > maxPoints then maxPoints else nPoints;
        WindowFits(w, nPoints, res, maxAlloc);
        if nPoints > res {
          res := nPoints;
        }
        if nPoints < maxPoints {
          assert nPoints == space;
          NextDoesNotFit(w, res, maxAlloc);
          break;
        }
        w := w + 1;
      }
      InvSteps(MAX_BUCKET_WINDOW);
    }

    lemma InvSteps(w: nat)
      requires 1 <= w <= MAX_BUCKET_WINDOW
      ensures 0 < BucketWindowInv(w) <= SIZE_MAX
      ensures if w > 1 then BucketWindowInv(w - 1) <= BucketWindowInv(w) else BucketWindowInv(w) == 1
      ensures w > 1 && w != 8 ==> BucketWindowInv(w - 1) < BucketWindowInv(w)
      ensures w == MAX_BUCKET_WINDOW ==> BucketWindowInv(w) == SIZE_MAX
    {
    }

    /** Where the search ends, the next number of points needs too much. */
    lemma NextDoesNotFit(w: nat, res: nat, maxAlloc: int)
      requires Valid() && 1 <= w <= MAX_BUCKET_WINDOW
      requires Overhead(w) > maxAlloc
        || (res + 1 > (maxAlloc - Overhead(w)) / (2 * Entry(w)) && BucketWindowInv(w) > (maxAlloc - Overhead(w)) / (2 * Entry(w)))
      requires res >= if w == 1 then 0 else BucketWindowInv(w - 1)
      requires if w == 8 then res <= BucketWindowInv(w) else res < BucketWindowInv(w)
      requires forall n :: 1 <= n <= res ==> ScratchSize(n, BucketWindow(n)) <= maxAlloc
      ensures res < SIZE_MAX ==> ScratchSize(res + 1, BucketWindow(res + 1)) > maxAlloc
    {
      hide Pow2, Entry, ScratchSize, Overhead;
      if w == 8 {
        assert res == 1260 && BucketWindow(1260) == 7 && BucketWindow(1261) == 9;
        DoesNotFit(1260, 8, maxAlloc);
        WindowEightIsNoLoss(maxAlloc);
      } else if res < SIZE_MAX {
        DoesNotFit(res + 1, w, maxAlloc);
      }
    }

    /**
     * Window 8 serves no number of points, and the search may end there with 1260 points. Nothing is lost: whatever the
     * sizes, memory that holds 1260 points at window 7 but not at window 8 does not hold 1261 points at window 9.
     */
    lemma WindowEightIsNoLoss(maxAlloc: int)
      requires Valid() && ScratchSize(1260, 7) <= maxAlloc < ScratchSize(1260, 8)
      ensures ScratchSize(1261, 9) > maxAlloc
    {
      assert Pow2(7) == 128 && Pow2(8) == 256 && Pow2(9) == 512 by {
        assert Pow2(3) == 8;
        assert Pow2(5) == 32;
        assert Pow2(7) == 128;
      }
      assert WnafSize(128, 8) == 16 && WnafSize(128, 9) == 15 && WnafSize(128, 10) == 13;
      hide Pow2, WnafSize;
      var b := ge + scalar + pointState;
      assert Entry(7) == b + 17 * int_ && Entry(8) == b + 16 * int_ && Entry(9) == b + 14 * int_;
    }

    // ---------- the allocations of one batch ----------

    function PippengerFirst(n: nat): seq<int> {
      [(2 * n + 2) * ge, (2 * n + 2) * scalar, state]
    }

    function PippengerSecond(n: nat, w: nat): seq<int> {
      [(2 * n + 2) * pointState, (2 * n + 2) * WnafSize(128, w + 1) * int_, Pow2(w) * gej]
    }

    /** What a Pippenger batch of n points takes up. */
    function PippengerTotal(n: nat, align: nat): int
      requires align >= 1
    {
      Footprint(PippengerFirst(n), align) + Footprint(PippengerSecond(n, BucketWindow(n)), align)
    }

    lemma PippengerBytes(n: nat, w: nat)
      requires Valid() && w >= 1
      ensures forall i :: 0 <= i < 3 ==> 0 <= PippengerFirst(n)[i] && 0 <= PippengerSecond(n, w)[i]
      ensures Sum(PippengerFirst(n)) + Sum(PippengerSecond(n, w)) + (2 * n + 2) * int_ == ScratchSize(n, w)
      ensures forall i :: 0 <= i < 3 ==> PippengerFirst(n)[i] <= ScratchSize(n, w) && PippengerSecond(n, w)[i] <= ScratchSize(n, w)
    {
      var e, words := 2 * n + 2, WnafSize(128, w + 1);
      hide WnafSize, Pow2, ScratchSize;
      SizeBounds0(w + 1);
      NonNegative(e, ge);
      NonNegative(e, scalar);
      NonNegative(e, pointState);
      NonNegative(e, words);
      NonNegative(e * words, int_);
      NonNegative(Pow2(w), gej);
      NonNegative(e, int_);
      SumOfThree(e * ge, e * scalar, state);
      SumOfThree(e * pointState, e * words * int_, Pow2(w) * gej);
      ScratchIs(n, w, e, words);
    }

    lemma ScratchIs(n: nat, w: nat, e: int, words: int)
      requires Valid() && w >= 1 && e == 2 * n + 2 && words == WnafSize(128, w + 1)
      ensures ScratchSize(n, w) == e * ge + e * scalar + state + e * pointState + e * words * int_ + Pow2(w) * gej + e * int_
    {
      hide WnafSize, Pow2;
      var a := ge + scalar + pointState;
      assert Entry(w) == a + (words + 1) * int_;
      assert e * (a + (words + 1) * int_) == e * a + e * ((words + 1) * int_);
      assert e * ((words + 1) * int_) == e * words * int_ + e * int_;
      assert e * a == e * ge + e * scalar + e * pointState;
    }

    /** Every number of points up to the maximum finds its memory: six roundings are what was set aside. */
    lemma PippengerFits(n: nat, align: nat, maxAlloc: int, free: int)
      requires Valid() && align >= 1 && maxAlloc >= 0 && (maxAlloc > 0 ==> maxAlloc + SCRATCH_OBJECTS * (align - 1) == free)
      requires ScratchSize(n, BucketWindow(n)) <= maxAlloc
      ensures PippengerTotal(n, align) <= free
    {
      var w := BucketWindow(n);
      hide ScratchSize, PippengerFirst, PippengerSecond, Footprint, Sum, BucketWindow;
      PippengerBytes(n, w);
      SizeNotZero(n, w);
      FootprintBounds(PippengerFirst(n), align);
      FootprintBounds(PippengerSecond(n, w), align);
      LengthsAreThree(n, w);
    }

    lemma LengthsAreThree(n: nat, w: nat)
      ensures |PippengerFirst(n)| == |PippengerSecond(n, w)| == 3
    {
    }

    lemma SizeNotZero(n: nat, w: nat)
      requires Valid() && w >= 1
      ensures ScratchSize(n, w) > 0
    {
      hide Entry;
      NonNegative(Pow2(w), gej);
      NonNegative(2 * n + 2, Entry(w));
    }

    /** The arrays first, the buckets only when the arrays were given. */
    method AllocPippenger(space: Space, n: nat, bucketWindow: nat) returns (ok: bool)
      requires space.Valid() && Valid() && Counts(true, n) && bucketWindow == BucketWindow(n)
      modifies space
      ensures space.Valid() && old(space.allocSize) <= space.allocSize
      ensures ok <==> PippengerTotal(n, space.align) <= old(space.Free())
    {
      hide Footprint, PippengerFirst, PippengerSecond, ScratchSize, BucketWindow;
      PippengerBytes(n, bucketWindow);
      LengthsAreThree(n, bucketWindow);
      FootprintNotNegative(PippengerSecond(n, bucketWindow), space.align);
      ok := space.AllocAll(PippengerFirst(n));
      if ok {
        ok := space.AllocAll(PippengerSecond(n, bucketWindow));
      }
    }

    function PointSize(): int {
      (2 * ge + gej + fe) * TABLE_A + straussPoint + gej + scalar
    }

    function StraussBytes(n: nat): seq<int> {
      [n * gej, n * scalar, n * TABLE_A * gej, n * TABLE_A * fe, n * TABLE_A * ge, n * TABLE_A * ge, n * straussPoint]
    }

    lemma StraussSum(n: nat)
      ensures forall i :: 0 <= i < 7 ==> 0 <= StraussBytes(n)[i]
      ensures Sum(StraussBytes(n)) == n * PointSize()
      ensures PointSize() == TABLE_A * (2 * ge + gej + fe) + straussPoint + gej + scalar
      ensures forall i :: 0 <= i < 7 ==> StraussBytes(n)[i] <= n * PointSize()
    {
      NonNegative(n, gej);
      NonNegative(n, scalar);
      NonNegative(n, fe);
      NonNegative(n, ge);
      NonNegative(n, straussPoint);
      var b := StraussBytes(n);
      SumOfSeven(b[0], b[1], b[2], b[3], b[4], b[5], b[6]);
      StraussAlgebra(n, ge, gej, fe, scalar, straussPoint);
    }

    /** Alignments up to 16, or one that divides the size of a point, make room for the seventh allocation. */
    predicate Aligned(align: nat)
      requires align >= 1
    {
      16 % align == 0 || gej % align == 0
    }

    /**
     * A Strauss batch makes seven allocations although six roundings were set aside. It still finds its memory when the
     * alignment divides 16, because four of the sizes are multiples of 8, or divides the size of a Jacobian point.
     */
    lemma StraussFits(n: nat, align: nat, maxAlloc: int, free: int)
      requires Valid() && align >= 1 && Aligned(align)
      requires 0 < maxAlloc && maxAlloc + SCRATCH_OBJECTS * (align - 1) == free && n * PointSize() <= maxAlloc
      ensures Footprint(StraussBytes(n), align) <= free
    {
      hide PointSize, RoundUp, Footprint;
      StraussSum(n);
      var b := StraussBytes(n);
      SumOfSeven(b[0], b[1], b[2], b[3], b[4], b[5], b[6]);
      FootprintOfSeven(b[0], b[1], b[2], b[3], b[4], b[5], b[6], align);
      if 16 % align == 0 {
        SixteenFits(n, align);
      } else {
        MultipleFits(n, align);
      }
    }

    lemma SixteenFits(n: nat, align: nat)
      requires Valid() && align >= 1 && 16 % align == 0
      ensures var b := StraussBytes(n);
        RoundUp(b[0], align) + RoundUp(b[1], align) + RoundUp(b[2], align) + RoundUp(b[3], align)
          + RoundUp(b[4], align) + RoundUp(b[5], align) + RoundUp(b[6], align)
        <= b[0] + b[1] + b[2] + b[3] + b[4] + b[5] + b[6] + SCRATCH_OBJECTS * (align - 1)
    {
      hide RoundUp;
      SixteenIs(align);
      EightfoldGain(n, gej, align);
      EightfoldGain(n, fe, align);
      EightfoldGain(n, ge, align);
      RoundUpBounds(n * gej, align);
      RoundUpBounds(n * scalar, align);
      RoundUpBounds(n * straussPoint, align);
    }

    lemma MultipleFits(n: nat, align: nat)
      requires Valid() && align >= 1 && gej % align == 0
      ensures var b := StraussBytes(n);
        RoundUp(b[0], align) + RoundUp(b[1], align) + RoundUp(b[2], align) + RoundUp(b[3], align)
          + RoundUp(b[4], align) + RoundUp(b[5], align) + RoundUp(b[6], align)
        <= b[0] + b[1] + b[2] + b[3] + b[4] + b[5] + b[6] + SCRATCH_OBJECTS * (align - 1)
    {
      hide RoundUp;
      var b := StraussBytes(n);
      MultipleGain(n, gej, align);
      RoundUpBounds(b[1], align);
      RoundUpBounds(b[2], align);
      RoundUpBounds(b[3], align);
      RoundUpBounds(b[4], align);
      RoundUpBounds(b[5], align);
      RoundUpBounds(b[6], align);
    }

    lemma LengthIsSeven(n: nat)
      ensures |StraussBytes(n)| == 7
    {
    }

    lemma PointSizePositive()
      requires Valid()
      ensures PointSize() > 0
    {
    }

    /** A batch of n points finds the bytes it asks for, one allocation after the other. */
    predicate Fits(pippenger: bool, n: nat, align: nat, free: int)
      requires align >= 1
    {
      if pippenger then PippengerTotal(n, align) <= free else Footprint(StraussBytes(n), align) <= free
    }

    /** The byte counts of a batch do not wrap around. */
    predicate Counts(pippenger: bool, n: nat)
      requires Valid()
    {
      if pippenger then ScratchSize(n, BucketWindow(n)) <= SIZE_MAX else n * PointSize() <= SIZE_MAX
    }

    /** Batches of at most the promised number of points find their memory. */
    lemma BatchesFit(pippenger: bool, points: nat, align: nat, maxAlloc: int, free: int)
      requires Valid() && align >= 1 && 0 <= maxAlloc <= SIZE_MAX
      requires maxAlloc > 0 ==> maxAlloc + SCRATCH_OBJECTS * (align - 1) == free
      requires pippenger ==> forall m :: 1 <= m <= points ==> ScratchSize(m, BucketWindow(m)) <= maxAlloc
      requires !pippenger ==> PointSize() > 0 && points <= maxAlloc / PointSize()
      ensures forall m: nat :: 1 <= m <= points ==> Counts(pippenger, m)
      ensures pippenger || Aligned(align) ==> forall m: nat :: 1 <= m <= points ==> Fits(pippenger, m, align, free)
    {
      hide ScratchSize, BucketWindow, PointSize, PippengerTotal, StraussBytes, Footprint, Aligned;
      forall m: nat | 1 <= m <= points
        ensures Counts(pippenger, m) && (pippenger || Aligned(align) ==> Fits(pippenger, m, align, free))
      {
        if pippenger {
          PippengerFits(m, align, maxAlloc, free);
        } else {
          Promised(m, points, PointSize(), maxAlloc);
          if Aligned(align) {
            StraussFits(m, align, maxAlloc, free);
          }
        }
      }
    }

    /** Numbers of points above the last window's limit use this window. */
    lemma WindowFits(w: nat, nPoints: int, res: int, maxAlloc: int)
      requires Valid() && 1 <= w <= MAX_BUCKET_WINDOW && Overhead(w) <= maxAlloc
      requires nPoints <= (maxAlloc - Overhead(w)) / (2 * Entry(w)) && nPoints <= BucketWindowInv(w)
      requires res == if w == 1 then 0 else BucketWindowInv(w - 1)
      ensures forall n :: res < n <= nPoints ==> ScratchSize(n, BucketWindow(n)) <= maxAlloc
    {
      hide Pow2, Entry, ScratchSize, Overhead, BucketWindow;
      forall n | res < n <= nPoints
        ensures ScratchSize(n, BucketWindow(n)) <= maxAlloc
      {
        WindowTablesAgree(n, w);
        if w > 1 {
          WindowTablesAgree(n, w - 1);
        } else {
          WindowAtLeastOne(n);
        }
        HasRoom(n, w, maxAlloc);
      }
    }

    lemma WindowAtLeastOne(n: nat)
      ensures BucketWindow(n) >= 1
    {
    }
  }

  lemma Promised(m: int, points: int, size: int, maxAlloc: int)
    requires 1 <= m <= points && size > 0 && 0 <= maxAlloc && points <= maxAlloc / size
    ensures 0 < m * size <= maxAlloc
  {
    var q, r := maxAlloc / size, maxAlloc % size;
    assert maxAlloc == size * q + r;
    MulMono(m, q, size);
    MulMono(1, m, size);
  }

  lemma NonNegative(a: int, b: int)
    requires a >= 0 && b >= 0
    ensures a * b >= 0
  {
  }

  lemma SizeBounds0(w: nat)
    requires w >= 1
    ensures WnafSize(128, w) >= 0
  {
  }

  lemma SumOfThree(a: int, b: int, c: int)
    ensures Sum([a, b, c]) == a + b + c
  {
    assert [a, b, c] == [a, b] + [c] && [a, b] == [a] + [b] && [a] == [] + [a];
    SumSnoc([], a);
    SumSnoc([a], b);
    SumSnoc([a, b], c);
  }

  lemma SumOfSeven(a: int, b: int, c: int, d: int, e: int, f: int, g: int)
    ensures Sum([a, b, c, d, e, f, g]) == a + b + c + d + e + f + g
  {
    SumOfThree(a, b, c);
    SumSnoc([a, b, c], d);
    SumSnoc([a, b, c] + [d], e);
    SumSnoc([a, b, c] + [d] + [e], f);
    SumSnoc([a, b, c] + [d] + [e] + [f], g);
    assert [a, b, c, d, e, f, g] == [a, b, c] + [d] + [e] + [f] + [g];
  }

  lemma FootprintOfSeven(a: int, b: int, c: int, d: int, e: int, f: int, g: int, align: nat)
    requires align >= 1
    ensures Footprint([a, b, c, d, e, f, g], align) == RoundUp(a, align) + RoundUp(b, align) + RoundUp(c, align) + RoundUp(d, align)
      + RoundUp(e, align) + RoundUp(f, align) + RoundUp(g, align)
  {
    hide RoundUp;
    FootprintSnoc([], a, align);
    FootprintSnoc([] + [a], b, align);
    FootprintSnoc([] + [a] + [b], c, align);
    FootprintSnoc([] + [a] + [b] + [c], d, align);
    FootprintSnoc([] + [a] + [b] + [c] + [d], e, align);
    FootprintSnoc([] + [a] + [b] + [c] + [d] + [e], f, align);
    FootprintSnoc([] + [a] + [b] + [c] + [d] + [e] + [f], g, align);
    assert [a, b, c, d, e, f, g] == [] + [a] + [b] + [c] + [d] + [e] + [f] + [g];
  }

  lemma StraussAlgebra(n: int, ge: int, gej: int, fe: int, scalar: int, point: int)
    ensures n * gej + n * scalar + n * 8 * gej + n * 8 * fe + n * 8 * ge + n * 8 * ge + n * point
      == n * ((2 * ge + gej + fe) * 8 + point + gej + scalar)
  {
  }

  lemma SixteenIs(align: nat)
    requires align >= 1 && 16 % align == 0
    ensures align in {1, 2, 4, 8, 16}
  {
  }

  /** A multiple of 8 gains at most 8 from an alignment that divides 16. */
  lemma EightfoldGain(n: int, x: int, align: nat)
    requires align >= 1 && 16 % align == 0
    ensures RoundUp(n * 8 * x, align) <= n * 8 * x + if align <= 8 then 0 else 8
  {
    hide RoundUp;
    SixteenIs(align);
    var k := n * x;
    assert n * 8 * x == 8 * k;
    if align <= 8 {
      EightMod(k, align);
      RoundMultiple(8 * k, align, align);
    } else {
      RoundMultiple(8 * k, align, 8);
    }
  }

  lemma EightMod(k: int, align: nat)
    requires align in {1, 2, 4, 8}
    ensures 8 * k % align == 0
  {
  }

  lemma MultipleGain(n: int, x: int, align: nat)
    requires align >= 1 && x % align == 0
    ensures RoundUp(n * x, align) <= n * x
  {
    var k := x / align;
    assert n * x == (n * k) * align by {
      assert x == align * k;
    }
    ModMultiple(n * k, align);
    RoundMultiple(n * x, align, align);
  }

  /** With alignment 32 and sizes it does not divide, a batch of the promised size may not find its memory. */
  lemma StraussMayNotFit()
    ensures var z := Sizes(1, 1, 1, 1, 1, 1, 1, 1);
      && z.Valid() && !z.Aligned(32) && 35 / z.PointSize() == 1
      && Footprint(z.StraussBytes(1), 32) > 35 + SCRATCH_OBJECTS * 31
  {
    FootprintOfSeven(1, 1, 8, 8, 8, 8, 1, 32);
  }

  /** The sizes of a 64-bit build meet the condition for all alignments up to 128. */
  lemma BuildIsAligned()
    ensures var z := Sizes(88, 128, 32, 40, 16, 16, 1112, 4);
      z.Valid() && forall align :: align in {1, 2, 4, 8, 16, 32, 64, 128} ==> z.Aligned(align)
  {
  }

  // ---------- the sum that is computed ----------

  function GeneratorPart<T(!new)>(c: Curve<T>, gSc: Option<int>): T {
    if gSc.Some? then c.group.Mul(gSc.value, c.generator) else c.group.zero
  }

  /** The callback succeeds on the n indices from off. */
  predicate Given<T>(cb: nat -> Option<Term<T>>, off: nat, n: nat) {
    forall i :: off <= i < off + n ==> cb(i).Some?
  }

  /** The scalars that the callback gives for off, ..., off + n - 1, and the points. */
  function ScalarsOf<T>(cb: nat -> Option<Term<T>>, off: nat, n: nat): (sc: seq<int>)
    requires Given(cb, off, n)
    ensures |sc| == n && forall i :: 0 <= i < n ==> cb(off + i).value.scalar == sc[i]
  {
    seq(n, i requires 0 <= i < n => cb(off + i).value.scalar)
  }

  function PointsOf<T>(cb: nat -> Option<Term<T>>, off: nat, n: nat): (pt: seq<T>)
    requires Given(cb, off, n)
    ensures |pt| == n && forall i :: 0 <= i < n ==> cb(off + i).value.point == pt[i]
  {
    seq(n, i requires 0 <= i < n => cb(off + i).value.point)
  }

  lemma NoTerms<T(!new)>(g: Group<T>, cb: nat -> Option<Term<T>>, off: nat)
    ensures g.Lin(ScalarsOf(cb, off, 0), PointsOf(cb, off, 0)) == g.zero
  {
  }

  lemma OneMoreTerm<T>(cb: nat -> Option<Term<T>>, off: nat, n: nat)
    requires Given(cb, off, n + 1)
    ensures ScalarsOf(cb, off, n + 1) == ScalarsOf(cb, off, n) + [cb(off + n).value.scalar]
    ensures PointsOf(cb, off, n + 1) == PointsOf(cb, off, n) + [cb(off + n).value.point]
  {
  }

  lemma GivenSplit<T>(cb: nat -> Option<Term<T>>, off: nat, m: nat, n: nat)
    requires Given(cb, off, m) && Given(cb, off + m, n)
    ensures Given(cb, off, m + n)
  {
  }

  lemma TermsSplit<T(!new)>(g: Group<T>, cb: nat -> Option<Term<T>>, off: nat, m: nat, n: nat)
    requires g.Valid() && Given(cb, off, m) && Given(cb, off + m, n)
    ensures Given(cb, off, m + n)
    ensures g.Lin(ScalarsOf(cb, off, m + n), PointsOf(cb, off, m + n))
      == g.add(g.Lin(ScalarsOf(cb, off, m), PointsOf(cb, off, m)), g.Lin(ScalarsOf(cb, off + m, n), PointsOf(cb, off + m, n)))
  {
    GivenSplit(cb, off, m, n);
    assert ScalarsOf(cb, off, m + n) == ScalarsOf(cb, off, m) + ScalarsOf(cb, off + m, n);
    assert PointsOf(cb, off, m + n) == PointsOf(cb, off, m) + PointsOf(cb, off + m, n);
    g.LinConcat(ScalarsOf(cb, off, m), ScalarsOf(cb, off + m, n), PointsOf(cb, off, m), PointsOf(cb, off + m, n));
  }

  // ---------- one batch ----------

  method EndoSplit<T(!new)>(c: Curve<T>, k: int, p: T) returns (s1: int, s2: int, p1: T, p2: T)
    requires c.Valid() && 0 <= k < N
    ensures 0 <= s1 < K1_BOUND < TWO128 && 0 <= s2 < K2_BOUND < TWO128
    ensures c.group.add(c.group.Mul(s1, p1), c.group.Mul(s2, p2)) == c.group.Mul(k, p)
  {
    hide Group.Mul, First, Second, SignedScalar;
    var g := c.group;
    s1, s2, p1, p2 := First(k), Second(k), p, c.endo(p);
    SplitIsShort(k);
    c.SplitMul(k, p);
    HighIsNegative(s1, K1_BOUND);
    HighIsNegative(s2, K2_BOUND);
    if s1 > HALF_N {
      g.MulNeg(N - s1, p1);
      g.MulOfNeg(N - s1, p1);
      s1, p1 := NegateMod(s1), g.neg(p1);
    }
    if s2 > HALF_N {
      g.MulNeg(N - s2, p2);
      g.MulOfNeg(N - s2, p2);
      s2, p2 := NegateMod(s2), g.neg(p2);
    }
  }

  /** Short scalars are high exactly when they stand for negative numbers. */
  lemma HighIsNegative(s: int, bound: int)
    requires 0 <= s < N && -bound < SignedScalar(s) < bound <= TWO128
    ensures SignedScalar(s) == if s > HALF_N then s - N else s
  {
  }

  lemma TwoTerms<T(!new)>(g: Group<T>, sc: seq<int>, pt: seq<T>, s1: int, s2: int, p1: T, p2: T)
    requires g.Valid() && |sc| == |pt|
    ensures g.Lin(sc + [s1, s2], pt + [p1, p2]) == g.add(g.Lin(sc, pt), g.add(g.Mul(s1, p1), g.Mul(s2, p2)))
  {
    assert sc + [s1, s2] == (sc + [s1]) + [s2] && pt + [p1, p2] == (pt + [p1]) + [p2];
    g.LinSnoc(sc, pt, s1, p1);
    g.LinSnoc(sc + [s1], pt + [p1], s2, p2);
    g.Assoc(g.Lin(sc, pt), g.Mul(s1, p1), g.Mul(s2, p2));
  }

  /** The memory of all allocations of a batch is given back, however it ends. Byte counts must not wrap around. */
  method PippengerBatch<T(!new, ==)>(c: Curve<T>, sizes: Sizes, space: Space, gSc: Option<int>, cb: nat -> Option<Term<T>>, n: nat, off: nat)
    returns (ok: bool, r: T)
    requires c.Valid() && (gSc.Some? ==> 0 <= gSc.value < N)
    requires space.Valid() && sizes.Valid() && sizes.Counts(true, n)
    modifies space
    ensures space.Valid() && space.allocSize == old(space.allocSize)
    ensures ok <==> (gSc.None? && n == 0) || (sizes.Fits(true, n, space.align, space.Free()) && Given(cb, off, n))
    ensures ok ==> Given(cb, off, n) && r == c.group.add(GeneratorPart(c, gSc), c.group.Lin(ScalarsOf(cb, off, n), PointsOf(cb, off, n)))
  {
    hide Group.Mul, Group.Lin, Pow2, WnafSize, GeneratorPart, Sizes.PippengerTotal, Sizes.Counts;
    var checkpoint := space.allocSize;
    var g := c.group;
    r := g.zero;
    GeneratorNone(c, gSc);
    g.Zero(g.zero);
    NoTerms(g, cb, off);
    if gSc.None? && n == 0 {
      return true, r;
    }
    var bucketWindow := BucketWindow(n);
    var given := sizes.AllocPippenger(space, n, bucketWindow);
    if !given {
      space.ApplyCheckpoint(checkpoint);
      return false, r;
    }
    var sc, pt;
    ok, sc, pt := SplitTerms(c, gSc, cb, n, off);
    if !ok {
      space.ApplyCheckpoint(checkpoint);
      return false, r;
    }
    SizeBounds(bucketWindow + 1);
    MulMono(0, |pt|, WnafSize(128, bucketWindow + 1));
    var ps := new PointState[|pt|](_ => PointState(0, 0));
    var wnafNa := new int[|pt| * WnafSize(128, bucketWindow + 1)];
    var buckets := new T[Pow2(bucketWindow)](_ => g.zero);
    r := PippengerWnaf(g, buckets, bucketWindow, ps, wnafNa, sc, pt);
    space.ApplyCheckpoint(checkpoint);
  }

  /** The scalars and points of a batch, generator first, each split in two; they are at most what was allocated. */
  method SplitTerms<T(!new, ==)>(c: Curve<T>, gSc: Option<int>, cb: nat -> Option<Term<T>>, n: nat, off: nat)
    returns (ok: bool, sc: seq<int>, pt: seq<T>)
    requires c.Valid() && (gSc.Some? ==> 0 <= gSc.value < N)
    ensures ok <==> Given(cb, off, n)
    ensures ok ==> |sc| == |pt| <= 2 * n + 2 && SmallScalars(sc)
    ensures ok ==> c.group.Lin(sc, pt) == c.group.add(GeneratorPart(c, gSc), c.group.Lin(ScalarsOf(cb, off, n), PointsOf(cb, off, n)))
  {
    hide Group.Mul, Group.Lin, GeneratorPart;
    var g := c.group;
    GeneratorNone(c, gSc);
    sc, pt := [], [];
    EmptyLin(g);
    g.Zero(g.zero);
    if gSc.Some? {
      var s1, s2, p1, p2 := EndoSplit(c, gSc.value, c.generator);
      TwoTerms(g, sc, pt, s1, s2, p1, p2);
      g.Zero(g.Mul(gSc.value, c.generator));
      sc, pt := sc + [s1, s2], pt + [p1, p2];
    }
    g.Zero(g.Lin(sc, pt));
    NoTerms(g, cb, off);
    var i := 0;
    while i < n
      invariant 0 <= i <= n && |sc| == |pt| <= 2 * i + 2 && SmallScalars(sc) && Given(cb, off, i)
      invariant g.Lin(sc, pt) == g.add(GeneratorPart(c, gSc), g.Lin(ScalarsOf(cb, off, i), PointsOf(cb, off, i)))
    {
      var t := cb(off + i);
      if t.None? {
        return false, [], [];
      }
      var s1, s2, p1, p2 := EndoSplit(c, t.value.scalar, t.value.point);
      TwoTerms(g, sc, pt, s1, s2, p1, p2);
      OneMoreTerm(cb, off, i);
      g.LinSnoc(ScalarsOf(cb, off, i), PointsOf(cb, off, i), t.value.scalar, t.value.point);
      g.Assoc(GeneratorPart(c, gSc), g.Lin(ScalarsOf(cb, off, i), PointsOf(cb, off, i)), g.Mul(t.value.scalar, t.value.point));
      sc, pt := sc + [s1, s2], pt + [p1, p2];
      i := i + 1;
    }
    ok := true;
  }

  lemma EmptyLin<T(!new)>(g: Group<T>)
    ensures g.Lin([], []) == g.zero
  {
  }

  lemma GeneratorNone<T(!new)>(c: Curve<T>, gSc: Option<int>)
    ensures GeneratorPart(c, gSc) == if gSc.None? then c.group.zero else c.group.Mul(gSc.value, c.generator)
  {
  }

  /** The precomputed tables of the generator. */
  datatype Context<!T(!new)> = Context(windowG: nat, preG: array<T>, preG128: array<T>) {
    ghost predicate Built(c: Curve<T>)
      reads preG, preG128
    {
      && 2 <= windowG <= 24 && preG.Length == preG128.Length == Pow2(windowG - 2)
      && OddTable(c.group, preG[..], 0, preG.Length, c.generator)
      && OddTable(c.group, preG128[..], 0, preG128.Length, c.group.Mul(TWO128, c.generator))
    }
  }

  /** Strauss on freshly allocated state. */
  method StraussFresh<T(!new, ==)>(c: Curve<T>, ctx: Context<T>, a: seq<T>, na: seq<int>, ng: Option<int>) returns (r: T)
    requires c.Valid() && ctx.Built(c) && |a| == |na| && Scalars(na) && (ng.Some? ==> 0 <= ng.value < N)
    ensures r == c.group.add(c.group.Lin(na, a), GeneratorPart(c, ng))
  {
    hide Group.Mul, Group.Lin, OddTable, Pow2;
    var ps := new StraussPoint[|a|](_ => StraussPoint(0, [], 0, [], 0));
    var preA := new T[TABLE_A * |a|](_ => c.group.zero);
    var preALam := new T[TABLE_A * |a|](_ => c.group.zero);
    r := StraussWnaf(c, ctx.windowG, ctx.preG, ctx.preG128, ps, preA, preALam, a, na, ng);
  }

  /** na a + ng G */
  method Ecmult<T(!new, ==)>(c: Curve<T>, ctx: Context<T>, a: T, na: int, ng: Option<int>) returns (r: T)
    requires c.Valid() && ctx.Built(c) && 0 <= na < N && (ng.Some? ==> 0 <= ng.value < N)
    ensures r == c.group.add(c.group.Mul(na, a), GeneratorPart(c, ng))
    ensures ng.Some? ==> r == c.group.add(c.group.Mul(na, a), c.group.Mul(ng.value, c.generator))
    ensures ng.None? ==> r == c.group.Mul(na, a)
  {
    hide Group.Mul, Group.Lin, Context.Built, GeneratorPart;
    r := StraussFresh(c, ctx, [a], [na], ng);
    c.group.LinOne(na, a);
    GeneratorNone(c, ng);
    c.group.Zero(c.group.Mul(na, a));
  }

  method StraussBatch<T(!new, ==)>(c: Curve<T>, ctx: Context<T>, sizes: Sizes, space: Space, gSc: Option<int>, cb: nat -> Option<Term<T>>,
                                   n: nat, off: nat)
    returns (ok: bool, r: T)
    requires c.Valid() && ctx.Built(c) && (gSc.Some? ==> 0 <= gSc.value < N)
    requires space.Valid() && sizes.Valid() && sizes.Counts(false, n)
    modifies space
    ensures space.Valid() && space.allocSize == old(space.allocSize)
    ensures ok <==> (gSc.None? && n == 0) || (sizes.Fits(false, n, space.align, space.Free()) && Given(cb, off, n))
    ensures ok ==> Given(cb, off, n) && r == c.group.add(GeneratorPart(c, gSc), c.group.Lin(ScalarsOf(cb, off, n), PointsOf(cb, off, n)))
  {
    hide Group.Mul, Group.Lin, Context.Built, GeneratorPart, Footprint, Sizes.StraussBytes, Sizes.PointSize;
    var checkpoint := space.allocSize;
    var g := c.group;
    r := g.zero;
    GeneratorNone(c, gSc);
    g.Zero(g.zero);
    NoTerms(g, cb, off);
    if gSc.None? && n == 0 {
      return true, r;
    }
    sizes.StraussSum(n);
    sizes.LengthIsSeven(n);
    var given := space.AllocAll(sizes.StraussBytes(n));
    if !given {
      space.ApplyCheckpoint(checkpoint);
      return false, r;
    }
    var points: seq<T>, scalars: seq<int> := [], [];
    var i := 0;
    while i < n
      invariant 0 <= i <= n && Scalars(scalars) && space.Valid() && checkpoint <= space.allocSize
      invariant Given(cb, off, i) && scalars == ScalarsOf(cb, off, i) && points == PointsOf(cb, off, i)
    {
      var t := cb(off + i);
      if t.None? {
        space.ApplyCheckpoint(checkpoint);
        return false, r;
      }
      OneMoreTerm(cb, off, i);
      points, scalars := points + [t.value.point], scalars + [t.value.scalar];
      i := i + 1;
    }
    r := StraussFresh(c, ctx, points, scalars, gSc);
    g.Comm(g.Lin(scalars, points), GeneratorPart(c, gSc));
    space.ApplyCheckpoint(checkpoint);
    ok := true;
  }

  // ---------- batches ----------

  /** How many batches, and how large: they cover the n points with none left empty. */
  method BatchSizes(maxPoints: nat, n: nat) returns (ok: bool, batches: nat, points: nat)
    ensures ok <==> maxPoints > 0
    ensures ok && n == 0 ==> batches == 0 && points == 0
    ensures ok && n > 0 ==> 1 <= points <= maxPoints && points <= MAX_POINTS_PER_BATCH
    ensures ok && n > 0 ==> batches >= 1 && (batches - 1) * points < n <= batches * points
  {
    if maxPoints == 0 {
      return false, 0, 0;
    }
    var max: int := maxPoints;
    if max > MAX_POINTS_PER_BATCH {
      max := MAX_POINTS_PER_BATCH;
    }
    if n == 0 {
      return true, 0, 0;
    }
    batches := 1 + (n - 1) / max;
    points := 1 + (n - 1) / batches;
    ok := true;
    Cover(n, max, batches, points);
  }

  lemma Cover(n: int, max: int, batches: int, points: int)
    requires n >= 1 && max >= 1
    requires batches == 1 + (n - 1) / max && batches >= 1 && points == 1 + (n - 1) / batches
    ensures 1 <= points <= max && (batches - 1) * points < n <= batches * points
  {
    var q, r := (n - 1) / max, (n - 1) % max;
    assert n - 1 == max * q + r;
    var q', r' := (n - 1) / batches, (n - 1) % batches;
    assert n - 1 == batches * q' + r';
    CoverStep(n, max, q, r, q', r');
  }

  lemma CoverStep(n: int, max: int, q: int, r: int, q': int, r': int)
    requires n - 1 == max * q + r && 0 <= r < max && q >= 0
    requires n - 1 == (1 + q) * q' + r' && 0 <= r' < 1 + q
    ensures 0 <= q' && 1 + q' <= max && q * (1 + q') < n <= (1 + q) * (1 + q')
  {
    if q' < 0 {
      MulMono(q', -1, 1 + q);
    }
    if q' >= max {
      MulMono(max, q', 1 + q);
    }
    MulMono(1 + q', max, q);
    assert q * (1 + q') == (1 + q') * q;
    assert (1 + q) * (1 + q') == (1 + q) * q' + 1 + q;
  }

  method MultiSimple<T(!new, ==)>(c: Curve<T>, ctx: Context<T>, gSc: Option<int>, cb: nat -> Option<Term<T>>, n: nat)
    returns (ok: bool, r: T)
    requires c.Valid() && ctx.Built(c) && (gSc.Some? ==> 0 <= gSc.value < N)
    ensures ok <==> Given(cb, 0, n)
    ensures ok ==> r == c.group.add(GeneratorPart(c, gSc), c.group.Lin(ScalarsOf(cb, 0, n), PointsOf(cb, 0, n)))
  {
    hide Group.Mul, Group.Lin, Context.Built, GeneratorPart;
    var g := c.group;
    r := Ecmult(c, ctx, g.zero, 0, gSc);
    g.MulZero(g.zero);
    g.Zero(GeneratorPart(c, gSc));
    GeneratorNone(c, None);
    NoTerms(g, cb, 0);
    var i := 0;
    while i < n
      invariant 0 <= i <= n && Given(cb, 0, i)
      invariant r == g.add(GeneratorPart(c, gSc), g.Lin(ScalarsOf(cb, 0, i), PointsOf(cb, 0, i)))
    {
      var t := cb(i);
      if t.None? {
        return false, r;
      }
      var tmp := Ecmult(c, ctx, t.value.point, t.value.scalar, None);
      g.Zero(g.Mul(t.value.scalar, t.value.point));
      OneMoreTerm(cb, 0, i);
      g.LinSnoc(ScalarsOf(cb, 0, i), PointsOf(cb, 0, i), t.value.scalar, t.value.point);
      g.Assoc(GeneratorPart(c, gSc), g.Lin(ScalarsOf(cb, 0, i), PointsOf(cb, 0, i)), tmp);
      r := g.add(r, tmp);
      i := i + 1;
    }
    ok := true;
  }

  /**
   * inp_g_sc G + sum of the terms, by whichever algorithm the scratch space allows. With an alignment that suits the
   * structures no batch is ever refused its memory, so only the callback can make the call fail.
   */
  method MultiVar<T(!new, ==)>(c: Curve<T>, ctx: Context<T>, sizes: Sizes, space: Space?, gSc: Option<int>,
                               cb: nat -> Option<Term<T>>, n: nat)
    returns (ok: bool, r: T)
    requires c.Valid() && ctx.Built(c) && (gSc.Some? ==> 0 <= gSc.value < N)
    requires sizes.Valid() && (space != null ==> space.Valid())
    modifies space
    ensures space != null ==> space.Valid() && space.allocSize == old(space.allocSize)
    ensures ok ==> Given(cb, 0, n)
    ensures ok && gSc.Some? ==> r == c.group.add(c.group.Mul(gSc.value, c.generator), c.group.Lin(ScalarsOf(cb, 0, n), PointsOf(cb, 0, n)))
    ensures ok && gSc.None? ==> r == c.group.Lin(ScalarsOf(cb, 0, n), PointsOf(cb, 0, n))
    ensures space == null || sizes.Aligned(space.align) ==> (ok <==> Given(cb, 0, n))
  {
    hide Group.Mul, Group.Lin, Context.Built, GeneratorPart, ScalarsOf, PointsOf, BucketWindow;
    hide Sizes.PointSize, Sizes.Aligned, Sizes.Counts, Sizes.Fits, Nth;
    var g := c.group;
    r := g.zero;
    GeneratorNone(c, gSc);
    NoTerms(g, cb, 0);
    WithoutGenerator(c, cb, n);
    if gSc.None? && n == 0 {
      return true, r;
    } else if n == 0 {
      r := Ecmult(c, ctx, r, 0, gSc);
      g.MulZero(g.zero);
      g.Zero(GeneratorPart(c, gSc));
      return true, r;
    }
    if space == null {
      ok, r := MultiSimple(c, ctx, gSc, cb, n);
      return;
    }
    var maxAlloc := space.MaxAllocation(SCRATCH_OBJECTS);
    ghost var free := space.Free();
    var maxPoints := sizes.PippengerMaxPoints(maxAlloc);
    var batches, points;
    ok, batches, points := BatchSizes(maxPoints, n);
    if !ok {
      ok, r := MultiSimple(c, ctx, gSc, cb, n);
      return;
    }
    var pippenger := points >= PIPPENGER_THRESHOLD;
    if !pippenger {
      sizes.PointSizePositive();
      ok, batches, points := BatchSizes(maxAlloc / sizes.PointSize(), n);
      if !ok {
        ok, r := MultiSimple(c, ctx, gSc, cb, n);
        return;
      }
    }
    PromiseKept(sizes, pippenger, n, points, batches, space.align, maxAlloc, free);
    ok, r := RunBatches(c, ctx, sizes, space, pippenger, gSc, cb, n, batches, points);
  }

  lemma WithoutGenerator<T(!new)>(c: Curve<T>, cb: nat -> Option<Term<T>>, n: nat)
    requires c.Valid()
    ensures Given(cb, 0, n) ==>
      var terms := c.group.Lin(ScalarsOf(cb, 0, n), PointsOf(cb, 0, n)); c.group.add(GeneratorPart(c, None), terms) == terms
  {
    hide Group.Mul, Group.Lin;
    if Given(cb, 0, n) {
      c.group.Zero(c.group.Lin(ScalarsOf(cb, 0, n), PointsOf(cb, 0, n)));
    }
  }

  /** The number of points in a batch: the last takes what is left. */
  function Nth(n: int, points: nat, batches: nat, i: nat): (m: nat)
    ensures n > points * i && points >= 1 ==> m >= 1
  {
    if i + 1 < batches then points else if n >= points * i then n - points * i else 0
  }

  /** No batch is larger than the others or empty. */
  lemma NthInRange(n: int, points: nat, batches: nat)
    requires n > 0 && points >= 1 && batches >= 1 && (batches - 1) * points < n <= batches * points
    ensures forall k: nat :: k < batches ==> 1 <= Nth(n, points, batches, k) <= points
  {
    forall k: nat | k < batches
      ensures 1 <= Nth(n, points, batches, k) <= points
    {
      MulMono(k, batches - 1, points);
      assert points * k == k * points && batches * points == (batches - 1) * points + points;
    }
  }

  /** Every batch of a loop with the promised number of points finds its memory. */
  lemma PromiseKept(sizes: Sizes, pippenger: bool, n: int, points: nat, batches: nat, align: nat, maxAlloc: int, free: int)
    requires n > 0 && points >= 1 && batches >= 1 && (batches - 1) * points < n <= batches * points
    requires sizes.Valid() && align >= 1 && 0 <= maxAlloc <= SIZE_MAX
    requires maxAlloc > 0 ==> maxAlloc + SCRATCH_OBJECTS * (align - 1) == free
    requires pippenger ==> forall m :: 1 <= m <= points ==> sizes.ScratchSize(m, BucketWindow(m)) <= maxAlloc
    requires !pippenger ==> sizes.PointSize() > 0 && points <= maxAlloc / sizes.PointSize()
    ensures forall m: nat :: 1 <= m <= points ==> sizes.Counts(pippenger, m)
    ensures pippenger || sizes.Aligned(align) ==>
      forall k: nat :: k < batches ==> sizes.Fits(pippenger, Nth(n, points, batches, k), align, free)
  {
    hide Nth, Sizes.ScratchSize, BucketWindow, Sizes.PointSize, Sizes.Counts, Sizes.Fits, Sizes.Aligned;
    sizes.BatchesFit(pippenger, points, align, maxAlloc, free);
    NthInRange(n, points, batches);
  }

  /** The loop over the batches; the generator goes with the first. */
  method RunBatches<T(!new, ==)>(c: Curve<T>, ctx: Context<T>, sizes: Sizes, space: Space, pippenger: bool, gSc: Option<int>,
                                 cb: nat -> Option<Term<T>>, n: nat, batches: nat, points: nat)
    returns (ok: bool, r: T)
    requires c.Valid() && ctx.Built(c) && (gSc.Some? ==> 0 <= gSc.value < N)
    requires n > 0 && points >= 1 && batches >= 1 && (batches - 1) * points < n <= batches * points
    requires space.Valid() && sizes.Valid() && forall m: nat :: 1 <= m <= points ==> sizes.Counts(pippenger, m)
    modifies space
    ensures space.Valid() && space.allocSize == old(space.allocSize)
    ensures ok ==> Given(cb, 0, n) && r == c.group.add(GeneratorPart(c, gSc), c.group.Lin(ScalarsOf(cb, 0, n), PointsOf(cb, 0, n)))
    ensures ok <==> Given(cb, 0, n) && forall k: nat :: k < batches ==> sizes.Fits(pippenger, Nth(n, points, batches, k), space.align, space.Free())
  {
    hide Group.Mul, Context.Built, GeneratorPart, Group.Lin, Sizes.Counts, Sizes.Fits;
    var g := c.group;
    r := g.zero;
    g.Zero(GeneratorPart(c, gSc));
    NoTerms(g, cb, 0);
    var left, i: nat := n, 0;
    ghost var done: nat := 0;
    while i < batches
      invariant 0 <= i <= batches && done + left == n && left >= 0
      invariant done == if i == batches then n else points * i
      invariant forall k: nat :: k < i ==> sizes.Fits(pippenger, Nth(n, points, batches, k), space.align, space.Free())
      invariant Given(cb, 0, done) && ctx.Built(c) && space.Valid() && space.allocSize == old(space.allocSize)
      invariant r == if i == 0 then g.zero else g.add(GeneratorPart(c, gSc), g.Lin(ScalarsOf(cb, 0, done), PointsOf(cb, 0, done)))
    {
      var nbp := if left < points then left else points;
      var offset := points * i;
      BatchPosition(n, points, batches, i, done, left);
      var part := if i == 0 then gSc else None;
      var tmp;
      if pippenger {
        ok, tmp := PippengerBatch(c, sizes, space, part, cb, nbp, offset);
      } else {
        ok, tmp := StraussBatch(c, ctx, sizes, space, part, cb, nbp, offset);
      }
      if !ok {
        return;
      }
      Accumulate(c, gSc, cb, i, done, nbp, r, tmp);
      r := g.add(r, tmp);
      left := left - nbp;
      done := done + nbp;
      i := i + 1;
    }
    ok := true;
  }

  /** Batch i starts where the batches before it end, and is not empty. */
  lemma BatchPosition(n: int, points: int, batches: int, i: int, done: int, left: int)
    requires points >= 1 && 0 <= i < batches && (batches - 1) * points < n <= batches * points
    requires done == points * i && done + left == n
    ensures 0 <= points * i
    ensures var nbp := if left < points then left else points;
      nbp >= 1 && nbp == Nth(n, points, batches, i) && done + nbp == if i + 1 == batches then n else points * (i + 1)
  {
    MulMono(i, batches - 1, points);
    assert points * (i + 1) == points * i + points;
    if i + 1 < batches {
      MulMono(i + 1, batches - 1, points);
      assert points * (i + 1) == (i + 1) * points;
    }
    assert batches * points == (batches - 1) * points + points;
    assert points * i == i * points;
    if i + 1 == batches {
      assert i == batches - 1;
    }
  }

  lemma Accumulate<T(!new)>(c: Curve<T>, gSc: Option<int>, cb: nat -> Option<Term<T>>, i: nat, done: nat, nbp: nat, r: T, tmp: T)
    requires c.Valid() && (i == 0 ==> done == 0) && Given(cb, 0, done) && Given(cb, done, nbp)
    requires r == if i == 0 then c.group.zero else c.group.add(GeneratorPart(c, gSc), c.group.Lin(ScalarsOf(cb, 0, done), PointsOf(cb, 0, done)))
    requires tmp == c.group.add(GeneratorPart(c, if i == 0 then gSc else None), c.group.Lin(ScalarsOf(cb, done, nbp), PointsOf(cb, done, nbp)))
    ensures Given(cb, 0, done + nbp)
    ensures c.group.add(r, tmp)
      == c.group.add(GeneratorPart(c, gSc), c.group.Lin(ScalarsOf(cb, 0, done + nbp), PointsOf(cb, 0, done + nbp)))
  {
    hide Group.Mul, Group.Lin, GeneratorPart;
    var g := c.group;
    TermsSplit(g, cb, 0, done, nbp);
    NoTerms(g, cb, 0);
    GeneratorNone(c, None);
    var x, y := g.Lin(ScalarsOf(cb, 0, done), PointsOf(cb, 0, done)), g.Lin(ScalarsOf(cb, done, nbp), PointsOf(cb, done, nbp));
    g.Zero(y);
    if i == 0 {
      g.Zero(tmp);
    } else {
      g.Assoc(GeneratorPart(c, gSc), x, y);
    }
  }
}
