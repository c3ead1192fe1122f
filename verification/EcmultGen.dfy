/** Multiplication of the generator with a blinded table of offsets that sum to zero. */
module EcmultGen {
  import opened BigEndian
  import opened Integers
  import opened Groups
  import opened Recoding
  import opened Curves
  import opened Wrappers
  import F = FieldMul

  /** The first two outputs of 32 bytes of a generator, by its key. */
  type Generator = seq<int> -> (seq<int>, seq<int>)

  ghost predicate Draws(generator: Generator) {
    forall key :: Bytes(generator(key).0) && |generator(key).0| == 32 && Bytes(generator(key).1) && |generator(key).1| == 32
  }

  /** The factor by which the initial point is rescaled: 1 for bytes that are no field element, or zero. */
  function RescaleFactor(b: seq<int>): (s: int)
    ensures 0 < s < F.P && (Be(b) <= 0 || Be(b) >= F.P ==> s == 1) && (0 < Be(b) < F.P ==> s == Be(b))
  {
    if 0 < Be(b) < F.P then Be(b) else 1
  }

  /** The scalar of 32 bytes, with 1 in place of 0. */
  function Blinding(b: seq<int>): (s: int)
    ensures 0 < s < N
    ensures if Be(b) % N == 0 then s == 1 else Cong(s, Be(b), N)
  {
    CongMod(Be(b), N);
    if Be(b) % N == 0 then 1 else Be(b) % N
  }

  /** The key of the generator: 32 bytes of a blinding value, and the seed if there is one. */
  function Key(blind: int, seed32: Option<seq<int>>): (key: seq<int>)
    requires 0 <= blind < N
    ensures |key| >= 32 && Bytes(key[..32]) && Be(key[..32]) == blind
    ensures key[32..] == if seed32.Some? then seed32.value else []
  {
    KeyValue(blind);
    var seed := if seed32.Some? then seed32.value else [];
    assert (Octets(blind, 32) + seed)[..32] == Octets(blind, 32);
    Octets(blind, 32) + seed
  }

  lemma KeyValue(blind: int)
    requires 0 <= blind < N
    ensures Be(Octets(blind, 32)) == blind
  {
    hide Pow2;
    Pow2At256();
    OctetsValue(blind, 32);
  }

  /** 2^j U for every row but the last, and (1 - 2^(n-1)) U for the last. */
  function Offset(j: nat, n: nat): int
    requires j < n
  {
    if j == n - 1 then 1 - Pow2(n - 1) else Pow2(j)
  }

  /** The sum of the first j offsets */
  function OffsetSum(j: nat, n: nat): int
    requires j <= n
  {
    if j == 0 then 0 else OffsetSum(j - 1, n) + Offset(j - 1, n)
  }

  lemma {:induction false} OffsetsBeforeLast(j: nat, n: nat)
    requires j < n
    ensures OffsetSum(j, n) == Pow2(j) - 1
  {
    if j > 0 {
      OffsetsBeforeLast(j - 1, n);
    }
  }

  /** The offsets cancel. */
  lemma OffsetsCancel(n: nat)
    requires n >= 1
    ensures OffsetSum(n, n) == 0
  {
    OffsetsBeforeLast(n - 1, n);
  }

  class Context<T(!new)> {
    const c: Curve<T>
    /** Bits per row, and the number of rows */
    const precB: nat
    const precN: nat
    var prec: array2<T>
    var blind: int
    var initial: T
    const nums: T

    /** (2^precB)^j i G + U_j */
    ghost function Entry(j: nat, i: nat): T
      requires j < precN
    {
      c.group.add(c.group.Mul(Pow2(precB * j) * i, c.generator), c.group.Mul(Offset(j, precN), nums))
    }

    ghost predicate TableValid()
      reads this`prec, prec
    {
      && c.Valid() && precB >= 1 && precN >= 2 && precB * precN == 256
      && prec.Length0 == precN && prec.Length1 == Pow2(precB)
      && (forall j: nat, i: nat :: j < precN && i < Pow2(precB) ==> prec[j, i] == Entry(j, i))
    }

    ghost predicate Valid()
      reads this, prec
    {
      TableValid() && 0 <= blind < N && initial == c.group.Mul(-blind, c.generator)
    }

    constructor (curve: Curve<T>, bits: nat, numsPoint: T, generator: Generator)
      requires curve.Valid() && (bits == 2 || bits == 4 || bits == 8) && Draws(generator)
      ensures Valid() && c == curve && precB == bits && fresh(prec)
    {
      c := curve;
      precB := bits;
      precN := 256 / bits;
      nums := numsPoint;
      blind := 1;
      initial := curve.group.neg(curve.generator);
      var table := new T[256 / bits, Pow2(bits)]((_, _) => curve.group.zero);
      prec := table;
      new;
      FillTable();
      Blind(None, generator);
    }

    /** Row j starts at the offset and steps by 2^(precB j) G. */
    method FillTable()
      requires c.Valid() && precB >= 1 && precN >= 2 && precB * precN == 256
      requires prec.Length0 == precN && prec.Length1 == Pow2(precB)
      modifies prec
      ensures TableValid()
    {
      hide Group.Mul, Pow2, Offset;
      var g := c.group;
      var gbase, numsbase, base := c.generator, nums, nums;
      PowZero();
      g.MulOne(c.generator);
      g.MulOne(nums);
      FirstOffset(precN);
      var j := 0;
      while j < precN
        invariant 0 <= j <= precN
        invariant gbase == g.Mul(Pow2(precB * j), c.generator)
        invariant j < precN ==> numsbase == g.Mul(Offset(j, precN), nums)
        invariant forall k: nat, i: nat :: k < j && i < Pow2(precB) ==> prec[k, i] == Entry(k, i)
      {
        FillRow(j, gbase, numsbase);
        var i := 0;
        ghost var e := precB * j;
        assert precB * (j + 1) == e + precB;
        while i < precB
          modifies {}
          invariant 0 <= i <= precB && gbase == g.Mul(Pow2(e + i), c.generator)
        {
          gbase := g.add(gbase, gbase);
          g.Double(Pow2(e + i), c.generator);
          Pow2Down(e + i + 1);
          i := i + 1;
        }
        if j + 1 < precN {
          NextOffset(g, j, precN, nums);
        }
        numsbase := g.add(numsbase, numsbase);
        if j == precN - 2 {
          numsbase := g.neg(numsbase);
          numsbase := g.add(numsbase, nums);
        }
        j := j + 1;
      }
    }

    method FillRow(j: nat, gbase: T, numsbase: T)
      requires c.Valid() && j < precN == prec.Length0 && prec.Length1 == Pow2(precB)
      requires gbase == c.group.Mul(Pow2(precB * j), c.generator) && numsbase == c.group.Mul(Offset(j, precN), nums)
      requires forall k: nat, i: nat :: k < j && i < Pow2(precB) ==> prec[k, i] == Entry(k, i)
      modifies prec
      ensures forall k: nat, i: nat :: k < j + 1 && i < Pow2(precB) ==> prec[k, i] == Entry(k, i)
    {
      hide Group.Mul, Pow2, Offset;
      var g := c.group;
      prec[j, 0] := numsbase;
      EntryZero(j);
      var i := 1;
      while i < prec.Length1
        invariant 1 <= i <= prec.Length1
        invariant forall m: nat :: m < i ==> prec[j, m] == Entry(j, m)
        invariant forall k: nat, m: nat :: k < j && m < Pow2(precB) ==> prec[k, m] == Entry(k, m)
      {
        assert prec[j, i - 1] == Entry(j, i - 1);
        EntrySucc(j, i - 1);
        prec[j, i] := g.add(prec[j, i - 1], gbase);
        i := i + 1;
      }
    }

    lemma EntryZero(j: nat)
      requires c.Valid() && j < precN
      ensures Entry(j, 0) == c.group.Mul(Offset(j, precN), nums)
    {
      c.group.MulZero(c.generator);
      c.group.Zero(c.group.Mul(Offset(j, precN), nums));
    }

    lemma EntrySucc(j: nat, i: nat)
      requires c.Valid() && j < precN
      ensures Entry(j, i + 1) == c.group.add(Entry(j, i), c.group.Mul(Pow2(precB * j), c.generator))
    {
      hide Group.Mul, Pow2, Offset;
      var g, p := c.group, Pow2(precB * j);
      StepProduct(p, i);
      g.MulPlus(p * i, p, c.generator);
      g.Slide(g.Mul(p * i, c.generator), g.Mul(p, c.generator), g.Mul(Offset(j, precN), nums));
    }

    /** gn G */
    method Gen(gn: int) returns (r: T)
      requires Valid() && 0 <= gn < N
      ensures r == c.group.Mul(gn, c.generator)
    {
      hide Group.Mul, Pow2, Offset, Bits, OffsetSum;
      var g := c.group;
      r := initial;
      // (gn - b) G + b G instead of gn G
      var gnb := (gn + blind) % N;
      GenStart(g, initial, c.generator, nums, precN, gnb);
      var adds := g.zero;
      var j := 0;
      while j < precN
        invariant 0 <= j <= precN
        invariant r == Partial(g, initial, c.generator, nums, precN, j, gnb % Pow2(precB * j))
      {
        RowOffset(precB, precN, j);
        var bits := Bits(gnb, j * precB, precB);
        var i := 0;
        while i < prec.Length1
          invariant 0 <= i <= prec.Length1
          invariant i > bits ==> adds == prec[j, bits]
        {
          // every entry is read; only the wanted one is kept
          adds := if i == bits then prec[j, i] else adds;
          i := i + 1;
        }
        assert adds == Entry(j, bits);
        GenStep(g, initial, c.generator, nums, precN, precB, j, gnb, bits, r);
        r := g.add(r, adds);
        j := j + 1;
      }
      GenEnd(c, gn, blind, gnb, nums, precN, precB);
    }

    /** Replace the blinding value; without a seed, reset it first. */
    method Blind(seed32: Option<seq<int>>, generator: Generator)
      requires TableValid() && (seed32.Some? ==> Valid() && |seed32.value| == 32) && Draws(generator)
      modifies this`blind, this`initial
      ensures Valid()
      ensures var out := generator(Key(if seed32.Some? then old(blind) else 1, seed32)).1;
        if Be(out) % N == 0 then blind == N - 1 else Cong(blind + Be(out), 0, N)
    {
      hide Group.Mul, TableValid, Be, Octets, Pow2, Cong;
      var g := c.group;
      if seed32.None? {
        initial := g.neg(c.generator);
        blind := 1;
        ResetValid();
      }
      var keydata := Octets(blind, 32);
      if seed32.Some? {
        keydata := keydata + seed32.value;
      }
      assert keydata == Key(blind, seed32);
      var nonces := generator(keydata);
      var s := RescaleFactor(nonces.0);
      // the initial point is rescaled by s, which leaves it the same point (BatchAffine.GejRescale)
      var b := Blinding(nonces.1);
      var gb := Gen(b);
      BlindCong(b);
      blind := N - b;
      initial := gb;
      NegatedCong(b, Be(nonces.1));
    }

    lemma ResetValid()
      requires TableValid()
      ensures c.group.Mul(-1, c.generator) == c.group.neg(c.generator)
    {
      c.group.MulNeg(1, c.generator);
      c.group.MulOne(c.generator);
    }

    lemma BlindCong(b: int)
      requires TableValid() && 0 < b < N
      ensures c.group.Mul(-(N - b), c.generator) == c.group.Mul(b, c.generator)
    {
      CongIntro(-(N - b), b, N, -1);
      c.MulCong(-(N - b), b, c.generator);
    }
  }

  lemma StepProduct(p: int, i: int)
    ensures p * (i + 1) == p * i + p
  {
  }

  lemma FirstOffset(n: nat)
    requires n >= 2
    ensures Offset(0, n) == 1
  {
  }

  /** Doubling leads from one offset to the next, with the correction before the last. */
  lemma NextOffset<T(!new)>(g: Group<T>, j: nat, n: nat, nums: T)
    requires g.Valid() && j + 1 < n
    ensures var twice := g.add(g.Mul(Offset(j, n), nums), g.Mul(Offset(j, n), nums));
      g.Mul(Offset(j + 1, n), nums) == if j == n - 2 then g.add(g.neg(twice), nums) else twice
  {
    hide Group.Mul;
    g.Double(Offset(j, n), nums);
    if j == n - 2 {
      g.MulNeg(Pow2(n - 1), nums);
      g.MulOne(nums);
      g.MulPlus(-Pow2(n - 1), 1, nums);
    }
  }

  /** initial + low G + the offsets of the rows used so far */
  function Partial<T(!new)>(g: Group<T>, initial: T, generator: T, nums: T, n: nat, j: nat, low: int): T
    requires j <= n
  {
    g.add(g.add(initial, g.Mul(low, generator)), g.Mul(OffsetSum(j, n), nums))
  }

  lemma GenStart<T(!new)>(g: Group<T>, initial: T, generator: T, nums: T, n: nat, gnb: nat)
    requires g.Valid()
    ensures Partial(g, initial, generator, nums, n, 0, gnb % Pow2(0)) == initial
  {
    g.Zero(initial);
    assert Pow2(0) == 1 && gnb % 1 == 0;
  }

  lemma RowOffset(b: nat, n: nat, j: nat)
    requires j < n && b * n == 256
    ensures 0 <= b * j && b * j == j * b && b * (j + 1) == b * j + b
  {
  }

  lemma GenStep<T(!new)>(g: Group<T>, initial: T, generator: T, nums: T, n: nat, b: nat, j: nat, gnb: nat, bits: nat, r: T)
    requires g.Valid() && j < n && b * n == 256 && 0 <= j * b && bits == Bits(gnb, j * b, b) && b * j >= 0 && b * (j + 1) >= 0
    requires r == Partial(g, initial, generator, nums, n, j, gnb % Pow2(b * j))
    ensures g.add(r, g.add(g.Mul(Pow2(b * j) * bits, generator), g.Mul(Offset(j, n), nums)))
      == Partial(g, initial, generator, nums, n, j + 1, gnb % Pow2(b * (j + 1)))
  {
    hide Group.Mul, Pow2, Offset, Bits;
    RowOffset(b, n, j);
    BitsSplit(gnb, b * j, b);
    var low, high := gnb % Pow2(b * j), Pow2(b * j) * bits;
    assert gnb % Pow2(b * j + b) == low + high;
    var x, y, z, w := g.Mul(low, generator), g.Mul(OffsetSum(j, n), nums), g.Mul(high, generator), g.Mul(Offset(j, n), nums);
    g.Swap(g.add(initial, x), y, z, w);
    g.Assoc(initial, x, z);
    g.MulPlus(low, high, generator);
    g.MulPlus(OffsetSum(j, n), Offset(j, n), nums);
  }

  lemma GenEnd<T(!new)>(c: Curve<T>, gn: int, blind: int, gnb: int, nums: T, n: nat, b: nat)
    requires c.Valid() && 0 <= gn < N && 0 <= blind < N && gnb == (gn + blind) % N && n >= 1 && b * n == 256
    ensures Partial(c.group, c.group.Mul(-blind, c.generator), c.generator, nums, n, n, gnb % Pow2(b * n)) == c.group.Mul(gn, c.generator)
  {
    hide Group.Mul, Pow2, Cong, OffsetSum;
    var g := c.group;
    Pow2At256();
    ModSmall(gnb, TWO256);
    OffsetsCancel(n);
    g.MulZero(nums);
    g.MulPlus(-blind, gnb, c.generator);
    g.Zero(g.Mul(-blind + gnb, c.generator));
    CongMod(gn + blind, N);
    CongShift(gnb, gn, blind, N);
    c.MulCong(-blind + gnb, gn, c.generator);
  }

  lemma NegatedCong(b: int, x: int)
    ensures Cong(b, x, N) ==> Cong(N - b + x, 0, N)
  {
    if Cong(b, x, N) {
      var k := CongWitness(b, x, N);
      CongIntro(N - b + x, 0, N, 1 - k);
    }
  }

  lemma CongShift(x: int, gn: int, blind: int, m: int)
    requires m > 0 && Cong(x, gn + blind, m)
    ensures Cong(-blind + x, gn, m)
  {
  }
}
