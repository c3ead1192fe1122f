/** Strauss' interleaved multiplication, with the endomorphism and precomputed tables for the generator. */
module Strauss {
  import opened Integers
  import opened Groups
  import opened Recoding
  import opened SplitLambda
  import opened Curves
  import opened Pippenger
  import opened Wrappers

  const WINDOW_A: nat := 5
  const TABLE_A: nat := 8
  const LEN: nat := 129

  /** The recoded halves of one scalar, and where its point is. */
  datatype StraussPoint = StraussPoint(inputPos: nat, wnaf1: seq<int>, bits1: nat, wnafLam: seq<int>, bitsLam: nat)

  // ---------- tables of odd multiples ----------

  /** The table entries from off are p, 3 p, 5 p, ... */
  ghost predicate OddTable<T(!new)>(g: Group<T>, t: seq<T>, off: nat, size: nat, p: T) {
    && off + size <= |t|
    && (forall k :: off <= k < off + size ==> t[k] == g.Mul(2 * (k - off) + 1, p))
  }

  method OddMultiplesTable<T(!new)>(g: Group<T>, n: nat, pre: array<T>, off: nat, a: T)
    requires g.Valid() && n >= 1 && off + n <= pre.Length
    modifies pre
    ensures OddTable(g, pre[..], off, n, a)
    ensures forall k :: 0 <= k < off || off + n <= k < pre.Length ==> pre[k] == old(pre[k])
  {
    hide Group.Mul;
    var d := g.add(a, a);
    g.MulTwo(a);
    g.MulOne(a);
    pre[off] := a;
    var i := 1;
    while i < n
      invariant 1 <= i <= n
      invariant forall k :: off <= k < off + i ==> pre[k] == g.Mul(2 * (k - off) + 1, a)
      invariant forall k :: 0 <= k < off || off + n <= k < pre.Length ==> pre[k] == old(pre[k])
    {
      assert pre[off + i - 1] == g.Mul(2 * (i - 1) + 1, a);
      g.MulPlus(2 * (i - 1) + 1, 2, a);
      pre[off + i] := g.add(pre[off + i - 1], d);
      i := i + 1;
    }
  }

  /** The tables of odd multiples of G and of 2^128 G. */
  method ContextBuild<T(!new)>(c: Curve<T>, windowG: nat, preG: array<T>, preG128: array<T>)
    requires c.Valid() && 2 <= windowG <= 24 && preG != preG128 && preG.Length == preG128.Length == Pow2(windowG - 2)
    modifies preG, preG128
    ensures OddTable(c.group, preG[..], 0, preG.Length, c.generator)
    ensures OddTable(c.group, preG128[..], 0, preG128.Length, c.group.Mul(TWO128, c.generator))
  {
    hide Group.Mul, Pow2;
    var g := c.group;
    OddMultiplesTable(g, preG.Length, preG, 0, c.generator);
    var g128 := c.generator;
    var i := 0;
    PowZero();
    g.MulOne(c.generator);
    while i < 128
      invariant 0 <= i <= 128 && g128 == g.Mul(Pow2(i), c.generator)
      invariant OddTable(g, preG[..], 0, preG.Length, c.generator)
    {
      g128 := g.add(g128, g128);
      g.Double(Pow2(i), c.generator);
      Pow2Down(i + 1);
      i := i + 1;
    }
    Pow2At256();
    OddMultiplesTable(g, preG128.Length, preG128, 0, g128);
  }

  /** The table entry of an odd digit, with the sign applied. */
  method TableGet<T(!new)>(g: Group<T>, pre: array<T>, off: nat, size: nat, n: int, ghost p: T) returns (r: T)
    requires g.Valid() && OddTable(g, pre[..], off, size, p) && n % 2 == 1 && -2 * size < n < 2 * size
    ensures r == g.Mul(n, p)
  {
    hide Group.Mul;
    if n > 0 {
      r := pre[off + (n - 1) / 2];
    } else {
      r := g.neg(pre[off + (-n - 1) / 2]);
      g.MulNeg(-n, p);
    }
  }

  /** Add one digit's multiple, unless the digit is zero. */
  method AddTableDigit<T(!new)>(g: Group<T>, r0: T, pre: array<T>, off: nat, size: nat, bits: nat, wnaf: seq<int>, i: nat, ghost p: T)
    returns (r: T)
    requires g.Valid() && OddTable(g, pre[..], off, size, p)
    requires i < |wnaf| && OddOrZero(wnaf[i]) && -2 * size < wnaf[i] < 2 * size
    requires i >= bits ==> wnaf[i] == 0
    ensures r == g.add(r0, g.Mul(wnaf[i], p))
  {
    hide Group.Mul, OddTable;
    r := r0;
    if i < bits && wnaf[i] != 0 {
      var tmp := TableGet(g, pre, off, size, wnaf[i], p);
      r := g.add(r, tmp);
    } else {
      g.MulZero(p);
      g.Zero(r0);
    }
  }

  // ---------- recoding one scalar ----------

  /** A full-length recoding of the number k. */
  ghost predicate Recoded(wnaf: seq<int>, bits: nat, w: nat, k: int) {
    && |wnaf| == LEN && w >= 2 && bits <= LEN
    && (forall i :: 0 <= i < LEN ==> OddOrZero(wnaf[i]) && -Pow2(w - 1) < wnaf[i] < Pow2(w - 1))
    && (forall i :: bits <= i < LEN ==> wnaf[i] == 0)
    && DigitSum(wnaf, 1) == k
  }

  method Recode(k: int, w: nat) returns (wnaf: seq<int>, bits: nat)
    requires 0 <= k < N && 2 <= w <= 31 && -TWO128 < SignedScalar(k) < TWO128
    ensures Recoded(wnaf, bits, w, SignedScalar(k))
  {
    hide Pow2, DigitSum, SignedScalar;
    Pow2At256();
    var a := new int[LEN];
    bits := EcmultWnaf(a, LEN, k, w);
    wnaf := a[..];
    assert a[..LEN] == wnaf;
  }

  lemma UnsignedHalf(k: int)
    requires 0 <= k < TWO128
    ensures SignedScalar(k) == k
  {
    hide Pow2;
    Pow2At256();
  }

  // ---------- the points kept ----------

  function Sums1(rows: seq<seq<int>>): (s: seq<int>) {
    seq(|rows|, j requires 0 <= j < |rows| => DigitSum(rows[j], 1))
  }

  ghost predicate PointLoaded<T(!new)>(c: Curve<T>, p: StraussPoint, a: seq<T>, bits: nat, r1: seq<int>, rLam: seq<int>, q1: T, qLam: T) {
    && p.inputPos < |a| && q1 == a[p.inputPos] && qLam == c.endo(q1)
    && p.wnaf1 == r1 && p.wnafLam == rLam
    && Recoded(r1, p.bits1, WINDOW_A, DigitSum(r1, 1)) && Recoded(rLam, p.bitsLam, WINDOW_A, DigitSum(rLam, 1))
    && p.bits1 <= bits && p.bitsLam <= bits
  }

  /** Two rows of digits, and two points, for every point kept. */
  ghost predicate Kept<T(!new)>(c: Curve<T>, ps: seq<StraussPoint>, no: nat, a: seq<T>, bits: nat, rows: seq<seq<int>>, q: seq<T>) {
    && no <= |ps| && |rows| == |q| == 2 * no
    && (forall j :: 0 <= j < no ==> PointLoaded(c, ps[j], a, bits, rows[2 * j], rows[2 * j + 1], q[2 * j], q[2 * j + 1]))
  }

  lemma KeptMore<T(!new)>(c: Curve<T>, ps: seq<StraussPoint>, ps': seq<StraussPoint>, no: nat, a: seq<T>, bits: nat, bits': nat,
                          rows: seq<seq<int>>, q: seq<T>, r1: seq<int>, rLam: seq<int>, q1: T, qLam: T)
    requires Kept(c, ps, no, a, bits, rows, q) && bits <= bits' && no < |ps| == |ps'|
    requires forall j :: 0 <= j < no ==> ps'[j] == ps[j]
    requires PointLoaded(c, ps'[no], a, bits', r1, rLam, q1, qLam)
    ensures Kept(c, ps', no + 1, a, bits', rows + [r1, rLam], q + [q1, qLam])
  {
  }

  lemma AddTwo<T(!new)>(g: Group<T>, rows: seq<seq<int>>, q: seq<T>, r1: seq<int>, rLam: seq<int>, q1: T, qLam: T)
    requires g.Valid() && |rows| == |q|
    ensures g.Lin(Sums1(rows + [r1, rLam]), q + [q1, qLam])
      == g.add(g.Lin(Sums1(rows), q), g.add(g.Mul(DigitSum(r1, 1), q1), g.Mul(DigitSum(rLam, 1), qLam)))
  {
    hide DigitSum;
    var s, k1, k2 := Sums1(rows), DigitSum(r1, 1), DigitSum(rLam, 1);
    assert Sums1(rows + [r1, rLam]) == (s + [k1]) + [k2] && q + [q1, qLam] == (q + [q1]) + [qLam];
    g.LinSnoc(s, q, k1, q1);
    g.LinSnoc(s + [k1], q + [q1], k2, qLam);
    g.Assoc(g.Lin(s, q), g.Mul(k1, q1), g.Mul(k2, qLam));
  }

  predicate Scalars(na: seq<int>) {
    forall i :: 0 <= i < |na| ==> 0 <= na[i] < N
  }

  /** Split and recode the scalars, leaving out zero scalars and the point at infinity. */
  method SplitScalars<T(!new, ==)>(c: Curve<T>, ps: array<StraussPoint>, a: seq<T>, na: seq<int>)
    returns (no: nat, bits: nat, ghost rows: seq<seq<int>>, ghost q: seq<T>)
    requires c.Valid() && |a| == |na| <= ps.Length && Scalars(na)
    modifies ps
    ensures no <= |a| && bits <= LEN && Kept(c, ps[..], no, a, bits, rows, q)
    ensures c.group.Lin(Sums1(rows), q) == c.group.Lin(na, a)
  {
    hide Pow2, DigitSum, Group.Lin, Group.Mul, First, Second, SignedScalar, PointLoaded, Recoded;
    var g := c.group;
    no, bits, rows, q := 0, 0, [], [];
    var np := 0;
    NothingAdded(g, na, a);
    NothingAdded(g, Sums1(rows), q);
    while np < |a|
      invariant no <= np <= |a| && bits <= LEN && |rows| == |q|
      invariant Kept(c, ps[..], no, a, bits, rows, q)
      invariant g.Lin(Sums1(rows), q) == g.Lin(na[..np], a[..np])
    {
      OnePoint(g, na, a, np);
      if na[np] == 0 || a[np] == g.zero {
        SkipPoint(g, g.Lin(na[..np], a[..np]), na[np], a[np]);
      } else {
        ghost var ps0, bits0 := ps[..], bits;
        var na1, naLam := First(na[np]), Second(na[np]);
        SplitIsShort(na[np]);
        var wnaf1, bits1 := Recode(na1, WINDOW_A);
        var wnafLam, bitsLam := Recode(naLam, WINDOW_A);
        RecodedFacts(wnaf1, bits1, WINDOW_A, SignedScalar(na1));
        RecodedFacts(wnafLam, bitsLam, WINDOW_A, SignedScalar(naLam));
        ps[no] := StraussPoint(np, wnaf1, bits1, wnafLam, bitsLam);
        if bits1 > bits {
          bits := bits1;
        }
        if bitsLam > bits {
          bits := bitsLam;
        }
        LoadedNow(c, ps[no], a, bits);
        KeptMore(c, ps0, ps[..], no, a, bits0, bits, rows, q, wnaf1, wnafLam, a[np], c.endo(a[np]));
        AddTwo(g, rows, q, wnaf1, wnafLam, a[np], c.endo(a[np]));
        c.SplitMul(na[np], a[np]);
        rows, q := rows + [wnaf1, wnafLam], q + [a[np], c.endo(a[np])];
        no := no + 1;
      }
      np := np + 1;
    }
    assert na[..np] == na && a[..np] == a;
  }

  lemma RecodedFacts(wnaf: seq<int>, bits: nat, w: nat, k: int)
    requires Recoded(wnaf, bits, w, k)
    ensures bits <= LEN && |wnaf| == LEN && DigitSum(wnaf, 1) == k
  {
  }

  lemma LoadedNow<T(!new)>(c: Curve<T>, p: StraussPoint, a: seq<T>, bits: nat)
    requires p.inputPos < |a| && p.bits1 <= bits && p.bitsLam <= bits
    requires Recoded(p.wnaf1, p.bits1, WINDOW_A, DigitSum(p.wnaf1, 1)) && Recoded(p.wnafLam, p.bitsLam, WINDOW_A, DigitSum(p.wnafLam, 1))
    ensures PointLoaded(c, p, a, bits, p.wnaf1, p.wnafLam, a[p.inputPos], c.endo(a[p.inputPos]))
  {
  }

  // ---------- the tables of the points kept ----------

  /** One table of each kind for every point kept, end to end. */
  ghost predicate Tables<T(!new)>(g: Group<T>, preA: seq<T>, preALam: seq<T>, no: nat, q: seq<T>) {
    && |q| == 2 * no
    && (forall j :: 0 <= j < no ==> OddTable(g, preA, TABLE_A * j, TABLE_A, q[2 * j]) && OddTable(g, preALam, TABLE_A * j, TABLE_A, q[2 * j + 1]))
  }

  method BuildTables<T(!new)>(c: Curve<T>, ps: array<StraussPoint>, preA: array<T>, preALam: array<T>, no: nat, bits: nat, a: seq<T>,
                              ghost rows: seq<seq<int>>, ghost q: seq<T>)
    requires c.Valid() && Kept(c, ps[..], no, a, bits, rows, q)
    requires preA != preALam && preA.Length >= TABLE_A * no && preALam.Length >= TABLE_A * no
    requires preA as object != ps && preALam as object != ps
    modifies preA, preALam
    ensures Tables(c.group, preA[..], preALam[..], no, q)
  {
    hide Group.Mul, Recoded, DigitSum;
    var g := c.group;
    var np := 0;
    while np < no
      invariant 0 <= np <= no
      invariant forall j :: 0 <= j < np ==> OddTable(g, preA[..], TABLE_A * j, TABLE_A, q[2 * j])
    {
      assert PointLoaded(c, ps[np], a, bits, rows[2 * np], rows[2 * np + 1], q[2 * np], q[2 * np + 1]);
      ghost var before := preA[..];
      OddMultiplesTable(g, TABLE_A, preA, TABLE_A * np, a[ps[np].inputPos]);
      forall j | 0 <= j < np
        ensures OddTable(g, preA[..], TABLE_A * j, TABLE_A, q[2 * j])
      {
        assert OddTable(g, before, TABLE_A * j, TABLE_A, q[2 * j]);
      }
      np := np + 1;
    }
    var k := 0;
    while k < TABLE_A * no
      invariant 0 <= k <= TABLE_A * no
      invariant forall m :: 0 <= m < k ==> preALam[m] == c.endo(preA[m])
      invariant forall j :: 0 <= j < no ==> OddTable(g, preA[..], TABLE_A * j, TABLE_A, q[2 * j])
    {
      preALam[k] := c.endo(preA[k]);
      k := k + 1;
    }
    forall j | 0 <= j < no
      ensures OddTable(g, preALam[..], TABLE_A * j, TABLE_A, q[2 * j + 1])
    {
      assert PointLoaded(c, ps[j], a, bits, rows[2 * j], rows[2 * j + 1], q[2 * j], q[2 * j + 1]);
      EndoTable(c, preA[..], preALam[..], TABLE_A * j, q[2 * j]);
    }
  }

  lemma EndoTable<T(!new)>(c: Curve<T>, t: seq<T>, u: seq<T>, off: nat, p: T)
    requires c.Valid() && OddTable(c.group, t, off, TABLE_A, p) && off + TABLE_A <= |u|
    requires forall m :: off <= m < off + TABLE_A ==> u[m] == c.endo(t[m])
    ensures OddTable(c.group, u, off, TABLE_A, c.endo(p))
  {
    hide Group.Mul;
    forall k | off <= k < off + TABLE_A
      ensures u[k] == c.group.Mul(2 * (k - off) + 1, c.endo(p))
    {
      c.EndoMul(2 * (k - off) + 1, p);
    }
  }

  // ---------- the interleaved loop ----------

  /** All rows, those of the generator last. */
  lemma AllZeroFrom(rows: seq<seq<int>>, bits: nat, n: nat, j: nat)
    requires Rows(rows, n) && bits <= n && j < |rows| && forall i :: bits <= i < n ==> rows[j][i] == 0
    ensures DigitSum(rows[j][bits..], 1) == 0
  {
    hide Pow2;
    assert rows[j][bits..] == [] + Zeros(n - bits);
    DigitSumZeros([], n - bits, 1);
    assert DigitSum([], 1) == 0;
  }

  lemma StartHigh<T(!new)>(g: Group<T>, rows: seq<seq<int>>, bits: nat, q: seq<T>)
    requires g.Valid() && Rows(rows, LEN) && bits <= LEN && |q| == |rows|
    requires forall j, i :: 0 <= j < |rows| && bits <= i < LEN ==> rows[j][i] == 0
    ensures g.Lin(Highs(rows, LEN, bits, 1), q) == g.zero
  {
    forall j | 0 <= j < |rows|
      ensures DigitSum(rows[j][bits..], 1) == 0
    {
      AllZeroFrom(rows, bits, LEN, j);
    }
    g.LinZeroScalars(Highs(rows, LEN, bits, 1), q);
  }

  lemma FinishHigh<T(!new)>(g: Group<T>, rows: seq<seq<int>>, q: seq<T>)
    requires Rows(rows, LEN) && |q| == |rows|
    ensures g.Lin(Highs(rows, LEN, 0, 1), q) == g.Lin(Sums1(rows), q)
  {
    forall j | 0 <= j < |rows|
      ensures rows[j][0..] == rows[j]
    {
    }
    assert Highs(rows, LEN, 0, 1) == Sums1(rows);
  }

  /** One bit position of the points kept. */
  method AddKept<T(!new)>(c: Curve<T>, ps: array<StraussPoint>, preA: array<T>, preALam: array<T>, no: nat, bits: nat, ghost a: seq<T>,
                          ghost rows: seq<seq<int>>, ghost q: seq<T>, i: nat, r0: T) returns (r: T)
    requires c.Valid() && Kept(c, ps[..], no, a, bits, rows, q) && Tables(c.group, preA[..], preALam[..], no, q) && i < LEN
    requires Rows(rows, LEN)
    ensures r == c.group.add(r0, c.group.Lin(Column(rows, LEN, i), q))
  {
    hide Group.Mul, Group.Lin, OddTable, DigitSum, Recoded;
    var g := c.group;
    ghost var col := Column(rows, LEN, i);
    r := r0;
    var np := 0;
    NothingAdded(g, col, q);
    g.Zero(r0);
    while np < no
      invariant 0 <= np <= no && r == g.add(r0, g.Lin(col[..2 * np], q[..2 * np]))
    {
      assert PointLoaded(c, ps[np], a, bits, rows[2 * np], rows[2 * np + 1], q[2 * np], q[2 * np + 1]);
      DigitFits(ps[np].wnaf1, ps[np].bits1, i);
      DigitFits(ps[np].wnafLam, ps[np].bitsLam, i);
      OnePoint(g, col, q, 2 * np);
      OnePoint(g, col, q, 2 * np + 1);
      r := AddTableDigit(g, r, preA, TABLE_A * np, TABLE_A, ps[np].bits1, ps[np].wnaf1, i, q[2 * np]);
      g.Assoc(r0, g.Lin(col[..2 * np], q[..2 * np]), g.Mul(col[2 * np], q[2 * np]));
      r := AddTableDigit(g, r, preALam, TABLE_A * np, TABLE_A, ps[np].bitsLam, ps[np].wnafLam, i, q[2 * np + 1]);
      g.Assoc(r0, g.Lin(col[..2 * np + 1], q[..2 * np + 1]), g.Mul(col[2 * np + 1], q[2 * np + 1]));
      np := np + 1;
    }
    assert col[..2 * no] == col && q[..2 * no] == q;
  }

  lemma DigitFits(wnaf: seq<int>, bits: nat, i: nat)
    requires Recoded(wnaf, bits, WINDOW_A, DigitSum(wnaf, 1)) && i < LEN
    ensures |wnaf| == LEN && OddOrZero(wnaf[i]) && -2 * TABLE_A < wnaf[i] < 2 * TABLE_A && (i >= bits ==> wnaf[i] == 0)
  {
    assert Pow2(2) == 4;
    assert Pow2(4) == 4 * Pow2(2);
  }

  lemma KeptRows<T(!new)>(c: Curve<T>, ps: seq<StraussPoint>, no: nat, a: seq<T>, bits: nat, rows: seq<seq<int>>, q: seq<T>)
    requires Kept(c, ps, no, a, bits, rows, q)
    ensures Rows(rows, LEN)
    ensures forall j, i :: 0 <= j < |rows| && bits <= i < LEN ==> rows[j][i] == 0
  {
    hide DigitSum, Pow2;
    forall j | 0 <= j < |rows|
      ensures |rows[j]| == LEN && (forall i :: bits <= i < LEN ==> rows[j][i] == 0)
    {
      var h := j / 2;
      assert PointLoaded(c, ps[h], a, bits, rows[2 * h], rows[2 * h + 1], q[2 * h], q[2 * h + 1]);
      assert j == 2 * h || j == 2 * h + 1;
    }
  }

  /** The generator's two halves: their digits, and the points they belong to. */
  method SplitGenerator<T(!new)>(c: Curve<T>, windowG: nat, ng: Option<int>)
    returns (wnaf1: seq<int>, bits1: nat, wnaf128: seq<int>, bits128: nat)
    requires c.Valid() && 2 <= windowG <= 24 && (ng.Some? ==> 0 <= ng.value < N)
    ensures Recoded(wnaf1, bits1, windowG, DigitSum(wnaf1, 1)) && Recoded(wnaf128, bits128, windowG, DigitSum(wnaf128, 1))
    ensures c.group.add(c.group.Mul(DigitSum(wnaf1, 1), c.generator), c.group.Mul(DigitSum(wnaf128, 1), c.group.Mul(TWO128, c.generator)))
      == if ng.Some? then c.group.Mul(ng.value, c.generator) else c.group.zero
  {
    hide Group.Mul, DigitSum, SignedScalar, Pow2;
    var g := c.group;
    var ng1, ng128 := 0, 0;
    if ng.Some? {
      ng1, ng128 := ng.value % TWO128, ng.value / TWO128;
    }
    UnsignedHalf(ng1);
    UnsignedHalf(ng128);
    wnaf1, bits1 := Recode(ng1, windowG);
    wnaf128, bits128 := Recode(ng128, windowG);
    RecodedFacts(wnaf1, bits1, windowG, ng1);
    RecodedFacts(wnaf128, bits128, windowG, ng128);
    g.MulMul(ng128, TWO128, c.generator);
    g.MulPlus(ng1, ng128 * TWO128, c.generator);
    g.MulZero(c.generator);
  }

  lemma TwoMore<T(!new)>(g: Group<T>, rows: seq<seq<int>>, q: seq<T>, i: nat, r1: seq<int>, r2: seq<int>, q1: T, q2: T, x: T)
    requires g.Valid() && Rows(rows, LEN) && |q| == |rows| && i < LEN && |r1| == |r2| == LEN
    ensures g.add(g.add(g.add(x, g.Lin(Column(rows, LEN, i), q)), g.Mul(r1[i], q1)), g.Mul(r2[i], q2))
      == g.add(x, g.Lin(Column(rows + [r1, r2], LEN, i), q + [q1, q2]))
  {
    var col := Column(rows, LEN, i);
    assert Column(rows + [r1, r2], LEN, i) == (col + [r1[i]]) + [r2[i]] && q + [q1, q2] == (q + [q1]) + [q2];
    g.LinSnoc(col, q, r1[i], q1);
    g.LinSnoc(col + [r1[i]], q + [q1], r2[i], q2);
    g.Assoc(x, g.Lin(col, q), g.Mul(r1[i], q1));
    g.Assoc(x, g.Lin(col + [r1[i]], q + [q1]), g.Mul(r2[i], q2));
  }

  lemma MoreRows(rows: seq<seq<int>>, bits: nat, bits': nat, w: nat, r1: seq<int>, b1: nat, r2: seq<int>, b2: nat)
    requires Rows(rows, LEN) && (forall j, i :: 0 <= j < |rows| && bits <= i < LEN ==> rows[j][i] == 0)
    requires Recoded(r1, b1, w, DigitSum(r1, 1)) && Recoded(r2, b2, w, DigitSum(r2, 1)) && bits <= bits' && b1 <= bits' && b2 <= bits'
    ensures Rows(rows + [r1, r2], LEN)
    ensures forall j, i :: 0 <= j < |rows| + 2 && bits' <= i < LEN ==> (rows + [r1, r2])[j][i] == 0
  {
  }

  lemma WideDigit(wnaf: seq<int>, bits: nat, w: nat, i: nat, size: nat)
    requires Recoded(wnaf, bits, w, DigitSum(wnaf, 1)) && i < LEN && size == Pow2(w - 2)
    ensures OddOrZero(wnaf[i]) && -2 * size < wnaf[i] < 2 * size && (i >= bits ==> wnaf[i] == 0)
  {
  }

  /** sum na[i] a[i] + ng G */
  method StraussWnaf<T(!new, ==)>(c: Curve<T>, windowG: nat, preG: array<T>, preG128: array<T>, ps: array<StraussPoint>,
                                  preA: array<T>, preALam: array<T>, a: seq<T>, na: seq<int>, ng: Option<int>) returns (r: T)
    requires c.Valid() && 2 <= windowG <= 24 && preG.Length == preG128.Length == Pow2(windowG - 2)
    requires OddTable(c.group, preG[..], 0, preG.Length, c.generator)
    requires OddTable(c.group, preG128[..], 0, preG128.Length, c.group.Mul(TWO128, c.generator))
    requires |a| == |na| <= ps.Length && Scalars(na) && (ng.Some? ==> 0 <= ng.value < N)
    requires preA != preALam && preA.Length >= TABLE_A * |a| && preALam.Length >= TABLE_A * |a|
    requires {preG, preG128} !! {preA, preALam}
    requires ps as object !in {preA as object, preALam as object, preG as object, preG128 as object}
    modifies ps, preA, preALam
    ensures r == c.group.add(c.group.Lin(na, a), if ng.Some? then c.group.Mul(ng.value, c.generator) else c.group.zero)
  {
    hide Group.Mul, Group.Lin, OddTable, DigitSum, Recoded, Pow2, Kept, Tables, Rows, Scalars, Highs, Column;
    var g := c.group;
    var no, bits;
    ghost var rows, q;
    no, bits, rows, q := SplitScalars(c, ps, a, na);
    BuildTables(c, ps, preA, preALam, no, bits, a, rows, q);
    var wnaf1, bits1, wnaf128, bits128 := SplitGenerator(c, windowG, ng);
    KeptRows(c, ps[..], no, a, bits, rows, q);
    RecodedFacts(wnaf1, bits1, windowG, DigitSum(wnaf1, 1));
    RecodedFacts(wnaf128, bits128, windowG, DigitSum(wnaf128, 1));
    var allBits: int := bits;
    if bits1 > allBits {
      allBits := bits1;
    }
    if bits128 > allBits {
      allBits := bits128;
    }
    MoreRows(rows, bits, allBits, windowG, wnaf1, bits1, wnaf128, bits128);
    KeptLengths(c, ps[..], no, a, bits, rows, q);
    ghost var g128 := g.Mul(TWO128, c.generator);
    ghost var all, points := rows + [wnaf1, wnaf128], q + [c.generator, g128];
    r := g.zero;
    StartHigh(g, all, allBits, points);
    var i: int := allBits - 1;
    while i >= 0
      invariant -1 <= i < LEN && r == g.Lin(Highs(all, LEN, i + 1, 1), points)
      invariant Kept(c, ps[..], no, a, bits, rows, q) && Tables(g, preA[..], preALam[..], no, q)
    {
      WideDigit(wnaf1, bits1, windowG, i, preG.Length);
      WideDigit(wnaf128, bits128, windowG, i, preG.Length);
      HighsStep(g, all, LEN, i, 1, points);
      g.MulTwo(r);
      PowOne();
      r := g.add(r, r);
      TwoMore(g, rows, q, i, wnaf1, wnaf128, c.generator, g128, r);
      r := AddKept(c, ps, preA, preALam, no, bits, a, rows, q, i, r);
      r := AddTableDigit(g, r, preG, 0, preG.Length, bits1, wnaf1, i, c.generator);
      r := AddTableDigit(g, r, preG128, 0, preG128.Length, bits128, wnaf128, i, g128);
      i := i - 1;
    }
    FinishHigh(g, all, points);
    AddTwo(g, rows, q, wnaf1, wnaf128, c.generator, g128);
  }

  lemma PowOne()
    ensures Pow2(1) == 2
  {
  }

  lemma KeptLengths<T(!new)>(c: Curve<T>, ps: seq<StraussPoint>, no: nat, a: seq<T>, bits: nat, rows: seq<seq<int>>, q: seq<T>)
    requires Kept(c, ps, no, a, bits, rows, q)
    ensures |rows| == |q|
  {
  }
}
