/** Constant-time multiplication of one point, over the odd nonzero digits of the skewed recoding. */
module EcmultConst {
  import opened Integers
  import opened Groups
  import opened Recoding
  import opened RecodingFixed
  import opened RecodingConst
  import opened SplitLambda
  import opened Curves
  import opened Pippenger
  import opened Strauss

  /** The table lookup that reads every entry. */
  method ConstTableGet<T(!new)>(g: Group<T>, pre: array<T>, n: int, ghost p: T) returns (r: T)
    requires g.Valid() && pre.Length == TABLE_A && OddTable(g, pre[..], 0, TABLE_A, p) && n % 2 == 1 && -2 * TABLE_A < n < 2 * TABLE_A
    ensures r == g.Mul(n, p)
  {
    hide Group.Mul;
    var abs := if n < 0 then -n else n;
    var idx := abs / 2;
    r := pre[0];
    var m := 1;
    while m < TABLE_A
      invariant 1 <= m <= TABLE_A
      invariant r == if idx < m then pre[idx] else pre[0]
    {
      r := if m == idx then pre[m] else r;
      m := m + 1;
    }
    assert pre[idx] == pre[..][idx] && abs == 2 * idx + 1;
    g.MulNeg(abs, p);
    r := if n != abs then g.neg(r) else r;
  }

  /** What the rows stand for, over the points they belong to: one row, or one for each half. */
  ghost predicate Halves<T(!new)>(c: Curve<T>, rows: seq<seq<int>>, n: nat, a: T, q: seq<T>) {
    && 1 <= |rows| <= 2 && |q| == |rows| && Rows(rows, n)
    && q[0] == a && (|q| == 2 ==> q[1] == c.endo(a))
    && (forall j :: 0 <= j < |rows| ==> OddDigits(rows[j], WINDOW_A - 1))
  }

  method AddConstDigits<T(!new)>(c: Curve<T>, preA: array<T>, preALam: array<T>, rows: seq<seq<int>>, n: nat, i: nat, r0: T,
                                 ghost a: T, ghost q: seq<T>) returns (r: T)
    requires c.Valid() && Halves(c, rows, n, a, q) && i < n && preA.Length == preALam.Length == TABLE_A
    requires OddTable(c.group, preA[..], 0, TABLE_A, a) && (|rows| == 2 ==> OddTable(c.group, preALam[..], 0, TABLE_A, c.endo(a)))
    ensures r == c.group.add(r0, c.group.Lin(Column(rows, n, i), q))
  {
    hide Group.Mul, Group.Lin, OddTable;
    var g := c.group;
    ghost var col := Column(rows, n, i);
    OddFits(rows[0], i);
    var tmp := ConstTableGet(g, preA, rows[0][i], a);
    r := g.add(r0, tmp);
    g.LinOne(col[0], a);
    if |rows| == 2 {
      OddFits(rows[1], i);
      tmp := ConstTableGet(g, preALam, rows[1][i], c.endo(a));
      r := g.add(r, tmp);
      assert col == [col[0]] + [col[1]] && q == [a] + [c.endo(a)];
      g.LinSnoc([col[0]], [a], col[1], c.endo(a));
      g.Assoc(r0, g.Mul(col[0], a), tmp);
    } else {
      assert col == [col[0]] && q == [a];
    }
  }

  lemma OddFits(d: seq<int>, i: nat)
    requires OddDigits(d, WINDOW_A - 1) && i < |d|
    ensures d[i] % 2 == 1 && -2 * TABLE_A < d[i] < 2 * TABLE_A
  {
    assert Pow2(2) == 4;
    assert Pow2(4) == 4 * Pow2(2);
  }

  /** The double-and-add loop over all digits of the rows. */
  method ConstLoop<T(!new)>(c: Curve<T>, preA: array<T>, preALam: array<T>, rows: seq<seq<int>>, n: nat, ghost a: T, ghost q: seq<T>)
    returns (r: T)
    requires c.Valid() && n >= 1 && Halves(c, rows, n, a, q) && preA.Length == preALam.Length == TABLE_A
    requires OddTable(c.group, preA[..], 0, TABLE_A, a) && (|rows| == 2 ==> OddTable(c.group, preALam[..], 0, TABLE_A, c.endo(a)))
    ensures r == c.group.Lin(Highs(rows, n, 0, WINDOW_A - 1), q)
  {
    hide Group.Mul, Group.Lin, OddTable, Pow2, Highs, Column, OddDigits;
    var g := c.group;
    // the first position starts from nothing
    r := AddConstDigits(c, preA, preALam, rows, n, n - 1, g.zero, a, q);
    HighsTop(g, rows, n, WINDOW_A - 1, q);
    HighsStep(g, rows, n, n - 1, WINDOW_A - 1, q);
    g.MulOfZero(Pow2(WINDOW_A - 1));
    var i: int := n - 2;
    while i >= 0
      invariant -1 <= i < n - 1 && r == g.Lin(Highs(rows, n, i + 1, WINDOW_A - 1), q)
    {
      ghost var r0 := r;
      var j := 0;
      PowZero();
      g.MulOne(r0);
      while j < WINDOW_A - 1
        invariant 0 <= j <= WINDOW_A - 1 && r == g.Mul(Pow2(j), r0)
      {
        r := g.add(r, r);
        g.Double(Pow2(j), r0);
        Pow2Down(j + 1);
        j := j + 1;
      }
      HighsStep(g, rows, n, i, WINDOW_A - 1, q);
      r := AddConstDigits(c, preA, preALam, rows, n, i, r, a, q);
      i := i - 1;
    }
  }

  /** Undo a skew of 1 or 2. */
  method Unskew<T(!new)>(g: Group<T>, r0: T, skew: int, p: T, p2: T) returns (r: T)
    requires g.Valid() && (skew == 1 || skew == 2) && p2 == g.add(p, p)
    ensures r == g.add(r0, g.Mul(-skew, p))
  {
    hide Group.Mul;
    var correction := if skew == 2 then p2 else p;
    g.MulOne(p);
    g.MulTwo(p);
    g.MulNeg(skew, p);
    r := g.add(r0, g.neg(correction));
  }

  lemma MulHigh<T(!new)>(c: Curve<T>, k: nat, skew: int, x: T)
    requires c.Valid() && k < N
    ensures c.group.add(c.group.Mul(SignedHigh(k) + skew, x), c.group.Mul(-skew, x)) == c.group.Mul(k, x)
  {
    hide Group.Mul, Cong;
    c.group.MulPlus(SignedHigh(k) + skew, -skew, x);
    CongIntro(SignedHigh(k), k, N, if SignedHigh(k) == k then 0 else -1);
    c.MulCong(SignedHigh(k), k, x);
  }

  method Recode(k: int, size: nat) returns (d: seq<int>, skew: int)
    requires 0 <= k < N && size > 0 && -Pow2(size) < SignedHigh(k) < Pow2(size)
    ensures skew == 1 || skew == 2
    ensures |d| == WnafSize(size, WINDOW_A - 1) + 1 && OddDigits(d, WINDOW_A - 1)
    ensures DigitSum(d, WINDOW_A - 1) == SignedHigh(k) + skew
  {
    hide Pow2, DigitSum, OddDigits;
    var wnaf := new int[WnafSize(size, WINDOW_A - 1) + 1];
    skew := WnafConst(wnaf, k, WINDOW_A - 1, size);
    d := wnaf[..];
    assert wnaf[..WnafSize(size, WINDOW_A - 1) + 1] == d;
  }

  lemma ShortHigh(s: int, bound: int)
    requires 0 <= s < N && -bound < SignedScalar(s) < bound <= TWO128
    ensures -TWO128 < SignedHigh(s) < TWO128 && TWO128 == Pow2(128)
  {
    hide Pow2;
    Pow2At256();
  }

  /** scalar a; below 128 bits without the endomorphism, above with it */
  method EcmultConst<T(!new)>(c: Curve<T>, a: T, scalar: int, size: nat) returns (r: T)
    requires c.Valid() && 0 <= scalar < N && size > 0
    requires size <= 128 ==> -Pow2(size) < SignedHigh(scalar) < Pow2(size)
    ensures r == c.group.Mul(scalar, a)
  {
    hide Group.Mul, Group.Lin, OddTable, Pow2, DigitSum, OddDigits, First, Second, SignedScalar, SignedHigh, WnafSize, Highs;
    var g := c.group;
    var preA := new T[TABLE_A](_ => g.zero);
    var preALam := new T[TABLE_A](_ => g.zero);
    OddMultiplesTable(g, TABLE_A, preA, 0, a);
    var a2 := g.add(a, a);
    if size > 128 {
      var q1, qLam := First(scalar), Second(scalar);
      SplitIsShort(scalar);
      ShortHigh(q1, K1_BOUND);
      ShortHigh(qLam, K2_BOUND);
      var d1, skew1 := Recode(q1, 128);
      var dLam, skewLam := Recode(qLam, 128);
      EndoTableOf(c, preA, preALam, a);
      r := ConstLoop(c, preA, preALam, [d1, dLam], |d1|, a, [a, c.endo(a)]);
      TwoRows(g, d1, dLam, WINDOW_A - 1, a, c.endo(a));
      ghost var x, y := g.Mul(DigitSum(d1, WINDOW_A - 1), a), g.Mul(DigitSum(dLam, WINDOW_A - 1), c.endo(a));
      r := Unskew(g, r, skew1, a, a2);
      EndoDouble(c, a);
      r := Unskew(g, r, skewLam, c.endo(a), c.endo(a2));
      UnskewBoth(g, x, y, g.Mul(-skew1, a), g.Mul(-skewLam, c.endo(a)));
      MulHigh(c, q1, skew1, a);
      MulHigh(c, qLam, skewLam, c.endo(a));
      SplitPlain(c, scalar, a);
    } else {
      var d1, skew1 := Recode(scalar, size);
      r := ConstLoop(c, preA, preALam, [d1], |d1|, a, [a]);
      OneRow(g, d1, WINDOW_A - 1, a);
      r := Unskew(g, r, skew1, a, a2);
      MulHigh(c, scalar, skew1, a);
    }
  }

  lemma SplitPlain<T(!new)>(c: Curve<T>, k: nat, x: T)
    requires c.Valid() && k < N
    ensures c.group.add(c.group.Mul(First(k), x), c.group.Mul(Second(k), c.endo(x))) == c.group.Mul(k, x)
  {
    hide Group.Mul, First, Second, SignedScalar;
    c.SplitMul(k, x);
    c.MulSigned(First(k), x);
    c.MulSigned(Second(k), c.endo(x));
  }

  lemma EndoDouble<T(!new)>(c: Curve<T>, a: T)
    requires c.Valid()
    ensures c.endo(c.group.add(a, a)) == c.group.add(c.endo(a), c.endo(a))
  {
    hide Group.Mul;
    c.group.MulAdd(LAMBDA, a, a);
  }

  lemma UnskewBoth<T(!new)>(g: Group<T>, x: T, y: T, z: T, w: T)
    requires g.Valid()
    ensures g.add(g.add(g.add(x, y), z), w) == g.add(g.add(x, z), g.add(y, w))
  {
    g.Slide(x, y, z);
    g.Assoc(g.add(x, z), y, w);
  }

  lemma OneRow<T(!new)>(g: Group<T>, d: seq<int>, w: nat, a: T)
    requires g.Valid()
    ensures g.Lin(Highs([d], |d|, 0, w), [a]) == g.Mul(DigitSum(d, w), a)
  {
    hide DigitSum;
    assert d[0..] == d;
    assert Highs([d], |d|, 0, w) == [DigitSum(d, w)];
    g.LinOne(DigitSum(d, w), a);
  }

  lemma TwoRows<T(!new)>(g: Group<T>, d: seq<int>, e: seq<int>, w: nat, a: T, b: T)
    requires g.Valid() && |d| == |e|
    ensures g.Lin(Highs([d, e], |d|, 0, w), [a, b]) == g.add(g.Mul(DigitSum(d, w), a), g.Mul(DigitSum(e, w), b))
  {
    hide DigitSum;
    var x, y := DigitSum(d, w), DigitSum(e, w);
    assert d[0..] == d && e[0..] == e;
    assert Highs([d, e], |d|, 0, w) == [x] + [y] && [a, b] == [a] + [b];
    g.LinSnoc([x], [a], y, b);
    g.LinOne(x, a);
  }

  method EndoTableOf<T(!new)>(c: Curve<T>, preA: array<T>, preALam: array<T>, a: T)
    requires c.Valid() && preA != preALam && preA.Length == preALam.Length == TABLE_A && OddTable(c.group, preA[..], 0, TABLE_A, a)
    modifies preALam
    ensures OddTable(c.group, preALam[..], 0, TABLE_A, c.endo(a))
  {
    hide Group.Mul;
    var i := 0;
    while i < TABLE_A
      invariant 0 <= i <= TABLE_A && forall m :: 0 <= m < i ==> preALam[m] == c.endo(preA[m])
    {
      preALam[i] := c.endo(preA[i]);
      i := i + 1;
    }
    EndoTable(c, preA[..], preALam[..], 0, a);
  }
}
