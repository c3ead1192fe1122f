/** The 512-bit product of two scalars and its reduction modulo the group order. */
module ScalarMul {
  import opened Integers
  import opened Recoding
  import opened Scalar

  const C2_MAX: int := TWO32 - 1
  const W5: int := W4 * W
  const W6: int := W4 * W2
  const W7: int := W4 * W3
  const W8: int := W4 * W4

  function Prod(x: int, y: int): int {
    x * y
  }

  lemma ProdBound(x: int, y: int)
    requires Word(x) && Word(y)
    ensures 0 <= Prod(x, y) <= (W - 1) * (W - 1)
  {
    MulMono(0, x, y);
    MulMono(x, W - 1, y);
    MulMono(y, W - 1, W - 1);
  }

  /** The accumulator of three words grows by a product. */
  method MulAdd(c0: int, c1: int, c2: int, a: int, b: int) returns (d0: int, d1: int, d2: int)
    requires Word(c0) && Word(c1) && 0 <= c2 < C2_MAX && Word(a) && Word(b)
    ensures Word(d0) && Word(d1) && c2 <= d2 <= c2 + 1
    ensures d0 + W * d1 + W2 * d2 == c0 + W * c1 + W2 * c2 + Prod(a, b)
  {
    hide Prod;
    ProdBound(a, b);
    var t := Prod(a, b);
    var th, tl := t / W, t % W;
    d0 := (c0 + tl) % W;
    th := th + (if d0 < tl then 1 else 0);
    assert Word(th);
    d1 := (c1 + th) % W;
    d2 := c2 + (if d1 < th then 1 else 0);
    assert d1 >= th || d2 != 0;
  }

  method MulAddFast(c0: int, c1: int, a: int, b: int) returns (d0: int, d1: int)
    requires Word(c0) && Word(c1) && Word(a) && Word(b) && c0 + W * c1 + Prod(a, b) < W2
    ensures Word(d0) && Word(d1) && d0 + W * d1 == c0 + W * c1 + Prod(a, b)
  {
    hide Prod;
    ProdBound(a, b);
    var t := Prod(a, b);
    var th, tl := t / W, t % W;
    d0 := (c0 + tl) % W;
    th := th + (if d0 < tl then 1 else 0);
    d1 := (c1 + th) % W;
    assert d1 >= th;
  }

  method SumAdd(c0: int, c1: int, c2: int, a: int) returns (d0: int, d1: int, d2: int)
    requires Word(c0) && Word(c1) && 0 <= c2 < C2_MAX && Word(a)
    ensures Word(d0) && Word(d1) && c2 <= d2 <= c2 + 1
    ensures d0 + W * d1 + W2 * d2 == c0 + W * c1 + W2 * c2 + a
  {
    d0 := (c0 + a) % W;
    var over := if d0 < a then 1 else 0;
    d1 := (c1 + over) % W;
    d2 := c2 + (if d1 < over then 1 else 0);
  }

  method SumAddFast(c0: int, c1: int, a: int) returns (d0: int, d1: int)
    requires Word(c0) && Word(c1) && Word(a) && c0 + W * c1 + a < W2
    ensures Word(d0) && Word(d1) && d0 + W * d1 == c0 + W * c1 + a
  {
    d0 := (c0 + a) % W;
    d1 := (c1 + (if d0 < a then 1 else 0)) % W;
    assert d1 != 0 || d0 >= a;
  }

  // ---------- the product ----------

  function Sum8(l: seq<int>): int
    requires |l| == 8
  {
    l[0] + l[1] * W + l[2] * W2 + l[3] * W3 + l[4] * W4 + l[5] * W5 + l[6] * W6 + l[7] * W7
  }

  /** The seven columns of a four by four product. */
  function Column(a: seq<int>, b: seq<int>, k: nat): int
    requires |a| == |b| == 4
  {
    match k
    case 0 => Prod(a[0], b[0])
    case 1 => Prod(a[0], b[1]) + Prod(a[1], b[0])
    case 2 => Prod(a[0], b[2]) + Prod(a[1], b[1]) + Prod(a[2], b[0])
    case 3 => Prod(a[0], b[3]) + Prod(a[1], b[2]) + Prod(a[2], b[1]) + Prod(a[3], b[0])
    case 4 => Prod(a[1], b[3]) + Prod(a[2], b[2]) + Prod(a[3], b[1])
    case 5 => Prod(a[2], b[3]) + Prod(a[3], b[2])
    case 6 => Prod(a[3], b[3])
    case _ => 0
  }

  lemma ColumnsAre(a: seq<int>, b: seq<int>)
    requires |a| == |b| == 4
    ensures Column(a, b, 0) + Column(a, b, 1) * W + Column(a, b, 2) * W2 + Column(a, b, 3) * W3 + Column(a, b, 4) * W4
      + Column(a, b, 5) * W5 + Column(a, b, 6) * W6 == Value(a) * Value(b)
  {
    RowIs(a[0], b);
    RowIs(a[1], b);
    RowIs(a[2], b);
    RowIs(a[3], b);
    Distribute4(a[0], a[1], a[2], a[3], Value(b));
  }

  lemma RowIs(x: int, b: seq<int>)
    requires |b| == 4
    ensures Prod(x, b[0]) + Prod(x, b[1]) * W + Prod(x, b[2]) * W2 + Prod(x, b[3]) * W3 == x * Value(b)
  {
  }

  lemma Distribute4(a0: int, a1: int, a2: int, a3: int, v: int)
    ensures Sum4(a0, a1, a2, a3) * v == a0 * v + (a1 * v) * W + (a2 * v) * W2 + (a3 * v) * W3
  {
  }

  /** Column sums and the words extracted from them. */
  lemma Columns8(k0: int, k1: int, k2: int, k3: int, k4: int, k5: int, k6: int, l: seq<int>,
                 h0: int, h1: int, h2: int, h3: int, h4: int, h5: int, h6: int)
    requires |l| == 8
    requires k0 == l[0] + W * h0 && h0 + k1 == l[1] + W * h1 && h1 + k2 == l[2] + W * h2 && h2 + k3 == l[3] + W * h3
    requires h3 + k4 == l[4] + W * h4 && h4 + k5 == l[5] + W * h5 && h5 + k6 == l[6] + W * h6 && l[7] == h6
    ensures Sum8(l) == k0 + k1 * W + k2 * W2 + k3 * W3 + k4 * W4 + k5 * W5 + k6 * W6
  {
  }

  predicate Words8(l: seq<int>) {
    |l| == 8 && forall i :: 0 <= i < 8 ==> Word(l[i])
  }

  /** The exact 512-bit product. */
  method Mul512(l: array<int>, a: seq<int>, b: seq<int>)
    requires l.Length == 8 && Limbs(a) && Limbs(b)
    modifies l
    ensures Words8(l[..]) && Sum8(l[..]) == Value(a) * Value(b)
  {
    hide Prod, Sum4, Sum8, Column, Value;
    var c0, c1, c2 := 0, 0, 0;
    ProdBound(a[0], b[0]);
    c0, c1 := MulAddFast(c0, c1, a[0], b[0]);
    var l0 := c0;
    c0, c1 := c1, 0;
    ghost var h0 := c0;
    c0, c1, c2 := MulAdd(c0, c1, c2, a[0], b[1]);
    c0, c1, c2 := MulAdd(c0, c1, c2, a[1], b[0]);
    var l1 := c0;
    c0, c1, c2 := c1, c2, 0;
    ghost var h1 := c0 + W * c1;
    c0, c1, c2 := MulAdd(c0, c1, c2, a[0], b[2]);
    c0, c1, c2 := MulAdd(c0, c1, c2, a[1], b[1]);
    c0, c1, c2 := MulAdd(c0, c1, c2, a[2], b[0]);
    var l2 := c0;
    c0, c1, c2 := c1, c2, 0;
    ghost var h2 := c0 + W * c1;
    c0, c1, c2 := MulAdd(c0, c1, c2, a[0], b[3]);
    c0, c1, c2 := MulAdd(c0, c1, c2, a[1], b[2]);
    c0, c1, c2 := MulAdd(c0, c1, c2, a[2], b[1]);
    c0, c1, c2 := MulAdd(c0, c1, c2, a[3], b[0]);
    var l3 := c0;
    c0, c1, c2 := c1, c2, 0;
    ghost var h3 := c0 + W * c1;
    c0, c1, c2 := MulAdd(c0, c1, c2, a[1], b[3]);
    c0, c1, c2 := MulAdd(c0, c1, c2, a[2], b[2]);
    c0, c1, c2 := MulAdd(c0, c1, c2, a[3], b[1]);
    var l4 := c0;
    c0, c1, c2 := c1, c2, 0;
    ghost var h4 := c0 + W * c1;
    c0, c1, c2 := MulAdd(c0, c1, c2, a[2], b[3]);
    c0, c1, c2 := MulAdd(c0, c1, c2, a[3], b[2]);
    var l5 := c0;
    c0, c1, c2 := c1, c2, 0;
    ghost var h5 := c0 + W * c1;
    ColumnsNamed(a, b);
    TopColumn(a, b, l0, l1, l2, l3, l4, l5, h0, h1, h2, h3, h4, h5);
    c0, c1 := MulAddFast(c0, c1, a[3], b[3]);
    var l6 := c0;
    c0, c1 := c1, 0;
    l[0], l[1], l[2], l[3], l[4], l[5], l[6], l[7] := l0, l1, l2, l3, l4, l5, l6, c0;
    assert l[..] == [l0, l1, l2, l3, l4, l5, l6, c0];
    Columns8(Column(a, b, 0), Column(a, b, 1), Column(a, b, 2), Column(a, b, 3), Column(a, b, 4), Column(a, b, 5), Column(a, b, 6),
             l[..], h0, h1, h2, h3, h4, h5, c0);
    ColumnsAre(a, b);
  }

  lemma ColumnsNamed(a: seq<int>, b: seq<int>)
    requires |a| == |b| == 4
    ensures Column(a, b, 0) == Prod(a[0], b[0])
    ensures Column(a, b, 1) == Prod(a[0], b[1]) + Prod(a[1], b[0])
    ensures Column(a, b, 2) == Prod(a[0], b[2]) + Prod(a[1], b[1]) + Prod(a[2], b[0])
    ensures Column(a, b, 3) == Prod(a[0], b[3]) + Prod(a[1], b[2]) + Prod(a[2], b[1]) + Prod(a[3], b[0])
    ensures Column(a, b, 4) == Prod(a[1], b[3]) + Prod(a[2], b[2]) + Prod(a[3], b[1])
    ensures Column(a, b, 5) == Prod(a[2], b[3]) + Prod(a[3], b[2])
    ensures Column(a, b, 6) == Prod(a[3], b[3])
  {
  }

  /** The last column cannot overflow two words, because the whole product has eight. */
  lemma TopColumn(a: seq<int>, b: seq<int>, l0: int, l1: int, l2: int, l3: int, l4: int, l5: int,
                  h0: int, h1: int, h2: int, h3: int, h4: int, h5: int)
    requires Limbs(a) && Limbs(b)
    requires Word(l0) && Word(l1) && Word(l2) && Word(l3) && Word(l4) && Word(l5)
    requires Column(a, b, 0) == l0 + W * h0 && h0 + Column(a, b, 1) == l1 + W * h1 && h1 + Column(a, b, 2) == l2 + W * h2
    requires h2 + Column(a, b, 3) == l3 + W * h3 && h3 + Column(a, b, 4) == l4 + W * h4 && h4 + Column(a, b, 5) == l5 + W * h5
    ensures h5 + Column(a, b, 6) < W2
  {
    hide Column, Value;
    ColumnsAre(a, b);
    ValueBounds(a);
    ValueBounds(b);
    TopAlgebra(Column(a, b, 0), Column(a, b, 1), Column(a, b, 2), Column(a, b, 3), Column(a, b, 4), Column(a, b, 5), Column(a, b, 6),
               l0, l1, l2, l3, l4, l5, h0, h1, h2, h3, h4, h5, Value(a) * Value(b));
    StrictProduct(Value(a), Value(b));
  }

  lemma StrictProduct(x: int, y: int)
    requires 0 <= x < W4 && 0 <= y < W4
    ensures x * y < W8
  {
    MulMono(x, W4, y);
    if y > 0 {
      MulMono(y, W4 - 1, W4);
    }
  }

  lemma TopAlgebra(k0: int, k1: int, k2: int, k3: int, k4: int, k5: int, k6: int, l0: int, l1: int, l2: int, l3: int, l4: int, l5: int,
                   h0: int, h1: int, h2: int, h3: int, h4: int, h5: int, v: int)
    requires k0 == l0 + W * h0 && h0 + k1 == l1 + W * h1 && h1 + k2 == l2 + W * h2
    requires h2 + k3 == l3 + W * h3 && h3 + k4 == l4 + W * h4 && h4 + k5 == l5 + W * h5
    requires k0 + k1 * W + k2 * W2 + k3 * W3 + k4 * W4 + k5 * W5 + k6 * W6 == v
    requires l0 >= 0 && l1 >= 0 && l2 >= 0 && l3 >= 0 && l4 >= 0 && l5 >= 0
    ensures W6 * (h5 + k6) <= v
    ensures v < W8 ==> h5 + k6 < W2
  {
  }

  // ---------- the reduction ----------

  /** Seven columns folded into words, with what is left on top. */
  lemma Columns7(s0: int, s1: int, s2: int, s3: int, s4: int, s5: int, m0: int, m1: int, m2: int, m3: int, m4: int, m5: int,
                 h0: int, h1: int, h2: int, h3: int, h4: int, h5: int)
    requires s0 == m0 + W * h0 && h0 + s1 == m1 + W * h1 && h1 + s2 == m2 + W * h2 && h2 + s3 == m3 + W * h3
    requires h3 + s4 == m4 + W * h4 && h4 + s5 == m5 + W * h5
    ensures s0 + s1 * W + s2 * W2 + s3 * W3 + s4 * W4 + s5 * W5
      == Sum4(m0, m1, m2, m3) + m4 * W4 + m5 * W5 + h5 * W6
  {
  }

  /** The high half times 2^256 - N, against the columns it is added in. */
  lemma FirstFold(l: seq<int>)
    requires |l| == 8
    ensures (l[0] + Prod(l[4], NC0)) + (l[1] + Prod(l[5], NC0) + Prod(l[4], NC1)) * W
      + (l[2] + Prod(l[6], NC0) + Prod(l[5], NC1) + l[4]) * W2 + (l[3] + Prod(l[7], NC0) + Prod(l[6], NC1) + l[5]) * W3
      + (Prod(l[7], NC1) + l[6]) * W4 + l[7] * W5
      == Sum4(l[0], l[1], l[2], l[3]) + Sum4(l[4], l[5], l[6], l[7]) * NC
    ensures Sum8(l) == Sum4(l[0], l[1], l[2], l[3]) + Sum4(l[4], l[5], l[6], l[7]) * W4
  {
  }

  /** The first fold leaves at most 385 bits. */
  lemma FirstBound(low: int, high: int, m: int, top: int)
    requires 0 <= low < W4 && 0 <= high < W4 && low + high * NC == m + top * W4 && 0 <= m < W4
    ensures 0 <= top <= NC
  {
  }

  lemma TopWords(m4: int, m5: int, h: int)
    requires Word(m4) && Word(m5) && 0 <= m4 + m5 * W + h * W2 <= NC
    ensures 0 <= h <= 1
  {
  }

  /** m[0..6] := l[0..3] + l[4..7] (2^256 - N) */
  method Fold385(l: seq<int>) returns (m0: int, m1: int, m2: int, m3: int, m4: int, m5: int, m6: int)
    requires Words8(l)
    ensures Word(m0) && Word(m1) && Word(m2) && Word(m3) && Word(m4) && Word(m5) && 0 <= m6 <= 1
    ensures Sum4(m0, m1, m2, m3) + (m4 + m5 * W + m6 * W2) * W4 == Sum4(l[0], l[1], l[2], l[3]) + Sum4(l[4], l[5], l[6], l[7]) * NC
    ensures m4 + m5 * W + m6 * W2 <= NC
  {
    hide Prod, Sum4, Sum8;
    var n0, n1, n2, n3 := l[4], l[5], l[6], l[7];
    var c0, c1, c2 := l[0], 0, 0;
    ProdBound(n0, NC0);
    c0, c1 := MulAddFast(c0, c1, n0, NC0);
    m0 := c0;
    c0, c1 := c1, 0;
    ghost var h0 := c0;
    c0, c1 := SumAddFast(c0, c1, l[1]);
    c0, c1, c2 := MulAdd(c0, c1, c2, n1, NC0);
    c0, c1, c2 := MulAdd(c0, c1, c2, n0, NC1);
    m1 := c0;
    c0, c1, c2 := c1, c2, 0;
    ghost var h1 := c0 + W * c1;
    c0, c1, c2 := SumAdd(c0, c1, c2, l[2]);
    c0, c1, c2 := MulAdd(c0, c1, c2, n2, NC0);
    c0, c1, c2 := MulAdd(c0, c1, c2, n1, NC1);
    c0, c1, c2 := SumAdd(c0, c1, c2, n0);
    m2 := c0;
    c0, c1, c2 := c1, c2, 0;
    ghost var h2 := c0 + W * c1;
    c0, c1, c2 := SumAdd(c0, c1, c2, l[3]);
    c0, c1, c2 := MulAdd(c0, c1, c2, n3, NC0);
    c0, c1, c2 := MulAdd(c0, c1, c2, n2, NC1);
    c0, c1, c2 := SumAdd(c0, c1, c2, n1);
    m3 := c0;
    c0, c1, c2 := c1, c2, 0;
    ghost var h3 := c0 + W * c1;
    c0, c1, c2 := MulAdd(c0, c1, c2, n3, NC1);
    c0, c1, c2 := SumAdd(c0, c1, c2, n2);
    m4 := c0;
    c0, c1, c2 := c1, c2, 0;
    ghost var h4 := c0 + W * c1;
    c0, c1 := SumAddFast(c0, c1, n3);
    m5 := c0;
    c0, c1 := c1, 0;
    m6 := c0;
    FirstResult(l, m0, m1, m2, m3, m4, m5, h0, h1, h2, h3, h4, m6);
  }

  lemma FirstResult(l: seq<int>, m0: int, m1: int, m2: int, m3: int, m4: int, m5: int, h0: int, h1: int, h2: int, h3: int, h4: int, m6: int)
    requires Words8(l) && Word(m0) && Word(m1) && Word(m2) && Word(m3) && Word(m4) && Word(m5)
    requires l[0] + Prod(l[4], NC0) == m0 + W * h0
    requires h0 + (l[1] + Prod(l[5], NC0) + Prod(l[4], NC1)) == m1 + W * h1
    requires h1 + (l[2] + Prod(l[6], NC0) + Prod(l[5], NC1) + l[4]) == m2 + W * h2
    requires h2 + (l[3] + Prod(l[7], NC0) + Prod(l[6], NC1) + l[5]) == m3 + W * h3
    requires h3 + (Prod(l[7], NC1) + l[6]) == m4 + W * h4
    requires h4 + l[7] == m5 + W * m6
    ensures Sum4(m0, m1, m2, m3) + (m4 + m5 * W + m6 * W2) * W4 == Sum4(l[0], l[1], l[2], l[3]) + Sum4(l[4], l[5], l[6], l[7]) * NC
    ensures m4 + m5 * W + m6 * W2 <= NC && 0 <= m6 <= 1
  {
    hide Prod, Sum4, Sum8;
    FirstFold(l);
    Columns7(l[0] + Prod(l[4], NC0), l[1] + Prod(l[5], NC0) + Prod(l[4], NC1), l[2] + Prod(l[6], NC0) + Prod(l[5], NC1) + l[4],
             l[3] + Prod(l[7], NC0) + Prod(l[6], NC1) + l[5], Prod(l[7], NC1) + l[6], l[7], m0, m1, m2, m3, m4, m5, h0, h1, h2, h3, h4, m6);
    SumWords(m0, m1, m2, m3);
    SumWords(l[0], l[1], l[2], l[3]);
    SumWords(l[4], l[5], l[6], l[7]);
    FirstBound(Sum4(l[0], l[1], l[2], l[3]), Sum4(l[4], l[5], l[6], l[7]), Sum4(m0, m1, m2, m3), m4 + m5 * W + m6 * W2);
    TopWords(m4, m5, m6);
  }

  lemma SecondFold(m0: int, m1: int, m2: int, m3: int, m4: int, m5: int, m6: int)
    ensures (m0 + Prod(m4, NC0)) + (m1 + Prod(m5, NC0) + Prod(m4, NC1)) * W
      + (m2 + Prod(m6, NC0) + Prod(m5, NC1) + m4) * W2 + (m3 + Prod(m6, NC1) + m5) * W3 + m6 * W4
      == Sum4(m0, m1, m2, m3) + (m4 + m5 * W + m6 * W2) * NC
  {
  }

  lemma SecondBound(low: int, high: int, p: int, top: int)
    requires 0 <= low < W4 && 0 <= high <= NC && low + high * NC == p + top * W4 && 0 <= p < W4
    ensures 0 <= top <= 2
  {
  }

  lemma SmallProd(x: int, y: int)
    requires 0 <= x <= 1 && Word(y)
    ensures 0 <= Prod(x, y) < W
  {
  }

  /** p[0..4] := m[0..3] + m[4..6] (2^256 - N) */
  method Fold258(m0: int, m1: int, m2: int, m3: int, m4: int, m5: int, m6: int) returns (p0: int, p1: int, p2: int, p3: int, p4: int)
    requires Word(m0) && Word(m1) && Word(m2) && Word(m3) && Word(m4) && Word(m5) && 0 <= m6 <= 1
    requires m4 + m5 * W + m6 * W2 <= NC
    ensures Word(p0) && Word(p1) && Word(p2) && Word(p3) && 0 <= p4 <= 2
    ensures Sum4(p0, p1, p2, p3) + p4 * W4 == Sum4(m0, m1, m2, m3) + (m4 + m5 * W + m6 * W2) * NC
  {
    hide Prod, Sum4;
    var c0, c1, c2 := m0, 0, 0;
    ProdBound(m4, NC0);
    c0, c1 := MulAddFast(c0, c1, m4, NC0);
    p0 := c0;
    c0, c1 := c1, 0;
    ghost var h0 := c0;
    c0, c1 := SumAddFast(c0, c1, m1);
    c0, c1, c2 := MulAdd(c0, c1, c2, m5, NC0);
    c0, c1, c2 := MulAdd(c0, c1, c2, m4, NC1);
    p1 := c0;
    c0, c1, c2 := c1, c2, 0;
    ghost var h1 := c0 + W * c1;
    c0, c1, c2 := SumAdd(c0, c1, c2, m2);
    c0, c1, c2 := MulAdd(c0, c1, c2, m6, NC0);
    c0, c1, c2 := MulAdd(c0, c1, c2, m5, NC1);
    c0, c1, c2 := SumAdd(c0, c1, c2, m4);
    p2 := c0;
    c0, c1, c2 := c1, c2, 0;
    ghost var h2 := c0 + W * c1;
    SmallProd(m6, NC1);
    c0, c1 := SumAddFast(c0, c1, m3);
    c0, c1 := MulAddFast(c0, c1, m6, NC1);
    c0, c1 := SumAddFast(c0, c1, m5);
    p3 := c0;
    c0, c1 := c1, 0;
    ghost var h3 := c0;
    p4 := c0 + m6;
    SecondResult(m0, m1, m2, m3, m4, m5, m6, p0, p1, p2, p3, h0, h1, h2, h3);
  }

  lemma SecondResult(m0: int, m1: int, m2: int, m3: int, m4: int, m5: int, m6: int, p0: int, p1: int, p2: int, p3: int,
                     h0: int, h1: int, h2: int, h3: int)
    requires Word(m0) && Word(m1) && Word(m2) && Word(m3) && 0 <= m4 + m5 * W + m6 * W2 <= NC
    requires Word(p0) && Word(p1) && Word(p2) && Word(p3)
    requires m0 + Prod(m4, NC0) == p0 + W * h0
    requires h0 + (m1 + Prod(m5, NC0) + Prod(m4, NC1)) == p1 + W * h1
    requires h1 + (m2 + Prod(m6, NC0) + Prod(m5, NC1) + m4) == p2 + W * h2
    requires h2 + (m3 + Prod(m6, NC1) + m5) == p3 + W * h3
    ensures 0 <= h3 + m6 <= 2
    ensures Sum4(p0, p1, p2, p3) + (h3 + m6) * W4 == Sum4(m0, m1, m2, m3) + (m4 + m5 * W + m6 * W2) * NC
  {
    hide Prod, Sum4;
    SecondFold(m0, m1, m2, m3, m4, m5, m6);
    Columns4(m0 + Prod(m4, NC0), m1 + Prod(m5, NC0) + Prod(m4, NC1), m2 + Prod(m6, NC0) + Prod(m5, NC1) + m4,
             m3 + Prod(m6, NC1) + m5, m6, p0, p1, p2, p3, h0, h1, h2, h3);
    SumWords(p0, p1, p2, p3);
    SumWords(m0, m1, m2, m3);
    SecondBound(Sum4(m0, m1, m2, m3), m4 + m5 * W + m6 * W2, Sum4(p0, p1, p2, p3), h3 + m6);
  }

  lemma Columns4(s0: int, s1: int, s2: int, s3: int, s4: int, p0: int, p1: int, p2: int, p3: int, h0: int, h1: int, h2: int, h3: int)
    requires s0 == p0 + W * h0 && h0 + s1 == p1 + W * h1 && h1 + s2 == p2 + W * h2 && h2 + s3 == p3 + W * h3
    ensures s0 + s1 * W + s2 * W2 + s3 * W3 + s4 * W4 == Sum4(p0, p1, p2, p3) + (h3 + s4) * W4
  {
  }

  lemma LastFold(p0: int, p1: int, p2: int, p3: int, p4: int)
    ensures Sum4(p0 + NC0 * p4, p1 + NC1 * p4, p2 + p4, p3) == Sum4(p0, p1, p2, p3) + p4 * NC
  {
  }

  /** What is left after the last fold is below 2 N. */
  lemma LastBound(low: int, p4: int)
    requires 0 <= low < W4 && 0 <= p4 <= 2
    ensures 0 <= low + p4 * NC < 2 * N
  {
  }

  /** Replacing 2^256 by 2^256 - N keeps the residue. */
  lemma FoldKeeps(low: int, high: int)
    ensures Cong(low + high * NC, low + high * W4, N)
  {
  }

  /** d[0..3] := p[0..3] + p[4] (2^256 - N), with the carry out of 2^256 */
  method Fold256(p0: int, p1: int, p2: int, p3: int, p4: int) returns (d0: int, d1: int, d2: int, d3: int, t4: int)
    requires Word(p0) && Word(p1) && Word(p2) && Word(p3) && 0 <= p4 <= 2
    ensures Word(d0) && Word(d1) && Word(d2) && Word(d3) && t4 >= 0
    ensures Sum4(d0, d1, d2, d3) + t4 * W4 == Sum4(p0, p1, p2, p3) + p4 * NC
  {
    hide Sum4;
    var t1, t2, t3;
    d0, t1 := Extract(p0 + NC0 * p4);
    d1, t2 := Extract(t1 + (p1 + NC1 * p4));
    d2, t3 := Extract(t2 + (p2 + p4));
    d3, t4 := Extract(t3 + p3);
    Chain(p0 + NC0 * p4, p1 + NC1 * p4, p2 + p4, p3, d0, d1, d2, d3, t1, t2, t3, t4);
    LastFold(p0, p1, p2, p3, p4);
  }

  method Reduce512(r: array<int>, l: seq<int>)
    requires r.Length == 4 && Words8(l)
    modifies r
    ensures Limbs(r[..]) && Value(r[..]) == Sum8(l) % N
  {
    hide Sum4, Sum8, Cong;
    var m0, m1, m2, m3, m4, m5, m6 := Fold385(l);
    var p0, p1, p2, p3, p4 := Fold258(m0, m1, m2, m3, m4, m5, m6);
    var d0, d1, d2, d3, t4 := Fold256(p0, p1, p2, p3, p4);
    SumWords(d0, d1, d2, d3);
    SumWords(p0, p1, p2, p3);
    LastBound(Sum4(p0, p1, p2, p3), p4);
    StoreWords(r, d0, d1, d2, d3);
    var over := CheckOverflow(r[..]);
    ghost var v := Sum4(p0, p1, p2, p3) + p4 * NC;
    CarryOrOver(v, Sum4(d0, d1, d2, d3), t4, over);
    Reduce(r, t4 + over);
    ReduceOnce(v, t4 + over, Value(r[..]));
    Residues(l, m0, m1, m2, m3, m4 + m5 * W + m6 * W2, p0, p1, p2, p3, p4);
  }

  lemma Residues(l: seq<int>, m0: int, m1: int, m2: int, m3: int, mt: int, p0: int, p1: int, p2: int, p3: int, p4: int)
    requires |l| == 8
    requires Sum4(m0, m1, m2, m3) + mt * W4 == Sum4(l[0], l[1], l[2], l[3]) + Sum4(l[4], l[5], l[6], l[7]) * NC
    requires Sum4(p0, p1, p2, p3) + p4 * W4 == Sum4(m0, m1, m2, m3) + mt * NC
    ensures (Sum4(p0, p1, p2, p3) + p4 * NC) % N == Sum8(l) % N
  {
    hide Sum4, Sum8, Cong;
    FirstFold(l);
    var low, high, m, p := Sum4(l[0], l[1], l[2], l[3]), Sum4(l[4], l[5], l[6], l[7]), Sum4(m0, m1, m2, m3), Sum4(p0, p1, p2, p3);
    FoldKeeps(low, high);
    FoldKeeps(m, mt);
    FoldKeeps(p, p4);
    CongTrans(p + p4 * NC, p + p4 * W4, m + mt * W4, N);
    CongTrans(p + p4 * NC, low + high * NC, low + high * W4, N);
    CongSame(p + p4 * NC, low + high * W4);
  }

  lemma CongSame(x: int, y: int)
    requires Cong(x, y, N)
    ensures x % N == y % N
  {
  }

  /** r := a b modulo N */
  method Mul(r: array<int>, a: seq<int>, b: seq<int>)
    requires r.Length == 4 && Limbs(a) && Limbs(b)
    modifies r
    ensures Limbs(r[..]) && Value(r[..]) == (Value(a) * Value(b)) % N
  {
    hide Value, Sum8, Words8;
    var l := new int[8];
    Mul512(l, a, b);
    Reduce512(r, l[..]);
  }
}
