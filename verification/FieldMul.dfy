/** Field multiplication and squaring on five 52-bit limbs, with every accumulator bound. */
module FieldMul {
  import opened Integers

  const P: int := 0xFFFFFFFF_FFFFFFFF_FFFFFFFF_FFFFFFFF_FFFFFFFF_FFFFFFFF_FFFFFFFE_FFFFFC2F
  const R: int := 0x1000003D10
  const B48: int := 0x1_0000_0000_0000
  const B49: int := 0x2_0000_0000_0000
  const B52: int := 0x10_0000_0000_0000
  const B61: int := 2 * B60
  const B100: int := B48 * B52
  const B104: int := B52 * B52
  const B108: int := B56 * B52
  const B112: int := B56 * B56
  const B113: int := 2 * B112
  const B114: int := 4 * B112
  const B115: int := 8 * B112
  const B116: int := 16 * B112
  const B156: int := B104 * B52
  const B208: int := B104 * B104
  const B260: int := B208 * B52

  function Value(a: seq<int>): int
    requires |a| == 5
  {
    a[0] + a[1] * B52 + a[2] * B104 + a[3] * B156 + a[4] * B208
  }

  /** Limbs of magnitude 8 and below. */
  predicate Factor(a: seq<int>) {
    |a| == 5 && (forall i :: 0 <= i < 4 ==> 0 <= a[i] < B56) && 0 <= a[4] < B52
  }

  /** Limbs as a product comes out. */
  predicate Product(r: seq<int>) {
    |r| == 5 && (forall i :: 0 <= i < 4 ==> 0 <= r[i] < B52) && 0 <= r[4] <= B49 - 2
  }

  function Prod(x: int, y: int): int {
    x * y
  }

  lemma ProdBound(x: int, y: int, m: int, n: int)
    requires 0 <= x < m && 0 <= y < n
    ensures 0 <= Prod(x, y) < m * n
  {
  }

  /** The nine columns of a product. */
  datatype Columns = Columns(p0: int, p1: int, p2: int, p3: int, p4: int, p5: int, p6: int, p7: int, p8: int) {
    predicate Bounded() {
      && 0 <= p0 < B112 && 0 <= p1 < 2 * B112 && 0 <= p2 < 3 * B112 && 0 <= p3 < 4 * B112
      && 0 <= p4 < 3 * B112 + 2 * B108 && 0 <= p5 < 2 * B112 + 2 * B108 && 0 <= p6 < B112 + 2 * B108 && 0 <= p7 < 2 * B108
      && 0 <= p8 < B104
    }

    function Total(): int {
      p0 + p1 * B52 + p2 * B104 + p3 * B156 + p4 * B208
      + B260 * (p5 + p6 * B52 + p7 * B104 + p8 * B156)
    }
  }

  function Convolution(a: seq<int>, b: seq<int>): Columns
    requires |a| == |b| == 5
  {
    Columns(Prod(a[0], b[0]),
            Prod(a[0], b[1]) + Prod(a[1], b[0]),
            Prod(a[0], b[2]) + Prod(a[1], b[1]) + Prod(a[2], b[0]),
            Prod(a[0], b[3]) + Prod(a[1], b[2]) + Prod(a[2], b[1]) + Prod(a[3], b[0]),
            Prod(a[0], b[4]) + Prod(a[1], b[3]) + Prod(a[2], b[2]) + Prod(a[3], b[1]) + Prod(a[4], b[0]),
            Prod(a[1], b[4]) + Prod(a[2], b[3]) + Prod(a[3], b[2]) + Prod(a[4], b[1]),
            Prod(a[2], b[4]) + Prod(a[3], b[3]) + Prod(a[4], b[2]),
            Prod(a[3], b[4]) + Prod(a[4], b[3]),
            Prod(a[4], b[4]))
  }

  lemma ConvolutionBounds(a: seq<int>, b: seq<int>)
    requires Factor(a) && Factor(b)
    ensures Convolution(a, b).Bounded()
    ensures forall i, j :: 0 <= i < 5 && 0 <= j < 5 ==> Prod(a[i], b[j]) >= 0
  {
    hide Prod;
    forall i, j | 0 <= i < 5 && 0 <= j < 5
      ensures 0 <= Prod(a[i], b[j]) < (if i < 4 then B56 else B52) * (if j < 4 then B56 else B52)
    {
      ProdBound(a[i], b[j], if i < 4 then B56 else B52, if j < 4 then B56 else B52);
    }
  }

  lemma ConvolutionTotal(a: seq<int>, b: seq<int>)
    requires |a| == |b| == 5
    ensures Convolution(a, b).Total() == Value(a) * Value(b)
  {
    Expand(a[0], a[1], a[2], a[3], a[4], b);
  }

  lemma Expand(a0: int, a1: int, a2: int, a3: int, a4: int, b: seq<int>)
    requires |b| == 5
    ensures (a0 + a1 * B52 + a2 * B104 + a3 * B156 + a4 * B208) * Value(b)
      == Row(a0, b) + B52 * Row(a1, b) + B104 * Row(a2, b) + B156 * Row(a3, b) + B208 * Row(a4, b)
  {
  }

  function Row(x: int, b: seq<int>): int
    requires |b| == 5
  {
    Prod(x, b[0]) + B52 * Prod(x, b[1]) + B104 * Prod(x, b[2]) + B156 * Prod(x, b[3]) + B208 * Prod(x, b[4])
  }

  // ---------- the reduction ----------

  function Lo(x: int): int {
    x % B52
  }

  function Hi(x: int): int {
    x / B52
  }

  lemma Split(x: int)
    ensures x == Lo(x) + B52 * Hi(x) && 0 <= Lo(x) < B52
  {
  }

  lemma HiBound(x: int, b: int)
    requires 0 <= x < B52 * b
    ensures 0 <= Hi(x) < b
  {
  }

  /** The columns folded to five limbs: 2^260 counts as R, and 2^256 as R / 16. */
  datatype Folding = Folding(d3: int, d4: int, d5: int, u: int, c0: int, d6: int, c1: int, d7: int, c2: int, c3: int) {
    function Limbs(): (r: seq<int>)
      ensures |r| == 5
    {
      [Lo(c0), Lo(c1), Lo(c2), Lo(c3), Hi(c3) + Lo(d4) % B48]
    }

    /** How each accumulator comes from those before it. */
    predicate Of(p: Columns) {
      && d3 == p.p3 + Lo(p.p8) * R
      && d4 == Hi(d3) + p.p4 + Hi(p.p8) * R
      && d5 == Hi(d4) + p.p5
      && u == Lo(d5) * 16 + Lo(d4) / B48
      && c0 == p.p0 + u * (R / 16)
      && d6 == Hi(d5) + p.p6
      && c1 == Hi(c0) + p.p1 + Lo(d6) * R
      && d7 == Hi(d6) + p.p7
      && c2 == Hi(c1) + p.p2 + Lo(d7) * R
      && c3 == Hi(c2) + Hi(d7) * R + Lo(d3)
    }
  }

  lemma TopNibble(x: int)
    requires 0 <= x < B52
    ensures x == x % B48 + B48 * (x / B48) && 0 <= x % B48 < B48 && 0 <= x / B48 < 16
  {
  }

  /** The upper accumulators stay within their widths. */
  lemma HighBounds(p: Columns, f: Folding)
    requires p.Bounded() && f.Of(p)
    ensures 0 <= f.u < B56 && 0 <= f.d6 < B114 && 0 <= f.d7 < B114
    ensures 0 <= Lo(f.d3) < B52 && 0 <= Lo(f.d4) < B52 && 0 <= Lo(f.d6) < B52 && 0 <= Lo(f.d7) < B52 && 0 <= Hi(f.d7) < TWO62
  {
    hide Lo, Hi;
    Split(p.p8);
    HiBound(p.p8, B52);
    Split(f.d3);
    HiBound(f.d3, TWO63);
    Split(f.d4);
    HiBound(f.d4, TWO64);
    TopNibble(Lo(f.d4));
    Split(f.d5);
    HiBound(f.d5, TWO63);
    Split(f.d6);
    HiBound(f.d6, TWO62);
    Split(f.d7);
    HiBound(f.d7, TWO62);
  }

  /** Column bounds give the limb bounds. */
  lemma FoldBounds(p: Columns, f: Folding)
    requires p.Bounded() && f.Of(p)
    ensures Product(f.Limbs())
  {
    hide Lo, Hi;
    HighBounds(p, f);
    TopNibble(Lo(f.d4));
    Split(f.c0);
    HiBound(f.c0, B61);
    Split(f.c1);
    HiBound(f.c1, TWO63);
    Split(f.c2);
    HiBound(f.c2, TWO63);
    Split(f.c3);
    HiBound(f.c3, B48);
  }

  lemma Fold8(p: Columns, d3: int, l: int, h: int, d3l: int, d3h: int)
    requires p.p8 == l + B52 * h && d3 == p.p3 + l * R && d3 == d3l + B52 * d3h
    ensures p.Total() == 16 * (l * B156 + h * B208) * P
      + p.p0 + p.p1 * B52 + p.p2 * B104 + d3l * B156 + (d3h + p.p4 + h * R) * B208 + B260 * (p.p5 + p.p6 * B52 + p.p7 * B104)
  {
  }

  lemma Fold5(p5: int, d4: int, d5: int, t4: int, tx: int, d4h: int, d5l: int, d5h: int)
    requires d4 == t4 + B48 * tx + B52 * d4h && d5 == d4h + p5 && d5 == d5l + B52 * d5h
    ensures d4 * B208 + B260 * p5 == t4 * B208 + (d5l * 16 + tx) * (P + R / 16) + B260 * B52 * d5h
  {
  }

  /** One column of the high half against one of the low half. */
  lemma FoldOne(w: int, c: int, d: int, dl: int, dh: int)
    requires d == dl + B52 * dh
    ensures c * w + B260 * (w * d) == (c + dl * R) * w + 16 * (dl * w) * P + B260 * (B52 * (w * dh))
  {
  }

  lemma Regroup(w: int, c: int, dl: int, dh: int)
    ensures w * (dl + B52 * dh) == w * dl + B52 * (w * dh) && (c + dl * R) * w == c * w + R * (w * dl) && dl * w == w * dl
  {
  }

  function Multiple(p: Columns, f: Folding): int {
    f.u + 16 * (Lo(p.p8) * B156 + Hi(p.p8) * B208 + Lo(f.d6) * B52 + Lo(f.d7) * B104 + Hi(f.d7) * B156)
  }

  /** Folding keeps the residue. */
  lemma FoldResidue(p: Columns, f: Folding)
    requires f.Of(p)
    ensures Value(f.Limbs()) == p.Total() - Multiple(p, f) * P
    ensures Cong(Value(f.Limbs()), p.Total(), P)
  {
    FoldExact(p, f);
    CongIntro(Value(f.Limbs()), p.Total(), P, -Multiple(p, f));
  }

  lemma FoldExact(p: Columns, f: Folding)
    requires f.Of(p)
    ensures Value(f.Limbs()) == p.Total() - Multiple(p, f) * P
  {
    hide Lo, Hi;
    Split(p.p8);
    Split(f.d3);
    Split(f.d4);
    Split(f.d5);
    Split(f.d6);
    Split(f.d7);
    Split(f.c0);
    Split(f.c1);
    Split(f.c2);
    Split(f.c3);
    TopNibble(Lo(f.d4));
    Fold8(p, f.d3, Lo(p.p8), Hi(p.p8), Lo(f.d3), Hi(f.d3));
    Fold5(p.p5, f.d4, f.d5, Lo(f.d4) % B48, Lo(f.d4) / B48, Hi(f.d4), Lo(f.d5), Hi(f.d5));
    FoldOne(B52, Hi(f.c0) + p.p1, f.d6, Lo(f.d6), Hi(f.d6));
    FoldOne(B104, Hi(f.c1) + p.p2, f.d7, Lo(f.d7), Hi(f.d7));
    Compose(p, f, Lo(f.d4) % B48, Hi(f.d5), Hi(f.d6));
  }

  /** The steps above, put together. */
  lemma Compose(p: Columns, f: Folding, t4: int, d5h: int, d6h: int)
    requires p.Total() == 16 * (Lo(p.p8) * B156 + Hi(p.p8) * B208) * P
      + p.p0 + p.p1 * B52 + p.p2 * B104 + Lo(f.d3) * B156 + f.d4 * B208 + B260 * (p.p5 + p.p6 * B52 + p.p7 * B104)
    requires f.d4 * B208 + B260 * p.p5 == t4 * B208 + f.u * (P + R / 16) + B260 * B52 * d5h
    requires f.d6 == d5h + p.p6 && f.d7 == d6h + p.p7
    requires f.c0 == p.p0 + f.u * (R / 16) && f.c0 == Lo(f.c0) + B52 * Hi(f.c0)
    requires (Hi(f.c0) + p.p1) * B52 + B260 * (B52 * f.d6) == f.c1 * B52 + 16 * (Lo(f.d6) * B52) * P + B260 * (B52 * (B52 * d6h))
    requires f.c1 == Lo(f.c1) + B52 * Hi(f.c1)
    requires (Hi(f.c1) + p.p2) * B104 + B260 * (B104 * f.d7) == f.c2 * B104 + 16 * (Lo(f.d7) * B104) * P + B260 * (B52 * (B104 * Hi(f.d7)))
    requires f.c2 == Lo(f.c2) + B52 * Hi(f.c2)
    requires f.c3 == Hi(f.c2) + Hi(f.d7) * R + Lo(f.d3) && f.c3 == Lo(f.c3) + B52 * Hi(f.c3)
    requires t4 == Lo(f.d4) % B48
    ensures Value(f.Limbs()) == p.Total() - Multiple(p, f) * P
  {
    hide Lo, Hi;
  }

  // ---------- the two routines ----------

  /** r := a b; r may be a but not b */
  method FeMulInner(r: array<int>, a: array<int>, b: array<int>) returns (ghost f: Folding)
    requires r.Length == a.Length == b.Length == 5 && r != b && a != b && Factor(a[..]) && Factor(b[..])
    modifies r
    ensures f.Of(Convolution(old(a[..]), b[..])) && r[..] == f.Limbs()
    ensures Product(r[..]) && Cong(Value(r[..]), Value(old(a[..])) * Value(b[..]), P)
  {
    hide Prod, Lo, Hi, Value, Cong, Factor, Product;
    var a0, a1, a2, a3, a4 := a[0], a[1], a[2], a[3], a[4];
    ghost var p := Convolution(a[..], b[..]);
    ConvolutionBounds(a[..], b[..]);
    assert |a[..]| == |b[..]| == 5;
    var d := Prod(a0, b[3]) + Prod(a1, b[2]) + Prod(a2, b[1]) + Prod(a3, b[0]);
    assert 0 <= d < B114;
    var c := Prod(a4, b[4]);
    assert 0 <= c < B112;
    Split(c);
    HiBound(c, B60);
    d := d + Lo(c) * R;
    c := Hi(c);
    assert 0 <= d < B115 && 0 <= c < B60;
    ghost var d3 := d;
    Split(d);
    HiBound(d, TWO63);
    var t3 := Lo(d);
    d := Hi(d);
    d := d + Prod(a0, b[4]) + Prod(a1, b[3]) + Prod(a2, b[2]) + Prod(a3, b[1]) + Prod(a4, b[0]);
    assert d < B115;
    d := d + c * R;
    assert d < B116;
    ghost var d4 := d;
    Split(d);
    HiBound(d, TWO64);
    TopNibble(Lo(d));
    var t4 := Lo(d);
    d := Hi(d);
    var tx := t4 / B48;
    t4 := t4 % B48;
    c := Prod(a0, b[0]);
    assert 0 <= c < B112;
    d := d + Prod(a1, b[4]) + Prod(a2, b[3]) + Prod(a3, b[2]) + Prod(a4, b[1]);
    assert d < B115;
    ghost var d5 := d;
    Split(d);
    HiBound(d, TWO63);
    var u0 := Lo(d);
    d := Hi(d);
    u0 := u0 * 16 + tx;
    assert 0 <= u0 < B56;
    c := c + u0 * (R / 16);
    assert c < B115;
    ghost var c0 := c;
    Split(c);
    HiBound(c, B61);
    r[0] := Lo(c);
    c := Hi(c);
    c := c + Prod(a0, b[1]) + Prod(a1, b[0]);
    assert c < B114;
    d := d + Prod(a2, b[4]) + Prod(a3, b[3]) + Prod(a4, b[2]);
    assert d < B114;
    ghost var d6 := d;
    Split(d);
    HiBound(d, TWO62);
    c := c + Lo(d) * R;
    d := Hi(d);
    assert c < B115;
    ghost var c1 := c;
    Split(c);
    HiBound(c, TWO63);
    r[1] := Lo(c);
    c := Hi(c);
    c := c + Prod(a0, b[2]) + Prod(a1, b[1]) + Prod(a2, b[0]);
    assert c < B114;
    d := d + Prod(a3, b[4]) + Prod(a4, b[3]);
    assert d < B114;
    ghost var d7 := d;
    Split(d);
    HiBound(d, TWO62);
    c := c + Lo(d) * R;
    d := Hi(d);
    assert c < B115;
    ghost var c2 := c;
    Split(c);
    HiBound(c, TWO63);
    r[2] := Lo(c);
    c := Hi(c);
    c := c + d * R + t3;
    assert c < B100;
    ghost var c3 := c;
    Split(c);
    HiBound(c, B48);
    r[3] := Lo(c);
    c := Hi(c);
    c := c + t4;
    assert c < B49;
    r[4] := c;
    f := Folding(d3, d4, d5, u0, c0, d6, c1, d7, c2, c3);
    Conclude(old(a[..]), b[..], f);
    LimbsAre(r[..], f);
  }

  /** r := a^2; the doubled products are shared */
  method FeSqrInner(r: array<int>, a: array<int>) returns (ghost f: Folding)
    requires r.Length == a.Length == 5 && Factor(a[..])
    modifies r
    ensures f.Of(Convolution(old(a[..]), old(a[..]))) && r[..] == f.Limbs()
    ensures Product(r[..]) && Cong(Value(r[..]), Value(old(a[..])) * Value(old(a[..])), P)
  {
    hide Prod, Lo, Hi, Value, Cong, Factor, Product;
    var a0, a1, a2, a3, a4 := a[0], a[1], a[2], a[3], a[4];
    ghost var p := Convolution(a[..], a[..]);
    ConvolutionBounds(a[..], a[..]);
    SquareColumns(a[..]);
    var d := Prod(a0 * 2, a3) + Prod(a1 * 2, a2);
    assert 0 <= d < B114;
    var c := Prod(a4, a4);
    assert 0 <= c < B112;
    Split(c);
    HiBound(c, B60);
    d := d + Lo(c) * R;
    c := Hi(c);
    assert 0 <= d < B115 && 0 <= c < B60;
    ghost var d3 := d;
    Split(d);
    HiBound(d, TWO63);
    var t3 := Lo(d);
    d := Hi(d);
    a4 := a4 * 2;
    d := d + Prod(a0, a4) + Prod(a1 * 2, a3) + Prod(a2, a2);
    assert d < B115;
    d := d + c * R;
    assert d < B116;
    ghost var d4 := d;
    Split(d);
    HiBound(d, TWO64);
    TopNibble(Lo(d));
    var t4 := Lo(d);
    d := Hi(d);
    var tx := t4 / B48;
    t4 := t4 % B48;
    c := Prod(a0, a0);
    assert 0 <= c < B112;
    d := d + Prod(a1, a4) + Prod(a2 * 2, a3);
    assert d < B114;
    ghost var d5 := d;
    Split(d);
    HiBound(d, TWO62);
    var u0 := Lo(d);
    d := Hi(d);
    u0 := u0 * 16 + tx;
    assert 0 <= u0 < B56;
    c := c + u0 * (R / 16);
    assert c < B113;
    ghost var c0 := c;
    Split(c);
    HiBound(c, B61);
    r[0] := Lo(c);
    c := Hi(c);
    a0 := a0 * 2;
    c := c + Prod(a0, a1);
    assert c < B114;
    d := d + Prod(a2, a4) + Prod(a3, a3);
    assert d < B114;
    ghost var d6 := d;
    Split(d);
    HiBound(d, TWO62);
    c := c + Lo(d) * R;
    d := Hi(d);
    assert c < B115;
    ghost var c1 := c;
    Split(c);
    HiBound(c, TWO63);
    r[1] := Lo(c);
    c := Hi(c);
    c := c + Prod(a0, a2) + Prod(a1, a1);
    assert c < B114;
    d := d + Prod(a3, a4);
    assert d < B114;
    ghost var d7 := d;
    Split(d);
    HiBound(d, TWO62);
    c := c + Lo(d) * R;
    d := Hi(d);
    assert c < B115;
    ghost var c2 := c;
    Split(c);
    HiBound(c, TWO63);
    r[2] := Lo(c);
    c := Hi(c);
    c := c + d * R + t3;
    assert c < B100;
    ghost var c3 := c;
    Split(c);
    HiBound(c, B48);
    r[3] := Lo(c);
    c := Hi(c);
    c := c + t4;
    assert c < B49;
    r[4] := c;
    f := Folding(d3, d4, d5, u0, c0, d6, c1, d7, c2, c3);
    Conclude(old(a[..]), old(a[..]), f);
    LimbsAre(r[..], f);
  }

  lemma Conclude(a: seq<int>, b: seq<int>, f: Folding)
    requires Factor(a) && Factor(b) && f.Of(Convolution(a, b))
    ensures Product(f.Limbs()) && Cong(Value(f.Limbs()), Value(a) * Value(b), P)
  {
    hide Prod, Lo, Hi, Value, Cong;
    ConvolutionBounds(a, b);
    FoldBounds(Convolution(a, b), f);
    FoldResidue(Convolution(a, b), f);
    ConvolutionTotal(a, b);
  }

  lemma LimbsAre(s: seq<int>, f: Folding)
    requires |s| == 5 && s[0] == Lo(f.c0) && s[1] == Lo(f.c1) && s[2] == Lo(f.c2) && s[3] == Lo(f.c3)
    requires s[4] == Hi(f.c3) + Lo(f.d4) % B48
    ensures s == f.Limbs()
  {
  }

  /** The columns of a square, from doubled limbs; no doubling overflows. */
  lemma SquareColumns(a: seq<int>)
    requires Factor(a)
    ensures Convolution(a, a) == Columns(
        Prod(a[0], a[0]),
        Prod(a[0] * 2, a[1]),
        Prod(a[0] * 2, a[2]) + Prod(a[1], a[1]),
        Prod(a[0] * 2, a[3]) + Prod(a[1] * 2, a[2]),
        Prod(a[0], a[4] * 2) + Prod(a[1] * 2, a[3]) + Prod(a[2], a[2]),
        Prod(a[1], a[4] * 2) + Prod(a[2] * 2, a[3]),
        Prod(a[2], a[4] * 2) + Prod(a[3], a[3]),
        Prod(a[3], a[4] * 2),
        Prod(a[4], a[4]))
    ensures forall i :: 0 <= i < 5 ==> 0 <= a[i] * 2 < TWO64
  {
  }

  /** Folding is determined by the columns: squaring gives the very limbs of multiplying by itself. */
  lemma FoldingUnique(p: Columns, f: Folding, g: Folding)
    requires f.Of(p) && g.Of(p)
    ensures f.Limbs() == g.Limbs()
  {
    hide Lo, Hi;
    assert f == g;
  }
}
