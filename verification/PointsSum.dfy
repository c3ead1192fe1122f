/** The addition routines follow the chord and tangent law. */
module PointsSum {
  import opened Points
  import opened PointsAgree

  /** j stands for the affine point p. */
  ghost predicate Denotes(j: Jac, p: Aff) {
    && j.infinity == p.infinity
    && (!j.infinity ==> !Z0(j.z) && Eq(j.x, p.x * Sq(j.z)) && Eq(j.y, p.y * Cube(j.z)))
  }

  ghost predicate SameAffine(p: Aff, q: Aff) {
    p.infinity == q.infinity && (!p.infinity ==> Eq(p.x, q.x) && Eq(p.y, q.y))
  }

  /** s is on the line of slope dy / dx through p, reflected: the denominators are cleared. */
  ghost predicate OnLine(p: Aff, x2: int, dx: int, dy: int, s: Aff) {
    && !s.infinity
    && Z0((s.x + (p.x + x2)) * Sq(dx) - Sq(dy))
    && Z0((s.y + p.y) * dx - dy * (p.x - s.x))
  }

  /** The group law: neutral element, inverses, tangent and chord. */
  ghost predicate IsSum(p: Aff, q: Aff, s: Aff) {
    if p.infinity then SameAffine(s, q)
    else if q.infinity then SameAffine(s, p)
    else if Eq(p.x, q.x) && Z0(p.y + q.y) then s.infinity
    else if Eq(p.x, q.x) then OnLine(p, p.x, 2 * p.y, 3 * Sq(p.x), s)
    else OnLine(p, q.x, q.x - p.x, q.y - p.y, s)
  }

  lemma EqRefl(x: int)
    ensures Eq(x, x)
  {
    ZeroIsZero();
  }

  lemma EqSym(x: int, y: int)
    requires Eq(x, y)
    ensures Eq(y, x)
  {
    ZeroTimes(y - x, -1, x - y);
  }

  lemma EqSq(x: int, y: int)
    requires Eq(x, y)
    ensures Eq(Sq(x), Sq(y)) && Eq(Cube(x), Cube(y))
  {
    EqMul(x, y, x, y);
    EqMul(Sq(x), Sq(y), x, y);
  }

  lemma PowersNonzero(z: int)
    requires !Z0(z)
    ensures !Z0(Sq(z)) && !Z0(Cube(z)) && !Z0(Pow6(z))
  {
    NoZeroDivisors(z, z);
    NoZeroDivisors(Sq(z), z);
    NoZeroDivisors(Cube(z), Cube(z));
  }

  /** From scaled coordinates back to affine ones: the x coordinate of the sum. */
  lemma LineX(z: int, h: int, i: int, t: int, dx: int, dy: int, tt: int, x3: int, sx: int)
    requires !Z0(z) && x3 == Sq(i) - t * Sq(h)
    requires Eq(h, dx * Sq(z)) && Eq(i, dy * Cube(z)) && Eq(t, tt * Sq(z)) && Eq(x3, sx * Sq(z * h))
    ensures Z0((sx + tt) * Sq(dx) - Sq(dy))
  {
    hide Sq, Cube, Pow6, Z0, Eq;
    var h', i', t' := dx * Sq(z), dy * Cube(z), tt * Sq(z);
    var f, f' := sx * Sq(z) * Sq(h), sx * Sq(z) * Sq(h');
    var e, e' := Sq(i) - t * Sq(h), Sq(i') - t' * Sq(h');
    LineReplaced(z, h, i, t, h', i', t', sx);
    Powers(z, h);
    Regrouped(sx, Sq(z), Sq(h));
    FromEq(f, e, f', e', x3);
    LineXAlgebra(z, dx, dy, tt, sx);
    PowersNonzero(z);
    NoZeroDivisors(Pow6(z), (sx + tt) * Sq(dx) - Sq(dy));
  }

  lemma Regrouped(x: int, p: int, q: int)
    ensures x * (p * q) == x * p * q
  {
  }

  lemma FromEq(f: int, e: int, f': int, e': int, x3: int)
    requires Eq(x3, f) && x3 == e && Eq(f - e, f' - e')
    ensures Z0(f' - e')
  {
    ZeroTimes(f - e, -1, x3 - f);
    ZeroSame(f - e, f' - e');
  }

  /** Replacing h, i and t by congruent values. */
  lemma LineReplaced(z: int, h: int, i: int, t: int, h': int, i': int, t': int, sx: int)
    requires Eq(h, h') && Eq(i, i') && Eq(t, t')
    ensures Eq(sx * Sq(z) * Sq(h) - (Sq(i) - t * Sq(h)), sx * Sq(z) * Sq(h') - (Sq(i') - t' * Sq(h')))
  {
    hide Cube;
    EqSq(h, h');
    EqSq(i, i');
    EqMul(t, t', Sq(h), Sq(h'));
    EqRefl(sx * Sq(z));
    EqMul(sx * Sq(z), sx * Sq(z), Sq(h), Sq(h'));
    EqLinear(Sq(i), Sq(i'), t * Sq(h), t' * Sq(h'), 1, -1);
    EqLinear(sx * Sq(z) * Sq(h), sx * Sq(z) * Sq(h'), Sq(i) - t * Sq(h), Sq(i') - t' * Sq(h'), 1, -1);
  }

  lemma LineXAlgebra(z: int, dx: int, dy: int, tt: int, sx: int)
    ensures sx * Sq(z) * Sq(dx * Sq(z)) - (Sq(dy * Cube(z)) - (tt * Sq(z)) * Sq(dx * Sq(z)))
      == Pow6(z) * ((sx + tt) * Sq(dx) - Sq(dy))
  {
    hide Sq, Cube, Pow6;
    SixthPower(z);
    Powers(dx, Sq(z));
    Powers(dy, Cube(z));
    LineXCore(Sq(z), Sq(Sq(z)), Pow6(z), Sq(dx), Sq(dy), sx, tt);
  }

  lemma SixthPower(z: int)
    ensures Pow6(z) == Sq(z) * Sq(Sq(z)) && Sq(Cube(z)) == Pow6(z) && Sq(Sq(z)) == z * Cube(z)
  {
  }

  lemma LineXCore(q: int, qq: int, w: int, d: int, e: int, sx: int, tt: int)
    requires w == q * qq
    ensures sx * q * (d * qq) - (e * w - (tt * q) * (d * qq)) == w * ((sx + tt) * d - e)
  {
  }

  /** The y coordinate of the sum. */
  lemma LineY(z: int, h: int, i: int, dx: int, dy: int, u1: int, s1: int, px: int, py: int, x3: int, y3: int, sx: int, sy: int)
    requires !Z0(z) && !Z0(h) && y3 == i * (u1 * Sq(h) - x3) - s1 * Cube(h)
    requires Eq(h, dx * Sq(z)) && Eq(i, dy * Cube(z)) && Eq(u1, px * Sq(z)) && Eq(s1, py * Cube(z))
    requires Eq(x3, sx * Sq(z * h)) && Eq(y3, sy * Cube(z * h))
    ensures Z0((sy + py) * dx - dy * (px - sx))
  {
    hide Z0;
    var q, c := Sq(z), Cube(z);
    Powers(z, h);
    EqRefl(Sq(h));
    EqRefl(Cube(h));
    EqRefl(i);
    EqMul(u1, px * q, Sq(h), Sq(h));
    EqLinear(u1 * Sq(h), px * q * Sq(h), x3, sx * (q * Sq(h)), 1, -1);
    EqMul(i, i, u1 * Sq(h) - x3, px * q * Sq(h) - sx * (q * Sq(h)));
    EqMul(s1, py * c, Cube(h), Cube(h));
    EqLinear(i * (u1 * Sq(h) - x3), i * (px * q * Sq(h) - sx * (q * Sq(h))), s1 * Cube(h), py * c * Cube(h), 1, -1);
    EqSym(y3, i * (px * q * Sq(h) - sx * (q * Sq(h))) - py * c * Cube(h));
    EqTrans(i * (px * q * Sq(h) - sx * (q * Sq(h))) - py * c * Cube(h), y3, sy * (c * Cube(h)));
    LineYAlgebra(i, z, h, px, py, sx, sy);
    PowersNonzero(z);
    NoZeroDivisors(h, h);
    NoZeroDivisors(q, Sq(h));
    NoZeroDivisors(q * Sq(h), i * (px - sx) - (py + sy) * (z * h));
    LineYBack(z, h, i, dx, dy, px - sx, py + sy);
  }

  lemma LineYAlgebra(i: int, z: int, h: int, px: int, py: int, sx: int, sy: int)
    ensures (i * (px * Sq(z) * Sq(h) - sx * (Sq(z) * Sq(h))) - py * Cube(z) * Cube(h)) - sy * (Cube(z) * Cube(h))
      == (Sq(z) * Sq(h)) * (i * (px - sx) - (py + sy) * (z * h))
  {
    hide Sq, Cube;
    CubeParts(z);
    CubeParts(h);
    LineYCore(i, Sq(z), Sq(h), z, h, Cube(z), Cube(h), px, py, sx, sy);
  }

  lemma CubeParts(z: int)
    ensures Cube(z) == Sq(z) * z
  {
  }

  lemma LineYCore(i: int, q: int, r: int, z: int, h: int, c: int, k: int, px: int, py: int, sx: int, sy: int)
    requires c == q * z && k == r * h
    ensures (i * (px * q * r - sx * (q * r)) - py * c * k) - sy * (c * k) == (q * r) * (i * (px - sx) - (py + sy) * (z * h))
  {
    var w, v := q * r, z * h;
    assert px * q * r == px * w;
    assert c * k == w * v;
    assert py * c * k == py * (w * v);
    LineYFinal(i, w, v, px, py, sx, sy);
  }

  lemma LineYFinal(i: int, w: int, v: int, px: int, py: int, sx: int, sy: int)
    ensures (i * (px * w - sx * w) - py * (w * v)) - sy * (w * v) == w * (i * (px - sx) - (py + sy) * v)
  {
  }

  lemma LineYBack(z: int, h: int, i: int, dx: int, dy: int, d: int, s: int)
    requires !Z0(z) && Eq(h, dx * Sq(z)) && Eq(i, dy * Cube(z)) && Z0(i * d - s * (z * h))
    ensures Z0(s * dx - dy * d)
  {
    hide Z0;
    EqRefl(d);
    EqRefl(s * z);
    EqMul(i, dy * Cube(z), d, d);
    EqMul(s * z, s * z, h, dx * Sq(z));
    EqLinear(i * d, dy * Cube(z) * d, s * z * h, s * z * (dx * Sq(z)), 1, -1);
    assert s * z * h == s * (z * h);
    EqSym(i * d - s * z * h, dy * Cube(z) * d - s * z * (dx * Sq(z)));
    EqTrans(dy * Cube(z) * d - s * z * (dx * Sq(z)), i * d - s * z * h, 0);
    assert dy * Cube(z) * d - s * z * (dx * Sq(z)) == Cube(z) * (dy * d - s * dx) by {
      var c := Cube(z);
      assert s * z * (dx * Sq(z)) == c * (s * dx);
      assert dy * c * d == c * (dy * d);
    }
    PowersNonzero(z);
    NoZeroDivisors(Cube(z), dy * d - s * dx);
    ZeroTimes(s * dx - dy * d, -1, dy * d - s * dx);
  }

  // ---------- the branching addition is the group law ----------

  /** Scaled coordinates of both points, as multiples of the affine ones. */
  lemma ScaledIsAffine(a: Jac, p: Aff, b: Aff)
    requires Denotes(a, p) && !a.infinity
    ensures var s := Common(a, b);
      && Eq(s.H(), (b.x - p.x) * Sq(a.z)) && Eq(s.I(), (b.y - p.y) * Cube(a.z))
      && Eq(s.T(), (p.x + b.x) * Sq(a.z)) && Eq(s.M(), (p.y + b.y) * Cube(a.z))
  {
    hide Sq, Cube, Pow6, Eq, Z0;
    CubeParts(a.z);
    Regrouped(b.y, Sq(a.z), a.z);
    SumDiff(b.x, p.x, a.x, Sq(a.z));
    SumDiff(b.y, p.y, a.y, Cube(a.z));
  }

  lemma SumDiff(x: int, y: int, u: int, w: int)
    requires Eq(u, y * w)
    ensures Eq(x * w - u, (x - y) * w) && Eq(u + x * w, (y + x) * w)
  {
    assert (x * w - u) - (x - y) * w == -1 * (u - y * w);
    ZeroTimes((x * w - u) - (x - y) * w, -1, u - y * w);
    assert (u + x * w) - (y + x) * w == u - y * w;
  }

  /** Which case of the group law applies. */
  lemma SameCase(a: Jac, p: Aff, b: Aff)
    requires Denotes(a, p) && !a.infinity
    ensures var s := Common(a, b);
      && (Z0(s.H()) <==> Eq(p.x, b.x)) && (Z0(s.I()) <==> Eq(p.y, b.y)) && (Z0(s.M()) <==> Z0(p.y + b.y))
  {
    hide Z0, Sq, Cube;
    var s := Common(a, b);
    ScaledIsAffine(a, p, b);
    PowersNonzero(a.z);
    Factored(s.H(), b.x - p.x, Sq(a.z));
    Factored(s.I(), b.y - p.y, Cube(a.z));
    Factored(s.M(), p.y + b.y, Cube(a.z));
    Flip(p.x, b.x);
    Flip(p.y, b.y);
  }

  lemma Factored(x: int, d: int, w: int)
    requires !Z0(w) && Eq(x, d * w)
    ensures Z0(x) <==> Z0(d)
  {
    ZeroSame(x, d * w);
    NoZeroDivisors(d, w);
  }

  lemma Flip(x: int, y: int)
    ensures Z0(y - x) <==> Z0(x - y)
  {
    if Z0(y - x) {
      ZeroTimes(x - y, -1, y - x);
    }
    if Z0(x - y) {
      ZeroTimes(y - x, -1, x - y);
    }
  }

  /** Whatever affine point the result stands for, it is the sum of the two points. */
  lemma AddedIsSum(a: Jac, p: Aff, b: Aff, s: Aff)
    requires Denotes(a, p) && OnCurveJ(a) && OnCurve(b)
    requires Denotes(AddedVar(a, b), s)
    ensures IsSum(p, b, s)
  {
    if a.infinity {
      OneDenotes(b, s);
    } else if b.infinity {
      DenotedOnce(a, s, p);
    } else {
      SumFinite(a, p, b, s);
    }
  }

  lemma OneDenotes(b: Aff, s: Aff)
    requires Denotes(Jac(b.x, b.y, 1, b.infinity), s)
    ensures SameAffine(s, b)
  {
    if !b.infinity {
      EqSym(b.x, s.x);
      EqSym(b.y, s.y);
    }
  }

  /** A Jacobian point stands for one affine point only. */
  lemma DenotedOnce(a: Jac, p: Aff, q: Aff)
    requires Denotes(a, p) && Denotes(a, q)
    ensures SameAffine(p, q)
  {
    if !a.infinity {
      PowersNonzero(a.z);
      EqSym(a.x, p.x * Sq(a.z));
      EqTrans(p.x * Sq(a.z), a.x, q.x * Sq(a.z));
      EqSym(a.y, p.y * Cube(a.z));
      EqTrans(p.y * Cube(a.z), a.y, q.y * Cube(a.z));
      CancelFactor(p.x, q.x, Sq(a.z));
      CancelFactor(p.y, q.y, Cube(a.z));
    }
  }

  lemma CancelFactor(x: int, y: int, w: int)
    requires !Z0(w) && Eq(x * w, y * w)
    ensures Eq(x, y)
  {
    assert x * w - y * w == (x - y) * w;
    NoZeroDivisors(x - y, w);
  }

  lemma SumFinite(a: Jac, p: Aff, b: Aff, s: Aff)
    requires Denotes(a, p) && OnCurveJ(a) && OnCurve(b) && !a.infinity && !b.infinity
    requires Denotes(AddedVar(a, b), s)
    ensures IsSum(p, b, s)
  {
    hide Denotes, OnLine, AddedVar, ChordX, ChordY, IsSum;
    var c := Common(a, b);
    CommonOnCurves(a, b);
    SameCase(a, p, b);
    FiniteParts(a, p, b, s);
    if Z0(c.H()) && Z0(c.I()) {
      DoubleCase(c);
      TangentIsLine(a, p, s);
    } else if Z0(c.H()) {
      CancelCase(c);
    } else {
      ChordIsLine(a, p, b, s);
    }
    SumCases(p, b, s);
  }

  lemma SumCases(p: Aff, b: Aff, s: Aff)
    requires !p.infinity && !b.infinity
    requires Eq(p.x, b.x) && Z0(p.y + b.y) ==> s.infinity
    requires Eq(p.x, b.x) && !Z0(p.y + b.y) ==> OnLine(p, p.x, 2 * p.y, 3 * Sq(p.x), s)
    requires !Eq(p.x, b.x) ==> OnLine(p, b.x, b.x - p.x, b.y - p.y, s)
    ensures IsSum(p, b, s)
  {
  }

  lemma FiniteParts(a: Jac, p: Aff, b: Aff, s: Aff)
    requires Denotes(a, p) && !a.infinity && !b.infinity && Denotes(AddedVar(a, b), s)
    ensures var c := Common(a, b);
      && !p.infinity
      && (Z0(c.H()) && !Z0(c.I()) ==> s.infinity)
      && (Z0(c.H()) && Z0(c.I()) ==> Denotes(Doubled(a), s))
      && (!Z0(c.H()) ==> Denotes(Jac(ChordX(a.x, a.y, c.u2, c.s2), ChordY(a.x, a.y, c.u2, c.s2), a.z * c.H(), false), s))
  {
  }

  lemma ChordIsLine(a: Jac, p: Aff, b: Aff, s: Aff)
    requires Denotes(a, p) && !a.infinity && !b.infinity && !Z0(Common(a, b).H())
    requires var c := Common(a, b);
      Denotes(Jac(ChordX(a.x, a.y, c.u2, c.s2), ChordY(a.x, a.y, c.u2, c.s2), a.z * c.H(), false), s)
    ensures OnLine(p, b.x, b.x - p.x, b.y - p.y, s)
  {
    var c := Common(a, b);
    ScaledIsAffine(a, p, b);
    LineX(a.z, c.H(), c.I(), c.T(), b.x - p.x, b.y - p.y, p.x + b.x, ChordX(a.x, a.y, c.u2, c.s2), s.x);
    LineY(a.z, c.H(), c.I(), b.x - p.x, b.y - p.y, a.x, a.y, p.x, p.y,
          ChordX(a.x, a.y, c.u2, c.s2), ChordY(a.x, a.y, c.u2, c.s2), s.x, s.y);
  }

  /** Doubling in the form of a line: h = 2 y, i = 3 x^2 */
  lemma DoubledAsLine(x: int, y: int)
    ensures 9 * Sq(x) * Sq(x) - 8 * x * Sq(y) == Sq(3 * Sq(x)) - (2 * x) * Sq(2 * y)
    ensures 36 * Cube(x) * Sq(y) - 27 * Cube(x) * Cube(x) - 8 * Sq(y) * Sq(y)
      == 3 * Sq(x) * (x * Sq(2 * y) - (9 * Sq(x) * Sq(x) - 8 * x * Sq(y))) - y * Cube(2 * y)
  {
  }

  lemma TangentIsLine(a: Jac, p: Aff, s: Aff)
    requires Denotes(a, p) && OnCurveJ(a) && !a.infinity && Denotes(Doubled(a), s)
    ensures OnLine(p, p.x, 2 * p.y, 3 * Sq(p.x), s)
  {
    var q, c := Sq(a.z), Cube(a.z);
    var h, i, t := 2 * a.y, 3 * Sq(a.x), 2 * a.x;
    TwoIsUnit(a.y);
    DoubledAsLine(a.x, a.y);
    TwiceProduct2(a.z, a.y);
    // the slope on the scaled curve carries one factor z less than the chord's
    EqRefl(0);
    EqLinear(a.y, p.y * c, 0, 0, 2, 0);
    EqSq(a.x, p.x * q);
    EqLinear(Sq(a.x), Sq(p.x * q), 0, 0, 3, 0);
    EqLinear(a.x, p.x * q, 0, 0, 2, 0);
    TangentScale(p.x, p.y, a.z);
    TangentX(a.z, h, i, t, p, Doubled(a).x, s.x);
    TangentY(a.z, h, i, a.x, a.y, p, Doubled(a).x, Doubled(a).y, s.x, s.y);
  }

  lemma TangentScale(x: int, y: int, z: int)
    ensures (y * Cube(z)) * 2 + 0 * 0 == (2 * y) * Cube(z)
    ensures Sq(x * Sq(z)) * 3 + 0 * 0 == (3 * Sq(x)) * (Sq(z) * Sq(z))
    ensures (x * Sq(z)) * 2 + 0 * 0 == (2 * x) * Sq(z)
  {
  }

  /** As LineX, with slope numerator scaled by z^4 and denominator by z^3. */
  lemma TangentX(z: int, h: int, i: int, t: int, p: Aff, x3: int, sx: int)
    requires !Z0(z) && x3 == Sq(i) - t * Sq(h)
    requires Eq(h, (2 * p.y) * Cube(z)) && Eq(i, (3 * Sq(p.x)) * (Sq(z) * Sq(z))) && Eq(t, (2 * p.x) * Sq(z)) && Eq(x3, sx * Sq(z * h))
    ensures Z0((sx + (p.x + p.x)) * Sq(2 * p.y) - Sq(3 * Sq(p.x)))
  {
    hide Sq, Cube, Pow6, Z0, Eq;
    var q, c, dx, dy := Sq(z), Cube(z), 2 * p.y, 3 * Sq(p.x);
    var h', i', t' := dx * c, dy * (q * q), (2 * p.x) * q;
    var f, f' := sx * q * Sq(h), sx * q * Sq(h');
    var e, e' := Sq(i) - t * Sq(h), Sq(i') - t' * Sq(h');
    LineReplaced(z, h, i, t, h', i', t', sx);
    Powers(z, h);
    Regrouped(sx, q, Sq(h));
    FromEq(f, e, f', e', x3);
    TangentXAlgebra(z, dx, dy, 2 * p.x, sx);
    PowersNonzero(z);
    NoZeroDivisors(Pow6(z), q);
    NoZeroDivisors(Pow6(z) * q, (sx + 2 * p.x) * Sq(dx) - Sq(dy));
  }

  lemma TangentXAlgebra(z: int, dx: int, dy: int, tt: int, sx: int)
    ensures sx * Sq(z) * Sq(dx * Cube(z)) - (Sq(dy * (Sq(z) * Sq(z))) - (tt * Sq(z)) * Sq(dx * Cube(z)))
      == (Pow6(z) * Sq(z)) * ((sx + tt) * Sq(dx) - Sq(dy))
  {
    hide Sq, Cube, Pow6;
    SixthPower(z);
    SquareIs(Sq(z));
    SquareIs(Sq(Sq(z)));
    Powers(dx, Cube(z));
    Powers(dy, Sq(Sq(z)));
    TangentXCore(Sq(z), Sq(Sq(z)), Pow6(z), Sq(dx), Sq(dy), sx, tt);
  }

  lemma SquareIs(x: int)
    ensures Sq(x) == x * x
  {
  }

  lemma TangentXCore(q: int, qq: int, w: int, d: int, e: int, sx: int, tt: int)
    requires w == q * qq && qq == q * q
    ensures sx * q * (d * w) - (e * (qq * qq) - (tt * q) * (d * w)) == (w * q) * ((sx + tt) * d - e)
  {
  }

  lemma TangentY(z: int, h: int, i: int, u1: int, s1: int, p: Aff, x3: int, y3: int, sx: int, sy: int)
    requires !Z0(z) && !Z0(h) && y3 == i * (u1 * Sq(h) - x3) - s1 * Cube(h)
    requires Eq(h, (2 * p.y) * Cube(z)) && Eq(i, (3 * Sq(p.x)) * (Sq(z) * Sq(z))) && Eq(u1, p.x * Sq(z)) && Eq(s1, p.y * Cube(z))
    requires Eq(x3, sx * Sq(z * h)) && Eq(y3, sy * Cube(z * h))
    ensures Z0((sy + p.y) * (2 * p.y) - (3 * Sq(p.x)) * (p.x - sx))
  {
    hide Z0;
    var q, c := Sq(z), Cube(z);
    Powers(z, h);
    EqRefl(Sq(h));
    EqRefl(Cube(h));
    EqRefl(i);
    EqMul(u1, p.x * q, Sq(h), Sq(h));
    EqLinear(u1 * Sq(h), p.x * q * Sq(h), x3, sx * (q * Sq(h)), 1, -1);
    EqMul(i, i, u1 * Sq(h) - x3, p.x * q * Sq(h) - sx * (q * Sq(h)));
    EqMul(s1, p.y * c, Cube(h), Cube(h));
    EqLinear(i * (u1 * Sq(h) - x3), i * (p.x * q * Sq(h) - sx * (q * Sq(h))), s1 * Cube(h), p.y * c * Cube(h), 1, -1);
    EqSym(y3, i * (p.x * q * Sq(h) - sx * (q * Sq(h))) - p.y * c * Cube(h));
    EqTrans(i * (p.x * q * Sq(h) - sx * (q * Sq(h))) - p.y * c * Cube(h), y3, sy * (c * Cube(h)));
    LineYAlgebra(i, z, h, p.x, p.y, sx, sy);
    PowersNonzero(z);
    NoZeroDivisors(h, h);
    NoZeroDivisors(q, Sq(h));
    NoZeroDivisors(q * Sq(h), i * (p.x - sx) - (p.y + sy) * (z * h));
    TangentBack(z, h, i, 2 * p.y, 3 * Sq(p.x), p.x - sx, p.y + sy);
  }

  lemma TangentBack(z: int, h: int, i: int, dx: int, dy: int, d: int, s: int)
    requires !Z0(z) && Eq(h, dx * Cube(z)) && Eq(i, dy * (Sq(z) * Sq(z))) && Z0(i * d - s * (z * h))
    ensures Z0(s * dx - dy * d)
  {
    hide Z0;
    var w := Sq(z) * Sq(z);
    EqRefl(d);
    EqRefl(s * z);
    EqMul(i, dy * w, d, d);
    EqMul(s * z, s * z, h, dx * Cube(z));
    EqLinear(i * d, dy * w * d, s * z * h, s * z * (dx * Cube(z)), 1, -1);
    assert s * z * h == s * (z * h);
    EqSym(i * d - s * z * h, dy * w * d - s * z * (dx * Cube(z)));
    EqTrans(dy * w * d - s * z * (dx * Cube(z)), i * d - s * z * h, 0);
    assert dy * w * d - s * z * (dx * Cube(z)) == w * (dy * d - s * dx) by {
      assert z * Cube(z) == w;
      assert s * z * (dx * Cube(z)) == (z * Cube(z)) * (s * dx);
      assert dy * w * d == w * (dy * d);
    }
    PowersNonzero(z);
    NoZeroDivisors(Sq(z), Sq(z));
    NoZeroDivisors(w, dy * d - s * dx);
    ZeroTimes(s * dx - dy * d, -1, dy * d - s * dx);
  }

  /** The same point in other coordinates stands for the same affine point. */
  lemma DenotesSame(r: Jac, t: Jac, s: Aff)
    requires SamePoint(r, t) && Denotes(t, s)
    ensures Denotes(r, s)
  {
    if !r.infinity {
      PowersNonzero(t.z);
      CrossDenotes(r.x, t.x, s.x, Sq(r.z), Sq(t.z));
      CrossDenotes(r.y, t.y, s.y, Cube(r.z), Cube(t.z));
    }
  }

  lemma CrossDenotes(x: int, x': int, a: int, w: int, w': int)
    requires !Z0(w') && Z0(x * w' - x' * w) && Eq(x', a * w')
    ensures Eq(x, a * w)
  {
    EqRefl(w);
    EqMul(x', a * w', w, w);
    EqTrans(x * w', x' * w, a * w' * w);
    assert a * w' * w == (a * w) * w';
    CancelFactor(x, a * w, w');
  }

  /** The unified addition, too, is the group law. */
  lemma UnifiedIsSum(a: Jac, p: Aff, b: Aff, s: Aff)
    requires Denotes(a, p) && OnCurveJ(a) && OnCurve(b) && !b.infinity
    requires Denotes(AddedUnified(a, b), s)
    ensures IsSum(p, b, s)
  {
    AdditionsAgree(a, b);
    DenotesSame(AddedVar(a, b), AddedUnified(a, b), s);
    AddedIsSum(a, p, b, s);
  }

  // ---------- the endomorphism ----------

  const BETA: int := 0x7ae96a2b657c07106e64479eac3434e99cf0497512f58995c1396c28719501ee

  lemma BetaIsCubeRoot()
    ensures Eq(Cube(BETA), 1)
  {
    ZeroRemainder(Cube(BETA) - 1);
  }

  /** Multiplication of x by b; with BETA it is the endomorphism */
  function ScaleX(p: Aff, b: int): Aff {
    Aff(p.x * b, p.y, p.infinity)
  }

  lemma RootNonzero(b: int)
    requires Eq(Cube(b), 1)
    ensures !Z0(b)
  {
    SmallIsNotZero(1);
    if Z0(b) {
      ZeroTimes(Cube(b), b * b, b);
      ZeroSame(Cube(b), 1);
    }
  }

  lemma RootCancels(x: int, y: int, b: int)
    requires !Z0(b)
    ensures Eq(x * b, y * b) <==> Eq(x, y)
  {
    assert x * b - y * b == (x - y) * b;
    NoZeroDivisors(x - y, b);
  }

  /** Multiplying x by a cube root of 1 stays on the curve. */
  lemma ScaleXOnCurve(p: Aff, b: int)
    requires OnCurve(p) && Eq(Cube(b), 1)
    ensures OnCurve(ScaleX(p, b))
  {
    if !p.infinity {
      var x := p.x;
      CubeOfProduct(x, b);
      var old', new' := p.y * p.y - x * x * x - 7, p.y * p.y - (x * b) * (x * b) * (x * b) - 7;
      assert new' == 1 * old' + -Cube(x) * (Cube(b) - 1);
      ZeroCombine(new', 1, old', -Cube(x), Cube(b) - 1);
    }
  }

  lemma CubeOfProduct(x: int, b: int)
    ensures (x * b) * (x * b) * (x * b) == Cube(b) * Cube(x)
  {
  }

  /** Multiplying x by a cube root of 1 respects addition. */
  lemma ScaleXIsHomomorphism(p: Aff, q: Aff, s: Aff, b: int)
    requires IsSum(p, q, s) && Eq(Cube(b), 1)
    ensures IsSum(ScaleX(p, b), ScaleX(q, b), ScaleX(s, b))
  {
    hide OnLine, Z0;
    RootNonzero(b);
    RootCancels(p.x, q.x, b);
    RootCancels(s.x, q.x, b);
    RootCancels(s.x, p.x, b);
    if !p.infinity && !q.infinity {
      if !Eq(p.x, q.x) {
        ChordLambda(p, q.x, q.x - p.x, q.y - p.y, s, b);
        assert q.x * b - p.x * b == (q.x - p.x) * b;
      } else if !Z0(p.y + q.y) {
        TangentLambda(p, s, b);
      }
    }
  }

  /** A chord's slope is divided by b, ... */
  lemma ChordLambda(p: Aff, x2: int, dx: int, dy: int, s: Aff, b: int)
    requires OnLine(p, x2, dx, dy, s) && Eq(Cube(b), 1)
    ensures OnLine(ScaleX(p, b), x2 * b, dx * b, dy, ScaleX(s, b))
  {
    hide Sq, Cube, Z0, Eq;
    ChordX0(s.x, p.x, x2, dx, dy, b);
    ChordY0(s.y + p.y, dx, dy, p.x, s.x, b);
  }

  lemma ChordX0(sx: int, px: int, x2: int, dx: int, dy: int, b: int)
    requires Z0((sx + (px + x2)) * Sq(dx) - Sq(dy)) && Eq(Cube(b), 1)
    ensures Z0((sx * b + (px * b + x2 * b)) * Sq(dx * b) - Sq(dy))
  {
    hide Sq, Cube, Z0;
    var l := (sx + (px + x2)) * Sq(dx);
    ChordLambdaX(sx, px, x2, dx, b);
    ZeroCombine(l * Cube(b) - Sq(dy), 1, l - Sq(dy), l, Cube(b) - 1);
  }

  lemma ChordY0(s: int, dx: int, dy: int, px: int, sx: int, b: int)
    requires Z0(s * dx - dy * (px - sx))
    ensures Z0(s * (dx * b) - dy * (px * b - sx * b))
  {
    hide Z0;
    ChordLambdaY(s, dx, dy, px, sx, b);
    ZeroTimes(s * (dx * b) - dy * (px * b - sx * b), b, s * dx - dy * (px - sx));
  }

  lemma ChordLambdaX(sx: int, px: int, x2: int, dx: int, b: int)
    ensures (sx * b + (px * b + x2 * b)) * Sq(dx * b) == ((sx + (px + x2)) * Sq(dx)) * Cube(b)
  {
    Powers(dx, b);
    var t := sx + (px + x2);
    assert sx * b + (px * b + x2 * b) == t * b;
    assert (t * b) * (Sq(dx) * (b * b)) == (t * Sq(dx)) * (b * b * b);
  }

  lemma ChordLambdaY(s: int, dx: int, dy: int, px: int, sx: int, b: int)
    ensures s * (dx * b) - dy * (px * b - sx * b) == b * (s * dx - dy * (px - sx))
  {
  }

  /** ... and so is a tangent's. */
  lemma TangentLambda(p: Aff, s: Aff, b: int)
    requires OnLine(p, p.x, 2 * p.y, 3 * Sq(p.x), s) && Eq(Cube(b), 1)
    ensures OnLine(ScaleX(p, b), p.x * b, 2 * p.y, 3 * Sq(p.x * b), ScaleX(s, b))
  {
    hide Sq, Cube, Z0, Eq;
    TangentX0(s.x, p.x, Sq(2 * p.y), b);
    TangentY0((s.y + p.y) * (2 * p.y), p.x, s.x, b);
  }

  lemma TangentX0(sx: int, px: int, w: int, b: int)
    requires Z0((sx + (px + px)) * w - Sq(3 * Sq(px))) && Eq(Cube(b), 1)
    ensures Z0((sx * b + (px * b + px * b)) * w - Sq(3 * Sq(px * b)))
  {
    hide Sq, Cube, Z0;
    var l, m := (sx + (px + px)) * w, Sq(3 * Sq(px));
    TangentLambdaX(sx, px, w, b);
    LessMultiple(l, m, b, Cube(b));
    ZeroCombine(b * (l - m * Cube(b)), b, l - m, -(b * m), Cube(b) - 1);
  }

  lemma LessMultiple(l: int, m: int, b: int, c: int)
    ensures b * (l - m * c) == b * (l - m) + -(b * m) * (c - 1)
  {
  }

  lemma TangentY0(n: int, px: int, sx: int, b: int)
    requires Z0(n - 3 * Sq(px) * (px - sx)) && Eq(Cube(b), 1)
    ensures Z0(n - 3 * Sq(px * b) * (px * b - sx * b))
  {
    hide Sq, Cube, Z0;
    var d := 3 * Sq(px) * (px - sx);
    TangentLambdaY(px, sx, b);
    ZeroCombine(n - d * Cube(b), 1, n - d, -d, Cube(b) - 1);
  }

  lemma TangentLambdaX(sx: int, px: int, w: int, b: int)
    ensures (sx * b + (px * b + px * b)) * w - Sq(3 * Sq(px * b)) == b * ((sx + (px + px)) * w - Sq(3 * Sq(px)) * Cube(b))
  {
  }

  lemma TangentLambdaY(px: int, sx: int, b: int)
    ensures 3 * Sq(px * b) * (px * b - sx * b) == 3 * Sq(px) * (px - sx) * Cube(b)
  {
    Powers(px, b);
    var q, d := Sq(px), px - sx;
    assert px * b - sx * b == d * b;
    assert 3 * (q * (b * b)) * (d * b) == 3 * q * d * (b * b * b);
  }
}
