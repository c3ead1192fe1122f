/** The unified and the branching addition denote the same point, and that point is the sum on the curve. */
module PointsAgree {
  import opened Points

  /** The quantities both additions start from. */
  datatype Scaled = Scaled(u1: int, s1: int, u2: int, s2: int, c: int) {
    function H(): int { u2 - u1 }
    function I(): int { s2 - s1 }
    function T(): int { u1 + u2 }
    function M(): int { s1 + s2 }
    function Rr(): int { (u1 + u2) * (u1 + u2) - u1 * u2 }

    ghost predicate OnCurves() {
      Z0(s1 * s1 - u1 * u1 * u1 - c) && Z0(s2 * s2 - u2 * u2 * u2 - c) && !Z0(s1)
    }
  }

  function Common(a: Jac, b: Aff): Scaled {
    Scaled(a.x, a.y, b.x * Sq(a.z), b.y * Sq(a.z) * a.z, 7 * Pow6(a.z))
  }

  lemma CommonOnCurves(a: Jac, b: Aff)
    requires OnCurveJ(a) && !a.infinity && OnCurve(b) && !b.infinity
    ensures Common(a, b).OnCurves()
  {
    ScaledCurve(b, a.z);
  }

  lemma Key(s: Scaled)
    requires s.OnCurves()
    ensures Z0(s.I() * s.M() - s.H() * s.Rr())
  {
    KeyRelation(s.u1, s.s1, s.u2, s.s2, s.c);
  }

  // ---------- which case applies ----------

  /** Different x: the denominator m vanishes only together with the numerator. */
  lemma ChordCase(s: Scaled)
    requires s.OnCurves() && !Z0(s.H())
    ensures Z0(s.M()) ==> Z0(s.Rr())
  {
    Key(s);
    if Z0(s.M()) {
      ZeroCombine(s.H() * s.Rr(), s.I(), s.M(), -1, s.I() * s.M() - s.H() * s.Rr());
      NoZeroDivisors(s.H(), s.Rr());
    }
  }

  /** Equal points: m is twice y, which is not zero. */
  lemma DoubleCase(s: Scaled)
    requires s.OnCurves() && Z0(s.H()) && Z0(s.I())
    ensures !Z0(s.M())
  {
    TwoIsUnit(s.s1);
    ZeroSame(s.M(), 2 * s.s1);
  }

  /** Opposite points: m vanishes, and so does the alternative denominator. */
  lemma CancelCase(s: Scaled)
    requires s.OnCurves() && Z0(s.H()) && !Z0(s.I())
    ensures Z0(s.M()) && Z0(s.u1 - s.u2)
  {
    Key(s);
    ZeroCombine(s.I() * s.M(), s.Rr(), s.H(), 1, s.I() * s.M() - s.H() * s.Rr());
    NoZeroDivisors(s.I(), s.M());
    ZeroTimes(s.u1 - s.u2, -1, s.H());
  }

  // ---------- the chord ----------

  /** The regular chord: slopes i / h and rr / m. */
  lemma RegularChord(s: Scaled)
    requires s.OnCurves()
    ensures Z0(ChordX(s.u1, s.s1, s.u2, s.s2) * Sq(2 * s.M()) - UnifiedX(s.Rr(), s.M(), s.T()) * Sq(s.H()))
    ensures Z0(ChordY(s.u1, s.s1, s.u2, s.s2) * Cube(2 * s.M()) - UnifiedY(s.Rr(), s.M(), s.T(), Sq(s.M()) * Sq(s.M())) * Cube(s.H()))
  {
    hide UnifiedX, UnifiedY;
    Key(s);
    SlopeX(s.I(), s.H(), s.Rr(), s.M(), s.T());
    TwiceChordY(s.u1, s.s1, s.u2, s.s2);
    SlopeY(s.I(), s.H(), s.Rr(), s.M(), s.T(), ChordY(s.u1, s.s1, s.u2, s.s2));
  }

  /** The degenerate chord: y1 = -y2, and the slope 2 y1 / (x1 - x2) is that of the chord. */
  lemma DegenerateChord(s: Scaled)
    requires s.OnCurves() && Z0(s.M())
    ensures Z0(ChordX(s.u1, s.s1, s.u2, s.s2) * Sq(2 * (s.u1 - s.u2)) - UnifiedX(2 * s.s1, s.u1 - s.u2, s.T()) * Sq(s.H()))
    ensures Z0(ChordY(s.u1, s.s1, s.u2, s.s2) * Cube(2 * (s.u1 - s.u2)) - UnifiedY(2 * s.s1, s.u1 - s.u2, s.T(), s.M()) * Cube(s.H()))
  {
    TwiceChordY(s.u1, s.s1, s.u2, s.s2);
    DegenerateX(s.s1, s.s2, s.H(), s.T());
    ZeroTimes(ChordX(s.u1, s.s1, s.u2, s.s2) * Sq(2 * (s.u1 - s.u2)) - UnifiedX(2 * s.s1, s.u1 - s.u2, s.T()) * Sq(s.H()),
              4 * Sq(s.H()) * (s.s2 - 3 * s.s1), s.M());
    DegenerateY(s.s1, s.s2, s.H(), s.T(), ChordY(s.u1, s.s1, s.u2, s.s2));
    ZeroTimes(ChordY(s.u1, s.s1, s.u2, s.s2) * Cube(2 * (s.u1 - s.u2)) - UnifiedY(2 * s.s1, s.u1 - s.u2, s.T(), s.M()) * Cube(s.H()),
              DegenerateFactor(s.s1, s.s2, s.H(), s.T()), s.M());
  }

  lemma DegenerateX(s1: int, s2: int, h: int, t: int)
    ensures (Sq(s2 - s1) - t * Sq(h)) * Sq(2 * -h) - UnifiedX(2 * s1, -h, t) * Sq(h) == (4 * Sq(h) * (s2 - 3 * s1)) * (s1 + s2)
  {
  }

  function DegenerateFactor(s1: int, s2: int, h: int, t: int): int {
    4 * Cube(h) * (1 + Cube(h) - 3 * t * Sq(h) + 2 * (Sq(s2 - s1) - (s2 - s1) * (2 * s1) + Sq(2 * s1)))
  }

  /** With i = s2 - s1 and j = -2 s1, both slopes against h, up to multiples of s1 + s2 = i - j. */
  lemma DegenerateY(s1: int, s2: int, h: int, t: int, y: int)
    requires 2 * y == (s2 - s1) * (t * Sq(h) - 2 * (Sq(s2 - s1) - t * Sq(h))) - (s1 + s2) * Cube(h)
    ensures y * Cube(2 * -h) - UnifiedY(2 * s1, -h, t, s1 + s2) * Cube(h) == DegenerateFactor(s1, s2, h, t) * (s1 + s2)
  {
    var i, j, m, w := s2 - s1, 2 * s1, s1 + s2, Cube(h);
    var q := t * Sq(h);
    assert Sq(-h) == Sq(h);
    MinusTwiceCube(h);
    assert y * (-8 * w) == -4 * ((2 * y) * w);
    CubeIs(i, q);
    CubeIs(j, q);
    assert y * Cube(2 * -h) == -4 * ((3 * q * i - 2 * Cube(i) - m * w) * w);
    assert UnifiedY(j, -h, t, m) == 4 * ((3 * q * j - 2 * Cube(j)) - m);
    SumOfCubes(i, j);
    assert i + j == m;
    Join(i, j, q, m, w, Cube(i) + Cube(j));
  }

  lemma MinusTwiceCube(h: int)
    ensures Cube(2 * -h) == -8 * Cube(h)
  {
  }

  lemma CubeIs(i: int, q: int)
    ensures i * (q - 2 * (Sq(i) - q)) == 3 * q * i - 2 * Cube(i)
  {
  }

  lemma SumOfCubes(i: int, j: int)
    ensures Cube(i) + Cube(j) == (Sq(i) - i * j + Sq(j)) * (i + j)
  {
  }

  lemma Join(i: int, j: int, q: int, m: int, w: int, cubes: int)
    requires i + j == m && cubes == Cube(i) + Cube(j) && cubes == (Sq(i) - i * j + Sq(j)) * m
    ensures -4 * ((3 * q * i - 2 * Cube(i) - m * w) * w) - (4 * ((3 * q * j - 2 * Cube(j)) - m)) * w
      == (4 * w * (1 + w - 3 * q + 2 * (Sq(i) - i * j + Sq(j)))) * m
  {
    var ci, cj := Cube(i), Cube(j);
    assert 3 * q * i + 3 * q * j == 3 * q * m;
    assert -4 * ((3 * q * i - 2 * ci - m * w) * w) - (4 * ((3 * q * j - 2 * cj) - m)) * w
        == 4 * w * (-(3 * q * i + 3 * q * j) + 2 * (ci + cj) + m * w + m);
    var e := Sq(i) - i * j + Sq(j);
    assert 4 * w * (-(3 * q * m) + 2 * (e * m) + m * w + m) == (4 * w * (1 + w - 3 * q + 2 * e)) * m;
  }

  // ---------- doubling ----------

  /** Doubling against the unified formula at equal points. */
  lemma DoubleAgrees(x: int, y: int)
    ensures (9 * Sq(x) * Sq(x) - 8 * x * Sq(y)) * Sq(2 * (2 * y)) == UnifiedX(3 * Sq(x), 2 * y, 2 * x) * Sq(2 * y)
    ensures (36 * Cube(x) * Sq(y) - 27 * Cube(x) * Cube(x) - 8 * Sq(y) * Sq(y)) * Cube(2 * (2 * y))
      == UnifiedY(3 * Sq(x), 2 * y, 2 * x, Sq(2 * y) * Sq(2 * y)) * Cube(2 * y)
  {
  }

  ghost predicate Eq(x: int, y: int) {
    Z0(x - y)
  }

  lemma EqMul(a: int, b: int, c: int, d: int)
    requires Eq(a, b) && Eq(c, d)
    ensures Eq(a * c, b * d)
  {
    ProductDifference(a, b, c, d);
    ZeroCombine(a * c - b * d, c, a - b, b, c - d);
  }

  lemma ProductDifference(a: int, b: int, c: int, d: int)
    ensures a * c - b * d == c * (a - b) + b * (c - d)
  {
  }

  /** a k + c l modulo p */
  lemma EqLinear(a: int, b: int, c: int, d: int, k: int, l: int)
    requires Eq(a, b) && Eq(c, d)
    ensures Eq(a * k + c * l, b * k + d * l)
  {
    assert (a * k + c * l) - (b * k + d * l) == k * (a - b) + l * (c - d);
    ZeroCombine((a * k + c * l) - (b * k + d * l), k, a - b, l, c - d);
  }

  lemma EqTrans(a: int, b: int, c: int)
    requires Eq(a, b) && Eq(b, c)
    ensures Eq(a, c)
  {
    ZeroCombine(a - c, 1, a - b, 1, b - c);
  }

  /** The unified formula depends on its inputs modulo p only. */
  lemma UnifiedEq(rr: int, m: int, t: int, rr': int, m': int, t': int)
    requires Eq(rr, rr') && Eq(m, m') && Eq(t, t')
    ensures Eq(UnifiedX(rr, m, t), UnifiedX(rr', m', t'))
    ensures Eq(UnifiedY(rr, m, t, Sq(m) * Sq(m)), UnifiedY(rr', m', t', Sq(m') * Sq(m')))
  {
    EqMul(rr, rr', rr, rr');
    EqMul(m, m', m, m');
    EqMul(t, t', Sq(m), Sq(m'));
    EqMul(Sq(m), Sq(m'), Sq(m), Sq(m'));
    EqLinear(Sq(rr), Sq(rr'), t * Sq(m), t' * Sq(m'), 4, -4);
    EqLinear(t * Sq(m), t' * Sq(m'), Sq(rr), Sq(rr'), 3, -2);
    var e, e' := (t * Sq(m)) * 3 + Sq(rr) * -2, (t' * Sq(m')) * 3 + Sq(rr') * -2;
    EqMul(rr, rr', e, e');
    EqLinear(rr * e, rr' * e', Sq(m) * Sq(m), Sq(m') * Sq(m'), 4, -4);
    UnifiedForms(rr, m, t, e);
    UnifiedForms(rr', m', t', e');
  }

  lemma UnifiedForms(rr: int, m: int, t: int, e: int)
    requires e == (t * Sq(m)) * 3 + Sq(rr) * -2
    ensures UnifiedX(rr, m, t) == Sq(rr) * 4 + (t * Sq(m)) * -4
    ensures UnifiedY(rr, m, t, Sq(m) * Sq(m)) == (rr * e) * 4 + (Sq(m) * Sq(m)) * -4
  {
  }

  /** Equal points modulo p: m, rr and t are those of the doubling. */
  lemma EqualInputs(s: Scaled)
    requires Z0(s.H()) && Z0(s.I())
    ensures Eq(s.M(), 2 * s.s1) && Eq(s.Rr(), 3 * Sq(s.u1)) && Eq(s.T(), 2 * s.u1)
  {
    assert s.M() - 2 * s.s1 == s.I() && s.T() - 2 * s.u1 == s.H();
    RrAtDouble(s.u1, s.H());
    ZeroTimes(s.Rr() - 3 * Sq(s.u1), 3 * s.u1 + s.H(), s.H());
  }

  lemma RrAtDouble(u: int, h: int)
    ensures (u + (u + h)) * (u + (u + h)) - u * (u + h) - 3 * Sq(u) == (3 * u + h) * h
  {
  }

  /** The doubled point against the unified result for congruent inputs. */
  lemma DoubleCross(s: Scaled, dx: int, dy: int)
    requires Z0(s.H()) && Z0(s.I())
    requires dx == 9 * Sq(s.u1) * Sq(s.u1) - 8 * s.u1 * Sq(s.s1)
    requires dy == 36 * Cube(s.u1) * Sq(s.s1) - 27 * Cube(s.u1) * Cube(s.u1) - 8 * Sq(s.s1) * Sq(s.s1)
    ensures Z0(dx * Sq(2 * s.M()) - UnifiedX(s.Rr(), s.M(), s.T()) * Sq(2 * s.s1))
    ensures Z0(dy * Cube(2 * s.M()) - UnifiedY(s.Rr(), s.M(), s.T(), Sq(s.M()) * Sq(s.M())) * Cube(2 * s.s1))
  {
    var m', rr', t' := 2 * s.s1, 3 * Sq(s.u1), 2 * s.u1;
    EqualInputs(s);
    UnifiedEq(s.Rr(), s.M(), s.T(), rr', m', t');
    DoubleAgrees(s.u1, s.s1);
    EqPowers(s.M(), m');
    CrossEq(dx, UnifiedX(s.Rr(), s.M(), s.T()), UnifiedX(rr', m', t'), Sq(2 * s.M()), Sq(2 * m'), Sq(m'));
    CrossEq(dy, UnifiedY(s.Rr(), s.M(), s.T(), Sq(s.M()) * Sq(s.M())), UnifiedY(rr', m', t', Sq(m') * Sq(m')), Cube(2 * s.M()), Cube(2 * m'), Cube(m'));
  }

  lemma EqPowers(m: int, m': int)
    requires Eq(m, m')
    ensures Eq(Sq(2 * m), Sq(2 * m')) && Eq(Cube(2 * m), Cube(2 * m'))
  {
    EqLinear(m, m', m, m', 2, 0);
    EqMul(2 * m, 2 * m', 2 * m, 2 * m');
    EqMul(Sq(2 * m), Sq(2 * m'), 2 * m, 2 * m');
  }

  /** d k' == x' k, with x and k replaced by congruent values. */
  lemma CrossEq(d: int, x: int, x': int, k: int, k': int, l: int)
    requires Eq(x, x') && Eq(k, k') && d * k' == x' * l
    ensures Z0(d * k - x * l)
  {
    CrossAlgebra(d, x, x', k, k', l);
    ZeroCombine(d * k - x * l, d, k - k', -l, x - x');
  }

  lemma CrossAlgebra(d: int, x: int, x': int, k: int, k': int, l: int)
    requires d * k' == x' * l
    ensures d * k - x * l == d * (k - k') + -l * (x - x')
  {
  }

  // ---------- the comparison ----------

  /** Scaling both denominators by the same z keeps the comparison. */
  lemma ScaleDenominators(z: int, k1: int, k2: int, x1: int, x2: int, y1: int, y2: int)
    requires Z0(x1 * Sq(k2) - x2 * Sq(k1)) && Z0(y1 * Cube(k2) - y2 * Cube(k1))
    ensures Z0(x1 * Sq(z * k2) - x2 * Sq(z * k1)) && Z0(y1 * Cube(z * k2) - y2 * Cube(z * k1))
  {
    Powers(z, k1);
    Powers(z, k2);
    Factor(x1, x2, Sq(k2), Sq(k1), Sq(z));
    Factor(y1, y2, Cube(k2), Cube(k1), Cube(z));
    ZeroTimes(x1 * Sq(z * k2) - x2 * Sq(z * k1), Sq(z), x1 * Sq(k2) - x2 * Sq(k1));
    ZeroTimes(y1 * Cube(z * k2) - y2 * Cube(z * k1), Cube(z), y1 * Cube(k2) - y2 * Cube(k1));
  }

  lemma Powers(z: int, k: int)
    ensures Sq(z * k) == Sq(z) * Sq(k) && Cube(z * k) == Cube(z) * Cube(k)
  {
  }

  lemma Factor(x1: int, x2: int, p: int, q: int, w: int)
    ensures x1 * (w * p) - x2 * (w * q) == w * (x1 * p - x2 * q)
  {
  }

  /** Two finite results with denominators z k1 and z k2. */
  lemma SameFromCross(r1: Jac, r2: Jac, z: int, k1: int, k2: int)
    requires !r1.infinity && !r2.infinity && r1.z == z * k1 && r2.z == z * k2
    requires !Z0(z) && !Z0(k1) && !Z0(k2)
    requires Z0(r1.x * Sq(k2) - r2.x * Sq(k1)) && Z0(r1.y * Cube(k2) - r2.y * Cube(k1))
    ensures SamePoint(r1, r2)
  {
    NoZeroDivisors(z, k1);
    NoZeroDivisors(z, k2);
    ScaleDenominators(z, k1, k2, r1.x, r2.x, r1.y, r2.y);
  }

  /**
   * For every point a of the curve (or infinity) and every finite point b, equal, opposite or with opposite y included, the
   * unified addition denotes the same point as the branching one.
   */
  lemma AdditionsAgree(a: Jac, b: Aff)
    requires OnCurveJ(a) && OnCurve(b) && !b.infinity
    ensures SamePoint(AddedVar(a, b), AddedUnified(a, b))
  {
    if a.infinity {
      AffineSame(b);
    } else {
      var s := Common(a, b);
      CommonOnCurves(a, b);
      if Z0(s.H()) && Z0(s.I()) {
        BothDouble(a, b, s);
      } else if Z0(s.H()) {
        BothCancel(a, b, s);
      } else {
        BothChord(a, b, s);
      }
    }
  }

  lemma AffineSame(b: Aff)
    ensures SamePoint(Jac(b.x, b.y, 1, false), Jac(b.x, b.y, 1, false))
  {
    SmallIsNotZero(1);
    ZeroIsZero();
  }

  lemma BothDouble(a: Jac, b: Aff, s: Scaled)
    requires OnCurveJ(a) && !a.infinity && !b.infinity && s == Common(a, b) && s.OnCurves() && Z0(s.H()) && Z0(s.I())
    ensures SamePoint(AddedVar(a, b), AddedUnified(a, b))
  {
    hide UnifiedX, UnifiedY, SamePoint;
    DoubleCase(s);
    TwoIsUnit(s.M());
    TwoIsUnit(s.s1);
    NoZeroDivisors(a.z, s.M());
    var r1, r2 := AddedVar(a, b), AddedUnified(a, b);
    DoubleCross(s, r1.x, r1.y);
    TwiceProduct2(a.z, s.s1);
    TwiceProduct2(a.z, s.M());
    SameFromCross(r1, r2, a.z, 2 * s.s1, 2 * s.M());
  }

  lemma TwiceProduct2(z: int, y: int)
    ensures 2 * (z * y) == z * (2 * y)
  {
  }

  lemma BothCancel(a: Jac, b: Aff, s: Scaled)
    requires OnCurveJ(a) && !a.infinity && !b.infinity && s == Common(a, b) && s.OnCurves() && Z0(s.H()) && !Z0(s.I())
    ensures SamePoint(AddedVar(a, b), AddedUnified(a, b))
  {
    hide UnifiedX, UnifiedY;
    CancelCase(s);
    NoZeroDivisors(a.z, s.M());
    NoZeroDivisors(a.z, s.u1 - s.u2);
  }

  lemma BothChord(a: Jac, b: Aff, s: Scaled)
    requires OnCurveJ(a) && !a.infinity && !b.infinity && s == Common(a, b) && s.OnCurves() && !Z0(s.H())
    ensures SamePoint(AddedVar(a, b), AddedUnified(a, b))
  {
    hide SamePoint, AddedVar, AddedUnified;
    ChordCase(s);
    if Z0(s.M()) {
      BothDegenerate(a, b, s);
    } else {
      BothRegular(a, b, s);
    }
  }

  lemma BothDegenerate(a: Jac, b: Aff, s: Scaled)
    requires !Z0(a.z) && !a.infinity && !b.infinity && s == Common(a, b) && s.OnCurves()
    requires !Z0(s.H()) && Z0(s.M()) && Z0(s.Rr())
    ensures SamePoint(AddedVar(a, b), AddedUnified(a, b))
  {
    hide UnifiedX, UnifiedY, SamePoint, ChordX, ChordY, Z0;
    DegenerateChord(s);
    NegatedNonzero(s);
    NoZeroDivisors(a.z, s.u1 - s.u2);
    TwiceProduct2(a.z, s.u1 - s.u2);
    TwoIsUnit(s.u1 - s.u2);
    SameFromCross(AddedVar(a, b), AddedUnified(a, b), a.z, s.H(), 2 * (s.u1 - s.u2));
  }

  lemma BothRegular(a: Jac, b: Aff, s: Scaled)
    requires !Z0(a.z) && !a.infinity && !b.infinity && s == Common(a, b) && s.OnCurves()
    requires !Z0(s.H()) && !Z0(s.M())
    ensures SamePoint(AddedVar(a, b), AddedUnified(a, b))
  {
    hide UnifiedX, UnifiedY, SamePoint, ChordX, ChordY, Z0;
    RegularChord(s);
    NoZeroDivisors(a.z, s.M());
    TwiceProduct2(a.z, s.M());
    TwoIsUnit(s.M());
    SameFromCross(AddedVar(a, b), AddedUnified(a, b), a.z, s.H(), 2 * s.M());
  }

  lemma NegatedNonzero(s: Scaled)
    requires !Z0(s.H())
    ensures !Z0(s.u1 - s.u2)
  {
    if Z0(s.u1 - s.u2) {
      ZeroTimes(s.H(), -1, s.u1 - s.u2);
    }
  }
}
