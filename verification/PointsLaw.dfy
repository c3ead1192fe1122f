/**
 * The chord and tangent law by slopes, and its associativity. A slope through two points satisfies two equations that
 * hold alike for chords and tangents, so most of what follows needs no cases.
 */
module PointsLaw {
  import opened Points

  /** On the curve as far as the coordinates go. */
  ghost predicate OnC(p: Aff) {
    Z0(p.y * p.y - p.x * p.x * p.x - 7)
  }

  function Quadratic(x: int, x': int): int {
    x * x + x * x' + x' * x'
  }

  /** a is the slope of the line through two points, tangent to the curve where they are one. */
  ghost predicate Slope(p: Aff, q: Aff, a: int) {
    Z0(a * (q.x - p.x) - (q.y - p.y)) && Z0(a * (p.y + q.y) - Quadratic(p.x, q.x))
  }

  /** s is the sum of two points on a line of slope a. */
  ghost predicate Third(p: Aff, q: Aff, a: int, s: Aff) {
    Z0(a * a - p.x - q.x - s.x) && Z0(a * (p.x - s.x) - p.y - s.y)
  }

  ghost predicate Opposite(p: Aff, q: Aff) {
    Z0(p.x - q.x) && Z0(p.y + q.y)
  }

  function Neg(p: Aff): Aff {
    Aff(p.x, -p.y, p.infinity)
  }

  // ---------- zeros ----------

  lemma Combine3(x: int, p: int, a: int, q: int, b: int, r: int, c: int)
    requires Z0(a) && Z0(b) && Z0(c) && x == p * a + q * b + r * c
    ensures Z0(x)
  {
    ZeroCombine(p * a + q * b, p, a, q, b);
    ZeroCombine(x, 1, p * a + q * b, r, c);
  }

  lemma Combine4(x: int, p: int, a: int, q: int, b: int, r: int, c: int, s: int, d: int)
    requires Z0(a) && Z0(b) && Z0(c) && Z0(d) && x == p * a + q * b + r * c + s * d
    ensures Z0(x)
  {
    ZeroCombine(p * a + q * b, p, a, q, b);
    ZeroCombine(r * c + s * d, r, c, s, d);
    ZeroCombine(x, 1, p * a + q * b, 1, r * c + s * d);
  }

  lemma Cancel(k: int, x: int)
    requires !Z0(k) && Z0(k * x)
    ensures Z0(x)
  {
    NoZeroDivisors(k, x);
  }

  // ---------- slopes ----------

  lemma SlopeSym(p: Aff, q: Aff, a: int)
    requires Slope(p, q, a)
    ensures Slope(q, p, a)
  {
    ZeroTimes(a * (p.x - q.x) - (p.y - q.y), -1, a * (q.x - p.x) - (q.y - p.y));
    assert a * (q.y + p.y) - Quadratic(q.x, p.x) == a * (p.y + q.y) - Quadratic(p.x, q.x);
  }

  /** Two points of the curve differ from it by as much. */
  lemma CurveDifference(p: Aff, q: Aff)
    requires OnC(p) && OnC(q)
    ensures Z0((q.y - p.y) * (q.y + p.y) - (q.x - p.x) * Quadratic(p.x, q.x))
  {
    DifferenceAlgebra(p.x, p.y, q.x, q.y);
    ZeroCombine((q.y - p.y) * (q.y + p.y) - (q.x - p.x) * Quadratic(p.x, q.x),
                1, q.y * q.y - q.x * q.x * q.x - 7, -1, p.y * p.y - p.x * p.x * p.x - 7);
  }

  lemma DifferenceAlgebra(x: int, y: int, x': int, y': int)
    ensures (y' - y) * (y' + y) - (x' - x) * Quadratic(x, x') == 1 * (y' * y' - x' * x' * x' - 7) + -1 * (y * y - x * x * x - 7)
  {
  }

  lemma NotOrigin(p: Aff)
    requires OnC(p)
    ensures !(Z0(p.x) && Z0(p.y))
  {
    SmallIsNotZero(7);
    if Z0(p.x) && Z0(p.y) {
      OriginAlgebra(p.x, p.y);
      Combine3(7, -1, p.y * p.y - p.x * p.x * p.x - 7, p.y, p.y, -(p.x * p.x), p.x);
    }
  }

  lemma OriginAlgebra(x: int, y: int)
    ensures 7 == -1 * (y * y - x * x * x - 7) + y * y + -(x * x) * x
  {
  }

  /** A slope excludes that the points are opposite. */
  lemma SlopeNotOpposite(p: Aff, q: Aff, a: int)
    requires OnC(p) && Slope(p, q, a)
    ensures !Opposite(p, q)
  {
    hide OnC;
    NotOrigin(p);
    if Opposite(p, q) {
      VerticalY(p.x, p.y, q.x, q.y, a);
      ThreeSquares(p.x, q.x, a, p.y + q.y);
    }
  }

  lemma VerticalY(x: int, y: int, x': int, y': int, a: int)
    requires Z0(a * (x' - x) - (y' - y)) && Z0(y + y') && Z0(x - x')
    ensures Z0(y)
  {
    assert 2 * y == 1 * (a * (x' - x) - (y' - y)) + 1 * (y + y') + a * (x - x') by {
      assert a * (x' - x) == -(a * (x - x'));
    }
    Combine3(2 * y, 1, a * (x' - x) - (y' - y), 1, y + y', a, x - x');
    TwoIsUnit(y);
  }

  lemma ThreeSquares(x: int, x': int, a: int, z: int)
    requires Z0(a * z - Quadratic(x, x')) && Z0(z) && Z0(x - x')
    ensures Z0(x)
  {
    QuadraticSame(x, x', a, z);
    Combine3(3 * (x * x), -1, a * z - Quadratic(x, x'), a, z, 2 * x + x', x - x');
    NoZeroDivisors(3, x * x);
    SmallIsNotZero(3);
    NoZeroDivisors(x, x);
  }

  lemma QuadraticSame(x: int, x': int, a: int, z: int)
    ensures 3 * (x * x) == -1 * (a * z - Quadratic(x, x')) + a * z + (2 * x + x') * (x - x')
  {
  }

  lemma SlopeUnique(p: Aff, q: Aff, a: int, b: int)
    requires OnC(p) && Slope(p, q, a) && Slope(p, q, b)
    ensures Z0(a - b)
  {
    SlopeNotOpposite(p, q, a);
    ZeroCombine((q.x - p.x) * (a - b), 1, a * (q.x - p.x) - (q.y - p.y), -1, b * (q.x - p.x) - (q.y - p.y));
    ZeroCombine((p.y + q.y) * (a - b), 1, a * (p.y + q.y) - Quadratic(p.x, q.x), -1, b * (p.y + q.y) - Quadratic(p.x, q.x));
    NoZeroDivisors(q.x - p.x, a - b);
    NoZeroDivisors(p.y + q.y, a - b);
    if Z0(q.x - p.x) {
      ZeroTimes(p.x - q.x, -1, q.x - p.x);
    }
  }

  // ---------- the third point ----------

  /** The line meets the curve at the opposite of the sum, too. */
  lemma ThirdSlope(p: Aff, q: Aff, a: int, s: Aff)
    requires Slope(p, q, a) && Third(p, q, a, s)
    ensures Slope(p, Neg(s), a)
  {
    ZeroTimes(a * (s.x - p.x) - (-s.y - p.y), -1, a * (p.x - s.x) - p.y - s.y);
    ThirdAlgebra(p.x, p.y, q.x, q.y, a, s.x, s.y);
    Combine4(a * (p.y + -s.y) - Quadratic(p.x, s.x), 1, a * (p.y + q.y) - Quadratic(p.x, q.x), a, a * (q.x - p.x) - (q.y - p.y),
             a, a * (p.x - s.x) - p.y - s.y, s.x - q.x, a * a - p.x - q.x - s.x);
  }

  lemma ThirdAlgebra(x: int, y: int, x': int, y': int, a: int, u: int, v: int)
    ensures a * (y + -v) - Quadratic(x, u)
      == 1 * (a * (y + y') - Quadratic(x, x')) + a * (a * (x' - x) - (y' - y)) + a * (a * (x - u) - y - v)
        + (u - x') * (a * a - x - x' - u)
  {
  }

  /** The sum may be computed from either point. */
  lemma ThirdSym(p: Aff, q: Aff, a: int, s: Aff)
    requires Slope(p, q, a) && Third(p, q, a, s)
    ensures Third(q, p, a, s)
  {
    assert a * a - q.x - p.x - s.x == a * a - p.x - q.x - s.x;
    ZeroCombine(a * (q.x - s.x) - q.y - s.y, 1, a * (q.x - p.x) - (q.y - p.y), 1, a * (p.x - s.x) - p.y - s.y);
  }

  lemma ThirdOnCurve(p: Aff, q: Aff, a: int, s: Aff)
    requires OnC(p) && Slope(p, q, a) && Third(p, q, a, s)
    ensures OnC(s)
  {
    ThirdSlope(p, q, a, s);
    OnCurveAlgebra(p.x, p.y, a, s.x, s.y);
    Combine3(s.y * s.y - s.x * s.x * s.x - 7, 1, p.y * p.y - p.x * p.x * p.x - 7,
             -(p.y - s.y), a * (s.x - p.x) - (-s.y - p.y), s.x - p.x, a * (p.y + -s.y) - Quadratic(p.x, s.x));
  }

  lemma OnCurveAlgebra(x: int, y: int, a: int, u: int, v: int)
    ensures v * v - u * u * u - 7
      == 1 * (y * y - x * x * x - 7) + -(y - v) * (a * (u - x) - (-v - y)) + (u - x) * (a * (y + -v) - Quadratic(x, u))
  {
  }

  // ---------- associativity, where no sum is infinite ----------

  /** The relation between the slopes a of p, q and c of q, r that everything rests on. */
  lemma TwoSlopes(p: Aff, q: Aff, r: Aff, a: int, c: int)
    requires Slope(p, q, a) && Slope(q, r, c)
    ensures Z0((p.x - r.x) * (a * a - p.x - q.x - r.x) - (a - c) * ((a + c) * (q.x - r.x) - 2 * q.y))
  {
    TwoSlopesAlgebra(p.x, p.y, q.x, q.y, r.x, r.y, a, c);
    Combine4((p.x - r.x) * (a * a - p.x - q.x - r.x) - (a - c) * ((a + c) * (q.x - r.x) - 2 * q.y),
             -a, a * (q.x - p.x) - (q.y - p.y), 1, a * (p.y + q.y) - Quadratic(p.x, q.x),
             -c, c * (r.x - q.x) - (r.y - q.y), -1, c * (q.y + r.y) - Quadratic(q.x, r.x));
  }

  lemma TwoSlopesAlgebra(x1: int, y1: int, x2: int, y2: int, x3: int, y3: int, a: int, c: int)
    ensures (x1 - x3) * (a * a - x1 - x2 - x3) - (a - c) * ((a + c) * (x2 - x3) - 2 * y2)
      == -a * (a * (x2 - x1) - (y2 - y1)) + 1 * (a * (y1 + y2) - Quadratic(x1, x2))
        + -c * (c * (x3 - x2) - (y3 - y2)) + -1 * (c * (y2 + y3) - Quadratic(x2, x3))
  {
  }

  /** With w = (p.x - r.x) / (a - c), the slope of p + q and r is w - a: the first equation. */
  lemma SlopeFirst(p: Aff, q: Aff, r: Aff, a: int, c: int, w: int, d: Aff)
    requires Slope(p, q, a) && Slope(q, r, c) && Third(p, q, a, d)
    requires !Z0(a - c) && Z0((a - c) * w - (p.x - r.x))
    ensures Z0((w - a) * (r.x - d.x) - (r.y - d.y))
  {
    hide Z0, OnC;
    TwoSlopes(p, q, r, a, c);
    ThirdSym(p, q, a, d);
    var t := (w - a) * (r.x - d.x) - (r.y - d.y);
    SlopeFirstAlgebra(p.x, q.x, q.y, r.x, r.y, a, c, w, d.x, d.y);
    var z := (p.x - r.x) * (a * a - p.x - q.x - r.x) - (a - c) * ((a + c) * (q.x - r.x) - 2 * q.y);
    var e := a * (q.x - d.x) - q.y - d.y;
    Combine3(-1 * z + (r.x - d.x) * ((a - c) * w - (p.x - r.x)) + (p.x - r.x) * (a * a - p.x - q.x - d.x),
             -1, z, r.x - d.x, (a - c) * w - (p.x - r.x), p.x - r.x, a * a - p.x - q.x - d.x);
    Combine3((a - c) * t, 1, -1 * z + (r.x - d.x) * ((a - c) * w - (p.x - r.x)) + (p.x - r.x) * (a * a - p.x - q.x - d.x),
             -(a - c), e, a - c, c * (r.x - q.x) - (r.y - q.y));
    Cancel(a - c, t);
  }

  lemma SlopeFirstAlgebra(x1: int, x2: int, y2: int, x3: int, y3: int, a: int, c: int, w: int, u: int, v: int)
    ensures var z := (x1 - x3) * (a * a - x1 - x2 - x3) - (a - c) * ((a + c) * (x2 - x3) - 2 * y2);
      (a - c) * ((w - a) * (x3 - u) - (y3 - v))
        == 1 * (-1 * z + (x3 - u) * ((a - c) * w - (x1 - x3)) + (x1 - x3) * (a * a - x1 - x2 - u))
          + -(a - c) * (a * (x2 - u) - y2 - v) + (a - c) * (c * (x3 - x2) - (y3 - y2))
  {
  }

  /** The second equation: by division where p + q and r have different x, and otherwise they are one point. */
  lemma SlopeSecond(p: Aff, q: Aff, r: Aff, a: int, c: int, w: int, d: Aff)
    requires OnC(p) && OnC(q) && OnC(r) && Slope(p, q, a) && Slope(q, r, c) && Third(p, q, a, d)
    requires !Z0(a - c) && Z0((a - c) * w - (p.x - r.x)) && Z0((w - a) * (r.x - d.x) - (r.y - d.y))
    ensures Z0((w - a) * (d.y + r.y) - Quadratic(d.x, r.x))
  {
    hide OnC, Slope, Third, Z0;
    if Z0(r.x - d.x) {
      SlopeSecondTangent(p, q, r, a, c, w, d);
    } else {
      ThirdOnCurve(p, q, a, d);
      CurveDifference(d, r);
      SlopeSecondChord(d.x, d.y, r.x, r.y, w - a);
    }
  }

  lemma SlopeSecondChord(u: int, v: int, x: int, y: int, b: int)
    requires !Z0(x - u) && Z0(b * (x - u) - (y - v)) && Z0((y - v) * (y + v) - (x - u) * Quadratic(u, x))
    ensures Z0(b * (v + y) - Quadratic(u, x))
  {
    ChordAlgebra(u, v, x, y, b, Quadratic(u, x));
    ZeroCombine((x - u) * (b * (v + y) - Quadratic(u, x)), y + v, b * (x - u) - (y - v), 1, (y - v) * (y + v) - (x - u) * Quadratic(u, x));
    Cancel(x - u, b * (v + y) - Quadratic(u, x));
  }

  lemma ChordAlgebra(u: int, v: int, x: int, y: int, b: int, k: int)
    ensures (x - u) * (b * (v + y) - k) == (y + v) * (b * (x - u) - (y - v)) + 1 * ((y - v) * (y + v) - (x - u) * k)
  {
  }

  lemma SlopeSecondTangent(p: Aff, q: Aff, r: Aff, a: int, c: int, w: int, d: Aff)
    requires OnC(q) && Slope(p, q, a) && Slope(q, r, c) && Third(p, q, a, d)
    requires !Z0(a - c) && Z0((a - c) * w - (p.x - r.x)) && Z0((w - a) * (r.x - d.x) - (r.y - d.y)) && Z0(r.x - d.x)
    ensures Z0((w - a) * (d.y + r.y) - Quadratic(d.x, r.x))
  {
    hide OnC, Z0;
    ZeroCombine(r.y - d.y, w - a, r.x - d.x, -1, (w - a) * (r.x - d.x) - (r.y - d.y));
    ThirdSym(p, q, a, d);
    OppositeOnLine(q.x, q.y, r.x, r.y, a, d.x, d.y);
    NotVertical(q, r, a, c);
    TangentProduct(p.x, p.y, q.x, q.y, r.x, r.y, a, d.x);
    TangentSlope(p.x, q.x, q.y, r.x, r.y, a, c, w);
    TangentMoved(d.x, d.y, r.x, r.y, w - a);
  }

  /** The opposite of r is on the line of slope a. */
  lemma OppositeOnLine(x2: int, y2: int, x3: int, y3: int, a: int, u: int, v: int)
    requires Z0(a * (x2 - u) - y2 - v) && Z0(x3 - u) && Z0(y3 - v)
    ensures Z0(a * (x3 - x2) + y3 + y2)
  {
    assert a * (x3 - x2) + y3 + y2 == -1 * (a * (x2 - u) - y2 - v) + a * (x3 - u) + 1 * (y3 - v);
    Combine3(a * (x3 - x2) + y3 + y2, -1, a * (x2 - u) - y2 - v, a, x3 - u, 1, y3 - v);
  }

  lemma NotVertical(q: Aff, r: Aff, a: int, c: int)
    requires OnC(q) && Slope(q, r, c) && Z0(a * (r.x - q.x) + r.y + q.y)
    ensures !Z0(q.x - r.x)
  {
    SlopeNotOpposite(q, r, c);
    if Z0(q.x - r.x) {
      assert q.y + r.y == 1 * (a * (r.x - q.x) + r.y + q.y) + a * (q.x - r.x) by {
        assert a * (r.x - q.x) == -(a * (q.x - r.x));
      }
      ZeroCombine(q.y + r.y, 1, a * (r.x - q.x) + r.y + q.y, a, q.x - r.x);
    }
  }

  lemma TangentProduct(x1: int, y1: int, x2: int, y2: int, x3: int, y3: int, a: int, u: int)
    requires Z0(a * (x2 - x1) - (y2 - y1)) && Z0(a * (y1 + y2) - Quadratic(x1, x2))
    requires Z0(a * a - x1 - x2 - u) && Z0(x3 - u) && Z0(a * (x3 - x2) + y3 + y2)
    ensures Z0((x1 - x3) * (x2 - x3) - 2 * a * y3 - 3 * (x3 * x3))
  {
    ZeroCombine(a * a - x1 - x2 - x3, 1, a * a - x1 - x2 - u, -1, x3 - u);
    ProductAlgebra(x1, y1, x2, y2, x3, y3, a);
    Combine4((x1 - x3) * (x2 - x3) - 2 * a * y3 - 3 * (x3 * x3), 2 * x3 - x1 - x2, a * a - x1 - x2 - x3,
             -2 * a, a * (x3 - x2) + y3 + y2, 1, a * (y1 + y2) - Quadratic(x1, x2), -a, a * (x2 - x1) - (y2 - y1));
  }

  lemma ProductAlgebra(x1: int, y1: int, x2: int, y2: int, x3: int, y3: int, a: int)
    ensures (x1 - x3) * (x2 - x3) - 2 * a * y3 - 3 * (x3 * x3)
      == (2 * x3 - x1 - x2) * (a * a - x1 - x2 - x3) + -2 * a * (a * (x3 - x2) + y3 + y2)
        + 1 * (a * (y1 + y2) - Quadratic(x1, x2)) + -a * (a * (x2 - x1) - (y2 - y1))
  {
  }

  lemma TangentSlope(x1: int, x2: int, y2: int, x3: int, y3: int, a: int, c: int, w: int)
    requires !Z0(a - c) && !Z0(x2 - x3) && Z0((a - c) * w - (x1 - x3))
    requires Z0(a * (x3 - x2) + y3 + y2) && Z0(c * (x3 - x2) - (y3 - y2))
    requires Z0((x1 - x3) * (x2 - x3) - 2 * a * y3 - 3 * (x3 * x3))
    ensures Z0((w - a) * (2 * y3) - 3 * (x3 * x3))
  {
    var t, f := (w - a) * (2 * y3) - 3 * (x3 * x3), (a - c) * (x2 - x3) - 2 * y3;
    assert f == -1 * (a * (x3 - x2) + y3 + y2) + 1 * (c * (x3 - x2) - (y3 - y2)) by {
      assert (a - c) * (x2 - x3) == -(a * (x3 - x2)) + c * (x3 - x2);
    }
    ZeroCombine(f, -1, a * (x3 - x2) + y3 + y2, 1, c * (x3 - x2) - (y3 - y2));
    TangentAlgebra(x1, x2, x3, y3, a, c, w);
    Combine3(((a - c) * (x2 - x3)) * t, 2 * y3, (x1 - x3) * (x2 - x3) - 2 * a * y3 - 3 * (x3 * x3),
             2 * y3 * (x2 - x3), (a - c) * w - (x1 - x3), -(2 * a * y3 + 3 * (x3 * x3)), f);
    NoZeroDivisors(a - c, x2 - x3);
    Cancel((a - c) * (x2 - x3), t);
  }

  lemma TangentAlgebra(x1: int, x2: int, x3: int, y3: int, a: int, c: int, w: int)
    ensures ((a - c) * (x2 - x3)) * ((w - a) * (2 * y3) - 3 * (x3 * x3))
      == 2 * y3 * ((x1 - x3) * (x2 - x3) - 2 * a * y3 - 3 * (x3 * x3)) + 2 * y3 * (x2 - x3) * ((a - c) * w - (x1 - x3))
        + -(2 * a * y3 + 3 * (x3 * x3)) * ((a - c) * (x2 - x3) - 2 * y3)
  {
  }

  lemma TangentMoved(u: int, v: int, x: int, y: int, b: int)
    requires Z0(x - u) && Z0(y - v) && Z0(b * (2 * y) - 3 * (x * x))
    ensures Z0(b * (v + y) - Quadratic(u, x))
  {
    MovedAlgebra(u, v, x, y, b);
    Combine3(b * (v + y) - Quadratic(u, x), 1, b * (2 * y) - 3 * (x * x), -b, y - v, u + 2 * x, x - u);
  }

  lemma MovedAlgebra(u: int, v: int, x: int, y: int, b: int)
    ensures b * (v + y) - Quadratic(u, x) == 1 * (b * (2 * y) - 3 * (x * x)) + -b * (y - v) + (u + 2 * x) * (x - u)
  {
    assert b * (v + y) == b * (2 * y) + -b * (y - v);
  }

  /** So w - a is the slope of p + q and r. */
  lemma NextSlope(p: Aff, q: Aff, r: Aff, a: int, c: int, w: int, d: Aff)
    requires OnC(p) && OnC(q) && OnC(r) && Slope(p, q, a) && Slope(q, r, c) && Third(p, q, a, d)
    requires !Z0(a - c) && Z0((a - c) * w - (p.x - r.x))
    ensures Slope(d, r, w - a)
  {
    hide OnC, Third;
    SlopeFirst(p, q, r, a, c, w, d);
    SlopeSecond(p, q, r, a, c, w, d);
  }

  /** The sums on both ways agree. */
  lemma SumsAgree(p: Aff, q: Aff, r: Aff, a: int, c: int, w: int, d: Aff, e: Aff, s: Aff, s': Aff)
    requires Slope(p, q, a) && Slope(q, r, c) && Third(p, q, a, d) && Third(q, r, c, e)
    requires Z0((a - c) * w - (p.x - r.x))
    requires Slope(d, r, w - a) && Third(d, r, w - a, s) && Third(p, e, w - c, s')
    ensures Z0(s.x - s'.x) && Z0(s.y - s'.y)
  {
    hide Z0;
    SumsX(p.x, q.x, r.x, a, c, w, d.x, e.x, s.x, s'.x);
    ThirdSym(d, r, w - a, s);
    SumsCommon(p.x, p.y, q.x, q.y, r.x, r.y, a, c, w, d.x, s.x);
    SumsY(p.x, p.y, r.x, r.y, w - a, w - c, s.x, s.y, s'.x, s'.y);
  }

  lemma SumsX(x1: int, x2: int, x3: int, a: int, c: int, w: int, xd: int, xe: int, f: int, f': int)
    requires Z0((a - c) * w - (x1 - x3)) && Z0(a * a - x1 - x2 - xd) && Z0(c * c - x2 - x3 - xe)
    requires Z0((w - a) * (w - a) - xd - x3 - f) && Z0((w - c) * (w - c) - x1 - xe - f')
    ensures Z0(f - f')
  {
    var h, h' := (w - a) * (w - a) - xd - x3 - f, (w - c) * (w - c) - x1 - xe - f';
    SumsXAlgebra(x1, x2, x3, a, c, w, xd, xe, f, f');
    Combine3(-2 * ((a - c) * w - (x1 - x3)) + 1 * (a * a - x1 - x2 - xd) + -1 * (c * c - x2 - x3 - xe),
             -2, (a - c) * w - (x1 - x3), 1, a * a - x1 - x2 - xd, -1, c * c - x2 - x3 - xe);
    Combine3(f - f', 1, -2 * ((a - c) * w - (x1 - x3)) + 1 * (a * a - x1 - x2 - xd) + -1 * (c * c - x2 - x3 - xe), -1, h, 1, h');
  }

  lemma SumsXAlgebra(x1: int, x2: int, x3: int, a: int, c: int, w: int, xd: int, xe: int, f: int, f': int)
    ensures f - f'
      == 1 * (-2 * ((a - c) * w - (x1 - x3)) + 1 * (a * a - x1 - x2 - xd) + -1 * (c * c - x2 - x3 - xe))
        + -1 * ((w - a) * (w - a) - xd - x3 - f) + 1 * ((w - c) * (w - c) - x1 - xe - f')
  {
  }

  /** At one x, the two lines give one y. */
  lemma SumsCommon(x1: int, y1: int, x2: int, y2: int, x3: int, y3: int, a: int, c: int, w: int, xd: int, f: int)
    requires Z0(a * (x2 - x1) - (y2 - y1)) && Z0(c * (x3 - x2) - (y3 - y2)) && Z0((a - c) * w - (x1 - x3))
    requires Z0(a * a - x1 - x2 - xd) && Z0((w - a) * (w - a) - xd - x3 - f)
    ensures Z0(((w - a) * (x3 - f) - y3) - ((w - c) * (x1 - f) - y1))
  {
    var h := (a * a - x1 - x2 - xd) - ((w - a) * (w - a) - xd - x3 - f);
    ZeroCombine(h, 1, a * a - x1 - x2 - xd, -1, (w - a) * (w - a) - xd - x3 - f);
    SumsYAlgebra(x1, y1, x2, y2, x3, y3, a, c, w, f, xd);
    Combine4(((w - a) * (x3 - f) - y3) - ((w - c) * (x1 - f) - y1),
             w - 2 * a, (a - c) * w - (x1 - x3), a - c, h, 1, a * (x2 - x1) - (y2 - y1), 1, c * (x3 - x2) - (y3 - y2));
  }

  lemma SumsYAlgebra(x1: int, y1: int, x2: int, y2: int, x3: int, y3: int, a: int, c: int, w: int, f: int, xd: int)
    ensures var h := (a * a - x1 - x2 - xd) - ((w - a) * (w - a) - xd - x3 - f);
      ((w - a) * (x3 - f) - y3) - ((w - c) * (x1 - f) - y1)
        == (w - 2 * a) * ((a - c) * w - (x1 - x3)) + (a - c) * h + 1 * (a * (x2 - x1) - (y2 - y1)) + 1 * (c * (x3 - x2) - (y3 - y2))
  {
    var k := a - c;
    var h := (a * a - x1 - x2 - xd) - ((w - a) * (w - a) - xd - x3 - f);
    SquareGap(a, w);
    assert h == w * (2 * a - w) + (x3 + f - x1 - x2);
    SlopesCancel(k, w, a, x1 - x3, x3 + f - x1 - x2);
    LinesApart(x1, x2, x3, a, c, w, f);
  }

  lemma SquareGap(a: int, w: int)
    ensures a * a - (w - a) * (w - a) == w * (2 * a - w)
  {
  }

  lemma SlopesCancel(k: int, w: int, a: int, x: int, z: int)
    ensures (w - 2 * a) * (k * w - x) + k * (w * (2 * a - w) + z) == k * z - (w - 2 * a) * x
  {
  }

  lemma LinesApart(x1: int, x2: int, x3: int, a: int, c: int, w: int, f: int)
    ensures (w - a) * (x3 - f) - (w - c) * (x1 - f)
      == (a - c) * (x3 + f - x1 - x2) - (w - 2 * a) * (x1 - x3) + a * (x2 - x1) + c * (x3 - x2)
  {
  }

  lemma SumsY(x1: int, y1: int, x3: int, y3: int, b: int, b': int, f: int, v: int, f': int, v': int)
    requires Z0((b * (x3 - f) - y3) - (b' * (x1 - f) - y1)) && Z0(f - f')
    requires Z0(b * (x3 - f) - y3 - v) && Z0(b' * (x1 - f') - y1 - v')
    ensures Z0(v - v')
  {
    assert v - v' == 1 * ((b * (x3 - f) - y3) - (b' * (x1 - f) - y1)) + -b' * (f - f')
      + -1 * (b * (x3 - f) - y3 - v) + 1 * (b' * (x1 - f') - y1 - v');
    Combine4(v - v', 1, (b * (x3 - f) - y3) - (b' * (x1 - f) - y1), -b', f - f',
             -1, b * (x3 - f) - y3 - v, 1, b' * (x1 - f') - y1 - v');
  }
}
