/** Sums stay on the curve, so whole runs of additions denote the same points whichever routine makes each step. */
module PointsClosed {
  import opened Points
  import opened PointsAgree
  import opened PointsSum
  import opened CubeRoots

  // ---------- the affine point ----------

  /** Over a nonzero denominator there is an affine point. */
  lemma AffineExists(j: Jac) returns (p: Aff)
    requires (!j.infinity ==> !Z0(j.z))
    ensures Denotes(j, p)
  {
    if j.infinity {
      return Aff(0, 0, true);
    }
    var t := InverseOf(j.z);
    p := Aff(j.x * Sq(t), j.y * Cube(t), false);
    EqSq(t * j.z, 1);
    Powers(t, j.z);
    EqRefl(j.x);
    EqRefl(j.y);
    EqMul(j.x, j.x, Sq(t) * Sq(j.z), 1);
    EqMul(j.y, j.y, Cube(t) * Cube(j.z), 1);
    Regrouped(j.x, Sq(t), Sq(j.z));
    Regrouped(j.y, Cube(t), Cube(j.z));
    EqSym(j.x * Sq(t) * Sq(j.z), j.x);
    EqSym(j.y * Cube(t) * Cube(j.z), j.y);
  }

  /** The curve's equation over the denominators of j. */
  function Defect(x: int, y: int, z: int): int {
    Sq(y) - Cube(x) - 7 * Pow6(z)
  }

  /** A Jacobian point satisfies the cleared equation exactly when its affine point satisfies the equation. */
  lemma DenotedOnCurve(j: Jac, p: Aff)
    requires Denotes(j, p) && !j.infinity
    ensures Z0(Defect(j.x, j.y, j.z)) <==> OnCurve(p)
  {
    var w, d := Pow6(j.z), Sq(p.y) - Cube(p.x) - 7;
    EqSq(j.x, p.x * Sq(j.z));
    EqSq(j.y, p.y * Cube(j.z));
    EqLinear(Sq(j.y), Sq(p.y * Cube(j.z)), Cube(j.x), Cube(p.x * Sq(j.z)), 1, -1);
    ScaledDefect(p.x, p.y, j.z);
    EqRefl(7 * w);
    EqLinear(Sq(j.y) - Cube(j.x), Sq(p.y * Cube(j.z)) - Cube(p.x * Sq(j.z)), 7 * w, 7 * w, 1, -1);
    ZeroSame(Defect(j.x, j.y, j.z), w * d);
    PowersNonzero(j.z);
    NoZeroDivisors(w, d);
  }

  lemma ScaledDefect(x: int, y: int, z: int)
    ensures Sq(y * Cube(z)) - Cube(x * Sq(z)) - 7 * Pow6(z) == Pow6(z) * (Sq(y) - Cube(x) - 7)
  {
  }

  // ---------- the sum is on the curve ----------

  /** The line through (u, s), met again at u h^2 - t. The polynomial part, with k = h^3, m = u h^2 and w = s k. */
  lemma ThirdPoint(i: int, k: int, m: int, w: int, t: int, b: int)
    requires b == i * i * t - 2 * i * w + 3 * m * m - 3 * m * t + t * t
    ensures Sq(i * t - w) - Cube(m - t) == (w * w - m * m * m) + t * b
  {
    CubeOfDifference(m, t);
    SquareOfDifference(i, t, w);
    TimesB(i, m, w, t);
  }

  lemma CubeOfDifference(m: int, t: int)
    ensures Cube(m - t) == m * m * m - 3 * (m * m) * t + 3 * m * (t * t) - t * (t * t)
  {
  }

  lemma SquareOfDifference(i: int, t: int, w: int)
    ensures Sq(i * t - w) == i * i * (t * t) - 2 * (i * w) * t + w * w
  {
  }

  lemma TimesB(i: int, m: int, w: int, t: int)
    ensures t * (i * i * t - 2 * i * w + 3 * m * m - 3 * m * t + t * t)
      == i * i * (t * t) - 2 * (i * w) * t + 3 * (m * m) * t - 3 * m * (t * t) + t * (t * t)
  {
    assert t * (i * i * t) == i * i * (t * t);
    assert t * (2 * i * w) == 2 * (i * w) * t;
    assert t * (3 * m * m) == 3 * (m * m) * t;
    assert t * (3 * m * t) == 3 * m * (t * t);
    SpreadB(t, i * i * t, 2 * i * w, 3 * m * m, 3 * m * t, t * t);
  }

  lemma SpreadB(t: int, a: int, b: int, c: int, d: int, e: int)
    ensures t * (a - b + c - d + e) == t * a - t * b + t * c - t * d + t * e
  {
  }

  /** How far a point is from the equation with constant c. */
  function Off(u: int, s: int, c: int): int {
    s * s - u * u * u - c
  }

  /** The chord's third point is off the curve by a combination of what the two points are off. */
  lemma ChordDefect(u1: int, s1: int, h: int, i: int, c: int)
    ensures var x := i * i - (2 * u1 + h) * (h * h);
      var t := u1 * (h * h) - x;
      var k := h * h * h;
      Sq(i * t - s1 * k) - Cube(x) - c * (k * k)
        == (k * k) * Off(u1, s1, c) + (-(t * k)) * (Off(u1 + h, s1 + i, c) - Off(u1, s1, c))
  {
    hide Off, Sq, Cube;
    var q, k := h * h, h * h * h;
    var m, w, x := u1 * q, s1 * k, i * i - (2 * u1 + h) * q;
    var t := m - x;
    var e := Off(u1 + h, s1 + i, c) - Off(u1, s1, c);
    var b := i * i * t - 2 * i * w + 3 * m * m - 3 * m * t + t * t;
    OffDifference(u1, s1, h, i, c);
    TwiceIW(s1, i, u1, h);
    ChordT(u1, h, i * i);
    BracketChord(i * i, k, m, t, e, 2 * i * w);
    ThirdPoint(i, k, m, w, t, b);
    FirstPart(u1, s1, c, h);
    ProductB(t, b, k, e);
  }

  lemma ChordT(u: int, h: int, j: int)
    ensures u * (h * h) - (j - (2 * u + h) * (h * h)) == 3 * (u * (h * h)) - j + h * h * h
  {
  }

  lemma ProductB(t: int, b: int, k: int, e: int)
    requires b == -(k * e)
    ensures t * b == (-(t * k)) * e
  {
  }

  lemma OffDifference(u: int, s: int, h: int, i: int, c: int)
    ensures Off(u + h, s + i, c) - Off(u, s, c) == 2 * s * i + i * i - 3 * u * u * h - 3 * u * (h * h) - h * h * h
  {
  }

  lemma TwiceIW(s: int, i: int, u: int, h: int)
    ensures var q, k := h * h, h * h * h;
      var e := 2 * s * i + i * i - 3 * u * u * h - 3 * u * q - k;
      2 * i * (s * k) == k * e - k * (i * i) + 3 * (u * q) * (u * q) + 3 * (u * q) * k + k * k
  {
    var q, k := h * h, h * h * h;
    TermIW(k, s, i);
    TermUU(u, h);
    TermU(u, q, k);
    SpreadE(k, 2 * s * i, i * i, 3 * u * u * h, 3 * u * q);
  }

  lemma TermIW(k: int, s: int, i: int)
    ensures k * (2 * s * i) == 2 * i * (s * k)
  {
  }

  lemma TermUU(u: int, h: int)
    ensures (h * h * h) * (3 * u * u * h) == 3 * (u * (h * h)) * (u * (h * h))
  {
  }

  lemma TermU(u: int, q: int, k: int)
    ensures k * (3 * u * q) == 3 * (u * q) * k
  {
  }

  lemma SpreadE(k: int, a: int, b: int, c: int, d: int)
    ensures k * (a + b - c - d - k) == k * a + k * b - k * c - k * d - k * k
  {
  }

  lemma BracketChord(j: int, k: int, m: int, t: int, e: int, iw: int)
    requires t == 3 * m - j + k && iw == k * e - k * j + 3 * m * m + 3 * m * k + k * k
    ensures j * t - iw + 3 * m * m - 3 * m * t + t * t == -(k * e)
  {
  }

  lemma FirstPart(u: int, s: int, c: int, h: int)
    ensures var q, k := h * h, h * h * h;
      (s * k) * (s * k) - (u * q) * (u * q) * (u * q) - c * (k * k) == (k * k) * Off(u, s, c)
  {
    var q, k := h * h, h * h * h;
    assert q * q * q == k * k;
    assert (u * q) * (u * q) * (u * q) == (u * u * u) * (q * q * q);
    assert (s * k) * (s * k) == (s * s) * (k * k);
    SpreadOff(k * k, s * s, u * u * u, c);
  }

  lemma SpreadOff(w: int, a: int, b: int, c: int)
    ensures a * w - b * w - c * w == w * (a - b - c)
  {
  }

  /** The tangent's second point is off the curve by a multiple of what the first is off. */
  lemma TangentDefect(u: int, s: int, c: int)
    ensures var h, i := 2 * s, 3 * (u * u);
      var x := i * i - (2 * u) * (h * h);
      var t := u * (h * h) - x;
      var k := h * h * h;
      Sq(i * t - s * k) - Cube(x) - c * (k * k) == (k * k) * Off(u, s, c)
  {
  }

  /** The equation holds at the sum. */
  lemma SumDefect(a: Jac, b: Aff)
    requires OnCurveJ(a) && OnCurve(b) && !AddedVar(a, b).infinity
    ensures var r := AddedVar(a, b); !Z0(r.z) && Z0(Defect(r.x, r.y, r.z))
  {
    hide Doubled;
    if a.infinity {
      SmallIsNotZero(1);
    } else if !b.infinity {
      CommonOnCurves(a, b);
      var c := Common(a, b);
      if Z0(c.H()) {
        TwoIsUnit(a.y);
        DoubledDefect(a);
        NoZeroDivisors(a.z, a.y);
        TwoIsUnit(a.z * a.y);
      } else {
        ChordOnCurve(a, c);
        NoZeroDivisors(a.z, c.H());
      }
    }
  }

  lemma DoubledDefect(a: Jac)
    requires Z0(Off(a.x, a.y, 7 * Pow6(a.z)))
    ensures var r := Doubled(a); r.z == 2 * (a.z * a.y) && Z0(Defect(r.x, r.y, r.z))
  {
    var c, h := 7 * Pow6(a.z), 2 * a.y;
    DoubledAsLine(a.x, a.y);
    TangentDefect(a.x, a.y, c);
    TwiceProduct2(a.z, a.y);
    PowerOfProduct(a.z, h);
    var r, k := Doubled(a), h * h * h;
    assert Defect(r.x, r.y, r.z) == (k * k) * Off(a.x, a.y, c);
    ZeroTimes(Defect(r.x, r.y, r.z), k * k, Off(a.x, a.y, c));
  }

  lemma ChordOnCurve(a: Jac, c: Scaled)
    requires c.OnCurves() && c.u1 == a.x && c.s1 == a.y && c.c == 7 * Pow6(a.z)
    ensures Z0(Defect(ChordX(c.u1, c.s1, c.u2, c.s2), ChordY(c.u1, c.s1, c.u2, c.s2), a.z * c.H()))
  {
    var h, i := c.H(), c.I();
    var x, y, k := ChordX(c.u1, c.s1, c.u2, c.s2), ChordY(c.u1, c.s1, c.u2, c.s2), h * h * h;
    ChordDefect(c.u1, c.s1, h, i, c.c);
    PowerOfProduct(a.z, h);
    var o1, o2 := Off(c.u1, c.s1, c.c), Off(c.u2, c.s2, c.c);
    var t := c.u1 * (h * h) - x;
    assert Defect(x, y, a.z * h) == (k * k) * o1 + (-(t * k)) * (o2 - o1);
    ZeroCombine(o2 - o1, 1, o2, -1, o1);
    ZeroCombine(Defect(x, y, a.z * h), k * k, o1, -(t * k), o2 - o1);
  }

  lemma PowerOfProduct(z: int, h: int)
    ensures 7 * Pow6(z * h) == 7 * Pow6(z) * ((h * h * h) * (h * h * h))
  {
  }

  /** On the curve again, so the next addition may follow. */
  lemma AddedOnCurve(a: Jac, b: Aff)
    requires OnCurveJ(a) && OnCurve(b)
    ensures OnCurveJ(AddedVar(a, b))
  {
    hide AddedVar, Defect;
    var r := AddedVar(a, b);
    if !r.infinity {
      SumDefect(a, b);
      FiniteOnCurve(r);
    }
  }

  /** The equation alone gives y different from 0. */
  lemma FiniteOnCurve(r: Jac)
    requires !r.infinity && !Z0(r.z) && Z0(Defect(r.x, r.y, r.z))
    ensures OnCurveJ(r)
  {
    hide OnCurve, Z0, Defect, Denotes;
    var p := AffineExists(r);
    DenotedOnCurve(r, p);
    AffineY(r, p);
    DefectIs(r);
  }

  lemma DefectIs(r: Jac)
    ensures Defect(r.x, r.y, r.z) == r.y * r.y - r.x * r.x * r.x - 7 * Pow6(r.z)
  {
  }

  lemma AffineY(r: Jac, p: Aff)
    requires !r.infinity && Denotes(r, p) && OnCurve(p)
    ensures !Z0(r.y)
  {
    AffineNonzero(p);
    if Z0(r.y) {
      ZeroSame(r.y, p.y * Cube(r.z));
      PowersNonzero(r.z);
      NoZeroDivisors(p.y, Cube(r.z));
    }
  }

  /** No point of the curve has y = 0. */
  lemma AffineNonzero(p: Aff)
    requires OnCurve(p) && !p.infinity
    ensures !Z0(p.y)
  {
    NoCubeRoot(p.x);
    if Z0(p.y) {
      ZeroTimes(p.y * p.y, p.y, p.y);
      ZeroCombine(Cube(p.x) + 7, 1, p.y * p.y, -1, p.y * p.y - p.x * p.x * p.x - 7);
    }
  }

  // ---------- the sum exists and is unique ----------

  /** For every point a of the curve and every b: the branching addition denotes a point of the curve, and it is the sum. */
  lemma AddedIsPoint(a: Jac, p: Aff, b: Aff) returns (s: Aff)
    requires OnCurveJ(a) && OnCurve(b) && Denotes(a, p)
    ensures Denotes(AddedVar(a, b), s) && IsSum(p, b, s) && OnCurve(s) && OnCurveJ(AddedVar(a, b))
  {
    hide AddedVar, IsSum, Denotes, OnCurve;
    AddedOnCurve(a, b);
    s := AffineExists(AddedVar(a, b));
    AddedIsSum(a, p, b, s);
    OnCurveBack(AddedVar(a, b), s);
  }

  lemma OnCurveBack(j: Jac, s: Aff)
    requires OnCurveJ(j) && Denotes(j, s)
    ensures OnCurve(s)
  {
    if !j.infinity {
      DefectIs(j);
      DenotedOnCurve(j, s);
    }
  }

  /** The tangent or chord meets the curve in one further point. */
  lemma LineUnique(p: Aff, x2: int, dx: int, dy: int, s: Aff, s': Aff)
    requires !Z0(dx) && OnLine(p, x2, dx, dy, s) && OnLine(p, x2, dx, dy, s')
    ensures SameAffine(s, s')
  {
    var c, v := p.x + x2, s.x - s'.x;
    XDifference(s.x, s'.x, c, Sq(dx), Sq(dy));
    ZeroCombine(v * Sq(dx), 1, (s.x + c) * Sq(dx) - Sq(dy), -1, (s'.x + c) * Sq(dx) - Sq(dy));
    NoZeroDivisors(dx, dx);
    NoZeroDivisors(v, Sq(dx));
    var l, l' := (s.y + p.y) * dx - dy * (p.x - s.x), (s'.y + p.y) * dx - dy * (p.x - s'.x);
    YDifference(s.x, s'.x, s.y, s'.y, p.x, p.y, dx, dy);
    ZeroCombine(l - l', 1, l, -1, l');
    ZeroCombine((s.y - s'.y) * dx, 1, l - l', -dy, v);
    NoZeroDivisors(s.y - s'.y, dx);
  }

  lemma XDifference(x: int, x': int, c: int, w: int, e: int)
    ensures (x - x') * w == 1 * ((x + c) * w - e) + -1 * ((x' + c) * w - e)
  {
  }

  lemma YDifference(x: int, x': int, y: int, y': int, px: int, py: int, dx: int, dy: int)
    ensures (y - y') * dx
      == 1 * (((y + py) * dx - dy * (px - x)) - ((y' + py) * dx - dy * (px - x'))) + -dy * (x - x')
  {
  }

  /** Two points have one sum. */
  lemma SumUnique(p: Aff, q: Aff, s: Aff, s': Aff)
    requires OnCurve(p) && OnCurve(q)
    requires IsSum(p, q, s) && IsSum(p, q, s')
    ensures SameAffine(s, s')
  {
    hide OnLine;
    if p.infinity {
      SameBoth(q, s, s');
    } else if q.infinity {
      SameBoth(p, s, s');
    } else if Eq(p.x, q.x) {
      if !Z0(p.y + q.y) {
        AffineNonzero(p);
        TwoIsUnit(p.y);
        LineUnique(p, p.x, 2 * p.y, 3 * Sq(p.x), s, s');
      }
    } else {
      Flip(p.x, q.x);
      LineUnique(p, q.x, q.x - p.x, q.y - p.y, s, s');
    }
  }

  lemma SameBoth(q: Aff, s: Aff, s': Aff)
    requires SameAffine(s, q) && SameAffine(s', q)
    ensures SameAffine(s, s')
  {
    if !q.infinity {
      EqSym(s'.x, q.x);
      EqTrans(s.x, q.x, s'.x);
      EqSym(s'.y, q.y);
      EqTrans(s.y, q.y, s'.y);
    }
  }

  /** Points that stand for the same affine point are the same. */
  lemma SameDenoted(j: Jac, k: Jac, s: Aff, s': Aff)
    requires Denotes(j, s) && Denotes(k, s') && SameAffine(s, s')
    ensures SamePoint(j, k)
  {
    if !j.infinity {
      CrossSame(j.x, k.x, s.x, s'.x, Sq(j.z), Sq(k.z));
      CrossSame(j.y, k.y, s.y, s'.y, Cube(j.z), Cube(k.z));
    }
  }

  lemma CrossSame(x: int, x': int, a: int, a': int, w: int, w': int)
    requires Eq(x, a * w) && Eq(x', a' * w') && Eq(a, a')
    ensures Z0(x * w' - x' * w)
  {
    hide Z0;
    EqRefl(w);
    EqRefl(w');
    EqRefl(w * w');
    EqMul(x, a * w, w', w');
    EqMul(x', a' * w', w, w);
    EqMul(a, a', w * w', w * w');
    assert a * (w * w') == a * w * w' && a' * (w * w') == a' * w' * w;
    EqTrans(x * w', a * w * w', a' * w' * w);
    EqSym(x' * w, a' * w' * w);
    EqTrans(x * w', a' * w' * w, x' * w);
  }

  // ---------- runs ----------

  /** One step of a run: which routine is used, and the point added. */
  datatype Addition = Branching(b: Aff) | Unified(b: Aff)

  ghost predicate Allowed(e: Addition) {
    OnCurve(e.b) && !e.b.infinity
  }

  ghost function Step(a: Jac, e: Addition): Jac {
    if e.Branching? then AddedVar(a, e.b) else AddedUnified(a, e.b)
  }

  ghost function Run(a: Jac, es: seq<Addition>): Jac {
    if |es| == 0 then a else Step(Run(a, es[..|es| - 1]), es[|es| - 1])
  }

  /** Either routine gives a point of the curve that stands for the sum. */
  lemma StepIsPoint(a: Jac, p: Aff, e: Addition) returns (s: Aff)
    requires OnCurveJ(a) && OnCurve(p) && Denotes(a, p) && Allowed(e)
    ensures Denotes(Step(a, e), s) && IsSum(p, e.b, s) && OnCurve(s) && OnCurveJ(Step(a, e))
  {
    hide AddedVar, AddedUnified, IsSum, Denotes, OnCurveJ;
    s := AddedIsPoint(a, p, e.b);
    if e.Unified? {
      AdditionsAgree(a, e.b);
      SameSym(AddedVar(a, e.b), AddedUnified(a, e.b));
      DenotesSame(AddedUnified(a, e.b), AddedVar(a, e.b), s);
      SameOnCurve(AddedUnified(a, e.b), s);
    }
  }

  lemma SameSym(j: Jac, k: Jac)
    requires SamePoint(j, k)
    ensures SamePoint(k, j)
  {
    if !j.infinity {
      ZeroTimes(k.x * Sq(j.z) - j.x * Sq(k.z), -1, j.x * Sq(k.z) - k.x * Sq(j.z));
      ZeroTimes(k.y * Cube(j.z) - j.y * Cube(k.z), -1, j.y * Cube(k.z) - k.y * Cube(j.z));
    }
  }

  lemma SameOnCurve(j: Jac, s: Aff)
    requires Denotes(j, s) && OnCurve(s)
    ensures OnCurveJ(j)
  {
    if !j.infinity {
      DenotedOnCurve(j, s);
      FiniteOnCurve(j);
    }
  }

  /**
   * Over a whole run of additions, the result is on the curve and stands for the last of the points m[0], m[1], ... of the
   * curve that start at p and each of which is the sum of the one before it and the point added.
   */
  lemma {:induction false} RunIsSum(a: Jac, p: Aff, es: seq<Addition>) returns (m: seq<Aff>)
    requires OnCurveJ(a) && OnCurve(p) && Denotes(a, p)
    requires forall i :: 0 <= i < |es| ==> Allowed(es[i])
    ensures |m| == |es| + 1 && m[0] == p && OnCurveJ(Run(a, es)) && Denotes(Run(a, es), m[|es|])
    ensures forall i :: 0 <= i <= |es| ==> OnCurve(m[i])
    ensures forall i :: 0 <= i < |es| ==> IsSum(m[i], es[i].b, m[i + 1])
    decreases |es|
  {
    hide Denotes, OnCurveJ, OnCurve, IsSum, Step, Allowed;
    if |es| == 0 {
      m := [p];
    } else {
      var n := |es| - 1;
      m := RunIsSum(a, p, es[..n]);
      AllowedIs(es[n]);
      var s := StepIsPoint(Run(a, es[..n]), m[n], es[n]);
      m := m + [s];
    }
  }

  lemma AllowedIs(e: Addition)
    requires Allowed(e)
    ensures OnCurve(e.b)
  {
  }

  lemma SameRefl(p: Aff)
    ensures SameAffine(p, p)
  {
    EqRefl(p.x);
    EqRefl(p.y);
  }

  /**
   * Two runs that add the same points, each step by whichever routine, from representations of the same point, end in
   * representations of the same point.
   */
  lemma {:induction false} RunsAgree(a: Jac, a': Jac, es: seq<Addition>, es': seq<Addition>)
    requires OnCurveJ(a) && OnCurveJ(a') && SamePoint(a, a') && |es| == |es'|
    requires forall i :: 0 <= i < |es| ==> Allowed(es[i]) && es[i].b == es'[i].b
    ensures OnCurveJ(Run(a, es)) && OnCurveJ(Run(a', es')) && SamePoint(Run(a, es), Run(a', es'))
    decreases |es|
  {
    hide OnCurveJ, OnCurve, SamePoint, Step;
    if |es| != 0 {
      var n := |es| - 1;
      RunsAgree(a, a', es[..n], es'[..n]);
      StepsAgree(Run(a, es[..n]), Run(a', es'[..n]), es[n], es'[n]);
    }
  }

  lemma StepsAgree(j: Jac, k: Jac, e: Addition, e': Addition)
    requires OnCurveJ(j) && OnCurveJ(k) && SamePoint(j, k) && Allowed(e) && e.b == e'.b
    ensures OnCurveJ(Step(j, e)) && OnCurveJ(Step(k, e')) && SamePoint(Step(j, e), Step(k, e'))
  {
    hide Denotes, IsSum, Step, SamePoint, OnCurve;
    var p := AffineExists(k);
    DenotesSame(j, k, p);
    OnCurveBack(k, p);
    var s := StepIsPoint(j, p, e);
    var s' := StepIsPoint(k, p, e');
    SumUnique(p, e.b, s, s');
    SameDenoted(Step(j, e), Step(k, e'), s, s');
  }
}
