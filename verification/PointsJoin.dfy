/** The routines on Jacobian coordinates compute in the group of points. */
module PointsJoin {
  import opened Points
  import opened PointsAgree
  import opened PointsSum
  import opened PointsClosed
  import opened PointsLaw
  import opened PointsGroup
  import opened Groups

  // ---------- the law by slopes is the law by cleared denominators ----------

  lemma LineOfSlope(p: Aff, x2: int, dx: int, dy: int, a: int, s: Aff)
    requires !s.infinity && Z0(a * dx - dy) && Z0(a * a - p.x - x2 - s.x) && Z0(a * (p.x - s.x) - p.y - s.y)
    ensures OnLine(p, x2, dx, dy, s)
  {
    hide Z0;
    LineAlgebra(p.x, p.y, x2, dx, dy, a, s.x, s.y);
    ZeroCombine((s.x + (p.x + x2)) * Sq(dx) - Sq(dy), -Sq(dx), a * a - p.x - x2 - s.x, a * dx + dy, a * dx - dy);
    ZeroCombine((s.y + p.y) * dx - dy * (p.x - s.x), -dx, a * (p.x - s.x) - p.y - s.y, p.x - s.x, a * dx - dy);
  }

  lemma LineAlgebra(x: int, y: int, x2: int, dx: int, dy: int, a: int, u: int, v: int)
    ensures (u + (x + x2)) * Sq(dx) - Sq(dy) == -Sq(dx) * (a * a - x - x2 - u) + (a * dx + dy) * (a * dx - dy)
    ensures (v + y) * dx - dy * (x - u) == -dx * (a * (x - u) - y - v) + (x - u) * (a * dx - dy)
  {
    assert (a * dx + dy) * (a * dx - dy) == (a * a) * (dx * dx) - dy * dy;
    assert -(dx * dx) * (a * a - x - x2 - u) == -((a * a) * (dx * dx)) + (u + (x + x2)) * (dx * dx);
    assert -dx * (a * (x - u) - y - v) == -(a * dx * (x - u)) + dx * (y + v);
    assert (x - u) * (a * dx - dy) == a * dx * (x - u) - dy * (x - u);
  }

  lemma SumOfSlope(p: Point, q: Point, a: int)
    requires !p.infinity && !q.infinity && !Add(p, q).infinity && Slope(p, q, a) && Third(p, q, a, Add(p, q))
    ensures IsSum(p, q, Add(p, q))
  {
    hide OnLine, Lies, Z0, OnC, Add;
    var s := Add(p, q);
    PointOnC(p);
    SlopeNotOpposite(p, q, a);
    if Eq(p.x, q.x) {
      SameReduced(p.x, q.x);
      TangentSlopeIs(p, q, a);
      LineOfSlope(p, p.x, 2 * p.y, 3 * Sq(p.x), a, s);
    } else {
      LineOfSlope(p, q.x, q.x - p.x, q.y - p.y, a, s);
    }
  }

  lemma TangentSlopeIs(p: Point, q: Point, a: int)
    requires !p.infinity && !q.infinity && Slope(p, q, a) && p.x == q.x
    ensures p.y == q.y && Z0(a * (2 * p.y) - 3 * Sq(p.x))
  {
    hide Lies, Z0;
    assert a * (q.x - p.x) == 0;
    Flip(p.y, q.y);
    ZeroTimes(q.y - p.y, -1, a * (q.x - p.x) - (q.y - p.y));
    SameReduced(p.y, q.y);
    assert a * (p.y + q.y) - Quadratic(p.x, q.x) == a * (2 * p.y) - 3 * Sq(p.x);
  }

  /** The sum in the group is the chord and tangent sum. */
  lemma AddIsSum(p: Point, q: Point)
    ensures IsSum(p, q, Add(p, q))
  {
    hide Slope, OnLine, Lies, Z0, OnC;
    if p.infinity {
      SameRefl(q);
    } else if q.infinity {
      SameRefl(p);
    } else {
      var a := AddCases(p, q);
      if !Opposite(p, q) {
        SumOfSlope(p, q, a);
      }
    }
  }

  lemma PointOnCurve(p: Point)
    ensures OnCurve(p)
  {
    hide Lies;
    PointOnC(p);
  }

  // ---------- the routines ----------

  /** Whatever is the same as p, p itself is denoted. */
  lemma DenotesMoved(j: Jac, s: Aff, p: Aff)
    requires Denotes(j, s) && SameAffine(s, p)
    ensures Denotes(j, p)
  {
    hide Z0;
    if !j.infinity {
      EqRefl(Sq(j.z));
      EqRefl(Cube(j.z));
      EqMul(s.x, p.x, Sq(j.z), Sq(j.z));
      EqMul(s.y, p.y, Cube(j.z), Cube(j.z));
      EqTrans(j.x, s.x * Sq(j.z), p.x * Sq(j.z));
      EqTrans(j.y, s.y * Cube(j.z), p.y * Cube(j.z));
    }
  }

  /** Either addition routine adds in the group. */
  lemma StepAdds(j: Jac, p: Point, e: Addition, b: Point)
    requires Denotes(j, p) && e.b == b && !b.infinity
    ensures Denotes(Step(j, e), Add(p, b)) && OnCurveJ(Step(j, e))
  {
    hide Denotes, OnCurve, OnCurveJ, Step, IsSum, SameAffine, Reduced, Add;
    PointOnCurve(p);
    PointOnCurve(b);
    SameOnCurve(j, p);
    var s := StepIsPoint(j, p, e);
    AddIsSum(p, b);
    SumUnique(p, b, s, Add(p, b));
    DenotesMoved(Step(j, e), s, Add(p, b));
  }

  /** Doubling does, too. */
  lemma DoublingAdds(j: Jac, p: Point)
    requires Denotes(j, p) && !j.infinity
    ensures Denotes(Doubled(j), Add(p, p))
  {
    hide Denotes, OnCurve, OnCurveJ, OnLine, SameAffine, Reduced, Add, Doubled, Z0;
    PointOnCurve(p);
    SameOnCurve(j, p);
    DoubledFinite(j);
    var s := AffineExists(Doubled(j));
    TangentIsLine(j, p, s);
    DenotesFinite(j, p);
    DoubledIsSum(p, s);
    AddIsSum(p, p);
    SumUnique(p, p, s, Add(p, p));
    DenotesMoved(Doubled(j), s, Add(p, p));
  }

  lemma DenotesFinite(j: Jac, p: Aff)
    requires Denotes(j, p)
    ensures j.infinity == p.infinity
  {
  }

  lemma DoubledFinite(j: Jac)
    requires OnCurveJ(j) && !j.infinity
    ensures !Doubled(j).infinity && !Z0(Doubled(j).z)
  {
    NoZeroDivisors(j.z, j.y);
    TwoIsUnit(j.z * j.y);
    TwiceProduct2(j.z, j.y);
  }

  lemma DoubledIsSum(p: Aff, s: Aff)
    requires !p.infinity && OnCurve(p) && OnLine(p, p.x, 2 * p.y, 3 * Sq(p.x), s)
    ensures IsSum(p, p, s)
  {
    hide Z0, OnLine, OnCurve;
    AffineNonzero(p);
    EqRefl(p.x);
    TwoIsUnit(p.y);
    assert p.y + p.y == 2 * p.y;
  }

  /** p plus all the points of a list, one after the other, in the group */
  ghost function Total(p: Point, bs: seq<Point>): Point {
    if |bs| == 0 then p else Add(Total(p, bs[..|bs| - 1]), bs[|bs| - 1])
  }

  /**
   * A run of additions of any length, each step by whichever routine, ends in a representation of the sum in the group.
   */
  lemma {:induction false} RunAdds(j: Jac, p: Point, es: seq<Addition>, bs: seq<Point>)
    requires Denotes(j, p) && |es| == |bs|
    requires forall i :: 0 <= i < |es| ==> es[i].b == bs[i] && !bs[i].infinity
    ensures Denotes(Run(j, es), Total(p, bs))
    decreases |es|
  {
    hide Denotes, Step, Add, Reduced;
    if |es| != 0 {
      var n := |es| - 1;
      RunAdds(j, p, es[..n], bs[..n]);
      StepAdds(Run(j, es[..n]), Total(p, bs[..n]), es[n], bs[n]);
    }
  }

  /** That sum is the linear combination of the points with all coefficients 1, so their order does not matter. */
  lemma {:induction false} TotalIsLin(p: Point, bs: seq<Point>)
    ensures var g := PointGroup(); Total(p, bs) == g.add(p, g.Lin(seq(|bs|, i => 1), bs))
    decreases |bs|
  {
    hide Add, Reduced, Negate, Group.Mul, Group.Valid;
    PointsAreAGroup();
    var g := PointGroup();
    if |bs| == 0 {
      g.Zero(p);
    } else {
      var n := |bs| - 1;
      var c := seq(n, i => 1);
      TotalIsLin(p, bs[..n]);
      assert seq(|bs|, i => 1) == c + [1];
      assert bs == bs[..n] + [bs[n]];
      g.LinSnoc(c, bs[..n], 1, bs[n]);
      g.MulOne(bs[n]);
      g.Assoc(p, g.Lin(c, bs[..n]), bs[n]);
    }
  }
}
