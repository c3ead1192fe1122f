/** How many points there can be: at most two for every x. */
module PointsCount {
  import opened FieldMul
  import opened Points
  import opened PointsLaw
  import opened PointsGroup
  import opened CubeRoots
  import opened CyclicGroups

  /** Points with one x are equal or opposite. */
  lemma SameX(p: Point, q: Point)
    requires !p.infinity && !q.infinity && p.x == q.x
    ensures q == p || q == Negate(p)
  {
    hide Z0, OnC, Lies, Negate;
    PointOnC(p);
    PointOnC(q);
    CurveDifference(p, q);
    ZeroIsZero();
    SquaresEqual(p.x, q.x, q.y - p.y, q.y + p.y);
    if Z0(q.y - p.y) {
      SamePointReduced(q, p);
    } else {
      assert p.y + q.y == q.y + p.y;
      assert p.x - q.x == 0;
      OppositeIsNegate(p, q);
    }
  }

  lemma SquaresEqual(x: int, x': int, d: int, s: int)
    requires x == x' && Z0(d * s - (x' - x) * Quadratic(x, x'))
    ensures Z0(d) || Z0(s)
  {
    assert (x' - x) * Quadratic(x, x') == 0;
    NoZeroDivisors(d, s);
  }

  lemma {:induction false} BoundBelow(s: set<Point>, n: nat)
    requires forall p <- s :: !p.infinity && p.x < n
    ensures |s| <= 2 * n
    decreases n
  {
    hide Reduced, Negate;
    if n == 0 {
      forall p | p in s
        ensures false
      {
        NotNegative(p);
      }
    } else if p: Point :| p in s && p.x == n - 1 {
      var t := s - {p, Negate(p)};
      forall q | q in t
        ensures q.x < n - 1
      {
        if q.x == n - 1 {
          SameX(p, q);
        }
      }
      BoundBelow(t, n - 1);
      SizeWithout(s, p, Negate(p));
    } else {
      BoundBelow(s, n - 1);
    }
  }

  lemma NotNegative(p: Point)
    requires !p.infinity
    ensures 0 <= p.x < P
  {
    hide Lies;
  }

  lemma SizeWithout(s: set<Point>, p: Point, q: Point)
    ensures |s| <= |s - {p, q}| + 2
  {
    assert s <= (s - {p, q}) + {p, q};
    SubsetSize(s, (s - {p, q}) + {p, q});
    assert |{p, q}| <= 2;
  }

  lemma {:induction false} SubsetSize<T>(s: set<T>, t: set<T>)
    requires s <= t
    ensures |s| <= |t|
  {
    if x :| x in s {
      SubsetSize(s - {x}, t - {x});
    }
  }

  /** No set of points has more than 2 p + 1 elements. */
  lemma PointsBound(s: set<Point>)
    ensures |s| <= 2 * P + 1
  {
    hide Reduced;
    var t := s - {INFINITY};
    forall p | p in t
      ensures !p.infinity && p.x < P
    {
      if p.infinity {
        OneInfinity(p);
      } else {
        NotNegative(p);
      }
    }
    BoundBelow(t, P);
    assert s <= t + {INFINITY};
    SubsetSize(s, t + {INFINITY});
  }

  lemma OneInfinity(p: Point)
    requires p.infinity
    ensures p == INFINITY
  {
  }

  /** No point is its own opposite. */
  lemma NoSelfOpposite(p: Point)
    requires Add(p, p) == INFINITY
    ensures p == INFINITY
  {
    hide Z0, OnC, Lies, Opposite, Slope;
    if !p.infinity {
      var a := AddCases(p, p);
      if Opposite(p, p) {
        TwiceY(p);
        PointOnC(p);
        OppositeRoot(p.x, p.y);
      }
    }
  }

  lemma TwiceY(p: Aff)
    requires Opposite(p, p)
    ensures Z0(2 * p.y)
  {
    assert 2 * p.y == p.y + p.y;
  }

  lemma OppositeRoot(x: int, y: int)
    requires Z0(2 * y)
    ensures !OnC(Aff(x, y, false))
  {
    hide Z0;
    TwoIsUnit(y);
    NoCubeRoot(x);
    if OnC(Aff(x, y, false)) {
      assert Cube(x) + 7 == -1 * (y * y - x * x * x - 7) + y * y;
      ZeroCombine(Cube(x) + 7, -1, y * y - x * x * x - 7, y, y);
    }
  }

  lemma PointsNoOrderTwo()
    ensures NoOrderTwo(PointGroup())
  {
    forall p: Point | PointGroup().add(p, p) == PointGroup().zero
      ensures p == PointGroup().zero
    {
      NoSelfOpposite(p);
    }
  }
}
