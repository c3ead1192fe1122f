/** The fast endomorphism on the points of the curve: multiplication of x by a cube root of 1. */
module PointsEndo {
  import opened Points
  import opened PointsSum
  import opened PointsLaw
  import opened PointsGroup

  /** X is b x in the field. */
  ghost predicate Image(x: int, b: int, X: int) {
    x >= 0 && Z0(Times(b, x) - X)
  }

  lemma ImageIs(x: int, b: int, X: int)
    requires x >= 0
    ensures Image(x, b, X) <==> Z0(x * b - X)
  {
    hide Z0, Times;
    TimesIs(b, x);
  }

  ghost predicate Root(b: int) {
    Z0(b * b * b - 1)
  }

  ghost function Endo(p: Point): Point {
    if p.infinity then p
    else
      EndoOnCurve(p);
      Aff(Residue(Times(BETA, p.x)), p.y, false)
  }

  lemma EndoOnCurve(p: Point)
    requires !p.infinity
    ensures Reduced(Aff(Residue(Times(BETA, p.x)), p.y, false)) && Image(p.x, BETA, Residue(Times(BETA, p.x)))
  {
    hide Lies, Z0, Times;
    BetaRoot();
    LiesImage(p.x, p.y, BETA, Residue(Times(BETA, p.x)));
  }

  lemma BetaRoot()
    ensures Root(BETA)
  {
    BetaIsCubeRoot();
  }

  lemma LiesImage(x: nat, y: nat, b: int, X: nat)
    requires Lies(x, y) && Root(b) && Image(x, b, X)
    ensures Lies(X, y)
  {
    hide Lies, Z0, Image;
    ImageIs(x, b, X);
    LiesOnC(Aff(x, y, false));
    LiesOnC(Aff(X, y, false));
    ImageOnCurve(x, y, b, X);
    Combine3(y * y - X * X * X - 7, 1, y * y - x * x * x - 7, -(x * x * x), b * b * b - 1, Quadratic(x * b, X), x * b - X);
  }

  lemma ImageOnCurve(x: int, y: int, b: int, X: int)
    ensures y * y - X * X * X - 7
      == 1 * (y * y - x * x * x - 7) + -(x * x * x) * (b * b * b - 1) + Quadratic(x * b, X) * (x * b - X)
  {
    CubesApart(x * b, X);
    assert (x * b) * (x * b) * (x * b) == (x * x * x) * (b * b * b);
  }

  lemma CubesApart(x: int, x': int)
    ensures Quadratic(x, x') * (x - x') == x * x * x - x' * x' * x'
  {
  }

  // ---------- it is a homomorphism ----------

  lemma ImageSlope(p: Aff, q: Aff, p': Aff, q': Aff, a: int, b: int)
    requires Slope(p, q, a) && Root(b) && Image(p.x, b, p'.x) && Image(q.x, b, q'.x) && p'.y == p.y && q'.y == q.y
    ensures Slope(p', q', a * b * b)
  {
    hide Z0, Image;
    ImagesAre(p, q, p'.x, q'.x, b);
    var c := a * b * b;
    ImageChord(p.x, p.y, q.x, q.y, p'.x, q'.x, a, b);
    Combine4(c * (q'.x - p'.x) - (q.y - p.y), 1, a * (q.x - p.x) - (q.y - p.y), a * (q.x - p.x), b * b * b - 1,
             -c, q.x * b - q'.x, c, p.x * b - p'.x);
    ImageTangent(p.x, q.x, p.y + q.y, p'.x, q'.x, a, b);
    Combine3(c * (p.y + q.y) - Quadratic(p'.x, q'.x), b * b, a * (p.y + q.y) - Quadratic(p.x, q.x),
             p.x * b + p'.x + q.x * b, p.x * b - p'.x, q.x * b + q'.x + p'.x, q.x * b - q'.x);
  }

  lemma ImagesAre(p: Aff, q: Aff, X: int, X': int, b: int)
    requires Image(p.x, b, X) && Image(q.x, b, X')
    ensures Z0(p.x * b - X) && Z0(q.x * b - X')
  {
    hide Z0, Image;
    ImageElim(p.x, b, X);
    ImageElim(q.x, b, X');
  }

  lemma ImageChord(x: int, y: int, x': int, y': int, X: int, X': int, a: int, b: int)
    ensures var c := a * b * b;
      c * (X' - X) - (y' - y)
        == 1 * (a * (x' - x) - (y' - y)) + (a * (x' - x)) * (b * b * b - 1) + -c * (x' * b - X') + c * (x * b - X)
  {
    var c := a * b * b;
    assert (a * (x' - x)) * (b * b * b) == c * (x' * b) - c * (x * b);
    Spread(c, x' * b, X', x * b, X);
  }

  lemma Spread(c: int, u: int, U: int, v: int, V: int)
    ensures c * (U - V) == (c * u - c * v) + -c * (u - U) + c * (v - V)
  {
  }

  lemma ImageTangent(x: int, x': int, s: int, X: int, X': int, a: int, b: int)
    ensures (a * b * b) * s - Quadratic(X, X')
      == (b * b) * (a * s - Quadratic(x, x')) + (x * b + X + x' * b) * (x * b - X) + (x' * b + X' + X) * (x' * b - X')
  {
    QuadraticsApart(x * b, x' * b, X, X');
    assert Quadratic(x * b, x' * b) == (b * b) * Quadratic(x, x');
    assert (a * b * b) * s == (b * b) * (a * s);
  }

  lemma QuadraticsApart(u: int, v: int, U: int, V: int)
    ensures Quadratic(u, v) - Quadratic(U, V) == (u + U + v) * (u - U) + (v + V + U) * (v - V)
  {
  }

  lemma ImageThird(p: Aff, q: Aff, s: Aff, p': Aff, q': Aff, s': Aff, a: int, b: int)
    requires Third(p, q, a, s) && Root(b) && Image(p.x, b, p'.x) && Image(q.x, b, q'.x) && Image(s.x, b, s'.x)
    requires p'.y == p.y && s'.y == s.y
    ensures Third(p', q', a * b * b, s')
  {
    hide Z0, Image;
    ImagesAre(p, q, p'.x, q'.x, b);
    ImagesAre(p, s, p'.x, s'.x, b);
    var c := a * b * b;
    ImageThirdX(p.x, q.x, s.x, p'.x, q'.x, s'.x, a, b);
    Combine3(p.x * b - p'.x + (q.x * b - q'.x) + (s.x * b - s'.x), 1, p.x * b - p'.x, 1, q.x * b - q'.x, 1, s.x * b - s'.x);
    Combine3(c * c - p'.x - q'.x - s'.x, b, a * a - p.x - q.x - s.x, a * a * b, b * b * b - 1,
             1, p.x * b - p'.x + (q.x * b - q'.x) + (s.x * b - s'.x));
    ImageChord(s.x, -s.y, p.x, p.y, s'.x, p'.x, a, b);
    assert c * (p'.x - s'.x) - p.y - s.y == c * (p'.x - s'.x) - (p.y - -s.y);
    assert a * (p.x - s.x) - p.y - s.y == a * (p.x - s.x) - (p.y - -s.y);
    Combine4(c * (p'.x - s'.x) - p.y - s.y, 1, a * (p.x - s.x) - p.y - s.y, a * (p.x - s.x), b * b * b - 1,
             -c, p.x * b - p'.x, c, s.x * b - s'.x);
  }

  lemma ImageThirdX(x: int, x': int, s: int, X: int, X': int, S: int, a: int, b: int)
    ensures (a * b * b) * (a * b * b) - X - X' - S
      == b * (a * a - x - x' - s) + (a * a * b) * (b * b * b - 1) + 1 * (x * b - X + (x' * b - X') + (s * b - S))
  {
    assert (a * b * b) * (a * b * b) == (a * a * b) * (b * b * b);
  }

  lemma ImageOpposite(p: Aff, q: Aff, p': Aff, q': Aff, b: int)
    requires Opposite(p, q) && Image(p.x, b, p'.x) && Image(q.x, b, q'.x) && p'.y == p.y && q'.y == q.y
    ensures Opposite(p', q')
  {
    hide Z0, Image;
    ImagesAre(p, q, p'.x, q'.x, b);
    assert b * (p.x - q.x) == p.x * b - q.x * b;
    Combine3(p'.x - q'.x, b, p.x - q.x, -1, p.x * b - p'.x, 1, q.x * b - q'.x);
  }

  lemma EndoAdd(p: Point, q: Point)
    ensures Endo(Add(p, q)) == Add(Endo(p), Endo(q))
  {
    hide Slope, Third, Opposite, Z0, Image, Lies, Root;
    BetaRoot();
    if !p.infinity && !q.infinity {
      var a := AddCases(p, q);
      var p', q' := Endo(p), Endo(q);
      EndoOnCurve(p);
      EndoOnCurve(q);
      if Opposite(p, q) {
        ImageOpposite(p, q, p', q', BETA);
        AddOpposite(p', q');
      } else {
        var s := Add(p, q);
        EndoOnCurve(s);
        ImageSlope(p, q, p', q', a, BETA);
        ImageThird(p, q, s, p', q', Endo(s), a, BETA);
        AddIs(p', q', a * BETA * BETA, Endo(s));
      }
    }
  }

  // ---------- p, its image and the image of that are on a line ----------

  lemma BetaSum()
    ensures Z0(BETA * BETA + BETA + 1)
  {
    ZeroRemainder(BETA * BETA + BETA + 1);
  }

  lemma ImageElim(x: int, b: int, X: int)
    requires Image(x, b, X)
    ensures Z0(x * b - X)
  {
    hide Z0, Times;
    ImageIs(x, b, X);
  }

  lemma LevelSlope(x: int, b: int, X: int)
    requires Z0(b * b + b + 1) && Image(x, b, X)
    ensures Z0(Quadratic(x, X))
  {
    hide Z0, Image;
    ImageElim(x, b, X);
    LevelAlgebra(x, b, X);
    ZeroCombine(Quadratic(x, X), x * x, b * b + b + 1, -(x + x * b + X), x * b - X);
  }

  lemma LevelAlgebra(x: int, b: int, X: int)
    ensures Quadratic(x, X) == (x * x) * (b * b + b + 1) + -(x + x * b + X) * (x * b - X)
  {
    var u := x * b;
    assert (x * x) * (b * b + b + 1) == u * u + x * u + x * x;
    assert (x + u + X) * (u - X) == u * u - X * X + x * u - x * X;
  }

  lemma LevelThird(x: int, b: int, X: int, Y: int)
    requires Z0(b * b + b + 1) && Image(x, b, X) && Image(X, b, Y)
    ensures Z0(0 - x - X - Y)
  {
    hide Z0, Image;
    ImageElim(x, b, X);
    ImageElim(X, b, Y);
    assert 0 - x - X - Y == -x * (b * b + b + 1) + (1 + b) * (x * b - X) + 1 * (X * b - Y) by {
      assert (1 + b) * (x * b - X) == x * b - X + x * (b * b) - X * b;
      assert x * (b * b + b + 1) == x * (b * b) + x * b + x;
    }
    Combine3(0 - x - X - Y, -x, b * b + b + 1, 1 + b, x * b - X, 1, X * b - Y);
  }

  /** A point, its image and the image of its image sum to zero. */
  lemma EndoSum(p: Point)
    ensures Add(p, Endo(p)) == Negate(Endo(Endo(p)))
  {
    hide Z0, Image, Lies, Root, Opposite;
    if !p.infinity {
      var q := Endo(p);
      var r := Endo(q);
      EndoOnCurve(p);
      EndoOnCurve(q);
      BetaSum();
      LevelSlope(p.x, BETA, q.x);
      LevelThird(p.x, BETA, q.x, r.x);
      LevelLine(p, q, r);
    }
  }

  lemma LevelLine(p: Point, q: Point, r: Point)
    requires !p.infinity && !q.infinity && !r.infinity && p.y == q.y == r.y
    requires Z0(Quadratic(p.x, q.x)) && Z0(0 - p.x - q.x - r.x)
    ensures Add(p, q) == Negate(r)
  {
    hide Z0, Lies;
    var s := Negate(r);
    NegateOpposite(r);
    ZeroIsZero();
    ZeroTimes(0 - Quadratic(p.x, q.x), -1, Quadratic(p.x, q.x));
    ZeroTimes(0 - p.y - s.y, -1, s.y + r.y);
    LevelIs(p, q, s);
    AddIs(p, q, 0, s);
  }

  lemma LevelIs(p: Aff, q: Aff, s: Aff)
    requires p.y == q.y && Z0(0) && Z0(0 - Quadratic(p.x, q.x)) && Z0(0 - p.x - q.x - s.x) && Z0(0 - p.y - s.y)
    ensures Slope(p, q, 0) && Third(p, q, 0, s)
  {
    hide Z0;
  }
}
