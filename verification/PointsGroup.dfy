/** The points of the curve, with coordinates below p, are an abelian group under the chord and tangent law. */
module PointsGroup {
  import opened FieldMul
  import opened Points
  import opened PointsSum
  import opened PointsLaw
  import opened Groups

  ghost predicate Reduced(p: Aff) {
    if p.infinity then p == Aff(0, 0, true)
    else 0 <= p.x < P && 0 <= p.y < P && Lies(p.x, p.y)
  }

  function Sum(xs: seq<int>): int {
    if |xs| == 0 then 0 else Sum(xs[..|xs| - 1]) + xs[|xs| - 1]
  }

  /** The product, by repeated addition */
  function Times(x: int, n: nat): int {
    Sum(seq(n, i => x))
  }

  lemma {:induction false} TimesIs(x: int, n: nat)
    ensures Times(x, n) == x * n
  {
    if n != 0 {
      assert seq(n, i => x)[..n - 1] == seq(n - 1, i => x);
      TimesIs(x, n - 1);
      assert x * n == x * (n - 1) + x;
    } else {
      assert x * 0 == 0;
    }
  }

  /** The equation of the curve */
  ghost predicate Lies(x: nat, y: nat) {
    Z0(Times(y, y) - Times(Times(x, x), x) - 7)
  }

  type Point = p: Aff | Reduced(p) witness Aff(0, 0, true)

  const INFINITY: Point := Aff(0, 0, true)

  lemma LiesOnC(p: Aff)
    requires p.x >= 0 && p.y >= 0
    ensures Lies(p.x, p.y) <==> OnC(p)
  {
    hide Z0, Times;
    TimesIs(p.y, p.y);
    TimesIs(p.x, p.x);
    TimesIs(p.x * p.x, p.x);
  }

  lemma PointOnC(p: Point)
    ensures !p.infinity ==> OnC(p)
  {
    hide OnC, Lies;
    LiesOnC(p);
  }

  // ---------- numbers below p ----------

  lemma SameReduced(x: int, x': int)
    requires 0 <= x < P && 0 <= x' < P && Z0(x - x')
    ensures x == x'
  {
    if x < x' {
      ZeroTimes(x' - x, -1, x - x');
      SmallIsNotZero(x' - x);
    } else if x' < x {
      SmallIsNotZero(x - x');
    }
  }

  lemma SamePointReduced(p: Point, q: Point)
    requires !p.infinity && !q.infinity && Z0(p.x - q.x) && Z0(p.y - q.y)
    ensures p == q
  {
    SameReduced(p.x, q.x);
    SameReduced(p.y, q.y);
  }

  /** The number below p that x counts as */
  ghost function Residue(x: int): (r: int)
    ensures 0 <= r < P && Z0(x - r)
  {
    ResidueExists(x);
    var r :| 0 <= r < P && Z0(x - r);
    r
  }

  lemma ResidueExists(x: int)
    ensures 0 <= x % P < P && Z0(x - x % P)
  {
    assert x == P * (x / P) + x % P;
    ZeroIntro(x - x % P, x / P);
  }

  lemma ResidueIs(x: int)
    ensures Residue(x) == x % P
  {
    hide Z0;
    ResidueExists(x);
    assert Residue(x) - x % P == 1 * (x - x % P) + -1 * (x - Residue(x));
    ZeroCombine(Residue(x) - x % P, 1, x - x % P, -1, x - Residue(x));
    SameReduced(Residue(x), x % P);
  }

  // ---------- the law ----------

  ghost function Negate(p: Point): Point {
    if p.infinity then p
    else
      NegateOnCurve(p);
      Aff(p.x, Residue(-p.y), false)
  }

  lemma NegateOnCurve(p: Point)
    requires !p.infinity
    ensures Reduced(Aff(p.x, Residue(-p.y), false)) && Z0(-p.y - Residue(-p.y))
  {
    hide Lies, Z0;
    LiesNegated(p.x, p.y, Residue(-p.y));
  }

  lemma LiesNegated(x: int, y: int, y': int)
    requires x >= 0 && y >= 0 && y' >= 0 && Lies(x, y) && Z0(-y - y')
    ensures Lies(x, y')
  {
    hide Lies, Z0;
    LiesOnC(Aff(x, y, false));
    LiesOnC(Aff(x, y', false));
    NegatedAlgebra(x, y, y');
    ZeroCombine(y' * y' - x * x * x - 7, 1, y * y - x * x * x - 7, y - y', -y - y');
  }

  lemma NegatedAlgebra(x: int, y: int, y': int)
    ensures y' * y' - x * x * x - 7 == 1 * (y * y - x * x * x - 7) + (y - y') * (-y - y')
  {
  }

  /** The natural number a is the slope of the line through p and q, in sums. */
  ghost predicate Joins(p: Point, q: Point, a: nat)
    requires !p.infinity && !q.infinity
  {
    && Z0(Times(a, q.x) - Times(a, p.x) - q.y + p.y)
    && Z0(Times(a, p.y) + Times(a, q.y) - Times(p.x, p.x) - Times(p.x, q.x) - Times(q.x, q.x))
  }

  /** Where the line leads. */
  ghost function Meets(p: Point, q: Point, a: nat): Aff
    requires !p.infinity && !q.infinity
  {
    var u := Residue(Times(a, a) - p.x - q.x);
    Aff(u, Residue(Times(a, p.x) - Times(a, u) - p.y), false)
  }

  ghost function Add(p: Point, q: Point): Point {
    if p.infinity then q
    else if q.infinity then p
    else if exists a: nat :: Joins(p, q, a) then
      var a: nat :| Joins(p, q, a);
      MeetsOnCurve(p, q, a);
      Meets(p, q, a)
    else INFINITY
  }

  lemma JoinsIs(p: Point, q: Point, a: nat)
    requires !p.infinity && !q.infinity
    ensures Joins(p, q, a) <==> Slope(p, q, a)
  {
    hide Lies, Z0, Times;
    TimesIs(a, q.x);
    TimesIs(a, p.x);
    TimesIs(a, p.y);
    TimesIs(a, q.y);
    TimesIs(p.x, p.x);
    TimesIs(p.x, q.x);
    TimesIs(q.x, q.x);
    JoinsAlgebra(p.x, p.y, q.x, q.y, a);
  }

  lemma JoinsAlgebra(x: int, y: int, x': int, y': int, a: int)
    ensures a * (x' - x) - (y' - y) == a * x' - a * x - y' + y
    ensures a * (y + y') - Quadratic(x, x') == a * y + a * y' - x * x - x * x' - x' * x'
  {
  }

  lemma MeetsThird(p: Point, q: Point, a: nat)
    requires !p.infinity && !q.infinity
    ensures Third(p, q, a, Meets(p, q, a))
  {
    hide Lies, Z0, Times;
    var u := Meets(p, q, a).x;
    TimesIs(a, a);
    TimesIs(a, p.x);
    TimesIs(a, u);
    assert a * (p.x - u) == a * p.x - a * u;
  }

  lemma MeetsOnCurve(p: Point, q: Point, a: nat)
    requires !p.infinity && !q.infinity && Joins(p, q, a)
    ensures Reduced(Meets(p, q, a))
  {
    hide Slope, Third, OnC, Lies, Z0, Times;
    var s := Meets(p, q, a);
    JoinsIs(p, q, a);
    MeetsThird(p, q, a);
    PointOnC(p);
    ThirdOnCurve(p, q, a, s);
    LiesOnC(s);
  }

  /** Two points that are not opposite are on a line. */
  lemma SlopeExists(p: Aff, q: Aff) returns (a: int)
    requires OnC(p) && OnC(q) && !Opposite(p, q)
    ensures Slope(p, q, a)
  {
    hide OnC, Z0;
    CurveDifference(p, q);
    var k := Quadratic(p.x, q.x);
    if Z0(q.x - p.x) {
      ZeroTimes(p.x - q.x, -1, q.x - p.x);
      var t := InverseOf(p.y + q.y);
      a := t * k;
      TangentExists(p.x, p.y, q.x, q.y, t, k);
    } else {
      var t := InverseOf(q.x - p.x);
      a := t * (q.y - p.y);
      ChordExists(p.x, p.y, q.x, q.y, t, k);
    }
  }

  lemma TangentExists(x: int, y: int, x': int, y': int, t: int, k: int)
    requires Z0(x' - x) && !Z0(y + y') && Z0(t * (y + y') - 1)
    requires Z0((y' - y) * (y' + y) - (x' - x) * k)
    ensures Z0((t * k) * (x' - x) - (y' - y)) && Z0((t * k) * (y + y') - k)
  {
    hide Z0;
    var h, i, m := x' - x, y' - y, y + y';
    CommuteDifference(h, i, m, k);
    ZeroCombine(m * i, 1, i * (y' + y) - h * k, k, h);
    Cancel(m, i);
    ZeroCombine((t * k) * h - i, t * k, h, -1, i);
    CommonFactor(t, m, k);
    ZeroTimes((t * k) * m - k, k, t * m - 1);
  }

  lemma CommuteDifference(h: int, i: int, m: int, k: int)
    ensures m * i == 1 * (i * m - h * k) + k * h
  {
  }

  lemma CommonFactor(t: int, m: int, k: int)
    ensures (t * k) * m - k == k * (t * m - 1)
  {
  }

  lemma ChordExists(x: int, y: int, x': int, y': int, t: int, k: int)
    requires !Z0(x' - x) && Z0(t * (x' - x) - 1) && Z0((y' - y) * (y' + y) - (x' - x) * k)
    ensures Z0((t * (y' - y)) * (x' - x) - (y' - y)) && Z0((t * (y' - y)) * (y + y') - k)
  {
    hide Z0;
    var h, i, m, a := x' - x, y' - y, y + y', t * (y' - y);
    CommonFactor(t, h, i);
    ZeroTimes(a * h - i, i, t * h - 1);
    ChordExistsAlgebra(h, m, a, i, k);
    ZeroCombine(h * (a * m - k), m, a * h - i, 1, i * (y' + y) - h * k);
    Cancel(h, a * m - k);
  }

  lemma ChordExistsAlgebra(h: int, m: int, a: int, i: int, k: int)
    ensures h * (a * m - k) == m * (a * h - i) + 1 * (i * m - h * k)
  {
  }

  /** A point that the line gives is the sum, whatever slope is chosen. */
  lemma AddIs(p: Point, q: Point, a: int, s: Point)
    requires !p.infinity && !q.infinity && !s.infinity && Slope(p, q, a) && Third(p, q, a, s)
    ensures Add(p, q) == s
  {
    hide Slope, Third, OnC, Lies, Z0, Joins, Meets;
    PointOnC(p);
    NaturalSlope(p, q, a);
    var b: nat :| Joins(p, q, b) && Add(p, q) == Meets(p, q, b);
    JoinsIs(p, q, b);
    SlopeUnique(p, q, a, b);
    MeetsThird(p, q, b);
    MeetsFinite(p, q, b);
    OneThird(p, q, a, s, b, Add(p, q));
  }

  lemma NaturalSlope(p: Point, q: Point, a: int)
    requires !p.infinity && !q.infinity && Slope(p, q, a)
    ensures exists b: nat :: Joins(p, q, b)
  {
    hide Lies, Z0, Joins;
    var b := Residue(a);
    JoinsIs(p, q, b);
    var h, m := q.x - p.x, p.y + q.y;
    assert b * h - (q.y - p.y) == 1 * (a * h - (q.y - p.y)) + -h * (a - b);
    ZeroCombine(b * h - (q.y - p.y), 1, a * h - (q.y - p.y), -h, a - b);
    assert b * m - Quadratic(p.x, q.x) == 1 * (a * m - Quadratic(p.x, q.x)) + -m * (a - b);
    ZeroCombine(b * m - Quadratic(p.x, q.x), 1, a * m - Quadratic(p.x, q.x), -m, a - b);
  }

  /** Two slopes that count as one lead to one point. */
  lemma OneThird(p: Aff, q: Aff, a: int, s: Point, b: int, t: Point)
    requires !s.infinity && !t.infinity && Third(p, q, a, s) && Third(p, q, b, t) && Z0(a - b)
    ensures s == t
  {
    hide Z0, Lies;
    ThirdSame(p.x, p.y, q.x, a, b, s.x, s.y, t.x, t.y);
    SamePointReduced(s, t);
  }

  lemma ThirdSame(x: int, y: int, x': int, a: int, b: int, u: int, v: int, u': int, v': int)
    requires Z0(a * a - x - x' - u) && Z0(a * (x - u) - y - v) && Z0(b * b - x - x' - u') && Z0(b * (x - u') - y - v') && Z0(a - b)
    ensures Z0(u - u') && Z0(v - v')
  {
    hide Z0;
    ThirdSameAlgebra(x, y, x', a, b, u, v, u', v');
    Combine3(u - u', -1, a * a - x - x' - u, 1, b * b - x - x' - u', a + b, a - b);
    Combine4(v - v', -1, a * (x - u) - y - v, 1, b * (x - u') - y - v', x - u, a - b, -b, u - u');
  }

  lemma ThirdSameAlgebra(x: int, y: int, x': int, a: int, b: int, u: int, v: int, u': int, v': int)
    ensures u - u' == -1 * (a * a - x - x' - u) + 1 * (b * b - x - x' - u') + (a + b) * (a - b)
    ensures v - v' == -1 * (a * (x - u) - y - v) + 1 * (b * (x - u') - y - v') + (x - u) * (a - b) + -b * (u - u')
  {
  }

  lemma AddOpposite(p: Point, q: Point)
    requires !p.infinity && !q.infinity && Opposite(p, q)
    ensures Add(p, q) == INFINITY
  {
    hide Slope, Joins, Lies, Z0;
    PointOnC(p);
    forall a: nat
      ensures !Joins(p, q, a)
    {
      JoinsIs(p, q, a);
      if Slope(p, q, a) {
        SlopeNotOpposite(p, q, a);
      }
    }
  }

  /** Either the points are opposite, or they have a slope. */
  lemma AddCases(p: Point, q: Point) returns (a: int)
    requires !p.infinity && !q.infinity
    ensures if Opposite(p, q) then Add(p, q) == INFINITY
      else !Add(p, q).infinity && Slope(p, q, a) && Third(p, q, a, Add(p, q))
  {
    hide Slope, Opposite, Third, OnC, Joins, Meets;
    a := 0;
    PointOnC(p);
    PointOnC(q);
    if Opposite(p, q) {
      AddOpposite(p, q);
    } else {
      a := SlopeExists(p, q);
      NaturalSlope(p, q, a);
      var b: nat :| Joins(p, q, b) && Add(p, q) == Meets(p, q, b);
      a := b;
      JoinsIs(p, q, b);
      MeetsThird(p, q, b);
      MeetsFinite(p, q, b);
    }
  }

  lemma MeetsFinite(p: Point, q: Point, a: nat)
    requires !p.infinity && !q.infinity
    ensures !Meets(p, q, a).infinity
  {
  }

  // ---------- the group laws ----------

  lemma AddComm(p: Point, q: Point)
    ensures Add(p, q) == Add(q, p)
  {
    hide Slope, Third, Opposite, Z0, Joins, Meets;
    if !p.infinity && !q.infinity {
      var a := AddCases(p, q);
      OppositeSym(p, q);
      if Opposite(p, q) {
        AddOpposite(q, p);
      } else {
        SlopeSym(p, q, a);
        ThirdSym(p, q, a, Add(p, q));
        AddIs(q, p, a, Add(p, q));
      }
    }
  }

  lemma OppositeSym(p: Aff, q: Aff)
    ensures Opposite(p, q) <==> Opposite(q, p)
  {
    Flip(p.x, q.x);
    assert p.y + q.y == q.y + p.y;
  }

  lemma NegateOpposite(p: Point)
    requires !p.infinity
    ensures !Negate(p).infinity && Opposite(p, Negate(p)) && Negate(p).x == p.x && Z0(Negate(p).y + p.y)
  {
    hide Lies;
    NegateOnCurve(p);
    var y := Negate(p).y;
    ZeroIsZero();
    ZeroTimes(y + p.y, -1, -p.y - y);
    assert p.y + y == y + p.y;
  }

  lemma AddNegate(p: Point)
    ensures Add(p, Negate(p)) == INFINITY
  {
    hide Opposite, Z0;
    if !p.infinity {
      NegateOpposite(p);
      AddOpposite(p, Negate(p));
    }
  }

  /** Opposite points are the negatives of one another. */
  lemma OppositeIsNegate(p: Point, q: Point)
    requires !p.infinity && !q.infinity && Opposite(p, q)
    ensures q == Negate(p)
  {
    hide Z0;
    NegateOpposite(p);
    var n := Negate(p);
    ZeroCombine(q.x - n.x, -1, p.x - q.x, 1, p.x - n.x);
    ZeroCombine(q.y - n.y, 1, p.y + q.y, -1, n.y + p.y);
    SamePointReduced(q, n);
  }

  lemma NegateNegate(p: Point)
    ensures Negate(Negate(p)) == p
  {
    hide Z0;
    if !p.infinity {
      NegateOpposite(p);
      OppositeSym(p, Negate(p));
      OppositeIsNegate(Negate(p), p);
    }
  }

  /** Negating both points negates the slope and the sum. */
  lemma NegateSlope(p: Aff, q: Aff, p': Aff, q': Aff, a: int)
    requires Slope(p, q, a) && p'.x == p.x && q'.x == q.x && Z0(p'.y + p.y) && Z0(q'.y + q.y)
    ensures Slope(p', q', -a)
  {
    hide Z0;
    NegateAlgebra(p.x, p.y, q.x, q.y, p'.y, q'.y, a);
    Combine3(-a * (q.x - p.x) - (q'.y - p'.y), -1, a * (q.x - p.x) - (q.y - p.y), 1, p'.y + p.y, -1, q'.y + q.y);
    Combine3(-a * (p'.y + q'.y) - Quadratic(p.x, q.x), 1, a * (p.y + q.y) - Quadratic(p.x, q.x), -a, p'.y + p.y, -a, q'.y + q.y);
  }

  lemma NegateAlgebra(x: int, y: int, x': int, y': int, m: int, n: int, a: int)
    ensures -a * (x' - x) - (n - m) == -1 * (a * (x' - x) - (y' - y)) + 1 * (m + y) + -1 * (n + y')
    ensures -a * (m + n) - Quadratic(x, x') == 1 * (a * (y + y') - Quadratic(x, x')) + -a * (m + y) + -a * (n + y')
  {
  }

  lemma NegateThird(p: Aff, q: Aff, p': Aff, s: Aff, s': Aff, a: int)
    requires Third(p, q, a, s) && p'.x == p.x && s'.x == s.x && Z0(p'.y + p.y) && Z0(s'.y + s.y)
    ensures Third(p', q, -a, s')
  {
    hide Z0;
    assert (-a) * (-a) == a * a;
    NegateThirdAlgebra(p.x, p.y, s.x, s.y, p'.y, s'.y, a);
    Combine3(-a * (p.x - s.x) - p'.y - s'.y, -1, a * (p.x - s.x) - p.y - s.y, -1, p'.y + p.y, -1, s'.y + s.y);
  }

  lemma NegateThirdAlgebra(x: int, y: int, u: int, v: int, m: int, n: int, a: int)
    ensures -a * (x - u) - m - n == -1 * (a * (x - u) - y - v) + -1 * (m + y) + -1 * (n + v)
  {
  }

  lemma NegateAdd(p: Point, q: Point)
    ensures Negate(Add(p, q)) == Add(Negate(p), Negate(q))
  {
    hide Slope, Third, Z0, Joins, Meets, Lies;
    if !p.infinity && !q.infinity {
      var a := AddCases(p, q);
      NegateOpposite(p);
      NegateOpposite(q);
      if Opposite(p, q) {
        OppositeIsNegate(p, q);
        NegateNegate(p);
        AddNegate(q);
      } else {
        var s := Add(p, q);
        NegateOpposite(s);
        NegateSlope(p, q, Negate(p), Negate(q), a);
        NegateThird(p, q, Negate(p), s, Negate(s), a);
        ThirdX(Negate(p), q, Negate(q), -a, Negate(s));
        AddIs(Negate(p), Negate(q), -a, Negate(s));
      }
    }
  }

  lemma ThirdX(p: Aff, q: Aff, q': Aff, a: int, s: Aff)
    requires Third(p, q, a, s) && q'.x == q.x
    ensures Third(p, q', a, s)
  {
  }

  /** -p + (p + q) == q */
  lemma AddCancels(p: Point, q: Point)
    ensures Add(Negate(p), Add(p, q)) == q
  {
    hide Slope, Third, Z0, Opposite, Joins, Meets, Lies;
    if q.infinity {
      AddNegate(p);
      AddComm(p, Negate(p));
    } else if !p.infinity {
      var a := AddCases(p, q);
      if Opposite(p, q) {
        OppositeIsNegate(p, q);
      } else {
        CancelsAlong(p, q, a);
      }
    }
  }

  lemma CancelsAlong(p: Point, q: Point, a: int)
    requires !p.infinity && !q.infinity && !Add(p, q).infinity && Slope(p, q, a) && Third(p, q, a, Add(p, q))
    ensures Add(Negate(p), Add(p, q)) == q
  {
    hide Slope, Third, Z0, Opposite, Negate, Add, Lies, Reduced;
    var s := Add(p, q);
    NegateOpposite(p);
    ThirdSlope(p, q, a, s);
    ZeroIsZero();
    assert s.y + Neg(s).y == 0;
    NegateSlope(p, Neg(s), Negate(p), s, a);
    BackAgain(p, q, a, s, Negate(p));
    AddIs(Negate(p), s, -a, q);
  }

  lemma BackAgain(p: Aff, q: Aff, a: int, s: Aff, p': Aff)
    requires Slope(p, q, a) && Third(p, q, a, s) && p'.x == p.x && Z0(p'.y + p.y)
    ensures Third(p', s, -a, q)
  {
    hide Z0;
    assert (-a) * (-a) - p.x - s.x - q.x == a * a - p.x - q.x - s.x;
    BackAlgebra(p.x, p.y, q.x, q.y, p'.y, a);
    ZeroCombine(-a * (p.x - q.x) - p'.y - q.y, 1, a * (q.x - p.x) - (q.y - p.y), -1, p'.y + p.y);
  }

  lemma BackAlgebra(x: int, y: int, x': int, y': int, m: int, a: int)
    ensures -a * (x - x') - m - y' == 1 * (a * (x' - x) - (y' - y)) + -1 * (m + y)
  {
  }

  // ---------- associativity ----------

  /** Where p + q cancels r, q + r cancels p. */
  lemma AssocOpposite(p: Point, q: Point, r: Point)
    requires r == Negate(Add(p, q))
    ensures Add(Add(p, q), r) == Add(p, Add(q, r))
  {
    var d := Add(p, q);
    AddNegate(d);
    NegateAdd(p, q);
    // q + r == q + (-q + -p) == -p
    AddComm(Negate(p), Negate(q));
    NegateNegate(q);
    AddCancels(Negate(q), Negate(p));
    AddNegate(p);
  }

  /** Where one of the inner sums is infinite. */
  lemma AssocCancel(p: Point, r: Point)
    ensures Add(Add(p, Negate(p)), r) == Add(p, Add(Negate(p), r))
  {
    AddNegate(p);
    NegateNegate(p);
    AddCancels(Negate(p), r);
  }

  /** The other order of the same three points. */
  lemma AssocReverse(p: Point, q: Point, r: Point)
    requires Add(Add(r, q), p) == Add(r, Add(q, p))
    ensures Add(Add(p, q), r) == Add(p, Add(q, r))
  {
    AddComm(p, q);
    AddComm(Add(p, q), r);
    AddComm(q, r);
    AddComm(p, Add(q, r));
  }

  /** On one line: then p and r are one point, or the sums cancel. */
  lemma SameSlope(p: Aff, q: Aff, r: Aff, a: int, c: int, d: Aff)
    requires Slope(p, q, a) && Slope(q, r, c) && Third(p, q, a, d) && Z0(a - c) && !Opposite(d, r)
    ensures Z0(p.x - r.x) && Z0(p.y - r.y)
  {
    hide Z0;
    var u := a * a - p.x - q.x - r.x;
    TwoSlopes(p, q, r, a, c);
    var k := (a + c) * (q.x - r.x) - 2 * q.y;
    ProductFactor(p.x - r.x, u, a - c, k);
    ZeroCombine((p.x - r.x) * u, 1, (p.x - r.x) * u - (a - c) * k, k, a - c);
    NoZeroDivisors(p.x - r.x, u);
    ThirdSym(p, q, a, d);
    if Z0(u) {
      SameSlopeOpposite(p.x, q.x, q.y, r.x, r.y, a, c, d.x, d.y);
    }
    SameSlopeY(p.x, p.y, q.x, q.y, r.x, r.y, a, c);
  }

  lemma ProductFactor(x: int, u: int, e: int, k: int)
    ensures x * u == 1 * (x * u - e * k) + k * e
  {
  }

  lemma SameSlopeOpposite(x1: int, x2: int, y2: int, x3: int, y3: int, a: int, c: int, xd: int, yd: int)
    requires Z0(a * a - x1 - x2 - x3) && Z0(a * a - x2 - x1 - xd) && Z0(a * (x2 - xd) - y2 - yd)
    requires Z0(c * (x3 - x2) - (y3 - y2)) && Z0(a - c)
    ensures Z0(xd - x3) && Z0(yd + y3)
  {
    hide Z0;
    ZeroCombine(xd - x3, 1, a * a - x1 - x2 - x3, -1, a * a - x2 - x1 - xd);
    SameSlopeAlgebra(x2, y2, x3, y3, a, c, xd, yd);
    Combine4(yd + y3, -1, a * (x2 - xd) - y2 - yd, -1, c * (x3 - x2) - (y3 - y2), x2 - x3, a - c, -a, xd - x3);
  }

  lemma SameSlopeAlgebra(x2: int, y2: int, x3: int, y3: int, a: int, c: int, xd: int, yd: int)
    ensures yd + y3 == -1 * (a * (x2 - xd) - y2 - yd) + -1 * (c * (x3 - x2) - (y3 - y2)) + (x2 - x3) * (a - c) + -a * (xd - x3)
  {
  }

  lemma SameSlopeY(x1: int, y1: int, x2: int, y2: int, x3: int, y3: int, a: int, c: int)
    requires Z0(a * (x2 - x1) - (y2 - y1)) && Z0(c * (x3 - x2) - (y3 - y2)) && Z0(a - c)
    ensures Z0(x1 - x3) ==> Z0(y1 - y3)
  {
    hide Z0;
    if Z0(x1 - x3) {
      SameSlopeYAlgebra(x1, y1, x2, y2, x3, y3, a, c);
      Combine4(y1 - y3, 1, a * (x2 - x1) - (y2 - y1), 1, c * (x3 - x2) - (y3 - y2), x3 - x2, a - c, a, x1 - x3);
    }
  }

  lemma SameSlopeYAlgebra(x1: int, y1: int, x2: int, y2: int, x3: int, y3: int, a: int, c: int)
    ensures y1 - y3 == 1 * (a * (x2 - x1) - (y2 - y1)) + 1 * (c * (x3 - x2) - (y3 - y2)) + (x3 - x2) * (a - c) + a * (x1 - x3)
  {
  }

  /** Where all four sums are finite and the slopes differ. */
  lemma AssocFinite(p: Point, q: Point, r: Point, d: Point, e: Point, a: int, c: int)
    requires !p.infinity && !q.infinity && !r.infinity && !d.infinity && !e.infinity
    requires Slope(p, q, a) && Slope(q, r, c) && !Z0(a - c) && Third(p, q, a, d) && Third(q, r, c, e)
    ensures Add(d, r) == Add(p, e)
  {
    hide Slope, Third, Z0, OnC, Add;
    PointOnC(p);
    PointOnC(q);
    PointOnC(r);
    var w := Quotient(a - c, p.x - r.x);
    NextSlope(p, q, r, a, c, w, d);
    BackSlope(p, q, r, a, c, w, e);
    PointOnC(d);
    PointOnC(e);
    var s := SumOnLine(d, r, w - a);
    var s' := SumOnLine(p, e, w - c);
    SumsAgree(p, q, r, a, c, w, d, e, s, s');
    SamePointReduced(s, s');
  }

  /** With a slope, the sum is finite and on the line. */
  lemma SumOnLine(p: Point, q: Point, a: int) returns (s: Point)
    requires !p.infinity && !q.infinity && Slope(p, q, a)
    ensures !s.infinity && s == Add(p, q) && Third(p, q, a, s)
  {
    hide Slope, Third, OnC, Joins, Meets, Z0, Lies, Opposite;
    PointOnC(p);
    SlopeNotOpposite(p, q, a);
    var b := AddCases(p, q);
    s := Add(p, q);
    SlopeUnique(p, q, b, a);
    ThirdOther(p, q, b, a, s);
  }

  lemma ThirdOther(p: Aff, q: Aff, a: int, b: int, s: Aff)
    requires Third(p, q, a, s) && Z0(a - b)
    ensures Third(p, q, b, s)
  {
    hide Z0;
    var c := p.x - s.x;
    assert b * b - p.x - q.x - s.x == 1 * (a * a - p.x - q.x - s.x) + -(a + b) * (a - b);
    ZeroCombine(b * b - p.x - q.x - s.x, 1, a * a - p.x - q.x - s.x, -(a + b), a - b);
    assert b * c - p.y - s.y == 1 * (a * c - p.y - s.y) + -c * (a - b);
    ZeroCombine(b * c - p.y - s.y, 1, a * c - p.y - s.y, -c, a - b);
  }

  lemma Quotient(k: int, x: int) returns (w: int)
    requires !Z0(k)
    ensures Z0(k * w - x)
  {
    var t := InverseOf(k);
    w := t * x;
    assert k * (t * x) - x == x * (t * k - 1);
    ZeroTimes(k * w - x, x, t * k - 1);
  }

  /** The same from the other end. */
  lemma BackSlope(p: Aff, q: Aff, r: Aff, a: int, c: int, w: int, e: Aff)
    requires OnC(p) && OnC(q) && OnC(r) && Slope(p, q, a) && Slope(q, r, c) && Third(q, r, c, e)
    requires !Z0(a - c) && Z0((a - c) * w - (p.x - r.x))
    ensures Slope(p, e, w - c)
  {
    hide Z0, OnC, Slope, Third;
    SlopeSym(p, q, a);
    SlopeSym(q, r, c);
    ThirdSwap(q, r, c, e);
    Flip(a, c);
    assert (c - a) * w - (r.x - p.x) == -1 * ((a - c) * w - (p.x - r.x));
    ZeroTimes((c - a) * w - (r.x - p.x), -1, (a - c) * w - (p.x - r.x));
    NextSlope(r, q, p, c, a, w, e);
    SlopeSym(e, p, w - c);
  }

  lemma ThirdSwap(q: Aff, r: Aff, c: int, e: Aff)
    requires Slope(q, r, c) && Third(q, r, c, e)
    ensures Third(r, q, c, e)
  {
    ThirdSym(q, r, c, e);
  }

  /** Addition of points is associative. */
  lemma AddAssoc(p: Point, q: Point, r: Point)
    ensures Add(Add(p, q), r) == Add(p, Add(q, r))
  {
    hide Slope, Third, Z0, Opposite, Joins, Meets, Lies;
    if !p.infinity && !q.infinity && !r.infinity {
      var a := AddCases(p, q);
      var c := AddCases(q, r);
      if Opposite(p, q) {
        OppositeIsNegate(p, q);
        AssocCancel(p, r);
      } else if Opposite(q, r) {
        OppositeIsNegate(q, r);
        NegateNegate(q);
        AssocCancel(r, p);
        AssocReverse(p, q, r);
      } else if Opposite(Add(p, q), r) {
        OppositeIsNegate(Add(p, q), r);
        AssocOpposite(p, q, r);
      } else if Z0(a - c) {
        SameSlope(p, q, r, a, c, Add(p, q));
        SamePointReduced(p, r);
        AddComm(p, q);
        AddComm(Add(p, q), r);
      } else {
        AssocFinite(p, q, r, Add(p, q), Add(q, r), a, c);
      }
    }
  }

  /** The points as a group. */
  ghost function PointGroup(): Group<Point> {
    Group.Group(INFINITY, (p, q) => Add(p, q), p => Negate(p))
  }

  lemma PointsAreAGroup()
    ensures PointGroup().Valid()
  {
    var g := PointGroup();
    forall p: Point, q: Point, r: Point | Use(p, q, r)
      ensures g.add(g.add(p, q), r) == g.add(p, g.add(q, r)) && g.add(p, q) == g.add(q, p)
      ensures g.add(g.zero, p) == p && g.add(p, g.neg(p)) == g.zero
    {
      AddAssoc(p, q, r);
      AddComm(p, q);
      AddNegate(p);
    }
  }
}
