/** Point doubling and addition in Jacobian coordinates. Coordinates are integers that count modulo p. */
module Points {
  import opened Integers
  import opened FieldMul
  import opened PrimeModuli
  import opened Primes

  /** The multiples of p, by repeated addition */
  function Multiple(k: int): int
    decreases if k < 0 then -k else k
  {
    if k == 0 then 0 else if k > 0 then Multiple(k - 1) + P else Multiple(k + 1) - P
  }

  lemma {:induction false} MultipleIs(k: int)
    ensures Multiple(k) == k * P
    decreases if k < 0 then -k else k
  {
    if k > 0 {
      MultipleIs(k - 1);
    } else if k < 0 {
      MultipleIs(k + 1);
    }
  }

  /** x counts as zero in the field. */
  ghost predicate Z0(x: int) {
    exists k: int :: x == Multiple(k)
  }

  /** The same, decided by the remainder. */
  predicate IsZero(x: int)
    ensures IsZero(x) <==> Z0(x)
  {
    ZeroRemainder(x);
    x % P == 0
  }

  lemma ZeroRemainder(x: int)
    ensures Z0(x) <==> x % P == 0
  {
    if x % P == 0 {
      MultipleIs(x / P);
    }
    if Z0(x) {
      var k :| x == Multiple(k);
      MultipleIs(k);
      ModMultiple(k, P);
    }
  }

  lemma ZeroIsZero()
    ensures Z0(0)
  {
    assert 0 == Multiple(0);
  }

  lemma SmallIsNotZero(x: int)
    requires 0 < x < P
    ensures !Z0(x)
  {
    ZeroRemainder(x);
  }

  datatype Jac = Jac(x: int, y: int, z: int, infinity: bool)

  datatype Aff = Aff(x: int, y: int, infinity: bool)

  /** y^2 = x^3 + 7 */
  ghost predicate OnCurve(b: Aff) {
    b.infinity || Z0(b.y * b.y - b.x * b.x * b.x - 7)
  }

  /** The same with the denominators of Jacobian coordinates cleared; a finite point has z and y different from 0. */
  ghost predicate OnCurveJ(a: Jac) {
    a.infinity || (!Z0(a.z) && !Z0(a.y) && Z0(a.y * a.y - a.x * a.x * a.x - 7 * Pow6(a.z)))
  }

  function Sq(x: int): int {
    x * x
  }

  function Cube(x: int): int {
    x * x * x
  }

  function Pow6(x: int): int {
    Cube(x) * Cube(x)
  }

  /** Both stand for the same affine point. */
  ghost predicate SamePoint(a: Jac, b: Jac) {
    && a.infinity == b.infinity
    && (!a.infinity ==> !Z0(a.z) && !Z0(b.z) && Z0(a.x * Sq(b.z) - b.x * Sq(a.z)) && Z0(a.y * Cube(b.z) - b.y * Cube(a.z)))
  }

  // ---------- zero and products in the field ----------

  lemma ZeroIntro(x: int, k: int)
    requires x == k * P
    ensures Z0(x)
  {
    MultipleIs(k);
  }

  lemma ZeroElim(x: int) returns (k: int)
    requires Z0(x)
    ensures x == k * P
  {
    k :| x == Multiple(k);
    MultipleIs(k);
  }

  /** Multiples and sums of zeros are zero. */
  lemma ZeroCombine(x: int, p: int, a: int, q: int, b: int)
    requires Z0(a) && Z0(b) && x == p * a + q * b
    ensures Z0(x)
  {
    var k := ZeroElim(a);
    var l := ZeroElim(b);
    assert p * (k * P) + q * (l * P) == (p * k + q * l) * P;
    ZeroIntro(x, p * k + q * l);
  }

  lemma ZeroTimes(x: int, p: int, a: int)
    requires Z0(a) && x == p * a
    ensures Z0(x)
  {
    ZeroCombine(x, p, a, 0, a);
  }

  /** Euclid's lemma for the field. */
  lemma Euclid(r: nat, y: int)
    requires 0 < r < P && Z0(r * y)
    ensures Z0(y)
  {
    ZeroRemainder(r * y);
    ZeroRemainder(y);
    PIsPrime();
    PrimeProduct(P, r, y);
  }

  lemma ZeroTimesP(y: int)
    ensures Z0(P * y)
  {
    ZeroIntro(P * y, y);
  }

  /** A product is zero only with a zero factor. */
  lemma NoZeroDivisors(x: int, y: int)
    ensures Z0(x * y) <==> Z0(x) || Z0(y)
  {
    var q, r := x / P, x % P;
    assert x == P * q + r;
    ZeroRemainder(x);
    if Z0(x) {
      ZeroTimes(x * y, y, x);
    }
    if Z0(y) {
      ZeroTimes(x * y, x, y);
    }
    if Z0(x * y) && r != 0 {
      RemainderProduct(x, y, q, r);
      ZeroTimesP(q * y);
      ZeroCombine(r * y, 1, x * y, -1, P * (q * y));
      Euclid(r, y);
    }
  }

  lemma RemainderProduct(x: int, y: int, q: int, r: int)
    requires x == P * q + r
    ensures r * y == 1 * (x * y) + -1 * (P * (q * y))
  {
  }

  lemma ZeroSame(x: int, y: int)
    requires Z0(x - y)
    ensures Z0(x) <==> Z0(y)
  {
    if Z0(x) {
      ZeroCombine(y, 1, x, -1, x - y);
    }
    if Z0(y) {
      ZeroCombine(x, 1, y, 1, x - y);
    }
  }

  /** 2 is not zero. */
  lemma TwoIsUnit(x: int)
    ensures Z0(2 * x) <==> Z0(x)
  {
    NoZeroDivisors(2, x);
    SmallIsNotZero(2);
  }

  /** Every number that is not zero has an inverse. */
  lemma InverseOf(x: int) returns (t: int)
    requires !Z0(x)
    ensures Z0(t * x - 1)
  {
    ZeroRemainder(x);
    PIsPrime();
    t := InverseModulo(P, x);
    ZeroRemainder(t * x - 1);
  }

  // ---------- the formulas ----------

  /** Doubling: everything is scaled by 2 y. */
  function Doubled(a: Jac): Jac {
    Jac(9 * Sq(a.x) * Sq(a.x) - 8 * a.x * Sq(a.y),
        36 * Cube(a.x) * Sq(a.y) - 27 * Cube(a.x) * Cube(a.x) - 8 * Sq(a.y) * Sq(a.y),
        2 * (a.z * a.y), a.infinity)
  }

  /** The chord through two points with different x, scaled by their difference. */
  function ChordX(u1: int, s1: int, u2: int, s2: int): int {
    Sq(s2 - s1) - (u1 + u2) * Sq(u2 - u1)
  }

  function ChordY(u1: int, s1: int, u2: int, s2: int): int {
    (s2 - s1) * (u1 * Sq(u2 - u1) - ChordX(u1, s1, u2, s2)) - s1 * Cube(u2 - u1)
  }

  /** The branching addition: with coordinates brought to one denominator, double, cancel or take the chord. */
  ghost function AddedVar(a: Jac, b: Aff): Jac {
    if a.infinity then Jac(b.x, b.y, 1, b.infinity)
    else if b.infinity then a
    else
      var u2, s2 := b.x * Sq(a.z), b.y * Sq(a.z) * a.z;
      if Z0(u2 - a.x) then
        (if Z0(s2 - a.y) then Doubled(a) else Jac(0, 0, 0, true))
      else
        Jac(ChordX(a.x, a.y, u2, s2), ChordY(a.x, a.y, u2, s2), a.z * (u2 - a.x), false)
  }

  /** The unified formula with slope rr / m and the sum of the x coordinates in t. */
  function UnifiedX(rr: int, m: int, t: int): int {
    4 * (Sq(rr) - t * Sq(m))
  }

  function UnifiedY(rr: int, m: int, t: int, n: int): int {
    4 * (rr * (t * Sq(m) - 2 * (Sq(rr) - t * Sq(m))) - n)
  }

  ghost function AddedUnified(a: Jac, b: Aff): Jac {
    var u2, s2 := b.x * Sq(a.z), b.y * Sq(a.z) * a.z;
    var t, m := a.x + u2, a.y + s2;
    var rr := t * t - a.x * u2;
    var degenerate := Z0(m) && Z0(rr);
    var rrAlt, mAlt := if degenerate then 2 * a.y else rr, if degenerate then a.x - u2 else m;
    var n := if degenerate then m else Sq(m) * Sq(m);
    if a.infinity then Jac(b.x, b.y, 1, false)
    else Jac(UnifiedX(rrAlt, mAlt, t), UnifiedY(rrAlt, mAlt, t, n), 2 * (a.z * mAlt), Z0(a.z * mAlt))
  }

  // ---------- field elements with their magnitudes ----------

  /** A value, and the magnitude of the limbs that hold it */
  datatype Fe = Fe(v: int, mag: nat)

  const LARGEST: nat := 2047

  /** Factors have magnitude at most 8, products have magnitude 1. */
  function FeMul(a: Fe, b: Fe): Fe
    requires a.mag <= 8 && b.mag <= 8
  {
    Fe(a.v * b.v, 1)
  }

  function FeSqr(a: Fe): Fe
    requires a.mag <= 8
  {
    Fe(Sq(a.v), 1)
  }

  function FeMulInt(a: Fe, k: nat): Fe
    requires a.mag * k <= LARGEST
  {
    Fe(a.v * k, a.mag * k)
  }

  function FeNegate(a: Fe, m: nat): Fe
    requires a.mag <= m < LARGEST
  {
    Fe(-a.v, m + 1)
  }

  function FeAdd(a: Fe, b: Fe): Fe
    requires a.mag + b.mag <= LARGEST
  {
    Fe(a.v + b.v, a.mag + b.mag)
  }

  function FeWeak(a: Fe): Fe
    requires a.mag <= LARGEST
  {
    Fe(a.v, 1)
  }

  /** r, or a when the flag is set, with room for either */
  function FeCmov(r: Fe, a: Fe, flag: bool): Fe {
    Fe(if flag then a.v else r.v, if a.mag > r.mag then a.mag else r.mag)
  }

  // ---------- the routines, updating r in place; r may be a ----------

  class Gej {
    var x: Fe
    var y: Fe
    var z: Fe
    var infinity: bool

    constructor (j: Jac)
      ensures Val() == j && Within(1, 1, 1)
    {
      x, y, z, infinity := Fe(j.x, 1), Fe(j.y, 1), Fe(j.z, 1), j.infinity;
    }

    function Val(): Jac
      reads this
    {
      Jac(x.v, y.v, z.v, infinity)
    }

    /** Coordinates of at most these magnitudes */
    predicate Within(mx: nat, my: nat, mz: nat)
      reads this
    {
      x.mag <= mx && y.mag <= my && z.mag <= mz
    }

    method SetInfinity()
      modifies this
      ensures Val() == Jac(0, 0, 0, true) && Within(0, 0, 0)
    {
      infinity := true;
      x, y, z := Fe(0, 0), Fe(0, 0), Fe(0, 0);
    }
  }

  method GejDouble(r: Gej, a: Gej)
    requires a.Within(8, 8, 8)
    modifies r
    ensures r.Val() == Doubled(old(a.Val())) && r.Within(6, 4, 2)
  {
    ghost var X, Y, Z := a.x.v, a.y.v, a.z.v;
    r.infinity := a.infinity;
    r.z := FeMul(a.z, a.y);
    r.z := FeMulInt(r.z, 2);
    var t1 := FeSqr(a.x);
    t1 := FeMulInt(t1, 3);
    var t2 := FeSqr(t1);
    var t3 := FeSqr(a.y);
    t3 := FeMulInt(t3, 2);
    var t4 := FeSqr(t3);
    t4 := FeMulInt(t4, 2);
    t3 := FeMul(t3, a.x);
    r.x := t3;
    r.x := FeMulInt(r.x, 4);
    r.x := FeNegate(r.x, 4);
    r.x := FeAdd(r.x, t2);
    t2 := FeNegate(t2, 1);
    t3 := FeMulInt(t3, 6);
    t3 := FeAdd(t3, t2);
    r.y := FeMul(t1, t3);
    t2 := FeNegate(t4, 2);
    r.y := FeAdd(r.y, t2);
    DoubleSteps(X, Y);
  }

  lemma DoubleSteps(x: int, y: int)
    ensures -((Sq(y) * 2) * x * 4) + Sq(Sq(x) * 3) == 9 * Sq(x) * Sq(x) - 8 * x * Sq(y)
    ensures (Sq(x) * 3) * ((Sq(y) * 2) * x * 6 + -Sq(Sq(x) * 3)) + -(Sq(Sq(y) * 2) * 2)
      == 36 * Cube(x) * Sq(y) - 27 * Cube(x) * Cube(x) - 8 * Sq(y) * Sq(y)
  {
  }

  /** Doubling, with the ratio of the new z to the old. */
  method GejDoubleVar(r: Gej, a: Gej) returns (rzr: Fe)
    requires a.Within(8, 8, 8)
    modifies r
    ensures r.Val() == (if old(a.infinity) then Jac(0, 0, 0, true) else Doubled(old(a.Val()))) && r.Within(6, 4, 2)
    ensures !old(a.infinity) ==> r.z.v == old(a.z.v) * rzr.v
    ensures rzr.mag <= 2
  {
    if a.infinity {
      r.SetInfinity();
      return Fe(1, 1);
    }
    rzr := a.y;
    rzr := FeWeak(rzr);
    rzr := FeMulInt(rzr, 2);
    TwiceProduct(a.z.v, a.y.v);
    GejDouble(r, a);
  }

  lemma TwiceProduct(z: int, y: int)
    ensures 2 * (z * y) == z * (y * 2)
  {
  }

  /** Addition of an affine point with coordinates of magnitude bm, with branches for the special cases. */
  method GejAddGeVar(r: Gej, a: Gej, b: Aff, bm: nat) returns (rzr: Fe)
    requires a.Within(8, 8, 8) && bm <= 8
    modifies r
    ensures r.Val() == AddedVar(old(a.Val()), b) && r.Within(8, 8, 8)
    ensures !old(a.infinity) && !b.infinity ==> r.Within(6, 4, 2)
    ensures !old(a.infinity) ==> r.infinity || r.z.v == old(a.z.v) * rzr.v
  {
    hide Sq, Z0, ChordX, ChordY, Doubled;
    if a.infinity {
      r.infinity, r.x, r.y, r.z := b.infinity, Fe(b.x, bm), Fe(b.y, bm), Fe(1, 1);
      return Fe(1, 1);
    }
    if b.infinity {
      r.x, r.y, r.z, r.infinity := a.x, a.y, a.z, a.infinity;
      return Fe(1, 1);
    }
    r.infinity := false;
    var z12 := FeSqr(a.z);
    var u1 := FeWeak(a.x);
    var u2 := FeMul(Fe(b.x, bm), z12);
    var s1 := FeWeak(a.y);
    var s2 := FeMul(Fe(b.y, bm), z12);
    s2 := FeMul(s2, a.z);
    var h := FeNegate(u1, 1);
    h := FeAdd(h, u2);
    var i := FeNegate(s1, 1);
    i := FeAdd(i, s2);
    if IsZero(h.v) {
      if IsZero(i.v) {
        rzr := GejDoubleVar(r, a);
      } else {
        rzr := Fe(0, 0);
        r.SetInfinity();
      }
      return;
    }
    var i2 := FeSqr(i);
    var h2 := FeSqr(h);
    var h3 := FeMul(h, h2);
    rzr := h;
    r.z := FeMul(a.z, h);
    var t := FeMul(u1, h2);
    r.x := t;
    r.x := FeMulInt(r.x, 2);
    r.x := FeAdd(r.x, h3);
    r.x := FeNegate(r.x, 3);
    r.x := FeAdd(r.x, i2);
    r.y := FeNegate(r.x, 5);
    r.y := FeAdd(r.y, t);
    r.y := FeMul(r.y, i);
    h3 := FeMul(h3, s1);
    h3 := FeNegate(h3, 1);
    r.y := FeAdd(r.y, h3);
    ChordSteps(u1.v, s1.v, u2.v, s2.v);
  }

  lemma ChordSteps(u1: int, s1: int, u2: int, s2: int)
    ensures var h, i := -u1 + u2, -s1 + s2;
      && -((u1 * Sq(h)) * 2 + h * Sq(h)) + Sq(i) == ChordX(u1, s1, u2, s2)
      && (-ChordX(u1, s1, u2, s2) + u1 * Sq(h)) * i + -((h * Sq(h)) * s1) == ChordY(u1, s1, u2, s2)
  {
    var h, i := u2 - u1, s2 - s1;
    assert -((u1 * (h * h)) * 2 + h * (h * h)) + i * i == i * i - (u1 + u2) * (h * h) by {
      assert h * (h * h) + 2 * u1 * (h * h) == (h + 2 * u1) * (h * h);
    }
    ChordYSteps(h, i, u1, s1, ChordX(u1, s1, u2, s2));
  }

  lemma ChordYSteps(h: int, i: int, u1: int, s1: int, x: int)
    ensures (-x + u1 * Sq(h)) * i + -((h * Sq(h)) * s1) == i * (u1 * Sq(h) - x) - s1 * Cube(h)
  {
  }

  /** The unified addition: no branch on the points, only conditional moves. */
  method GejAddGe(r: Gej, a: Gej, b: Aff, bm: nat)
    requires !b.infinity && a.Within(8, 8, 8) && bm <= 8
    modifies r
    ensures r.Val() == AddedUnified(old(a.Val()), b)
    ensures var m := if bm > 4 then bm else 4; r.Within(m, m, 2)
  {
    hide Sq, Z0, UnifiedX, UnifiedY;
    var zz := FeSqr(a.z);
    var u1 := FeWeak(a.x);
    var u2 := FeMul(Fe(b.x, bm), zz);
    var s1 := FeWeak(a.y);
    var s2 := FeMul(Fe(b.y, bm), zz);
    s2 := FeMul(s2, a.z);
    var t := u1;
    t := FeAdd(t, u2);
    var m := s1;
    m := FeAdd(m, s2);
    var rr := FeSqr(t);
    var mAlt := FeNegate(u2, 1);
    var tt := FeMul(u1, mAlt);
    rr := FeAdd(rr, tt);
    RrIs(u1.v, u2.v);
    var degenerate := IsZero(m.v) && IsZero(rr.v);
    var rrAlt := s1;
    rrAlt := FeMulInt(rrAlt, 2);
    mAlt := FeAdd(mAlt, u1);
    rrAlt := FeCmov(rrAlt, rr, !degenerate);
    mAlt := FeCmov(mAlt, m, !degenerate);
    var aInfinity := a.infinity;
    r.z := FeMul(a.z, mAlt);
    var infinity := IsZero(r.z.v) && !aInfinity;
    r.z := FeMulInt(r.z, 2);
    var x, y := UnifiedXY(t, m, mAlt, rrAlt, degenerate);
    r.x, r.y := x, y;
    r.x := FeCmov(r.x, Fe(b.x, bm), aInfinity);
    r.y := FeCmov(r.y, Fe(b.y, bm), aInfinity);
    r.z := FeCmov(r.z, Fe(1, 1), aInfinity);
    r.infinity := infinity;
  }

  /** The two coordinates, from the slope rrAlt / mAlt; m replaces the fourth power in the degenerate case. */
  method UnifiedXY(t0: Fe, m: Fe, mAlt: Fe, rrAlt: Fe, degenerate: bool) returns (x: Fe, y: Fe)
    requires t0.mag <= 2 && m.mag <= 2 && mAlt.mag <= 3 && rrAlt.mag <= 3
    ensures x.mag == 4 && x.v == UnifiedX(rrAlt.v, mAlt.v, t0.v)
    ensures y.mag == 4 && y.v == UnifiedY(rrAlt.v, mAlt.v, t0.v, if degenerate then m.v else Sq(mAlt.v) * Sq(mAlt.v))
  {
    hide UnifiedX, UnifiedY;
    var n := FeSqr(mAlt);
    var q := FeMul(n, t0);
    n := FeSqr(n);
    n := FeCmov(n, m, degenerate);
    var t := FeSqr(rrAlt);
    q := FeNegate(q, 1);
    t := FeAdd(t, q);
    t := FeWeak(t);
    x := t;
    t := FeMulInt(t, 2);
    t := FeAdd(t, q);
    t := FeMul(t, rrAlt);
    t := FeAdd(t, n);
    y := FeNegate(t, 3);
    y := FeWeak(y);
    x := FeMulInt(x, 4);
    y := FeMulInt(y, 4);
    UnifiedSteps(rrAlt.v, mAlt.v, t0.v, n.v);
  }

  lemma RrIs(u1: int, u2: int)
    ensures Sq(u1 + u2) + u1 * -u2 == (u1 + u2) * (u1 + u2) - u1 * u2
  {
  }

  lemma UnifiedSteps(rr: int, m: int, t: int, n: int)
    ensures (Sq(rr) + -(Sq(m) * t)) * 4 == UnifiedX(rr, m, t)
    ensures -((((Sq(rr) + -(Sq(m) * t)) * 2 + -(Sq(m) * t)) * rr) + n) * 4 == UnifiedY(rr, m, t, n)
  {
  }

  // ---------- the two additions agree ----------

  /** The second point on the first one's denominator lies on the same scaled curve. */
  lemma ScaledCurve(b: Aff, z: int)
    requires OnCurve(b) && !b.infinity
    ensures var u, s := b.x * Sq(z), b.y * Sq(z) * z;
      Z0(s * s - u * u * u - 7 * Pow6(z))
  {
    var u, s := b.x * Sq(z), b.y * Sq(z) * z;
    ScaledAlgebra(b.x, b.y, z);
    ZeroTimes(s * s - u * u * u - 7 * Pow6(z), Pow6(z), b.y * b.y - b.x * b.x * b.x - 7);
  }

  lemma ScaledAlgebra(x: int, y: int, z: int)
    ensures var u, s := x * Sq(z), y * Sq(z) * z;
      s * s - u * u * u - 7 * Pow6(z) == Pow6(z) * (y * y - x * x * x - 7)
  {
    var c := z * z * z;
    assert y * Sq(z) * z == y * c;
    assert (y * c) * (y * c) == (c * c) * (y * y);
    CubeOfSquare(x, z);
  }

  lemma CubeOfSquare(x: int, z: int)
    ensures var u := x * Sq(z);
      u * u * u == Pow6(z) * (x * x * x)
  {
  }

  /** On the curve the two slopes are equal: i m = h rr. */
  lemma KeyRelation(u1: int, s1: int, u2: int, s2: int, c: int)
    requires Z0(s1 * s1 - u1 * u1 * u1 - c) && Z0(s2 * s2 - u2 * u2 * u2 - c)
    ensures Z0((s2 - s1) * (s1 + s2) - (u2 - u1) * ((u1 + u2) * (u1 + u2) - u1 * u2))
  {
    var k := (s2 - s1) * (s1 + s2) - (u2 - u1) * ((u1 + u2) * (u1 + u2) - u1 * u2);
    KeyAlgebra(u1, s1, u2, s2, c);
    ZeroCombine(k, 1, s2 * s2 - u2 * u2 * u2 - c, -1, s1 * s1 - u1 * u1 * u1 - c);
  }

  lemma KeyAlgebra(u1: int, s1: int, u2: int, s2: int, c: int)
    ensures (s2 - s1) * (s1 + s2) - (u2 - u1) * ((u1 + u2) * (u1 + u2) - u1 * u2)
      == 1 * (s2 * s2 - u2 * u2 * u2 - c) + -1 * (s1 * s1 - u1 * u1 * u1 - c)
  {
  }

  /** With equal slopes i / h = rr / m, the chord and the unified x agree. */
  lemma SlopeX(i: int, h: int, rr: int, m: int, t: int)
    requires Z0(i * m - h * rr)
    ensures Z0((Sq(i) - t * Sq(h)) * Sq(2 * m) - UnifiedX(rr, m, t) * Sq(h))
  {
    SlopeXAlgebra(i, h, rr, m, t);
    ZeroTimes((Sq(i) - t * Sq(h)) * Sq(2 * m) - UnifiedX(rr, m, t) * Sq(h), 4 * (i * m + h * rr), i * m - h * rr);
  }

  lemma SlopeXAlgebra(i: int, h: int, rr: int, m: int, t: int)
    ensures (Sq(i) - t * Sq(h)) * Sq(2 * m) - UnifiedX(rr, m, t) * Sq(h) == (4 * (i * m + h * rr)) * (i * m - h * rr)
  {
  }

  /** Twice the chord's y, symmetric in the two points. */
  lemma TwiceChordY(u1: int, s1: int, u2: int, s2: int)
    ensures 2 * ChordY(u1, s1, u2, s2)
      == (s2 - s1) * ((u1 + u2) * Sq(u2 - u1) - 2 * ChordX(u1, s1, u2, s2)) - (s1 + s2) * Cube(u2 - u1)
  {
    TwiceAlgebra(u1, s1, s2, u2 - u1, ChordX(u1, s1, u2, s2));
  }

  lemma TwiceAlgebra(u1: int, s1: int, s2: int, h: int, x: int)
    ensures 2 * ((s2 - s1) * (u1 * Sq(h) - x) - s1 * Cube(h)) == (s2 - s1) * ((u1 + (u1 + h)) * Sq(h) - 2 * x) - (s1 + s2) * Cube(h)
  {
  }

  /** The y coordinates agree as well; d is twice the chord's y. */
  lemma SlopeY(i: int, h: int, rr: int, m: int, t: int, y: int)
    requires Z0(i * m - h * rr)
    requires 2 * y == i * (t * Sq(h) - 2 * (Sq(i) - t * Sq(h))) - m * Cube(h)
    ensures Z0(y * Cube(2 * m) - UnifiedY(rr, m, t, Sq(m) * Sq(m)) * Cube(h))
  {
    var a, b := i * m, h * rr;
    SlopeYAlgebra(i, h, rr, m, t, y);
    ZeroTimes(y * Cube(2 * m) - UnifiedY(rr, m, t, Sq(m) * Sq(m)) * Cube(h),
              4 * (3 * t * Sq(h) * Sq(m) - 2 * (Sq(a) + a * b + Sq(b))), i * m - h * rr);
  }

  lemma SlopeYAlgebra(i: int, h: int, rr: int, m: int, t: int, y: int)
    requires 2 * y == i * (t * Sq(h) - 2 * (Sq(i) - t * Sq(h))) - m * Cube(h)
    ensures var a, b := i * m, h * rr;
      y * Cube(2 * m) - UnifiedY(rr, m, t, Sq(m) * Sq(m)) * Cube(h)
        == (4 * (3 * t * Sq(h) * Sq(m) - 2 * (Sq(a) + a * b + Sq(b)))) * (i * m - h * rr)
  {
    var a, b := i * m, h * rr;
    YLeft(i, h, m, t, y);
    YRight(rr, h, m, t);
    Cubes(a, b);
    YJoin(a, b, t * Sq(h) * Sq(m), Sq(m) * Sq(m) * Cube(h));
  }

  lemma YLeft(i: int, h: int, m: int, t: int, y: int)
    requires 2 * y == i * (t * Sq(h) - 2 * (Sq(i) - t * Sq(h))) - m * Cube(h)
    ensures y * Cube(2 * m) == 4 * (3 * (t * Sq(h) * Sq(m)) * (i * m) - 2 * Cube(i * m) - Sq(m) * Sq(m) * Cube(h))
  {
    var w := Cube(m);
    assert Cube(2 * m) == 8 * w;
    assert y * (8 * w) == 4 * ((2 * y) * w);
    YLeftAlgebra(i, h, m, t);
  }

  lemma YLeftAlgebra(i: int, h: int, m: int, t: int)
    ensures (i * (t * Sq(h) - 2 * (Sq(i) - t * Sq(h))) - m * Cube(h)) * Cube(m)
      == 3 * (t * Sq(h) * Sq(m)) * (i * m) - 2 * Cube(i * m) - Sq(m) * Sq(m) * Cube(h)
  {
  }

  lemma YRight(rr: int, h: int, m: int, t: int)
    ensures UnifiedY(rr, m, t, Sq(m) * Sq(m)) * Cube(h)
      == 4 * (3 * (t * Sq(h) * Sq(m)) * (h * rr) - 2 * Cube(h * rr) - Sq(m) * Sq(m) * Cube(h))
  {
    var p := Sq(m);
    var a := rr * (t * p - 2 * (Sq(rr) - t * p));
    YRightAlgebra(rr, h, t, p);
    YRightDifference(a, p * p, Cube(h));
  }

  lemma YRightAlgebra(rr: int, h: int, t: int, p: int)
    ensures (rr * (t * p - 2 * (Sq(rr) - t * p))) * Cube(h) == 3 * (t * Sq(h) * p) * (h * rr) - 2 * Cube(h * rr)
  {
    var x, y := t * p, Cube(h);
    assert Cube(h * rr) == Cube(rr) * y;
    assert rr * (x - 2 * (Sq(rr) - x)) == 3 * (x * rr) - 2 * Cube(rr);
    assert 3 * (t * Sq(h) * p) * (h * rr) == 3 * (x * rr) * y;
  }

  lemma YRightDifference(a: int, n: int, c: int)
    ensures (4 * (a - n)) * c == 4 * (a * c - n * c)
  {
  }

  lemma Cubes(a: int, b: int)
    ensures Cube(a) - Cube(b) == (Sq(a) + a * b + Sq(b)) * (a - b)
  {
  }

  lemma YJoin(a: int, b: int, w: int, n: int)
    ensures 4 * (3 * w * a - 2 * Cube(a) - n) - 4 * (3 * w * b - 2 * Cube(b) - n) == (4 * (3 * w - 2 * (Sq(a) + a * b + Sq(b)))) * (a - b)
  {
    Cubes(a, b);
  }
}
