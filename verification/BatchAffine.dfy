/** Turning many Jacobian points affine with a single inversion, and tables to one common denominator. */
module BatchAffine {
  import opened FieldMul
  import opened Points
  import opened PointsAgree
  import opened PointsSum
  import L = Field
  import F = FieldInverse

  /** Points as they are stored, with the magnitudes of their coordinates. */
  datatype JacFe = JacFe(x: Fe, y: Fe, z: Fe, infinity: bool) {
    function Val(): Jac {
      Jac(x.v, y.v, z.v, infinity)
    }
  }

  datatype AffFe = AffFe(x: Fe, y: Fe, infinity: bool) {
    function Val(): Aff {
      Aff(x.v, y.v, infinity)
    }
  }

  function Vals(a: seq<JacFe>): (j: seq<Jac>)
    ensures |j| == |a| && forall k :: 0 <= k < |a| ==> j[k] == a[k].Val()
  {
    seq(|a|, k requires 0 <= k < |a| => a[k].Val())
  }

  // ---------- inversion ----------

  /** The limbs of a reduced number */
  function Limbs52(y: int): seq<int> {
    var y1 := y / B52;
    var y2 := y1 / B52;
    var y3 := y2 / B52;
    [y % B52, y1 % B52, y2 % B52, y3 % B52, y3 / B52]
  }

  lemma LimbsValue(y: int)
    requires 0 <= y < P
    ensures L.Magnitude(Limbs52(y), 1) && Value(Limbs52(y)) == y
  {
    var y1, y2, y3 := y / B52, y / B52 / B52, y / B52 / B52 / B52;
    assert y == B52 * y1 + y % B52 && y1 == B52 * y2 + y1 % B52 && y2 == B52 * y3 + y2 % B52 && y3 == B52 * (y3 / B52) + y3 % B52;
  }

  /** The inverse of a field element, and 0 for 0: its limbs go through the divsteps. */
  method FeInvVar(a: Fe) returns (r: Fe)
    requires a.mag <= LARGEST
    ensures r.mag == 1 && if Z0(a.v) then r.v == 0 else Eq(r.v * a.v, 1)
  {
    hide F.I.Inverts, Limbs52, Eq, Z0, L.Magnitude, Value, F.D.Run;
    var y := a.v % P;
    LimbsValue(y);
    var limbs := Limbs52(y);
    MagnitudeLength(limbs);
    var x := new int[5](i requires 0 <= i < 5 => if 0 <= i < |limbs| then limbs[i] else 0);
    assert x[..] == limbs;
    var t := new int[5];
    ghost var h := F.FeInvVar(t, x, 1);
    assert y % P == y;
    r := Fe(Value(t[..]), 1);
    InverseOfResidue(r.v, a.v);
  }

  lemma MagnitudeLength(a: seq<int>)
    requires L.Magnitude(a, 1)
    ensures |a| == 5
  {
  }

  lemma InverseOfResidue(r: int, a: int)
    requires if a % P == 0 then r == 0 else (r * (a % P)) % P == 1
    ensures if Z0(a) then r == 0 else Eq(r * a, 1)
  {
    hide Z0;
    ZeroRemainder(a);
    if a % P != 0 {
      var q, b := a / P, a % P;
      assert a == P * q + b;
      var k := (r * b) / P;
      assert r * b == P * k + 1;
      assert r * a - 1 == (r * q + k) * P by {
        assert r * (P * q + b) == (r * q) * P + r * b;
      }
      ZeroIntro(r * a - 1, r * q + k);
    }
  }

  // ---------- one inversion for many points ----------

  /** The product of the denominators of the finite points among the first n. */
  function Denominators(a: seq<Jac>, n: nat): int
    requires n <= |a|
  {
    if n == 0 then 1
    else if a[n - 1].infinity then Denominators(a, n - 1)
    else Denominators(a, n - 1) * a[n - 1].z
  }

  /** Infinite points contribute nothing. */
  lemma {:induction false} OnlyInfinite(a: seq<Jac>, m: nat, n: nat)
    requires m <= n <= |a| && forall k :: m <= k < n ==> a[k].infinity
    ensures Denominators(a, n) == Denominators(a, m)
    decreases n
  {
    if m < n {
      OnlyInfinite(a, m, n - 1);
    }
  }

  lemma {:induction false} DenominatorsNonzero(a: seq<Jac>, n: nat)
    requires n <= |a| && forall k :: 0 <= k < n && !a[k].infinity ==> !Z0(a[k].z)
    ensures !Z0(Denominators(a, n))
    decreases n
  {
    if n == 0 {
      SmallIsNotZero(1);
    } else {
      DenominatorsNonzero(a, n - 1);
      NoZeroDivisors(Denominators(a, n - 1), a[n - 1].z);
    }
  }

  /** a / z with a given inverse of z */
  function WithZinv(a: Jac, zi: int): Aff {
    Aff(a.x * Sq(zi), a.y * (Sq(zi) * zi), a.infinity)
  }

  method SetGejZinv(a: JacFe, zi: Fe) returns (r: AffFe)
    requires a.x.mag <= 8 && a.y.mag <= 8 && a.z.mag <= 8 && zi.mag <= 8
    ensures r.Val() == WithZinv(a.Val(), zi.v) && r.x.mag <= 1 && r.y.mag <= 1
  {
    var zi2 := FeSqr(zi);
    var zi3 := FeMul(zi2, zi);
    r := AffFe(FeMul(a.x, zi2), FeMul(a.y, zi3), a.infinity);
  }

  lemma ZinvDenotes(a: Jac, zi: int)
    requires !a.infinity && !Z0(a.z) && Eq(zi * a.z, 1)
    ensures Denotes(a, WithZinv(a, zi))
  {
    hide Z0;
    var one := zi * a.z;
    EqSq(one, 1);
    Powers(zi, a.z);
    CubeParts(zi);
    EqRefl(a.x);
    EqRefl(a.y);
    EqMul(a.x, a.x, Sq(one), Sq(1));
    EqMul(a.y, a.y, Cube(one), Cube(1));
    assert a.x * Sq(zi) * Sq(a.z) == a.x * (Sq(zi) * Sq(a.z));
    assert a.y * Cube(zi) * Cube(a.z) == a.y * (Cube(zi) * Cube(a.z));
    EqSym(a.x * Sq(one), a.x);
    EqSym(a.y * Cube(one), a.y);
  }

  /** One step back: the inverse of the last denominator, and of the product before it. */
  lemma StepBack(before: int, z: int, u: int)
    requires Eq(u * (before * z), 1)
    ensures Eq((before * u) * z, 1) && Eq((u * z) * before, 1)
  {
    hide Eq;
    ThreeFactors(before, z, u);
  }

  lemma ThreeFactors(before: int, z: int, u: int)
    ensures (before * u) * z == u * (before * z) && (u * z) * before == u * (before * z)
  {
  }

  /** The points whose denominators have been multiplied up so far, in r[k].x. */
  ghost predicate Forward(r: seq<AffFe>, a: seq<Jac>, n: nat) {
    && n <= |a| == |r|
    && (forall k :: 0 <= k < n ==> if a[k].infinity then r[k].infinity else r[k].x.v == Denominators(a, k + 1) && r[k].x.mag <= 8)
  }

  ghost predicate Backward(r: seq<AffFe>, a: seq<Jac>, i: nat, last: nat, u: int) {
    && i <= last < |a| == |r| && !a[last].infinity
    && (forall k :: i <= k < last ==> a[k].infinity)
    && Eq(u * Denominators(a, last + 1), 1)
    && (forall k :: 0 <= k < |a| && a[k].infinity ==> r[k].infinity)
    && (forall k :: 0 <= k <= last && !a[k].infinity ==> r[k].x.v == Denominators(a, k + 1))
    && (forall k :: last < k < |a| && !a[k].infinity ==> Eq(r[k].x.v * a[k].z, 1))
    && (forall k :: 0 <= k < |a| && !a[k].infinity ==> r[k].x.mag <= 8)
  }

  lemma BackwardStep(r: seq<AffFe>, a: seq<Jac>, i: nat, last: nat, u: int)
    requires Backward(r, a, i, last, u) && i > 0 && !a[i - 1].infinity
    ensures Backward(r[last := r[last].(x := Fe(r[i - 1].x.v * u, 1))], a, i - 1, i - 1, u * a[last].z)
  {
    OnlyInfinite(a, i, last);
    StepBack(Denominators(a, i), a[last].z, u);
  }

  lemma BackwardEnd(r: seq<AffFe>, a: seq<Jac>, last: nat, u: int)
    requires Backward(r, a, 0, last, u)
    ensures Eq(u * a[last].z, 1)
  {
    OnlyInfinite(a, 0, last);
  }

  /** The products of the denominators, in the x coordinates of the result; the index of the last finite point, or -1. */
  method MultiplyUp(r: array<AffFe>, a: seq<JacFe>) returns (last: int)
    requires r.Length == |a| && forall k :: 0 <= k < |a| && !a[k].infinity ==> a[k].x.mag <= 8 && a[k].y.mag <= 8 && a[k].z.mag <= 8
    modifies r
    ensures -1 <= last < |a| && Forward(r[..], Vals(a), |a|)
    ensures last >= 0 ==> !a[last].infinity
    ensures forall k :: last < k < |a| ==> a[k].infinity
    ensures forall k :: 0 <= k < |a| && a[k].infinity ==> r[k].x.mag <= 1 && r[k].y.mag <= 1
  {
    ghost var j := Vals(a);
    last := -1;
    var i := 0;
    while i < |a|
      invariant 0 <= i <= |a| && -1 <= last < i && Forward(r[..], j, i)
      invariant last >= 0 ==> !a[last].infinity
      invariant forall k :: last < k < i ==> a[k].infinity
      invariant forall k :: 0 <= k < i && a[k].infinity ==> r[k].x.mag <= 1 && r[k].y.mag <= 1
    {
      if a[i].infinity {
        r[i] := AffFe(Fe(0, 0), Fe(0, 0), true);
      } else {
        OnlyInfinite(j, last + 1, i);
        if last == -1 {
          r[i] := r[i].(x := a[i].z);
        } else {
          r[i] := r[i].(x := FeMul(r[last].x, a[i].z));
        }
        last := i;
      }
      i := i + 1;
    }
  }

  /** Every finite a[i] becomes (X/Z^2, Y/Z^3), with one inversion; infinities may stand anywhere. */
  method SetAllGejVar(r: array<AffFe>, a: seq<JacFe>)
    requires r.Length == |a|
    requires forall k :: 0 <= k < |a| && !a[k].infinity ==> !Z0(a[k].z.v) && a[k].x.mag <= 8 && a[k].y.mag <= 8 && a[k].z.mag <= 8
    modifies r
    ensures forall k :: 0 <= k < |a| ==> Denotes(a[k].Val(), r[k].Val()) && r[k].x.mag <= 1 && r[k].y.mag <= 1
  {
    hide Eq, Z0, Denotes;
    ghost var j := Vals(a);
    var last := MultiplyUp(r, a);
    if last == -1 {
      AllInfinite(a, r[..]);
      return;
    }
    DenominatorsNonzero(j, last + 1);
    var u := FeInvVar(r[last].x);
    TakeApart(r, a, last, u);
    ConvertAll(r, a);
  }

  /** From the inverse of the whole product back to the inverse of every denominator. */
  method TakeApart(r: array<AffFe>, a: seq<JacFe>, start: nat, inverse: Fe)
    requires r.Length == |a| && start < |a| && inverse.mag == 1 && Backward(r[..], Vals(a), start, start, inverse.v)
    requires forall k :: 0 <= k < |a| && !a[k].infinity ==> a[k].x.mag <= 8 && a[k].y.mag <= 8 && a[k].z.mag <= 8
    requires forall k :: 0 <= k < |a| && a[k].infinity ==> r[k].x.mag <= 1 && r[k].y.mag <= 1
    modifies r
    ensures forall k :: 0 <= k < |a| ==>
      if a[k].infinity then r[k].infinity && r[k].x.mag <= 1 && r[k].y.mag <= 1 else r[k].x.mag <= 8 && Eq(r[k].x.v * a[k].z.v, 1)
  {
    hide Eq;
    ghost var j := Vals(a);
    var i, last, u := start, start, inverse;
    while i > 0
      invariant 0 <= i <= last < |a| && Backward(r[..], j, i, last, u.v) && u.mag == 1
      invariant forall k :: 0 <= k < |a| && a[k].infinity ==> r[k].x.mag <= 1 && r[k].y.mag <= 1
    {
      i := i - 1;
      if !a[i].infinity {
        BackwardStep(r[..], j, i + 1, last, u.v);
        r[last] := r[last].(x := FeMul(r[i].x, u));
        u := FeMul(u, a[last].z);
        last := i;
      }
    }
    BackwardEnd(r[..], j, last, u.v);
    r[last] := r[last].(x := u);
  }

  /** With every finite z inverted in the x coordinates, the conversion proper. */
  method ConvertAll(r: array<AffFe>, a: seq<JacFe>)
    requires r.Length == |a|
    requires forall k :: 0 <= k < |a| ==>
      if a[k].infinity then r[k].infinity && r[k].x.mag <= 1 && r[k].y.mag <= 1
      else a[k].x.mag <= 8 && a[k].y.mag <= 8 && a[k].z.mag <= 8 && r[k].x.mag <= 8 && !Z0(a[k].z.v) && Eq(r[k].x.v * a[k].z.v, 1)
    modifies r
    ensures forall k :: 0 <= k < |a| ==> Denotes(a[k].Val(), r[k].Val()) && r[k].x.mag <= 1 && r[k].y.mag <= 1
  {
    hide Eq, Z0, Denotes;
    var i := 0;
    while i < |a|
      invariant 0 <= i <= |a|
      invariant forall k :: 0 <= k < i ==> Denotes(a[k].Val(), r[k].Val()) && r[k].x.mag <= 1 && r[k].y.mag <= 1
      invariant forall k :: i <= k < |a| ==>
        if a[k].infinity then r[k].infinity && r[k].x.mag <= 1 && r[k].y.mag <= 1 else r[k].x.mag <= 8 && Eq(r[k].x.v * a[k].z.v, 1)
    {
      if !a[i].infinity {
        ZinvDenotes(a[i].Val(), r[i].x.v);
        r[i] := SetGejZinv(a[i], r[i].x);
      } else {
        InfiniteDenotes(a[i].Val(), r[i].Val());
      }
      i := i + 1;
    }
  }

  lemma InfiniteDenotes(a: Jac, r: Aff)
    requires a.infinity && r.infinity
    ensures Denotes(a, r)
  {
  }

  lemma AllInfinite(a: seq<JacFe>, r: seq<AffFe>)
    requires |r| == |a| && forall k :: 0 <= k < |a| ==> a[k].infinity && r[k].infinity
    ensures forall k :: 0 <= k < |a| ==> Denotes(a[k].Val(), r[k].Val())
  {
  }

  // ---------- one common denominator ----------

  /** Rescaled by s, a point stands over the denominator z s. */
  lemma Rescaled(a: Jac, s: int, g: int)
    requires !a.infinity && !Z0(a.z) && !Z0(g) && Eq(g, a.z * s)
    ensures SamePoint(Jac(a.x * Sq(s), a.y * (Sq(s) * s), g, false), a)
  {
    hide Z0;
    EqSq(g, a.z * s);
    Powers(a.z, s);
    CubeParts(s);
    EqRefl(a.x);
    EqRefl(a.y);
    EqSym(Sq(g), Sq(a.z) * Sq(s));
    EqSym(Cube(g), Cube(a.z) * Cube(s));
    EqMul(a.x, a.x, Sq(a.z) * Sq(s), Sq(g));
    EqMul(a.y, a.y, Cube(a.z) * Cube(s), Cube(g));
    assert a.x * Sq(s) * Sq(a.z) == a.x * (Sq(a.z) * Sq(s));
    assert a.y * Cube(s) * Cube(a.z) == a.y * (Cube(a.z) * Cube(s));
    EqIsZero(a.x * Sq(s) * Sq(a.z), a.x * Sq(g));
    EqIsZero(a.y * Cube(s) * Cube(a.z), a.y * Cube(g));
  }

  /** Multiplied by powers of s, the coordinates are still those of the same point. */
  method GejRescale(r: Gej, s: Fe)
    requires r.Within(8, 8, 8) && s.mag <= 8 && !Z0(s.v) && (!r.infinity ==> !Z0(r.z.v))
    modifies r
    ensures r.Val() == Jac(old(r.x.v) * Sq(s.v), old(r.y.v) * Sq(s.v) * s.v, old(r.z.v) * s.v, old(r.infinity)) && r.Within(1, 1, 1)
    ensures SamePoint(r.Val(), old(r.Val()))
  {
    hide Z0;
    ghost var a := r.Val();
    var zz := FeSqr(s);
    r.x := FeMul(r.x, zz);
    r.y := FeMul(r.y, zz);
    r.y := FeMul(r.y, s);
    r.z := FeMul(r.z, s);
    if !r.infinity {
      NoZeroDivisors(a.z, s.v);
      EqRefl(a.z * s.v);
      Rescaled(a, s.v, a.z * s.v);
      assert a.y * Sq(s.v) * s.v == a.y * (Sq(s.v) * s.v);
    }
  }

  lemma EqIsZero(x: int, y: int)
    requires Eq(x, y)
    ensures Z0(x - y)
  {
  }

  /** The table over the last point's denominator; zr holds the ratios of successive denominators. */
  method GlobalzSetTable(r: array<AffFe>, a: seq<JacFe>, zr: seq<Fe>) returns (globalz: Fe)
    requires r.Length == |a| == |zr| && forall i :: 0 <= i < |a| ==> !a[i].infinity && !Z0(a[i].z.v)
    requires forall i :: 0 < i < |a| ==> Eq(a[i].z.v, a[i - 1].z.v * zr[i].v)
    requires forall k :: 0 <= k < |a| ==> a[k].x.mag <= 8 && a[k].y.mag <= 8 && a[k].z.mag <= 8 && zr[k].mag <= 8
    modifies r
    ensures |a| > 0 ==> globalz == a[|a| - 1].z
    ensures forall k :: 0 <= k < |a| ==> !r[k].infinity && SamePoint(Jac(r[k].x.v, r[k].y.v, globalz.v, false), a[k].Val())
    ensures forall k :: 0 <= k < |a| ==> r[k].x.mag <= 8 && r[k].y.mag <= 1
  {
    hide Eq, Z0, SamePoint;
    globalz := Fe(0, 0);
    if |a| == 0 {
      return;
    }
    ghost var j := Vals(a);
    var i: int := |a| - 1;
    r[i] := AffFe(a[i].x, a[i].y, false);
    // all y in weak normal form, so that points can be negated fast
    r[i] := r[i].(y := FeWeak(r[i].y));
    globalz := a[i].z;
    var zs := zr[i];
    SamePointRefl(j[i]);
    ghost var full := 1;
    EqRefl(globalz.v);
    while i > 0
      invariant 0 <= i < |a| && globalz == a[|a| - 1].z && zs.mag <= 8
      invariant forall k :: i <= k < |a| ==> !r[k].infinity && SamePoint(Jac(r[k].x.v, r[k].y.v, globalz.v, false), j[k])
      invariant forall k :: i <= k < |a| ==> r[k].x.mag <= 8 && r[k].y.mag <= 1
      invariant Eq(globalz.v, j[i].z * full)
      invariant i == |a| - 1 ==> full == 1 && zs == zr[i]
      invariant i < |a| - 1 ==> zs.v == full
    {
      RatioStep(globalz.v, j[i].z, j[i - 1].z, zr[i].v, full);
      full := full * zr[i].v;
      if i != |a| - 1 {
        zs := FeMul(zs, zr[i]);
      }
      i := i - 1;
      Rescaled(j[i], zs.v, globalz.v);
      r[i] := SetGejZinv(a[i], zs);
    }
  }

  lemma RatioStep(g: int, z: int, z': int, ratio: int, s: int)
    requires Eq(g, z * s) && Eq(z, z' * ratio)
    ensures Eq(g, z' * (s * ratio))
  {
    EqRefl(s);
    EqMul(z, z' * ratio, s, s);
    assert z' * ratio * s == z' * (s * ratio);
    EqTrans(g, z * s, z' * (s * ratio));
  }

  lemma SamePointRefl(a: Jac)
    requires !a.infinity && !Z0(a.z)
    ensures SamePoint(Jac(a.x, a.y, a.z, false), a)
  {
    ZeroIsZero();
  }
}
