/** Inversion of scalars: 64-bit limbs regrouped into 62-bit limbs for the divstep inversion, and back. */
module ScalarInverse {
  import opened Integers
  import opened Recoding
  import opened Scalar
  import opened PrimeModuli
  import opened Primes
  import D = Divsteps
  import S = Modinv64
  import I = ModularInverse
  import F = FieldInverse

  const B4: int := 16
  const B6: int := 64
  const B8: int := 256
  const B58: int := 4 * B56

  function Regroup62(a: seq<int>): seq<int>
    requires |a| == 4
  {
    [a[0] % TWO62,
     a[0] / TWO62 + (a[1] % B60) * 4,
     a[1] / B60 + (a[2] % B58) * B4,
     a[2] / B58 + (a[3] % B56) * B6,
     a[3] / B56]
  }

  function Regroup64(v: seq<int>): seq<int>
    requires |v| == 5
  {
    [v[0] + (v[1] % 4) * TWO62,
     v[1] / 4 + (v[2] % B4) * B60,
     v[2] / B4 + (v[3] % B6) * B58,
     v[3] / B6 + v[4] * B56]
  }

  lemma To62(a: seq<int>)
    requires Limbs(a)
    ensures F.Normal62(Regroup62(a)) && S.Value(Regroup62(a)) == Value(a)
  {
    F.SplitAt(a[0], TWO62);
    F.QuotientBound(a[0], TWO62, 4);
    F.SplitAt(a[1], B60);
    F.QuotientBound(a[1], B60, B4);
    F.SplitAt(a[2], B58);
    F.QuotientBound(a[2], B58, B6);
    F.SplitAt(a[3], B56);
    F.QuotientBound(a[3], B56, B8);
    F.Value62(Regroup62(a));
    To62Algebra(a[0] % TWO62, a[0] / TWO62, a[1] % B60, a[1] / B60, a[2] % B58, a[2] / B58, a[3] % B56, a[3] / B56);
  }

  lemma To62Algebra(a0l: int, a0h: int, a1l: int, a1h: int, a2l: int, a2h: int, a3l: int, a3h: int)
    ensures F.Sum62(a0l, a0h + a1l * 4, a1h + a2l * B4, a2h + a3l * B6, a3h)
      == Sum4(a0l + TWO62 * a0h, a1l + B60 * a1h, a2l + B58 * a2h, a3l + B56 * a3h)
  {
  }

  lemma From62(v: seq<int>)
    requires F.Normal62(v)
    ensures Limbs(Regroup64(v)) && Value(Regroup64(v)) == S.Value(v)
  {
    hide S.Value, Sum4;
    RegroupedLimbs(v);
    F.SplitAt(v[1], 4);
    F.SplitAt(v[2], B4);
    F.SplitAt(v[3], B6);
    F.Value62(v);
    From62Algebra(v[0], v[1] % 4, v[1] / 4, v[2] % B4, v[2] / B4, v[3] % B6, v[3] / B6, v[4]);
  }

  lemma RegroupedLimbs(v: seq<int>)
    requires F.Normal62(v)
    ensures Limbs(Regroup64(v))
  {
    F.SplitAt(v[1], 4);
    F.QuotientBound(v[1], 4, B60);
    F.SplitAt(v[2], B4);
    F.QuotientBound(v[2], B4, B58);
    F.SplitAt(v[3], B6);
    F.QuotientBound(v[3], B6, B56);
  }

  lemma From62Algebra(v0: int, v1l: int, v1h: int, v2l: int, v2h: int, v3l: int, v3h: int, v4: int)
    ensures Sum4(v0 + v1l * TWO62, v1h + v2l * B60, v2h + v3l * B58, v3h + v4 * B56)
      == F.Sum62(v0, v1l + 4 * v1h, v2l + B4 * v2h, v3l + B6 * v3h, v4)
  {
  }

  const MODINFO: S.ModInfo := S.ModInfo([0x3FD25E8CD0364141, 0x2ABB739ABD2280EE, -0x15, 0, 256], 0x34F20099AA774EC1)

  lemma ModInfoIsN()
    ensures MODINFO.Valid() && MODINFO.M() == N
  {
    F.Value62(MODINFO.modulus);
    InverseOfLimb();
  }

  lemma InverseOfLimb()
    ensures (0x3FD25E8CD0364141 * 0x34F20099AA774EC1) % TWO62 == 1
  {
  }

  lemma BelowNIsNormal(v: seq<int>)
    requires |v| == 5 && (forall i :: 0 <= i < 5 ==> 0 <= v[i] < TWO62) && S.Value(v) < N
    ensures F.Normal62(v)
  {
    F.Value62(v);
    TopBelow(v[0], v[1], v[2], v[3], v[4]);
  }

  lemma TopBelow(v0: int, v1: int, v2: int, v3: int, v4: int)
    requires 0 <= v0 && 0 <= v1 && 0 <= v2 && 0 <= v3 && F.Sum62(v0, v1, v2, v3, v4) < N
    ensures v4 < 256
  {
  }

  method Prepare(x: seq<int>) returns (s: array<int>)
    requires Limbs(x)
    ensures fresh(s) && s.Length == 5 && F.Normal62(s[..]) && S.Value(s[..]) == Value(x)
  {
    To62(x);
    var v := Regroup62(x);
    s := new int[5](i requires 0 <= i < 5 => if 0 <= i < |v| then v[i] else 0);
    assert s[..] == v;
  }

  /** The regrouped result of an inversion. */
  method Finish(r: array<int>, s: array<int>, ghost h: int, ghost x: int)
    requires r.Length == 4 && s.Length == 5 && r != s && I.Inverts(S.Value(s[..]), x, N, h)
    requires forall i :: 0 <= i < 5 ==> 0 <= s[i] < TWO62
    modifies r
    ensures Limbs(r[..]) && I.Inverts(Value(r[..]), x, N, h)
  {
    hide I.Divides, I.IsGcd, S.Value, Value;
    BelowNIsNormal(s[..]);
    From62(s[..]);
    StoreRegrouped(r, s);
  }

  method StoreRegrouped(r: array<int>, s: array<int>)
    requires r.Length == 4 && s.Length == 5 && r != s
    modifies r
    ensures r[..] == Regroup64(s[..])
  {
    var v := Regroup64(s[..]);
    r[0], r[1], r[2], r[3] := v[0], v[1], v[2], v[3];
    assert r[..] == v;
  }

  lemma Inverted(r: int, x: int, h: int)
    requires 0 <= x < N && I.Inverts(r, x, N, h)
    ensures Reciprocal(r, x, N)
  {
    NIsPrime();
    F.FieldInverse(r, x, N, h);
  }

  /** Variable-time inversion. */
  method InverseVar(r: array<int>, x: seq<int>) returns (ghost h: int)
    requires r.Length == 4 && Limbs(x) && Value(x) < N
    modifies r
    ensures Limbs(r[..]) && I.Inverts(Value(r[..]), Value(x), N, h) && Reciprocal(Value(r[..]), Value(x), N)
  {
    hide Value, I.Inverts, D.Run, S.Value, S.ModInfo.Valid, Regroup64, Reciprocal;
    ModInfoIsN();
    ValueBounds(x);
    var s := Prepare(x);
    F.NormalIsLow(s[..]);
    ghost var rounds;
    h, rounds := I.ModInvVar(s, MODINFO);
    Finish(r, s, h, Value(x));
    Inverted(Value(r[..]), Value(x), h);
  }

  /** Constant-time inversion: 590 divsteps. */
  method Inverse(r: array<int>, x: seq<int>) returns (ghost h: int)
    requires r.Length == 4 && Limbs(x) && Value(x) < N
    modifies r
    ensures Limbs(r[..]) && I.Inverts(Value(r[..]), Value(x), N, h) && Reciprocal(Value(r[..]), Value(x), N)
  {
    hide Value, I.Inverts, D.Run, S.Value, S.ModInfo.Valid, Regroup64, Reciprocal;
    ModInfoIsN();
    ValueBounds(x);
    var s := Prepare(x);
    F.NormalIsLow(s[..]);
    h := I.ModInv(s, MODINFO);
    Finish(r, s, h, Value(x));
    Inverted(Value(r[..]), Value(x), h);
  }
}
