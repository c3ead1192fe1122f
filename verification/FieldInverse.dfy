/** Inversion of field elements: normalize, regroup into 62-bit limbs, run the divstep inversion, regroup back. */
module FieldInverse {
  import opened Integers
  import opened FieldMul
  import opened Field
  import opened PrimeModuli
  import opened Primes
  import D = Divsteps
  import S = Modinv64
  import I = ModularInverse

  const B10: int := 0x400
  const B20: int := 0x10_0000
  const B22: int := 0x40_0000
  const B30: int := 0x4000_0000
  const B32: int := 0x1_0000_0000
  const B40: int := 0x100_0000_0000
  const B42: int := 0x400_0000_0000

  /** Limbs of a normalized 62-bit number below 2^256. */
  predicate Normal62(v: seq<int>) {
    |v| == 5 && (forall i :: 0 <= i < 4 ==> 0 <= v[i] < TWO62) && 0 <= v[4] < 256
  }

  function Regroup62(a: seq<int>): seq<int>
    requires |a| == 5
  {
    [a[0] + (a[1] % B10) * B52,
     a[1] / B10 + (a[2] % B20) * B42,
     a[2] / B20 + (a[3] % B30) * B32,
     a[3] / B30 + (a[4] % B40) * B22,
     a[4] / B40]
  }

  function Regroup52(v: seq<int>): seq<int>
    requires |v| == 5
  {
    [v[0] % B52,
     v[0] / B52 + (v[1] % B42) * B10,
     v[1] / B42 + (v[2] % B32) * B20,
     v[2] / B32 + (v[3] % B22) * B30,
     v[3] / B22 + v[4] * B40]
  }

  function Sum62(v0: int, v1: int, v2: int, v3: int, v4: int): int {
    v0 + TWO62 * (v1 + TWO62 * (v2 + TWO62 * (v3 + TWO62 * v4)))
  }

  lemma Value62(v: seq<int>)
    requires |v| == 5
    ensures S.Value(v) == Sum62(v[0], v[1], v[2], v[3], v[4])
  {
    I.ValueLimbs5(v);
  }

  lemma SplitAt(x: int, b: int)
    requires b > 0
    ensures x == x % b + b * (x / b) && 0 <= x % b < b
  {
  }

  lemma QuotientBound(x: int, b: int, c: int)
    requires b > 0 && 0 <= x < b * c
    ensures 0 <= x / b < c
  {
  }

  /** Regrouping keeps the value. */
  lemma To62(a: seq<int>)
    requires Canonical(a)
    ensures Normal62(Regroup62(a)) && S.Value(Regroup62(a)) == Value(a)
  {
    SplitAt(a[1], B10);
    QuotientBound(a[1], B10, B42);
    SplitAt(a[2], B20);
    QuotientBound(a[2], B20, B32);
    SplitAt(a[3], B30);
    QuotientBound(a[3], B30, B22);
    SplitAt(a[4], B40);
    QuotientBound(a[4], B40, 256);
    Value62(Regroup62(a));
    To62Algebra(a[0], a[1] % B10, a[1] / B10, a[2] % B20, a[2] / B20, a[3] % B30, a[3] / B30, a[4] % B40, a[4] / B40);
  }

  lemma To62Algebra(a0: int, a1l: int, a1h: int, a2l: int, a2h: int, a3l: int, a3h: int, a4l: int, a4h: int)
    ensures Sum62(a0 + a1l * B52, a1h + a2l * B42, a2h + a3l * B32, a3h + a4l * B22, a4h)
      == a0 + (a1l + B10 * a1h) * B52 + (a2l + B20 * a2h) * B104 + (a3l + B30 * a3h) * B156 + (a4l + B40 * a4h) * B208
  {
  }

  lemma From62(v: seq<int>)
    requires Normal62(v)
    ensures Value(Regroup52(v)) == S.Value(v)
    ensures S.Value(v) < P ==> Canonical(Regroup52(v))
  {
    SplitAt(v[0], B52);
    QuotientBound(v[0], B52, B10);
    SplitAt(v[1], B42);
    QuotientBound(v[1], B42, B20);
    SplitAt(v[2], B32);
    QuotientBound(v[2], B32, B30);
    SplitAt(v[3], B22);
    QuotientBound(v[3], B22, B40);
    Value62(v);
    From62Algebra(v[0] % B52, v[0] / B52, v[1] % B42, v[1] / B42, v[2] % B32, v[2] / B32, v[3] % B22, v[3] / B22, v[4]);
  }

  lemma From62Algebra(v0l: int, v0h: int, v1l: int, v1h: int, v2l: int, v2h: int, v3l: int, v3h: int, v4: int)
    ensures v0l + (v0h + v1l * B10) * B52 + (v1h + v2l * B20) * B104 + (v2h + v3l * B30) * B156 + (v3h + v4 * B40) * B208
      == Sum62(v0l + B52 * v0h, v1l + B42 * v1h, v2l + B32 * v2h, v3l + B22 * v3h, v4)
  {
  }

  /** Regrouping there and back gives the same element. */
  lemma RegroupRoundTrip(a: seq<int>)
    requires Canonical(a)
    ensures Regroup52(Regroup62(a)) == a
  {
    hide Value, Regroup52, Regroup62;
    To62(a);
    From62(Regroup62(a));
    CongIntro(Value(Regroup52(Regroup62(a))), Value(a), P, 0);
    CanonicalUnique(Regroup52(Regroup62(a)), a);
  }

  // ---------- the modulus ----------

  const MODINFO: S.ModInfo := S.ModInfo([-0x1000003D1, 0, 0, 0, 256], 0x27C7F6E22DDACACF)

  lemma ModInfoIsP()
    ensures MODINFO.Valid() && MODINFO.M() == P
  {
    Value62(MODINFO.modulus);
    InverseOfLimb();
  }

  lemma InverseOfLimb()
    ensures (-0x1000003D1 * 0x27C7F6E22DDACACF) % TWO62 == 1
  {
  }

  // ---------- inversion ----------

  lemma NormalIsLow(v: seq<int>)
    requires Normal62(v)
    ensures S.LowLimbs(v) && S.SmallLimbs(v)
  {
  }

  lemma BelowPIsNormal(v: seq<int>)
    requires |v| == 5 && (forall i :: 0 <= i < 5 ==> 0 <= v[i] < TWO62) && S.Value(v) < P
    ensures Normal62(v)
  {
    Value62(v);
    TopBelow(v[0], v[1], v[2], v[3], v[4]);
  }

  lemma TopBelow(v0: int, v1: int, v2: int, v3: int, v4: int)
    requires 0 <= v0 && 0 <= v1 && 0 <= v2 && 0 <= v3 && Sum62(v0, v1, v2, v3, v4) < P
    ensures v4 < 256
  {
  }

  /** The reduced limbs of the input, as 62-bit limbs. */
  method Prepare(x: array<int>, ghost m: int) returns (s: array<int>)
    requires x.Length == 5 && Magnitude(x[..], m) && m <= 2047
    ensures fresh(s) && s.Length == 5 && Normal62(s[..]) && S.Value(s[..]) == Value(x[..]) % P
  {
    hide Value, Cong, Canonical, Regroup62;
    var tmp := new int[5](i requires 0 <= i < 5 reads x => x[i]);
    assert tmp[..] == x[..];
    FeNormalize(tmp, m);
    CanonicalIsMod(tmp[..], Value(x[..]));
    To62(tmp[..]);
    var v := Regroup62(tmp[..]);
    s := new int[5](i requires 0 <= i < 5 => if 0 <= i < |v| then v[i] else 0);
    assert s[..] == v;
  }

  lemma CanonicalIsMod(a: seq<int>, x: int)
    requires Canonical(a) && Cong(Value(a), x, P)
    ensures Value(a) == x % P
  {
  }

  /** Multiplication followed by normalization gives the canonical residue of the product. */
  lemma MulThenNormalize(a: seq<int>, b: seq<int>, prod: seq<int>, r: seq<int>)
    requires |a| == |b| == 5 && |prod| == 5 && Canonical(r)
    requires Cong(Value(prod), Value(a) * Value(b), P) && Cong(Value(r), Value(prod), P)
    ensures Value(r) == (Value(a) * Value(b)) % P
  {
    hide Cong, Value;
    CongTrans(Value(r), Value(prod), Value(a) * Value(b), P);
    CanonicalIsMod(r, Value(a) * Value(b));
  }

  /** Variable-time inversion. */
  method FeInvVar(r: array<int>, x: array<int>, ghost m: int) returns (ghost h: int)
    requires r.Length == x.Length == 5 && Magnitude(x[..], m) && m <= 2047
    modifies r
    ensures Canonical(r[..]) && I.Inverts(Value(r[..]), old(Value(x[..])) % P, P, h)
    ensures Reciprocal(Value(r[..]), old(Value(x[..])) % P, P)
  {
    hide Value, Canonical, I.Inverts, D.Run, Regroup52, S.Value, S.ModInfo.Valid, Reciprocal;
    ModInfoIsP();
    var s := Prepare(x, m);
    NormalIsLow(s[..]);
    ghost var rounds;
    h, rounds := I.ModInvVar(s, MODINFO);
    Store52(r, s, h, old(Value(x[..])) % P);
    Inverted(Value(r[..]), old(Value(x[..])) % P, h);
  }

  /** Constant-time inversion: 590 divsteps. */
  method FeInv(r: array<int>, x: array<int>, ghost m: int) returns (ghost h: int)
    requires r.Length == x.Length == 5 && Magnitude(x[..], m) && m <= 2047
    modifies r
    ensures Canonical(r[..]) && I.Inverts(Value(r[..]), old(Value(x[..])) % P, P, h)
    ensures Reciprocal(Value(r[..]), old(Value(x[..])) % P, P)
  {
    hide Value, Canonical, I.Inverts, D.Run, Regroup52, S.Value, S.ModInfo.Valid, Reciprocal;
    ModInfoIsP();
    var s := Prepare(x, m);
    NormalIsLow(s[..]);
    h := I.ModInv(s, MODINFO);
    Store52(r, s, h, old(Value(x[..])) % P);
    Inverted(Value(r[..]), old(Value(x[..])) % P, h);
  }

  lemma InRangeValue(r: int, x: int, h: int)
    requires I.Inverts(r, x, P, h)
    ensures 0 <= r < P
  {
  }

  method Regroup(r: array<int>, s: array<int>)
    requires r.Length == s.Length == 5 && r != s
    modifies r
    ensures r[..] == Regroup52(s[..])
  {
    var v := Regroup52(s[..]);
    r[0], r[1], r[2], r[3], r[4] := v[0], v[1], v[2], v[3], v[4];
    assert r[..] == v;
  }

  method Store52(r: array<int>, s: array<int>, ghost h: int, ghost x: int)
    requires r.Length == s.Length == 5 && r != s && I.Inverts(S.Value(s[..]), x, P, h)
    requires forall i :: 0 <= i < 5 ==> 0 <= s[i] < TWO62
    modifies r
    ensures Canonical(r[..]) && I.Inverts(Value(r[..]), x, P, h)
  {
    hide Value, Canonical, I.Inverts, Regroup52, S.Value;
    InRangeValue(S.Value(s[..]), x, h);
    BelowPIsNormal(s[..]);
    From62(s[..]);
    Regroup(r, s);
  }

  /**
   * In a field every nonzero element is inverted, and zero is sent to zero; the f that the divsteps end with is then 1 or -1, or
   * the modulus or its negative.
   */
  lemma FieldInverse(r: int, x: int, m: int, h: int)
    requires Prime(m) && 0 <= x < m && I.Inverts(r, x, m, h)
    ensures if x == 0 then r == 0 && h == m else (r * x) % m == 1 && h == 1
  {
    if x == 0 {
      I.SelfDivides(m);
      I.GcdAtMost(h, m, 0);
      var k: int :| h == m * k;
      if k <= 0 {
        MulMono(k, 0, m);
      } else {
        MulMono(1, k, m);
      }
    } else {
      if h == m {
        NotMultiple(m, x);
      }
      I.RightExactly(r, x, m, h);
    }
  }

  lemma Inverted(r: int, x: int, h: int)
    requires 0 <= x < P && I.Inverts(r, x, P, h)
    ensures Reciprocal(r, x, P)
  {
    PIsPrime();
    FieldInverse(r, x, P, h);
  }

  lemma NotMultiple(m: int, x: int)
    requires 0 < x < m
    ensures !I.Divides(m, x)
  {
  }
}
