/** Field elements on five 52-bit limbs: magnitudes, normalization and the linear operations. */
module Field {
  import opened Integers
  import opened FieldMul

  const M52: int := B52 - 1
  const M48: int := B48 - 1
  const C: int := 0x1000003D1
  const P0: int := 0xFFFFEFFFFFC2F

  /** Limbs of magnitude m: at most 2 m times the largest reduced limb. */
  predicate Magnitude(a: seq<int>, m: int) {
    && |a| == 5 && m >= 0
    && (forall i :: 0 <= i < 4 ==> 0 <= a[i] <= 2 * m * M52)
    && 0 <= a[4] <= 2 * m * M48
  }

  /** The one representation of a residue that is fully reduced. */
  predicate Canonical(a: seq<int>) {
    && |a| == 5 && (forall i :: 0 <= i < 4 ==> 0 <= a[i] < B52) && 0 <= a[4] < B48
    && Value(a) < P
  }

  /** Reduced limbs with a possible extra bit at the top. */
  predicate Weak(a: seq<int>) {
    |a| == 5 && (forall i :: 0 <= i < 4 ==> 0 <= a[i] < B52) && 0 <= a[4] < B49
  }

  predicate Fits64(x: int) {
    0 <= x < TWO64
  }

  // ---------- carries ----------

  /** Propagate carries through the limbs; nothing overflows a word. */
  method CarryPass(u0: int, u1: int, u2: int, u3: int, u4: int) returns (t0: int, t1: int, t2: int, t3: int, t4: int)
    requires 0 <= u0 <= 4095 * B52 && 0 <= u1 <= 4095 * B52 && 0 <= u2 <= 4095 * B52 && 0 <= u3 <= 4095 * B52 && 0 <= u4 < B49
    ensures 0 <= t0 < B52 && 0 <= t1 < B52 && 0 <= t2 < B52 && 0 <= t3 < B52 && u4 <= t4 <= u4 + 4096
    ensures Value([t0, t1, t2, t3, t4]) == Value([u0, u1, u2, u3, u4])
    ensures t0 == u0 % B52
  {
    hide Lo, Hi;
    t0, t1, t2, t3, t4 := u0, u1, u2, u3, u4;
    Split(t0);
    HiBound(t0, 4096);
    t1 := t1 + Hi(t0);
    assert Fits64(t1);
    t0 := Lo(t0);
    Split(t1);
    HiBound(t1, 4096);
    t2 := t2 + Hi(t1);
    assert Fits64(t2);
    t1 := Lo(t1);
    Split(t2);
    HiBound(t2, 4096);
    t3 := t3 + Hi(t2);
    assert Fits64(t3);
    t2 := Lo(t2);
    Split(t3);
    HiBound(t3, 4096);
    t4 := t4 + Hi(t3);
    assert Fits64(t4);
    t3 := Lo(t3);
    LoIs(u0);
  }

  lemma LoIs(x: int)
    ensures Lo(x) == x % B52
  {
  }

  /** The first pass: the bits of the top limb from 48 up come back as multiples of 2^256 - p. */
  method FirstPass(r: seq<int>, ghost m: int) returns (t0: int, t1: int, t2: int, t3: int, t4: int)
    requires Magnitude(r, m) && m <= 2047
    ensures Weak([t0, t1, t2, t3, t4]) && t4 < B48 + 4096
    ensures Cong(Value([t0, t1, t2, t3, t4]), Value(r), P)
    ensures t0 == (r[0] + (r[4] / B48) * C) % B52
  {
    var x := r[4] / B48;
    t4 := r[4] % B48;
    TopBits(r[4], m);
    t0 := r[0] + x * C;
    assert Fits64(t0);
    ghost var v := Value([t0, r[1], r[2], r[3], t4]);
    TopFold(r[0], r[1], r[2], r[3], r[4], x, t4);
    t0, t1, t2, t3, t4 := CarryPass(t0, r[1], r[2], r[3], t4);
    assert r == [r[0], r[1], r[2], r[3], r[4]];
    CongIntro(Value([t0, t1, t2, t3, t4]), Value(r), P, -x);
  }

  lemma TopBits(x: int, m: int)
    requires 0 <= x <= 2 * m * M48 && 0 <= m <= 2047
    ensures x == x % B48 + B48 * (x / B48) && 0 <= x % B48 < B48 && 0 <= x / B48 <= 4094
  {
  }

  lemma TopFold(r0: int, r1: int, r2: int, r3: int, r4: int, x: int, t4: int)
    requires r4 == t4 + B48 * x
    ensures Value([r0 + x * C, r1, r2, r3, t4]) == Value([r0, r1, r2, r3, r4]) - x * P
  {
  }

  // ---------- normalization ----------

  /** The last subtraction of p, when the value is at least p. */
  method FinalPass(u0: int, u1: int, u2: int, u3: int, u4: int) returns (r: seq<int>)
    requires Weak([u0, u1, u2, u3, u4]) && u4 < B48 + 4096 && Value([u0, u1, u2, u3, u4]) >= P
    ensures Canonical(r) && Value(r) == Value([u0, u1, u2, u3, u4]) - P
  {
    hide Value;
    WeakParts(u0, u1, u2, u3, u4);
    var t0, t1, t2, t3, t4 := CarryPass(u0 + C, u1, u2, u3, u4);
    FinalCarry(u0, u1, u2, u3, u4, t0, t1, t2, t3, t4);
    assert t4 / B48 == 1;
    t4 := t4 % B48;
    r := [t0, t1, t2, t3, t4];
  }

  lemma FinalCarry(u0: int, u1: int, u2: int, u3: int, u4: int, t0: int, t1: int, t2: int, t3: int, t4: int)
    requires 0 <= u0 < B52 && 0 <= u1 < B52 && 0 <= u2 < B52 && 0 <= u3 < B52 && 0 <= u4 < B48 + 4096
    requires Value([u0, u1, u2, u3, u4]) >= P
    requires 0 <= t0 < B52 && 0 <= t1 < B52 && 0 <= t2 < B52 && 0 <= t3 < B52 && u4 <= t4 <= u4 + 4096
    requires Value([t0, t1, t2, t3, t4]) == Value([u0 + C, u1, u2, u3, u4])
    ensures t4 / B48 == 1 && t4 % B48 == t4 - B48
    ensures Canonical([t0, t1, t2, t3, t4 - B48])
    ensures Value([t0, t1, t2, t3, t4 - B48]) == Value([u0, u1, u2, u3, u4]) - P
  {
    ValueRange(u0, u1, u2, u3, u4);
    ValueRange(t0, t1, t2, t3, t4);
    DropTop(t0, t1, t2, t3, t4);
    FirstLimb(u0, u1, u2, u3, u4);
    TopIsOne(Value([u0, u1, u2, u3, u4]), u4, t4);
  }

  lemma TopIsOne(v: int, u4: int, t4: int)
    requires P <= v < (u4 + 1) * B208 && u4 < B48 + 4096 && u4 <= t4 <= u4 + 4096
    requires v + C < (t4 + 1) * B208
    ensures B48 <= t4 < 2 * B48 && v - P < P
  {
  }

  lemma FirstLimb(u0: int, u1: int, u2: int, u3: int, u4: int)
    ensures Value([u0 + C, u1, u2, u3, u4]) == Value([u0, u1, u2, u3, u4]) + C
  {
  }

  lemma DropTop(t0: int, t1: int, t2: int, t3: int, t4: int)
    ensures Value([t0, t1, t2, t3, t4 - B48]) == Value([t0, t1, t2, t3, t4]) - P - C
  {
  }

  lemma ValueRange(t0: int, t1: int, t2: int, t3: int, t4: int)
    requires 0 <= t0 < B52 && 0 <= t1 < B52 && 0 <= t2 < B52 && 0 <= t3 < B52
    ensures t4 * B208 <= Value([t0, t1, t2, t3, t4]) < (t4 + 1) * B208
  {
  }

  lemma WeakParts(t0: int, t1: int, t2: int, t3: int, t4: int)
    requires Weak([t0, t1, t2, t3, t4])
    ensures 0 <= t0 < B52 && 0 <= t1 < B52 && 0 <= t2 < B52 && 0 <= t3 < B52 && 0 <= t4 < B49
  {
    var t := [t0, t1, t2, t3, t4];
    assert t[0] == t0 && t[1] == t1 && t[2] == t2 && t[3] == t3 && t[4] == t4;
  }

  /** The unique reduced representation, in constant time. */
  method FeNormalize(r: array<int>, ghost m: int)
    requires r.Length == 5 && Magnitude(r[..], m) && m <= 2047
    modifies r
    ensures Canonical(r[..]) && Cong(Value(r[..]), old(Value(r[..])), P)
  {
    hide Value, Cong;
    ghost var a := r[..];
    var t0, t1, t2, t3, t4 := FirstPass(r[..], m);
    ghost var t := [t0, t1, t2, t3, t4];
    var x := if t4 / B48 == 1 || (t4 == M48 && t1 == M52 && t2 == M52 && t3 == M52 && t0 >= P0) then 1 else 0;
    Decision(t0, t1, t2, t3, t4);
    // the final reduction is always carried out, with x = 0 or 1
    WeakParts(t0, t1, t2, t3, t4);
    var s0, s1, s2, s3, s4 := CarryPass(t0 + x * C, t1, t2, t3, t4);
    if x == 1 {
      FinalCarry(t0, t1, t2, t3, t4, s0, s1, s2, s3, s4);
    } else {
      NothingCarried(t0, t1, t2, t3, t4, s0, s1, s2, s3, s4);
    }
    assert s4 / B48 == x;
    s4 := s4 % B48;
    r[0], r[1], r[2], r[3], r[4] := s0, s1, s2, s3, s4;
    assert r[..] == [s0, s1, s2, s3, s4];
    CongIntroSub(Value(r[..]), Value(t), Value(a), x);
  }

  lemma CongIntroSub(r: int, t: int, a: int, x: int)
    requires r == t - x * P && Cong(t, a, P)
    ensures Cong(r, a, P)
  {
  }

  /** The test decides whether the value is at least p. */
  lemma Decision(t0: int, t1: int, t2: int, t3: int, t4: int)
    requires Weak([t0, t1, t2, t3, t4]) && t4 < B48 + 4096
    ensures 0 <= t4 / B48 <= 1 && (t4 / B48 == 1 <==> t4 >= B48)
    ensures (t4 / B48 == 1 || (t4 == M48 && t1 == M52 && t2 == M52 && t3 == M52 && t0 >= P0)) <==> Value([t0, t1, t2, t3, t4]) >= P
  {
  }

  lemma NothingCarried(t0: int, t1: int, t2: int, t3: int, t4: int, s0: int, s1: int, s2: int, s3: int, s4: int)
    requires Weak([t0, t1, t2, t3, t4]) && t4 < B48 && Value([t0, t1, t2, t3, t4]) < P
    requires 0 <= s0 < B52 && 0 <= s1 < B52 && 0 <= s2 < B52 && 0 <= s3 < B52
    requires Value([s0, s1, s2, s3, s4]) == Value([t0, t1, t2, t3, t4])
    ensures s4 == t4 && s4 / B48 == 0 && s4 % B48 == s4 && Canonical([s0, s1, s2, s3, s4])
  {
    WeakParts(t0, t1, t2, t3, t4);
    LimbsUnique(s0, s1, s2, s3, s4, t0, t1, t2, t3, t4);
  }

  method FeNormalizeWeak(r: array<int>, ghost m: int)
    requires r.Length == 5 && Magnitude(r[..], m) && m <= 2047
    modifies r
    ensures Weak(r[..]) && Magnitude(r[..], 1) && Cong(Value(r[..]), old(Value(r[..])), P)
  {
    hide Value, Cong;
    var t0, t1, t2, t3, t4 := FirstPass(r[..], m);
    r[0], r[1], r[2], r[3], r[4] := t0, t1, t2, t3, t4;
    assert r[..] == [t0, t1, t2, t3, t4];
  }

  method FeNormalizeVar(r: array<int>, ghost m: int)
    requires r.Length == 5 && Magnitude(r[..], m) && m <= 2047
    modifies r
    ensures Canonical(r[..]) && Cong(Value(r[..]), old(Value(r[..])), P)
  {
    hide Value, Cong;
    ghost var a := r[..];
    var t0, t1, t2, t3, t4 := FirstPass(r[..], m);
    ghost var t := [t0, t1, t2, t3, t4];
    Decision(t0, t1, t2, t3, t4);
    if t4 / B48 == 1 || (t4 == M48 && t1 == M52 && t2 == M52 && t3 == M52 && t0 >= P0) {
      var s := FinalPass(t0, t1, t2, t3, t4);
      t0, t1, t2, t3, t4 := s[0], s[1], s[2], s[3], s[4];
      assert s == [t0, t1, t2, t3, t4];
      CongIntroSub(Value(s), Value(t), Value(a), 1);
    }
    r[0], r[1], r[2], r[3], r[4] := t0, t1, t2, t3, t4;
    assert r[..] == [t0, t1, t2, t3, t4];
  }

  /** Two reduced representations of the same residue are the same limbs: the two normalizations agree. */
  lemma CanonicalUnique(a: seq<int>, b: seq<int>)
    requires Canonical(a) && Canonical(b) && Cong(Value(a), Value(b), P)
    ensures a == b
  {
    hide Cong;
    CongUnique(Value(a), Value(b), P);
    LimbsUnique(a[0], a[1], a[2], a[3], a[4], b[0], b[1], b[2], b[3], b[4]);
  }

  lemma LimbsUnique(a0: int, a1: int, a2: int, a3: int, a4: int, b0: int, b1: int, b2: int, b3: int, b4: int)
    requires 0 <= a0 < B52 && 0 <= a1 < B52 && 0 <= a2 < B52 && 0 <= a3 < B52
    requires 0 <= b0 < B52 && 0 <= b1 < B52 && 0 <= b2 < B52 && 0 <= b3 < B52
    requires a0 + a1 * B52 + a2 * B104 + a3 * B156 + a4 * B208 == b0 + b1 * B52 + b2 * B104 + b3 * B156 + b4 * B208
    ensures a0 == b0 && a1 == b1 && a2 == b2 && a3 == b3 && a4 == b4
  {
    LowEqual(a0, a1 + a2 * B52 + a3 * B104 + a4 * B156, b0, b1 + b2 * B52 + b3 * B104 + b4 * B156);
    LowEqual(a1, a2 + a3 * B52 + a4 * B104, b1, b2 + b3 * B52 + b4 * B104);
    LowEqual(a2, a3 + a4 * B52, b2, b3 + b4 * B52);
    LowEqual(a3, a4, b3, b4);
  }

  lemma LowEqual(a: int, x: int, b: int, y: int)
    requires 0 <= a < B52 && 0 <= b < B52 && a + B52 * x == b + B52 * y
    ensures a == b && x == y
  {
  }

  /** Whether a value is a multiple of p, decided from its weak reduction alone: the raw limbs are those of 0 or of p. */
  lemma ZeroTest(t0: int, t1: int, t2: int, t3: int, t4: int)
    requires Weak([t0, t1, t2, t3, t4]) && t4 < B48 + 4096
    ensures Cong(Value([t0, t1, t2, t3, t4]), 0, P)
      <==> (t0 == 0 && t1 == 0 && t2 == 0 && t3 == 0 && t4 == 0) || (t0 == P0 && t1 == M52 && t2 == M52 && t3 == M52 && t4 == M48)
  {
    hide Cong;
    var v := Value([t0, t1, t2, t3, t4]);
    WeakParts(t0, t1, t2, t3, t4);
    ValueRange(t0, t1, t2, t3, t4);
    ValueOfP();
    MultipleBelow(v, t4);
    if v == 0 {
      LimbsUnique(t0, t1, t2, t3, t4, 0, 0, 0, 0, 0);
    } else if v == P {
      LimbsUnique(t0, t1, t2, t3, t4, P0, M52, M52, M52, M48);
    }
  }

  lemma MultipleBelow(v: int, t4: int)
    requires 0 <= t4 < B48 + 4096 && t4 * B208 <= v < (t4 + 1) * B208
    ensures Cong(v, 0, P) <==> v == 0 || v == P
  {
  }

  lemma ValueOfP()
    ensures P0 + M52 * B52 + M52 * B104 + M52 * B156 + M48 * B208 == P
  {
  }

  method FeNormalizesToZero(r: array<int>, ghost m: int) returns (z: bool)
    requires r.Length == 5 && Magnitude(r[..], m) && m <= 2047
    ensures z <==> Cong(Value(r[..]), 0, P)
  {
    hide Value, Cong;
    var t0, t1, t2, t3, t4 := FirstPass(r[..], m);
    ZeroTest(t0, t1, t2, t3, t4);
    CongZero(Value([t0, t1, t2, t3, t4]), Value(r[..]));
    z := (t0 == 0 && t1 == 0 && t2 == 0 && t3 == 0 && t4 == 0) || (t0 == P0 && t1 == M52 && t2 == M52 && t3 == M52 && t4 == M48);
  }

  lemma CongZero(t: int, a: int)
    requires Cong(t, a, P)
    ensures Cong(t, 0, P) <==> Cong(a, 0, P)
  {
  }

  /** The same answer, with a quick exit after the lowest limb. */
  method FeNormalizesToZeroVar(r: array<int>, ghost m: int) returns (z: bool)
    requires r.Length == 5 && Magnitude(r[..], m) && m <= 2047
    ensures z <==> Cong(Value(r[..]), 0, P)
  {
    hide Value, Cong;
    var z0 := (r[0] + (r[4] / B48) * C) % B52;
    var t0, t1, t2, t3, t4 := FirstPass(r[..], m);
    ZeroTest(t0, t1, t2, t3, t4);
    CongZero(Value([t0, t1, t2, t3, t4]), Value(r[..]));
    if z0 != 0 && z0 != P0 {
      return false;
    }
    z := (z0 == 0 && t1 == 0 && t2 == 0 && t3 == 0 && t4 == 0) || (z0 == P0 && t1 == M52 && t2 == M52 && t3 == M52 && t4 == M48);
  }

  // ---------- the linear operations ----------

  method FeNegate(r: array<int>, a: array<int>, m: int)
    requires r.Length == a.Length == 5 && Magnitude(a[..], m) && m <= 2046
    modifies r
    ensures Magnitude(r[..], m + 1) && Cong(Value(r[..]), -old(Value(a[..])), P)
  {
    ghost var old' := a[..];
    r[0], r[1], r[2], r[3], r[4] := P0 * 2 * (m + 1) - a[0], M52 * 2 * (m + 1) - a[1], M52 * 2 * (m + 1) - a[2],
      M52 * 2 * (m + 1) - a[3], M48 * 2 * (m + 1) - a[4];
    NegateLimbs(old', r[..], m);
  }

  lemma NegateLimbs(a: seq<int>, r: seq<int>, m: int)
    requires Magnitude(a, m) && |r| == 5 && 0 <= m <= 2046
    requires r[0] == P0 * 2 * (m + 1) - a[0] && r[1] == M52 * 2 * (m + 1) - a[1] && r[2] == M52 * 2 * (m + 1) - a[2]
    requires r[3] == M52 * 2 * (m + 1) - a[3] && r[4] == M48 * 2 * (m + 1) - a[4]
    ensures Magnitude(r, m + 1) && Cong(Value(r), -Value(a), P)
  {
    hide Value, Cong;
    NegateValue(a, r, 2 * (m + 1));
    CongIntro(Value(r), -Value(a), P, 2 * (m + 1));
    NegateLimb(a[0], P0, M52, m);
    NegateLimb(a[1], M52, M52, m);
    NegateLimb(a[2], M52, M52, m);
    NegateLimb(a[3], M52, M52, m);
    NegateLimb(a[4], M48, M48, m);
  }

  lemma NegateLimb(a: int, top: int, max: int, m: int)
    requires 0 <= a <= 2 * m * max && 0 <= m <= 2046 && 0 < top <= max
    requires top * (m + 1) >= max * m
    ensures 0 <= top * 2 * (m + 1) - a <= 2 * (m + 1) * max
  {
    MulMono(top, max, 2 * (m + 1));
  }

  lemma NegateValue(a: seq<int>, r: seq<int>, n: int)
    requires |a| == |r| == 5
    requires r[0] == P0 * n - a[0] && r[1] == M52 * n - a[1] && r[2] == M52 * n - a[2] && r[3] == M52 * n - a[3] && r[4] == M48 * n - a[4]
    ensures Value(r) == -Value(a) + n * P
  {
  }

  method FeAdd(r: array<int>, a: array<int>, ghost m: int, ghost k: int)
    requires r.Length == a.Length == 5 && Magnitude(r[..], m) && Magnitude(a[..], k)
    modifies r
    ensures Magnitude(r[..], m + k) && Value(r[..]) == old(Value(r[..]) + Value(a[..]))
  {
    ghost var x, y := r[..], a[..];
    r[0], r[1], r[2], r[3], r[4] := r[0] + a[0], r[1] + a[1], r[2] + a[2], r[3] + a[3], r[4] + a[4];
    AddLimbs(x, y, r[..], m, k);
  }

  lemma AddLimbs(x: seq<int>, y: seq<int>, r: seq<int>, m: int, k: int)
    requires Magnitude(x, m) && Magnitude(y, k) && |r| == 5 && forall i :: 0 <= i < 5 ==> r[i] == x[i] + y[i]
    ensures Magnitude(r, m + k) && Value(r) == Value(x) + Value(y)
  {
    hide Magnitude;
    MagnitudeAdd(x, y, r, m, k);
  }

  lemma MagnitudeAdd(x: seq<int>, y: seq<int>, r: seq<int>, m: int, k: int)
    requires Magnitude(x, m) && Magnitude(y, k) && |r| == 5 && forall i :: 0 <= i < 5 ==> r[i] == x[i] + y[i]
    ensures Magnitude(r, m + k)
  {
  }

  /** Products take factors of magnitude 8, and come out with magnitude 1. */
  lemma MagnitudeOfProducts(a: seq<int>)
    ensures Magnitude(a, 8) ==> Factor(a)
    ensures Product(a) ==> Magnitude(a, 1)
  {
  }

  /**
   * The carry of the first limb stays inside a 64-bit word for every element of magnitude m exactly up to m = 2047, one
   * less than the largest magnitude the representation check admits.
   */
  lemma LargestMagnitude(m: nat)
    ensures (forall a: seq<int> :: Magnitude(a, m) ==> Fits64(a[0] + (a[4] / B48) * C)) <==> m <= 2047
  {
    if m <= 2047 {
      forall a: seq<int> | Magnitude(a, m)
        ensures Fits64(a[0] + (a[4] / B48) * C)
      {
        TopBits(a[4], m);
        assert a[0] <= 4094 * M52;
      }
    } else {
      var a := [4096 * M52, 0, 0, 0, 4096 * M48];
      assert Magnitude(a, m);
      assert a[4] / B48 == 4095;
      assert !Fits64(a[0] + (a[4] / B48) * C);
    }
  }
}
