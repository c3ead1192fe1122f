/**
 * The two inversion routines: rounds of divsteps on (f, g) mirrored modulo M on (d, e) until g is zero,
 * then d, with the sign of f, is the inverse.
 */
module ModularInverse {
  import opened Integers
  import opened Divsteps
  import opened DivstepsBatch
  import opened DivstepsCount
  import opened Modinv64

  // ---------- divisors ----------

  ghost predicate Divides(c: int, a: int) {
    exists k: int :: a == c * k
  }

  ghost predicate SameDivisors(a: int, b: int, c: int, d: int) {
    forall x: int :: Divides(x, a) && Divides(x, b) <==> Divides(x, c) && Divides(x, d)
  }

  ghost predicate IsGcd(h: int, a: int, b: int) {
    && h > 0 && Divides(h, a) && Divides(h, b)
    && forall x: int :: Divides(x, a) && Divides(x, b) ==> Divides(x, h)
  }

  lemma DividesIntro(c: int, a: int, k: int)
    requires a == c * k
    ensures Divides(c, a)
  {
  }

  lemma DividesCombination(c: int, a: int, b: int, x: int, y: int)
    requires Divides(c, a) && Divides(c, b)
    ensures Divides(c, x * a + y * b)
  {
    var k: int :| a == c * k;
    var l: int :| b == c * l;
    assert x * a + y * b == c * (x * k + y * l);
  }

  /** An odd divisor of 2^n y divides y. */
  lemma {:induction false} OddCancel(c: int, n: nat, y: int)
    requires c % 2 == 1 && Divides(c, Shl(y, n))
    ensures Divides(c, y)
    decreases n
  {
    hide Shl, Divides;
    if n == 0 {
      ShlZero(y);
    } else {
      ShlSucc(y, n - 1);
      OddHalf(c, Shl(y, n - 1));
      OddCancel(c, n - 1, y);
    }
  }

  lemma OddHalf(c: int, z: int)
    requires c % 2 == 1 && Divides(c, 2 * z)
    ensures Divides(c, z)
  {
    var k: int :| 2 * z == c * k;
    EvenFactor(c, k, z);
    assert z == c * (k / 2);
  }

  lemma EvenFactor(c: int, k: int, z: int)
    requires c % 2 == 1 && 2 * z == c * k
    ensures k == 2 * (k / 2) && z == c * (k / 2)
  {
    var b := c / 2;
    assert c == 2 * b + 1;
    assert k == 2 * (z - b * k);
  }

  lemma OddDivisor(c: int, a: int)
    requires a % 2 == 1 && Divides(c, a)
    ensures c % 2 == 1
  {
    var k: int :| a == c * k;
    EvenProduct(c, k);
  }

  lemma EvenProduct(c: int, k: int)
    ensures c % 2 == 0 ==> (c * k) % 2 == 0
  {
    assert c * k == 2 * ((c / 2) * k) + (c % 2) * k;
  }

  // ---------- one round ----------

  /** What every round keeps: d x = f and e x = g modulo M, and f, g have the divisors of M, x. */
  ghost predicate Keeps(f: int, g: int, d: int, e: int, x: int, m: int) {
    && f % 2 == 1
    && Divides(m, d * x - f) && Divides(m, e * x - g)
    && SameDivisors(f, g, m, x)
    && (x == 0 ==> g == 0 && d == 0)
  }

  /** A row applied to (d, e) with a multiple of M stays congruent to the row applied to (f, g). */
  lemma RowKeeps(u: int, v: int, d: int, e: int, f: int, g: int, d': int, f': int, md: int, x: int, m: int)
    requires m % 2 == 1
    requires Divides(m, d * x - f) && Divides(m, e * x - g)
    requires TWO62 * d' == u * d + v * e + md * m
    requires TWO62 * f' == u * f + v * g
    ensures Divides(m, d' * x - f')
  {
    DividesCombination(m, d * x - f, e * x - g, u, v);
    DividesIntro(m, m * (md * x), md * x);
    DividesCombination(m, u * (d * x - f) + v * (e * x - g), m * (md * x), 1, 1);
    RowAlgebra(u, v, d, e, f, g, d', f', md, x, m);
    Pow2At64();
    OddCancel(m, 62, d' * x - f');
  }

  lemma RowAlgebra(u: int, v: int, d: int, e: int, f: int, g: int, d': int, f': int, md: int, x: int, m: int)
    requires TWO62 * d' == u * d + v * e + md * m
    requires TWO62 * f' == u * f + v * g
    ensures (d' * x - f') * TWO62 == 1 * (u * (d * x - f) + v * (e * x - g)) + 1 * (m * (md * x))
  {
    assert (TWO62 * d') * x == (u * d + v * e + md * m) * x;
    assert (u * d + v * e + md * m) * x == u * (d * x) + v * (e * x) + m * (md * x);
  }

  /** A matrix of determinant p keeps the odd common divisors, p being a power of two. */
  lemma DivisorsKept(u: int, v: int, q: int, r: int, f: int, g: int, f': int, g': int, n: nat)
    requires f % 2 == 1 && f' % 2 == 1
    requires Row(u, v, f, g, f', Pow2(n)) && Row(q, r, f, g, g', Pow2(n))
    requires Det(Matrix(u, v, q, r)) == Pow2(n)
    ensures SameDivisors(f', g', f, g)
  {
    hide Divides;
    Adjugate(u, v, q, r, f, g, f', g', Pow2(n));
    forall x: int | Divides(x, f) && Divides(x, g)
      ensures Divides(x, f') && Divides(x, g')
    {
      OddDivisor(x, f);
      DividesCombination(x, f, g, u, v);
      DividesCombination(x, f, g, q, r);
      OddCancel(x, n, f');
      OddCancel(x, n, g');
    }
    forall x: int | Divides(x, f') && Divides(x, g')
      ensures Divides(x, f) && Divides(x, g)
    {
      DividesCombination(x, f', g', r, -v);
      DividesCombination(x, f', g', -q, u);
    }
  }

  lemma Adjugate(u: int, v: int, q: int, r: int, f: int, g: int, f': int, g': int, p: int)
    requires p > 0
    requires Row(u, v, f, g, f', p) && Row(q, r, f, g, g', p) && Det(Matrix(u, v, q, r)) == p
    ensures f == r * f' + (-v) * g' && g == (-q) * f' + u * g'
  {
    AdjugateRow(u, v, q, r, f, g, f', g', p);
    AdjugateRow(r, q, v, u, g, f, g', f', p);
  }

  lemma AdjugateRow(u: int, v: int, q: int, r: int, f: int, g: int, f': int, g': int, p: int)
    requires p > 0
    requires u * f + v * g == f' * p && q * f + r * g == g' * p && u * r - v * q == p
    ensures f == r * f' + (-v) * g'
  {
    calc {
      (r * f' + (-v) * g') * p;
      r * (f' * p) - v * (g' * p);
      r * (u * f + v * g) - v * (q * f + r * g);
      (u * r - v * q) * f;
      f * p;
    }
    CancelFactor(f, r * f' + (-v) * g', p);
  }

  lemma CancelFactor(a: int, b: int, p: int)
    requires p > 0 && a * p == b * p
    ensures a == b
  {
    if a < b {
      MulMono(a + 1, b, p);
    } else if b < a {
      MulMono(b + 1, a, p);
    }
  }

  lemma SameDivisorsTrans(a: int, b: int, c: int, d: int, e: int, f: int)
    requires SameDivisors(a, b, c, d) && SameDivisors(c, d, e, f)
    ensures SameDivisors(a, b, e, f)
  {
  }

  /** g == 0 stays zero, and d is only rescaled. */
  lemma ZeroRun(c: int, n: nat, eta: int, f: int)
    requires f % 2 == 1
    ensures var s := Run(c, n, Start(eta, f, 0)); s.v == 0 && s.q == 0 && s.g == 0 && s.f == f
  {
    assert Shl(0, n) == 0;
    SkipZeros(c, n, n, Start(eta, f, 0), 0);
  }

  lemma RoundKeeps(c: int, n: nat, k: int, eta: int, f: int, g: int, d: int, e: int, d': int, e': int,
                   md: int, me: int, x: int, m: int)
    requires Keeps(f, g, d, e, x, m) && m % 2 == 1 && k * Pow2(n) == TWO62
    requires var s := Run(c, n, Start(eta, f, g));
      && TWO62 * d' == k * s.u * d + k * s.v * e + md * m
      && TWO62 * e' == k * s.q * d + k * s.r * e + me * m
      && (d == 0 && s.v == 0 ==> d' == 0)
    ensures var s := Run(c, n, Start(eta, f, g));
      Keeps(s.f, s.g, d', e', x, m)
  {
    hide Run, Det, Divides, SameDivisors, Pow2;
    var s := Run(c, n, Start(eta, f, g));
    RunBounds(c, n, eta, f, g);
    ScaledRow(s.u, s.v, f, g, s.f, Pow2(n), k);
    ScaledRow(s.q, s.r, f, g, s.g, Pow2(n), k);
    RowKeeps(k * s.u, k * s.v, d, e, f, g, d', s.f, md, x, m);
    RowKeeps(k * s.q, k * s.r, d, e, f, g, e', s.g, me, x, m);
    DivisorsKept(s.u, s.v, s.q, s.r, f, g, s.f, s.g, n);
    SameDivisorsTrans(s.f, s.g, f, g, m, x);
    if x == 0 {
      ZeroRun(c, n, eta, f);
    }
  }

  lemma ScaledRow(u: int, v: int, f: int, g: int, f': int, p: int, k: int)
    requires Row(u, v, f, g, f', p) && k * p == TWO62
    ensures TWO62 * f' == (k * u) * f + (k * v) * g
  {
    assert (k * u) * f + (k * v) * g == k * (u * f + v * g);
    assert k * (f' * p) == (k * p) * f';
  }

  // ---------- normalize ----------

  function Limbs5(a: int, b: int, c: int, d: int, e: int): int {
    a + TWO62 * (b + TWO62 * (c + TWO62 * (d + TWO62 * e)))
  }

  lemma ValueLimbs5(s: seq<int>)
    requires |s| == 5
    ensures Value(s) == Limbs5(s[0], s[1], s[2], s[3], s[4])
  {
    assert Value(s[4..]) == s[4];
    assert Value(s[3..]) == s[3] + TWO62 * Value(s[4..]);
    assert Value(s[2..]) == s[2] + TWO62 * Value(s[3..]);
    assert Value(s[1..]) == s[1] + TWO62 * Value(s[2..]);
  }

  /** Carry the excess of each limb into the next. */
  method Propagate(a: int, b: int, c: int, d: int, e: int) returns (a': int, b': int, c': int, d': int, e': int)
    requires Int64(a) && Int64(b) && Int64(c) && Int64(d)
    ensures Limbs5(a', b', c', d', e') == Limbs5(a, b, c, d, e)
    ensures 0 <= a' < TWO62 && 0 <= b' < TWO62 && 0 <= c' < TWO62 && 0 <= d' < TWO62
  {
    a', b' := a % TWO62, b + a / TWO62;
    b', c' := b' % TWO62, c + b' / TWO62;
    c', d' := c' % TWO62, d + c' / TWO62;
    d', e' := d' % TWO62, e + d' / TWO62;
  }

  /** With the low limbs in [0, 2^62), the sign is that of the top limb, whose size is bounded by the value's. */
  lemma Limbs5Sign(a: int, b: int, c: int, d: int, e: int)
    requires 0 <= a < TWO62 && 0 <= b < TWO62 && 0 <= c < TWO62 && 0 <= d < TWO62
    ensures Limbs5(a, b, c, d, e) < 0 <==> e < 0
    ensures -TWO256 <= Limbs5(a, b, c, d, e) <= TWO256 ==> -TWO62 < e < TWO62
  {
  }

  /** The modulus is added to a number with a negative top limb, still without carries. */
  method AddIfNegative(a: int, b: int, c: int, d: int, e: int, info: ModInfo) returns (a': int, b': int, c': int, d': int, e': int)
    requires info.Valid() && Small(a) && Small(b) && Small(c) && Small(d) && Small(e)
    ensures Limbs5(a', b', c', d', e') == Limbs5(a, b, c, d, e) + (if e < 0 then info.M() else 0)
    ensures Int64(a') && Int64(b') && Int64(c') && Int64(d') && Int64(e')
    ensures Int64(-a') && Int64(-b') && Int64(-c') && Int64(-d') && Int64(-e')
  {
    hide Value, Limbs5;
    var m := info.modulus;
    ValueLimbs5(m);
    a', b', c', d', e' := a, b, c, d, e;
    if e < 0 {
      Limbs5Add(a, b, c, d, e, m[0], m[1], m[2], m[3], m[4]);
      a', b', c', d', e' := a + m[0], b + m[1], c + m[2], d + m[3], e + m[4];
    }
  }

  predicate Small(x: int) {
    -TWO62 <= x <= TWO62
  }

  method NegateIf(sign: int, a: int, b: int, c: int, d: int, e: int) returns (a': int, b': int, c': int, d': int, e': int)
    requires Int64(a) && Int64(b) && Int64(c) && Int64(d) && Int64(-a) && Int64(-b) && Int64(-c) && Int64(-d)
    ensures Limbs5(a', b', c', d', e') == (if sign < 0 then -Limbs5(a, b, c, d, e) else Limbs5(a, b, c, d, e))
    ensures Int64(a') && Int64(b') && Int64(c') && Int64(d')
  {
    hide Limbs5;
    a', b', c', d', e' := a, b, c, d, e;
    if sign < 0 {
      Limbs5Neg(a, b, c, d, e);
      a', b', c', d', e' := -a, -b, -c, -d, -e;
    }
  }

  /** Bring d from (-2 M, M) to [0, M), negated if the sign argument is negative. */
  method Normalize(r: array<int>, sign: int, info: ModInfo)
    requires info.Valid() && r.Length == 5 && LowLimbs(r[..]) && SmallLimbs(r[..])
    requires InRange(Value(r[..]), info.M())
    modifies r
    ensures 0 <= Value(r[..]) < info.M()
    ensures forall i :: 0 <= i < 5 ==> 0 <= r[i] < TWO62
    ensures Divides(info.M(), Value(r[..]) - (if sign < 0 then -old(Value(r[..])) else old(Value(r[..]))))
    ensures old(Value(r[..])) == 0 ==> Value(r[..]) == 0
  {
    hide Value, Divides, Limbs5;
    ValueLimbs5(r[..]);
    ghost var x := Value(r[..]);
    var r0, r1, r2, r3, r4 := r[0], r[1], r[2], r[3], r[4];
    r0, r1, r2, r3, r4 := NormalizeLimbs(r0, r1, r2, r3, r4, sign, info, x);
    r[0], r[1], r[2], r[3], r[4] := r0, r1, r2, r3, r4;
    ValueLimbs5(r[..]);
  }

  /** The same on the limbs. */
  method NormalizeLimbs(a: int, b: int, c: int, d: int, e: int, sign: int, info: ModInfo, ghost x: int)
    returns (a': int, b': int, c': int, d': int, e': int)
    requires info.Valid() && 0 <= a < TWO62 && 0 <= b < TWO62 && 0 <= c < TWO62 && 0 <= d < TWO62 && Small(e)
    requires x == Limbs5(a, b, c, d, e) && InRange(x, info.M())
    ensures 0 <= Limbs5(a', b', c', d', e') < info.M()
    ensures 0 <= a' < TWO62 && 0 <= b' < TWO62 && 0 <= c' < TWO62 && 0 <= d' < TWO62 && 0 <= e' < TWO62
    ensures Divides(info.M(), Limbs5(a', b', c', d', e') - (if sign < 0 then -x else x))
    ensures x == 0 ==> Limbs5(a', b', c', d', e') == 0
  {
    hide Value, Divides, Limbs5;
    ghost var M := info.M();
    // into (-M, M), and then with the sign of the argument
    Limbs5Sign(a, b, c, d, e);
    a', b', c', d', e' := AddIfNegative(a, b, c, d, e, info);
    a', b', c', d', e' := NegateIf(sign, a', b', c', d', e');
    a', b', c', d', e' := Propagate(a', b', c', d', e');
    ghost var y := Limbs5(a', b', c', d', e');
    // into [0, M)
    Limbs5Sign(a', b', c', d', e');
    a', b', c', d', e' := AddIfNegative(a', b', c', d', e', info);
    a', b', c', d', e' := Propagate(a', b', c', d', e');
    Limbs5Sign(a', b', c', d', e');
    MultipleAdded(x, sign, y, Limbs5(a', b', c', d', e'), M);
  }

  lemma MultipleAdded(x: int, sign: int, y: int, z: int, m: int)
    requires var w := x + (if x < 0 then m else 0); y == if sign < 0 then -w else w
    requires z == y + (if y < 0 then m else 0)
    ensures Divides(m, z - (if sign < 0 then -x else x))
  {
    var k := if x < 0 then 1 else 0;
    var k' := (if sign < 0 then -k else k) + (if y < 0 then 1 else 0);
    assert z - (if sign < 0 then -x else x) == m * k';
    DividesIntro(m, z - (if sign < 0 then -x else x), k');
  }

  lemma Limbs5Add(a: int, b: int, c: int, d: int, e: int, a': int, b': int, c': int, d': int, e': int)
    ensures Limbs5(a + a', b + b', c + c', d + d', e + e') == Limbs5(a, b, c, d, e) + Limbs5(a', b', c', d', e')
  {
  }

  lemma Limbs5Neg(a: int, b: int, c: int, d: int, e: int)
    ensures Limbs5(-a, -b, -c, -d, -e) == -Limbs5(a, b, c, d, e)
  {
  }

  // ---------- chaining batches ----------

  /** The inner state after a batches of n divsteps is the state after a n divsteps. */
  ghost predicate Reached(c: int, n: nat, m: int, x: int, eta: int, f: int, g: int)
    requires m % 2 == 1
  {
    var s := Run(c, n, Start(-1, m, x));
    s.eta == eta && s.f == f && s.g == g
  }

  lemma ReachedNext(c: int, n: nat, k: nat, m: int, x: int, eta: int, f: int, g: int)
    requires m % 2 == 1 && f % 2 == 1 && Reached(c, n, m, x, eta, f, g)
    ensures var s := Run(c, k, Start(eta, f, g)); Reached(c, n + k, m, x, s.eta, s.f, s.g)
  {
    hide Run;
    RunAdd(c, n, k, Start(-1, m, x));
    RunForgetsMatrix(c, k, Run(c, n, Start(-1, m, x)), Start(eta, f, g));
  }

  lemma ReachedZero(c: int, n: nat, k: nat, m: int, x: int, eta: int, f: int)
    requires m % 2 == 1 && f % 2 == 1 && Reached(c, n, m, x, eta, f, 0)
    ensures Run(c, n + k, Start(-1, m, x)).g == 0
  {
    hide Run;
    ReachedNext(c, n, k, m, x, eta, f, 0);
    ZeroRun(c, k, eta, f);
  }

  // ---------- the bottom limbs decide the matrix ----------

  lemma BottomLimb(s: seq<int>)
    requires |s| > 0
    ensures Cong(U64(s[0]), Value(s), Pow2(62))
    ensures U64(s[0]) % 2 == Value(s) % 2
  {
    hide U64, Pow2, Cong;
    Pow2At64();
    CongIntro(s[0], Value(s), TWO62, -Value(s[1..]));
    WordLowBits(s[0], Value(s), 62);
    HalfCong(U64(s[0]), Value(s), 62);
  }

  /** The batch computed from the bottom limbs is the batch of the numbers themselves. */
  lemma BatchMatrix(c: int, n: nat, eta: int, f: seq<int>, g: seq<int>)
    requires n <= 62 && |f| > 0 && |g| > 0 && Value(f) % 2 == 1
    ensures U64(f[0]) % 2 == 1
    ensures var s, t := Run(c, n, Start(eta, U64(f[0]), U64(g[0]))), Run(c, n, Start(eta, Value(f), Value(g)));
      s.eta == t.eta && MatrixOf(s) == MatrixOf(t)
  {
    hide U64, Pow2, Cong, Run, Value;
    BottomLimb(f);
    BottomLimb(g);
    CongDown(U64(f[0]), Value(f), 62, n);
    CongDown(U64(g[0]), Value(g), 62, n);
    RunLocal(c, n, Start(eta, U64(f[0]), U64(g[0])), Start(eta, Value(f), Value(g)));
  }

  // ---------- the inversion routines ----------

  /** r is x^-1 modulo m up to their greatest common divisor h, and 0 for x == 0. */
  ghost predicate Inverts(r: int, x: int, m: int, h: int) {
    && 0 <= r < m
    && IsGcd(h, m, x)
    && Divides(m, r * x - h)
    && (x == 0 ==> r == 0)
  }

  lemma StartKeeps(x: int, m: int)
    requires m % 2 == 1
    ensures Keeps(m, x, 0, 1, x, m)
  {
    DividesIntro(m, 0 * x - m, -1);
    DividesIntro(m, 1 * x - x, 0);
  }

  /** Whatever g is, the result times x is the magnitude of f modulo m. */
  lemma TimesInput(f: int, g: int, d: int, e: int, r: int, x: int, m: int)
    requires Keeps(f, g, d, e, x, m) && Divides(m, r - (if f < 0 then -d else d))
    ensures Divides(m, r * x - Abs(f))
  {
    hide Divides;
    var sign := if f < 0 then -1 else 1;
    DividesCombination(m, r - sign * d, d * x - f, x, sign);
    Telescope(r, sign, d, x, f);
  }

  lemma Finished(f: int, d: int, e: int, r: int, x: int, m: int)
    requires Keeps(f, 0, d, e, x, m) && m > 0 && 0 <= r < m
    requires Divides(m, r - (if f < 0 then -d else d)) && (d == 0 ==> r == 0)
    ensures Inverts(r, x, m, Abs(f))
  {
    hide Divides;
    TimesInput(f, 0, d, e, r, x, m);
    SelfDivides(f);
    assert Divides(f, m) && Divides(f, x);
    GcdOfZero(f, m, x);
  }

  lemma Telescope(r: int, sign: int, d: int, x: int, f: int)
    ensures x * (r - sign * d) + sign * (d * x - f) == r * x - sign * f
  {
  }

  lemma SelfDivides(f: int)
    ensures Divides(f, f) && Divides(f, 0)
  {
    DividesIntro(f, f, 1);
    DividesIntro(f, 0, 0);
  }

  lemma GcdOfZero(f: int, m: int, x: int)
    requires f % 2 == 1 && SameDivisors(f, 0, m, x)
    requires Divides(f, m) && Divides(f, x)
    ensures IsGcd(Abs(f), m, x)
  {
    hide Divides;
    AbsDivides(f, m);
    AbsDivides(f, x);
    forall c: int | Divides(c, m) && Divides(c, x)
      ensures Divides(c, Abs(f))
    {
      assert Divides(c, f) && Divides(c, 0);
      DividesAbs(c, f);
    }
  }

  lemma AbsDivides(f: int, a: int)
    requires Divides(f, a)
    ensures Divides(Abs(f), a)
  {
    var k: int :| a == f * k;
    DividesIntro(Abs(f), a, if f < 0 then -k else k);
  }

  lemma DividesAbs(c: int, f: int)
    requires Divides(c, f)
    ensures Divides(c, Abs(f))
  {
    var k: int :| f == c * k;
    DividesIntro(c, Abs(f), if f < 0 then -k else k);
  }

  /** A coprime input is inverted. */
  lemma CoprimeInverse(r: int, x: int, m: int, h: int)
    requires m > 1 && Inverts(r, x, m, h)
    requires forall c: int :: c > 0 && Divides(c, m) && Divides(c, x) ==> c == 1
    ensures (r * x) % m == 1
  {
    assert h == 1;
    var k: int :| r * x - 1 == m * k;
    DivModUnique(r * x, m, k, 1);
  }

  /** The result is the inverse exactly when the f that the divsteps end with is 1 or -1. */
  lemma RightExactly(r: int, x: int, m: int, h: int)
    requires m > 1 && Inverts(r, x, m, h)
    ensures (r * x) % m == 1 <==> h == 1
  {
    var k: int :| r * x - h == m * k;
    GcdAtMost(h, m, x);
    if h == m {
      assert r * x == m * (k + 1) + 0;
      DivModUnique(r * x, m, k + 1, 0);
    } else {
      DivModUnique(r * x, m, k, h);
    }
  }

  lemma GcdAtMost(h: int, m: int, x: int)
    requires m > 0 && IsGcd(h, m, x)
    ensures h <= m
  {
    var k: int :| m == h * k;
    if k <= 0 {
      MulMono(k, 0, h);
    } else {
      MulMono(1, k, h);
    }
  }

  predicate AllZero(s: seq<int>) {
    forall i :: 0 <= i < |s| ==> s[i] == 0
  }

  lemma {:induction false} ZeroValue(s: seq<int>)
    requires |s| > 0 && LowLimbs(s)
    ensures AllZero(s) <==> Value(s) == 0
  {
    FirstLimb(s);
    if |s| > 1 {
      ZeroValue(s[1..]);
    }
  }

  lemma StartLimbs()
    ensures Value([0, 0, 0, 0, 0]) == 0 && Value([1, 0, 0, 0, 0]) == 1
    ensures LimbPow(5) >= TWO256
  {
    ValueLimbs5([0, 0, 0, 0, 0]);
    ValueLimbs5([1, 0, 0, 0, 0]);
    assert LimbPow(5) == TWO62 * TWO62 * TWO62 * TWO62 * TWO62;
  }

  lemma BatchNorms(c: int, n: nat, eta: int, f: int, g: int)
    requires f % 2 == 1 && n <= 62
    ensures var s := Run(c, n, Start(eta, f, g));
      Abs(s.u) + Abs(s.v) <= Pow2(n) && Abs(s.q) + Abs(s.r) <= Pow2(n)
      && Row(s.u, s.v, f, g, s.f, Pow2(n)) && Row(s.q, s.r, f, g, s.g, Pow2(n))
  {
    hide Run;
    RunBounds(c, n, eta, f, g);
  }

  /** (t / 2^62) (f, g) for the matrix t of a batch, scaled by k, is the batch's own (f, g). */
  lemma BatchRows(c: int, n: nat, k: nat, eta: int, f: int, g: int, t: Matrix)
    requires f % 2 == 1 && n <= 62 && k * Pow2(n) == TWO62
    requires var s := Run(c, n, Start(eta, f, g)); t == Matrix(k * s.u, k * s.v, k * s.q, k * s.r)
    ensures Abs(t.u) + Abs(t.v) <= TWO62 && Abs(t.q) + Abs(t.r) <= TWO62
    ensures var s := Run(c, n, Start(eta, f, g));
      TWO62 * s.f == t.u * f + t.v * g && TWO62 * s.g == t.q * f + t.r * g
    ensures (t.u * f + t.v * g) % TWO62 == 0 && (t.q * f + t.r * g) % TWO62 == 0
  {
    hide Run, Row, Pow2;
    var s := Run(c, n, Start(eta, f, g));
    BatchNorms(c, n, eta, f, g);
    ScaledRow(s.u, s.v, f, g, s.f, Pow2(n), k);
    ScaledRow(s.q, s.r, f, g, s.g, Pow2(n), k);
    ScaledNorm(s.u, s.v, k, Pow2(n));
    ScaledNorm(s.q, s.r, k, Pow2(n));
    ModMultiple(s.f, TWO62);
    ModMultiple(s.g, TWO62);
  }

  lemma ScaledNorm(u: int, v: int, k: nat, p: int)
    requires Abs(u) + Abs(v) <= p && k * p == TWO62
    ensures Abs(k * u) + Abs(k * v) <= TWO62
  {
    AbsScaled(u, k);
    AbsScaled(v, k);
    MulMono(Abs(u) + Abs(v), p, k);
    assert (Abs(u) + Abs(v)) * k == k * Abs(u) + k * Abs(v);
  }

  lemma AbsScaled(u: int, k: nat)
    ensures Abs(k * u) == k * Abs(u)
  {
    MulMono(0, Abs(u), k);
    if u < 0 {
      assert k * u == -(k * Abs(u));
    }
  }

  /** The state shared by both routines between rounds. */
  ghost predicate Between(c: int, n: nat, eta: int, len: nat, f: seq<int>, g: seq<int>, d: seq<int>, e: seq<int>,
                          x: int, info: ModInfo)
    requires info.Valid()
  {
    && 1 <= len <= 5 && |f| == |g| == |d| == |e| == 5
    && SmallLimbs(f[..len]) && SmallLimbs(g[..len])
    && -LimbPow(len) <= Value(f[..len]) <= LimbPow(len) && -LimbPow(len) <= Value(g[..len]) <= LimbPow(len)
    && LowLimbs(d) && SmallLimbs(d) && InRange(Value(d), info.M())
    && LowLimbs(e) && SmallLimbs(e) && InRange(Value(e), info.M())
    && Keeps(Value(f[..len]), Value(g[..len]), Value(d), Value(e), x, info.M())
    && Reached(c, n, info.M(), x, eta, Value(f[..len]), Value(g[..len]))
  }

  /** What is checked around every round: f in (-M, M], g in (-M, M), and a counter no larger than the divsteps done. */
  lemma BetweenBounded(c: int, n: nat, eta: int, len: nat, f: seq<int>, g: seq<int>, d: seq<int>, e: seq<int>, x: int, info: ModInfo)
    requires info.Valid() && (c == 1 || c == 2) && 0 <= x < info.M() && Between(c, n, eta, len, f, g, d, e, x, info)
    ensures 1 <= len <= 5 && |f| == |g| == 5 && -info.M() < Value(f[..len]) <= info.M() && -info.M() < Value(g[..len]) < info.M() && Abs(eta) <= n + 1
  {
    hide Value, LimbPow, Run, Keeps;
    RunInRange(c, n, Start(-1, info.M(), x), info.M());
  }

  lemma StartBetween(c: int, f: seq<int>, g: seq<int>, d: seq<int>, e: seq<int>, info: ModInfo)
    requires info.Valid() && f == info.modulus && |g| == 5 && LowLimbs(g) && SmallLimbs(g) && 0 <= Value(g) < info.M()
    requires d == [0, 0, 0, 0, 0] && e == [1, 0, 0, 0, 0]
    ensures Between(c, 0, -1, 5, f, g, d, e, Value(g), info)
  {
    hide Value, LimbPow, Divides;
    StartLimbs();
    assert f[..5] == f && g[..5] == g;
    StartKeeps(Value(g), info.M());
  }

  /** One round: the batch matrix applied to both pairs. */
  method Round(c: int, n: nat, k: nat, ghost steps: nat, ghost eta0: int, ghost eta1: int, len: nat, f: array<int>, g: array<int>,
               d: array<int>, e: array<int>, t: Matrix, ghost x: int, info: ModInfo)
    requires info.Valid() && f.Length == g.Length == d.Length == e.Length == 5
    requires f != g && f != d && f != e && g != d && g != e && d != e
    requires n <= 62 && k * Pow2(n) == TWO62
    requires Between(c, steps, eta0, len, f[..], g[..], d[..], e[..], x, info)
    requires var s := Run(c, n, Start(eta0, Value(f[..][..len]), Value(g[..][..len])));
      eta1 == s.eta && t == Matrix(k * s.u, k * s.v, k * s.q, k * s.r)
    modifies f, g, d, e
    ensures Between(c, steps + n, eta1, len, f[..], g[..], d[..], e[..], x, info)
    ensures LowLimbs(f[..][..len]) && LowLimbs(g[..][..len])
  {
    hide Value, LimbPow, Divides, SameDivisors, Run, LowLimbs, SmallLimbs, InRange, Reached, Keeps, Pow2;
    ghost var F, G, D, E := Value(f[..][..len]), Value(g[..][..len]), Value(d[..]), Value(e[..]);
    assert f[..][..len] == f[..len] && g[..][..len] == g[..len];
    KeepsOdd(F, G, D, E, x, info.M());
    BatchRows(c, n, k, eta0, F, G, t);
    ReachedNext(c, steps, n, info.M(), x, eta0, F, G);
    ghost var md, me := UpdateDe(d, e, t, info);
    UpdateFg(len, f, g, t);
    assert f[..][..len] == f[..len] && g[..][..len] == g[..len];
    RoundKeeps(c, n, k, eta0, F, G, D, E, Value(d[..]), Value(e[..]), md, me, x, info.M());
  }

  lemma KeepsOdd(f: int, g: int, d: int, e: int, x: int, m: int)
    requires Keeps(f, g, d, e, x, m)
    ensures f % 2 == 1
  {
  }

  /** The result, once g has reached zero: d with the sign of f. */
  method Finish(d: array<int>, sign: int, ghost f: int, ghost e: int, ghost x: int, info: ModInfo)
    requires info.Valid() && d.Length == 5 && LowLimbs(d[..]) && SmallLimbs(d[..]) && InRange(Value(d[..]), info.M())
    requires Keeps(f, 0, Value(d[..]), e, x, info.M()) && (sign < 0 <==> f < 0)
    modifies d
    ensures Inverts(Value(d[..]), x, info.M(), Abs(f))
    ensures forall i :: 0 <= i < 5 ==> 0 <= d[i] < TWO62
  {
    hide Value, Divides, SameDivisors, SmallLimbs, Keeps, LowLimbs, InRange;
    ghost var D := Value(d[..]);
    Normalize(d, sign, info);
    Finished(f, D, e, Value(d[..]), x, info.M());
  }

  /** What the last round leaves for the result. */
  lemma BetweenEnd(c: int, n: nat, eta: int, len: nat, f: seq<int>, g: seq<int>, d: seq<int>, e: seq<int>, x: int, info: ModInfo)
    requires info.Valid() && 1 <= len <= 5 && |f| == |g| == |d| == |e| == 5 && LowLimbs(f[..len])
    requires Between(c, n, eta, len, f, g, d, e, x, info)
    ensures LowLimbs(d) && SmallLimbs(d) && InRange(Value(d), info.M())
    ensures Keeps(Value(f[..len]), Value(g[..len]), Value(d), Value(e), x, info.M())
    ensures f[len - 1] < 0 <==> Value(f[..len]) < 0
    ensures Value(f[..len]) == Run(c, n, Start(-1, info.M(), x)).f
  {
    hide Value, LimbPow, Divides, SameDivisors, Run, SmallLimbs, Keeps, LowLimbs, InRange;
    TopLimb(f[..len]);
  }

  /** If the top limbs of f and g are both 0 or -1, drop them and give their sign to the limbs below. */
  method Shrink(len: nat, f: array<int>, g: array<int>) returns (len': nat)
    requires f.Length == g.Length == 5 && f != g && 1 <= len <= 5
    requires LowLimbs(f[..len]) && SmallLimbs(f[..len]) && LowLimbs(g[..len]) && SmallLimbs(g[..len])
    requires -LimbPow(len) <= Value(f[..len]) <= LimbPow(len) && -LimbPow(len) <= Value(g[..len]) <= LimbPow(len)
    modifies f, g
    ensures 1 <= len' <= len && (len' == len || len' == len - 1)
    ensures Value(f[..len']) == old(Value(f[..len])) && Value(g[..len']) == old(Value(g[..len]))
    ensures SmallLimbs(f[..len']) && SmallLimbs(g[..len'])
    ensures -LimbPow(len') <= Value(f[..len']) <= LimbPow(len') && -LimbPow(len') <= Value(g[..len']) <= LimbPow(len')
  {
    hide Value, LimbPow;
    len' := len;
    var fn, gn := f[len - 1], g[len - 1];
    if len >= 2 && (fn == 0 || fn == -1) && (gn == 0 || gn == -1) {
      ghost var F, G := f[..len], g[..len];
      f[len - 2] := f[len - 2] + TWO62 * fn;
      g[len - 2] := g[len - 2] + TWO62 * gn;
      len' := len - 1;
      DroppedLimb(F, f[..len']);
      DroppedLimb(G, g[..len']);
    }
  }

  lemma DroppedLimb(s: seq<int>, s': seq<int>)
    requires |s| >= 2 && |s'| == |s| - 1 && LowLimbs(s) && SmallLimbs(s) && -1 <= s[|s| - 1] <= 0
    requires s'[..|s| - 2] == s[..|s| - 2]
    requires s'[|s| - 2] == s[|s| - 2] + TWO62 * s[|s| - 1]
    ensures Value(s') == Value(s) && SmallLimbs(s')
    ensures -LimbPow(|s'|) <= Value(s') <= LimbPow(|s'|)
  {
    hide Value, LimbPow;
    DropLimb(s, s');
    TopLimb(s);
    forall i | 0 <= i < |s'|
      ensures -TWO62 <= s'[i] <= TWO62
    {
      if i < |s| - 2 {
        assert s'[i] == s'[..|s| - 2][i] == s[i];
      }
    }
  }

  /** One round of the variable-time loop. */
  method RoundVar(ghost steps: nat, eta: int, len: nat, f: array<int>, g: array<int>, d: array<int>, e: array<int>,
                  ghost x: int, info: ModInfo) returns (eta': int)
    requires info.Valid() && f.Length == g.Length == d.Length == e.Length == 5
    requires f != g && f != d && f != e && g != d && g != e && d != e
    requires Between(1, steps, eta, len, f[..], g[..], d[..], e[..], x, info)
    modifies f, g, d, e
    ensures Between(1, steps + 62, eta', len, f[..], g[..], d[..], e[..], x, info)
    ensures 1 <= len <= 5 && LowLimbs(f[..][..len]) && LowLimbs(g[..][..len])
  {
    hide Value, LimbPow, Divides, SameDivisors, Run, U64, LowLimbs, SmallLimbs, InRange, Reached, Pow2;
    Pow2At64();
    BatchMatrix(1, 62, eta, f[..][..len], g[..][..len]);
    var t;
    eta', t := Divsteps62Var(eta, U64(f[0]), U64(g[0]));
    Round(1, 62, 1, steps, eta, eta', len, f, g, d, e, t, x, info);
  }

  method ShrinkState(ghost steps: nat, ghost eta: int, len: nat, f: array<int>, g: array<int>, ghost d: seq<int>, ghost e: seq<int>,
                     ghost x: int, info: ModInfo) returns (len': nat)
    requires info.Valid() && f.Length == g.Length == 5 && f != g
    requires Between(1, steps, eta, len, f[..], g[..], d, e, x, info)
    requires LowLimbs(f[..][..len]) && LowLimbs(g[..][..len])
    modifies f, g
    ensures Between(1, steps, eta, len', f[..], g[..], d, e, x, info)
    ensures 1 <= len' <= 5 && Value(g[..][..len']) == old(Value(g[..][..len]))
  {
    hide Value, LimbPow, Divides, SameDivisors, Run, LowLimbs, SmallLimbs, InRange, Reached, Keeps;
    assert f[..][..len] == f[..len] && g[..][..len] == g[..len];
    len' := Shrink(len, f, g);
    assert f[..][..len'] == f[..len'] && g[..][..len'] == g[..len'];
  }

  lemma BetweenZero(c: int, n: nat, eta: int, len: nat, f: seq<int>, g: seq<int>, d: seq<int>, e: seq<int>, x: int, info: ModInfo)
    requires info.Valid() && 1 <= len <= 5 && |f| == |g| == 5
    requires Between(c, n, eta, len, f, g, d, e, x, info)
    ensures Value(g[..len]) == 0 <==> Run(c, n, Start(-1, info.M(), x)).g == 0
  {
    hide Value, LimbPow, Divides, SameDivisors, Run;
  }

  /** If the bottom limb is zero, check whether the others are too. */
  method IsZero(g: array<int>, len: nat) returns (zero: bool)
    requires 1 <= len <= g.Length
    ensures zero <==> AllZero(g[..len])
  {
    zero := g[0] == 0;
    if zero {
      var j := 1;
      while j < len
        invariant 1 <= j <= len
        invariant zero <==> AllZero(g[..j])
      {
        zero := zero && g[j] == 0;
        j := j + 1;
      }
    }
  }

  method Store(x: array<int>, d: array<int>)
    requires x.Length == d.Length && x != d
    modifies x
    ensures x[..] == d[..] == old(d[..])
  {
    forall k | 0 <= k < x.Length {
      x[k] := d[k];
    }
  }

  /** Once g is zero it stays so: after as many divsteps as suffice, the loop has ended. */
  lemma NotYetEnough(c: int, n: nat, enough: nat, eta: int, len: nat, f: seq<int>, g: seq<int>, d: seq<int>, e: seq<int>, x: int, info: ModInfo)
    requires info.Valid() && 1 <= len <= 5 && |f| == |g| == 5 && Between(c, n, eta, len, f, g, d, e, x, info)
    requires Run(c, enough, Start(-1, info.M(), x)).g == 0 && Value(g[..len]) != 0
    ensures n < enough
  {
    hide Value, LimbPow, Divides, SameDivisors, Run;
    if n >= enough {
      var s := Run(c, enough, Start(-1, info.M(), x));
      ReachedZero(c, enough, n - enough, info.M(), x, s.eta, s.f);
    }
  }

  /** Variable-time inversion: after no more than twelve rounds the inverse is there, whatever the input. */
  method ModInvVar(x: array<int>, info: ModInfo) returns (ghost h: int, ghost rounds: nat)
    requires info.Valid() && x.Length == 5
    requires LowLimbs(x[..]) && SmallLimbs(x[..]) && 0 <= Value(x[..]) < info.M()
    modifies x
    ensures Inverts(Value(x[..]), old(Value(x[..])), info.M(), h)
    ensures forall i :: 0 <= i < 5 ==> 0 <= x[i] < TWO62
    ensures 1 <= rounds <= 12 && Run(1, 62 * rounds, Start(-1, info.M(), old(Value(x[..])))).g == 0
  {
    hide Value, LimbPow, Run, Between, LowLimbs, SmallLimbs, Inverts;
    ghost var X := Value(x[..]);
    var d := new int[5](_ => 0);
    var e := new int[5](i => if i == 0 then 1 else 0);
    var f := new int[5](i requires 0 <= i < 5 => info.modulus[i]);
    var g := new int[5](i requires 0 <= i < 5 reads x => x[i]);
    assert f[..] == info.modulus && g[..] == x[..] && d[..] == [0, 0, 0, 0, 0] && e[..] == [1, 0, 0, 0, 0];
    StartBetween(1, f[..], g[..], d[..], e[..], info);
    BetweenBounded(1, 0, -1, 5, f[..], g[..], d[..], e[..], X, info);
    DivstepsSuffice(1, 724, info.M(), X);
    var eta, len := -1, 5;
    ghost var i := 0;
    while true
      invariant 0 <= i < 12 && x[..] == old(x[..]) && 1 <= len <= 5
      invariant Between(1, 62 * i, eta, len, f[..], g[..], d[..], e[..], X, info)
      invariant -info.M() < Value(f[..][..len]) <= info.M() && -info.M() < Value(g[..][..len]) < info.M() && Abs(eta) <= 62 * i + 1
      decreases 12 - i
    {
      eta := RoundVar(62 * i, eta, len, f, g, d, e, X, info);
      i := i + 1;
      assert f[..][..len] == f[..len] && g[..][..len] == g[..len];
      ZeroValue(g[..len]);
      var zero := IsZero(g, len);
      if zero {
        break;
      }
      NotYetEnough(1, 62 * i, 724, eta, len, f[..], g[..], d[..], e[..], X, info);
      len := ShrinkState(62 * i, eta, len, f, g, d[..], e[..], X, info);
      BetweenBounded(1, 62 * i, eta, len, f[..], g[..], d[..], e[..], X, info);
    }
    rounds := i;
    BetweenZero(1, 62 * i, eta, len, f[..], g[..], d[..], e[..], X, info);
    BetweenEnd(1, 62 * i, eta, len, f[..], g[..], d[..], e[..], X, info);
    h := Abs(Value(f[..][..len]));
    Finish(d, f[len - 1], Value(f[..][..len]), Value(e[..]), X, info);
    Store(x, d);
  }

  /** Constant-time inversion: ten rounds of 59 divsteps are always enough. */
  method ModInv(x: array<int>, info: ModInfo) returns (ghost h: int)
    requires info.Valid() && x.Length == 5
    requires LowLimbs(x[..]) && SmallLimbs(x[..]) && 0 <= Value(x[..]) < info.M()
    modifies x
    ensures Inverts(Value(x[..]), old(Value(x[..])), info.M(), h)
    ensures forall i :: 0 <= i < 5 ==> 0 <= x[i] < TWO62
    ensures var s := Run(2, 590, Start(-1, info.M(), old(Value(x[..])))); s.g == 0 && Abs(s.f) == h
  {
    hide Value, LimbPow, Run, Between, LowLimbs, SmallLimbs, Inverts;
    ghost var X := Value(x[..]);
    var d := new int[5](_ => 0);
    var e := new int[5](i => if i == 0 then 1 else 0);
    var f := new int[5](i requires 0 <= i < 5 => info.modulus[i]);
    var g := new int[5](i requires 0 <= i < 5 reads x => x[i]);
    assert f[..] == info.modulus && g[..] == x[..] && d[..] == [0, 0, 0, 0, 0] && e[..] == [1, 0, 0, 0, 0];
    StartBetween(2, f[..], g[..], d[..], e[..], info);
    BetweenBounded(2, 0, -1, 5, f[..], g[..], d[..], e[..], X, info);
    var zeta, i := -1, 0;
    while i < 10
      invariant 0 <= i <= 10
      invariant Between(2, 59 * i, zeta, 5, f[..], g[..], d[..], e[..], X, info)
      invariant -info.M() < Value(f[..][..5]) <= info.M() && -info.M() < Value(g[..][..5]) < info.M() && Abs(zeta) <= 59 * i + 1
      invariant i > 0 ==> LowLimbs(f[..][..5])
    {
      zeta := Round59(59 * i, zeta, f, g, d, e, X, info);
      i := i + 1;
      BetweenBounded(2, 59 * i, zeta, 5, f[..], g[..], d[..], e[..], X, info);
    }
    DivstepsSuffice(2, 590, info.M(), X);
    BetweenZero(2, 590, zeta, 5, f[..], g[..], d[..], e[..], X, info);
    BetweenEnd(2, 590, zeta, 5, f[..], g[..], d[..], e[..], X, info);
    h := Abs(Value(f[..][..5]));
    Finish(d, f[4], Value(f[..][..5]), Value(e[..]), X, info);
    Store(x, d);
  }

  method Round59(ghost steps: nat, zeta: int, f: array<int>, g: array<int>, d: array<int>, e: array<int>,
                 ghost x: int, info: ModInfo) returns (zeta': int)
    requires info.Valid() && f.Length == g.Length == d.Length == e.Length == 5
    requires f != g && f != d && f != e && g != d && g != e && d != e
    requires Between(2, steps, zeta, 5, f[..], g[..], d[..], e[..], x, info)
    modifies f, g, d, e
    ensures Between(2, steps + 59, zeta', 5, f[..], g[..], d[..], e[..], x, info)
    ensures LowLimbs(f[..][..5])
  {
    hide Value, LimbPow, Divides, SameDivisors, Run, U64, LowLimbs, SmallLimbs, InRange, Reached, Pow2;
    Pow2At64();
    assert 8 * TWO59 == TWO62;
    BatchMatrix(2, 59, zeta, f[..][..5], g[..][..5]);
    var t;
    zeta', t := Divsteps59(zeta, U64(f[0]), U64(g[0]));
    Round(2, 59, 8, steps, zeta, zeta', 5, f, g, d, e, t, x, info);
  }
}
