/**
 * Modular inversion on five signed 62-bit limbs: the batched transition matrices of DivstepsBatch are
 * applied to the limbs of (f, g) and, modulo the modulus, to the limbs of (d, e).
 */
module Modinv64 {
  import opened Integers
  import opened Divsteps
  import opened DivstepsBatch

  const TWO127: int := 0x8000_0000_0000_0000_0000_0000_0000_0000

  predicate Int64(x: int) {
    -TWO63 <= x < TWO63
  }

  predicate Int128(x: int) {
    -TWO127 <= x < TWO127
  }

  /** The ranges of signed integers of 64 and 128 bits. */
  lemma Widths(x: int)
    ensures Int64(x) <==> -Pow2(63) <= x < Pow2(63)
    ensures Int128(x) <==> -Pow2(127) <= x < Pow2(127)
  {
    hide Pow2;
    Pow2At64();
    Pow2Add(64, 63);
    Pow2Down(64);
  }

  /** The number a limb sequence denotes, least significant limb first. */
  function Value(v: seq<int>): int {
    if |v| == 0 then 0 else v[0] + TWO62 * Value(v[1..])
  }

  function LimbPow(n: nat): (p: int)
    ensures p > 0
  {
    if n == 0 then 1 else TWO62 * LimbPow(n - 1)
  }

  /** All limbs but the last in [0, 2^62). */
  predicate LowLimbs(v: seq<int>) {
    forall i :: 0 <= i < |v| - 1 ==> 0 <= v[i] < TWO62
  }

  predicate SmallLimbs(v: seq<int>) {
    forall i :: 0 <= i < |v| ==> -TWO62 <= v[i] <= TWO62
  }

  datatype ModInfo = ModInfo(modulus: seq<int>, inv62: int) {
    function M(): int {
      Value(modulus)
    }

    /** An odd modulus in [3, 2^256] and the inverse of its bottom limb. */
    predicate Valid() {
      && |modulus| == 5
      && (forall i :: 0 <= i < 5 ==> -TWO62 < modulus[i] < TWO62)
      && 3 <= M() <= TWO256 && M() % 2 == 1
      && Inverts(modulus[0])
    }

    predicate Inverts(m: int) {
      0 <= inv62 < TWO62 && (m * inv62) % TWO62 == 1
    }
  }

  // ---------- limb sequences ----------

  lemma {:induction false} ValueSnoc(s: seq<int>, x: int)
    ensures Value(s + [x]) == Value(s) + x * LimbPow(|s|)
  {
    if |s| == 0 {
      assert (s + [x])[1..] == [];
    } else {
      ValueSnoc(s[1..], x);
      assert (s + [x])[1..] == s[1..] + [x];
      ScaleSnoc(Value(s[1..] + [x]), Value(s[1..]), x, LimbPow(|s| - 1));
    }
  }

  lemma ScaleSnoc(a: int, b: int, x: int, p: int)
    requires a == b + x * p
    ensures TWO62 * a == TWO62 * b + x * (TWO62 * p)
  {
  }

  lemma {:induction false} ValueNonNeg(s: seq<int>)
    requires forall i :: 0 <= i < |s| ==> 0 <= s[i] < TWO62
    ensures 0 <= Value(s) < LimbPow(|s|)
  {
    if |s| != 0 {
      ValueNonNeg(s[1..]);
    }
  }

  /** The last limb carries the sign and the size. */
  lemma TopLimb(s: seq<int>)
    requires |s| > 0 && LowLimbs(s)
    ensures var p, t := LimbPow(|s| - 1), s[|s| - 1];
      t * p <= Value(s) < (t + 1) * p
    ensures Value(s) < 0 <==> s[|s| - 1] < 0
  {
    var n := |s| - 1;
    assert s == s[..n] + [s[n]];
    ValueNonNeg(s[..n]);
    ValueSnoc(s[..n], s[n]);
    var p, t := LimbPow(n), s[n];
    assert (t + 1) * p == t * p + p;
    if t < 0 {
      MulMono(t + 1, 0, p);
    } else {
      MulMono(0, t, p);
    }
  }

  lemma TopLimbSmall(s: seq<int>)
    requires |s| > 0 && LowLimbs(s) && -LimbPow(|s|) <= Value(s) <= LimbPow(|s|)
    ensures -TWO62 <= s[|s| - 1] <= TWO62
    ensures SmallLimbs(s)
  {
    TopLimb(s);
    var p, t := LimbPow(|s| - 1), s[|s| - 1];
    if t > TWO62 {
      MulMono(TWO62 + 1, t, p);
    } else if t < -TWO62 {
      StrictTop(t, p, Value(s));
    }
  }

  lemma StrictTop(t: int, p: int, x: int)
    requires p > 0 && t + 1 <= -TWO62 && x < (t + 1) * p
    ensures x < -TWO62 * p
  {
    MulMono(t + 1, -TWO62, p);
  }

  /** Replacing the two last limbs l, t by l + 2^62 t keeps the value. */
  lemma DropLimb(s: seq<int>, s': seq<int>)
    requires |s| >= 2 && |s'| == |s| - 1
    requires s'[..|s| - 2] == s[..|s| - 2]
    requires s'[|s| - 2] == s[|s| - 2] + TWO62 * s[|s| - 1]
    ensures Value(s') == Value(s)
  {
    var n := |s| - 2;
    var low := s[..n];
    assert s == (low + [s[n]]) + [s[n + 1]];
    assert s' == low + [s'[n]];
    ValueSnoc(low, s[n]);
    ValueSnoc(low + [s[n]], s[n + 1]);
    ValueSnoc(low, s'[n]);
    MergeLimbs(s[n], s[n + 1], LimbPow(n));
  }

  lemma MergeLimbs(a: int, b: int, p: int)
    ensures (a + TWO62 * b) * p == a * p + b * (TWO62 * p)
  {
  }

  /** A matrix row of norm at most 2^62 keeps magnitudes. */
  lemma RowMagnitude(u: int, v: int, x: int, y: int, k: int)
    requires Abs(u) + Abs(v) <= TWO62 && Abs(x) <= k && Abs(y) <= k
    ensures Abs(u * x + v * y) <= TWO62 * k
  {
    AbsMul(u, x, k);
    AbsMul(v, y, k);
    NormMul(Abs(u), Abs(v), k);
  }

  lemma NormMul(a: int, b: int, k: int)
    requires a + b <= TWO62 && k >= 0
    ensures a * k + b * k <= TWO62 * k
  {
    MulMono(a + b, TWO62, k);
  }

  lemma AbsMul(u: int, x: int, k: int)
    requires Abs(x) <= k
    ensures Abs(u * x) <= Abs(u) * k
  {
    MulMono(x, k, Abs(u));
    MulMono(-k, x, Abs(u));
    if u < 0 {
      assert u * x == -(x * Abs(u));
    }
  }

  // ---------- update_fg ----------

  /** The limbs of u x + v y + m z before any carry. */
  function LimbRow(u: int, v: int, m: int, x: seq<int>, y: seq<int>, z: seq<int>): (t: seq<int>)
    requires |x| == |y| == |z|
  {
    seq(|x|, i requires 0 <= i < |x| => u * x[i] + v * y[i] + m * z[i])
  }

  lemma {:induction false} RowValue(u: int, v: int, m: int, x: seq<int>, y: seq<int>, z: seq<int>)
    requires |x| == |y| == |z|
    ensures Value(LimbRow(u, v, m, x, y, z)) == u * Value(x) + v * Value(y) + m * Value(z)
  {
    if |x| != 0 {
      RowValue(u, v, m, x[1..], y[1..], z[1..]);
      assert LimbRow(u, v, m, x, y, z)[1..] == LimbRow(u, v, m, x[1..], y[1..], z[1..]);
      RowCons(u, v, m, x[0], y[0], z[0], Value(x[1..]), Value(y[1..]), Value(z[1..]));
    }
  }

  lemma RowCons(u: int, v: int, m: int, a: int, b: int, c: int, x: int, y: int, z: int)
    ensures (u * a + v * b + m * c) + TWO62 * (u * x + v * y + m * z)
      == u * (a + TWO62 * x) + v * (b + TWO62 * y) + m * (c + TWO62 * z)
  {
  }

  /** The carry chain so far: out and the carry c hold Value(t) / 2^62. */
  predicate Carried(t: seq<int>, out: seq<int>, c: int) {
    && |t| == |out| + 1
    && TWO62 * (Value(out) + c * LimbPow(|out|)) == Value(t)
    && (forall i :: 0 <= i < |out| ==> 0 <= out[i] < TWO62)
    && -4 * TWO62 <= c <= 4 * TWO62
  }

  /** u x + v y, kept folded in the limb loops. */
  function Dot(u: int, x: int, v: int, y: int): int {
    u * x + v * y
  }

  const TERM: int := 3 * TWO62 * TWO62

  lemma CarryStart(x: int)
    requires x % TWO62 == 0 && -TERM <= x <= TERM
    ensures Int128(x) && Carried([x], [], x / TWO62)
  {
    assert Value([x]) == x;
  }

  lemma CarryStep(row: seq<int>, k: nat, out: seq<int>, c: int, x: int)
    requires k < |row| && x == row[k]
    requires -TERM <= x <= TERM && Carried(row[..k], out, c)
    ensures Int128(c + x)
    ensures Carried(row[..k + 1], out + [(c + x) % TWO62], (c + x) / TWO62)
  {
    assert row[..k + 1] == row[..k] + [x];
    ValueSnoc(row[..k], x);
    ValueSnoc(out, (c + x) % TWO62);
    CarryOn(Value(out), c, x, LimbPow(|out|), (c + x) % TWO62, (c + x) / TWO62);
  }

  lemma CarryOn(o: int, c: int, x: int, p: int, lo: int, hi: int)
    requires c + x == lo + TWO62 * hi
    ensures TWO62 * ((o + lo * p) + hi * (TWO62 * p)) == TWO62 * (o + c * p) + x * (TWO62 * p)
  {
  }

  /** The last carry is the top limb. */
  lemma CarryFinish(t: seq<int>, out: seq<int>, c: int)
    requires Carried(t, out, c)
    requires -TWO62 * LimbPow(|t|) <= Value(t) <= TWO62 * LimbPow(|t|)
    ensures TWO62 * Value(out + [c]) == Value(t)
    ensures LowLimbs(out + [c]) && SmallLimbs(out + [c]) && Int64(c)
    ensures -LimbPow(|t|) <= Value(out + [c]) <= LimbPow(|t|)
  {
    ValueSnoc(out, c);
    TopLimbSmall(out + [c]);
    assert (out + [c])[|out|] == c;
  }

  lemma LimbTerm(u: int, v: int, m: int, x: int, y: int, z: int)
    requires Abs(u) + Abs(v) <= TWO62 && Abs(x) <= TWO62 && Abs(y) <= TWO62
    requires Abs(m) <= 2 * TWO62 && Abs(z) <= TWO62
    ensures -TERM <= u * x + v * y + m * z <= TERM
  {
    RowMagnitude(u, v, x, y, TWO62);
    AbsMul(m, z, TWO62);
    MulMono(Abs(m), 2 * TWO62, TWO62);
  }

  lemma FirstLimb(s: seq<int>)
    requires |s| > 0
    ensures Value(s) % TWO62 == s[0] % TWO62
    ensures Value(s[..1]) == s[0]
  {
    assert Value(s) == s[0] + Value(s[1..]) * TWO62;
    ModShift(s[0], Value(s[1..]));
    assert s[..1] == [s[0]] && Value([s[0]]) == s[0];
  }

  lemma ModShift(a: int, k: int)
    ensures (a + k * TWO62) % TWO62 == a % TWO62
  {
    DivModUnique(a + k * TWO62, TWO62, a / TWO62 + k, a % TWO62);
  }

  // ---------- update_fg ----------

  method UpdateFg(len: nat, f: array<int>, g: array<int>, t: Matrix)
    requires 1 <= len <= f.Length == g.Length && f != g
    requires SmallLimbs(f[..len]) && SmallLimbs(g[..len])
    requires -LimbPow(len) <= Value(f[..len]) <= LimbPow(len) && -LimbPow(len) <= Value(g[..len]) <= LimbPow(len)
    requires Abs(t.u) + Abs(t.v) <= TWO62 && Abs(t.q) + Abs(t.r) <= TWO62
    requires (t.u * Value(f[..len]) + t.v * Value(g[..len])) % TWO62 == 0
    requires (t.q * Value(f[..len]) + t.r * Value(g[..len])) % TWO62 == 0
    modifies f, g
    ensures TWO62 * Value(f[..len]) == t.u * old(Value(f[..len])) + t.v * old(Value(g[..len]))
    ensures TWO62 * Value(g[..len]) == t.q * old(Value(f[..len])) + t.r * old(Value(g[..len]))
    ensures LowLimbs(f[..len]) && SmallLimbs(f[..len]) && LowLimbs(g[..len]) && SmallLimbs(g[..len])
    ensures -LimbPow(len) <= Value(f[..len]) <= LimbPow(len) && -LimbPow(len) <= Value(g[..len]) <= LimbPow(len)
    ensures f[len..] == old(f[len..]) && g[len..] == old(g[len..])
  {
    hide Value, LimbPow, Carried, LimbRow, Dot, LowLimbs, SmallLimbs, Abs, Int64, Int128, Pow2;
    ghost var F, G := f[..len], g[..len];
    ghost var rowF := FgRow(t.u, t.v, F, G);
    ghost var rowG := FgRow(t.q, t.r, F, G);
    var fi, gi := f[0], g[0];
    var cf := Dot(t.u, fi, t.v, gi);
    var cg := Dot(t.q, fi, t.r, gi);
    CarryStart(cf);
    CarryStart(cg);
    // exact division: both sums are multiples of 2^62
    assert cf % TWO62 == 0 && cg % TWO62 == 0;
    cf := cf / TWO62;
    cg := cg / TWO62;
    var i := 1;
    assert f[..0] == [] && g[..0] == [];
    while i < len
      invariant 1 <= i <= len
      invariant f[i - 1..len] == F[i - 1..] && g[i - 1..len] == G[i - 1..]
      invariant Carried(rowF[..i], f[..i - 1], cf) && Carried(rowG[..i], g[..i - 1], cg)
      invariant f[len..] == old(f[len..]) && g[len..] == old(g[len..])
    {
      fi, gi := f[i], g[i];
      assert fi == F[i] && gi == G[i] by {
        assert fi == f[i - 1..len][1] && gi == g[i - 1..len][1];
      }
      CarryStep(rowF, i, f[..i - 1], cf, rowF[i]);
      CarryStep(rowG, i, g[..i - 1], cg, rowG[i]);
      ghost var outF, outG := f[..i - 1], g[..i - 1];
      cf := cf + Dot(t.u, fi, t.v, gi);
      cg := cg + Dot(t.q, fi, t.r, gi);
      assert Int128(cf) && Int128(cg);
      f[i - 1] := cf % TWO62;
      g[i - 1] := cg % TWO62;
      assert f[..i] == outF + [cf % TWO62] && g[..i] == outG + [cg % TWO62];
      cf := cf / TWO62;
      cg := cg / TWO62;
      i := i + 1;
    }
    assert rowF[..len] == rowF && rowG[..len] == rowG;
    ghost var outF, outG := f[..len - 1], g[..len - 1];
    CarryFinish(rowF, outF, cf);
    CarryFinish(rowG, outG, cg);
    // what remains fits an int64
    assert Int64(cf) && Int64(cg);
    f[len - 1] := cf;
    g[len - 1] := cg;
    assert f[..len] == outF + [cf] && g[..len] == outG + [cg];
  }

  lemma FgRow(u: int, v: int, x: seq<int>, y: seq<int>) returns (row: seq<int>)
    requires |x| == |y| > 0 && SmallLimbs(x) && SmallLimbs(y)
    requires -LimbPow(|x|) <= Value(x) <= LimbPow(|x|) && -LimbPow(|y|) <= Value(y) <= LimbPow(|y|)
    requires Abs(u) + Abs(v) <= TWO62
    requires (u * Value(x) + v * Value(y)) % TWO62 == 0
    ensures |row| == |x| && Value(row) == u * Value(x) + v * Value(y)
    ensures forall i :: 0 <= i < |x| ==> row[i] == Dot(u, x[i], v, y[i]) && -TERM <= row[i] <= TERM
    ensures row[0] % TWO62 == 0 && row[..1] == [row[0]]
    ensures -TWO62 * LimbPow(|x|) <= Value(row) <= TWO62 * LimbPow(|x|)
  {
    row := LimbRow(u, v, 0, x, y, x);
    RowValue(u, v, 0, x, y, x);
    forall i | 0 <= i < |x|
      ensures row[i] == Dot(u, x[i], v, y[i]) && -TERM <= row[i] <= TERM
    {
      LimbTerm(u, v, 0, x[i], y[i], x[i]);
    }
    FirstLimb(row);
    RowMagnitude(u, v, Value(x), Value(y), LimbPow(|x|));
  }

  // ---------- update_de ----------

  /** d and e range over (-2 M, M). */
  predicate InRange(x: int, m: int) {
    -2 * m < x < m
  }

  /** The correction: md0 minus the 62-bit number that makes the bottom limb vanish. */
  function Corrected(md0: int, c: int, info: ModInfo): int {
    md0 - U64(info.inv62 * U64(c) + U64(md0)) % TWO62
  }

  lemma WordsModLimb(inv: int, c: int, a: int)
    ensures Cong(U64(inv * U64(c) + U64(a)) % TWO62, inv * c + a, TWO62)
  {
    hide U64, Cong, Pow2;
    Pow2At64();
    CongRefl(c, Pow2(62));
    CongRefl(a, Pow2(62));
    CongRefl(inv, Pow2(62));
    WordLowBits(c, c, 62);
    WordLowBits(a, a, 62);
    CongMul(inv, inv, U64(c), c, TWO62);
    CongAdd(inv * U64(c), inv * c, U64(a), a, TWO62);
    WordLowBits(inv * U64(c) + U64(a), inv * c + a, 62);
    CongMod(U64(inv * U64(c) + U64(a)), TWO62);
    CongTrans(U64(inv * U64(c) + U64(a)) % TWO62, U64(inv * U64(c) + U64(a)), inv * c + a, TWO62);
  }

  /** The bottom limb vanishes because inv62 inverts the bottom limb of the modulus. */
  lemma CorrectedLow(md0: int, c: int, info: ModInfo)
    requires info.Valid()
    ensures (c + info.modulus[0] * Corrected(md0, c, info)) % TWO62 == 0
    ensures md0 - TWO62 < Corrected(md0, c, info) <= md0
  {
    hide U64, Cong;
    var m, inv := info.modulus[0], info.inv62;
    var k := U64(inv * U64(c) + U64(md0)) % TWO62;
    WordsModLimb(inv, c, md0);
    var i := CongWitness(k, inv * c + md0, TWO62);
    var j := (m * inv) / TWO62;
    CorrectedAlgebra(m, inv, c, md0, k, i, j);
    ModMultiple(-(m * i) - j * c, TWO62);
  }

  lemma CorrectedAlgebra(m: int, inv: int, c: int, a: int, k: int, i: int, j: int)
    requires k == inv * c + a + i * TWO62 && m * inv == j * TWO62 + 1
    ensures c + m * (a - k) == (-(m * i) - j * c) * TWO62
  {
    assert m * (a - k) == -((m * inv) * c) - (m * i) * TWO62;
    assert (m * inv) * c == (j * TWO62) * c + c;
    assert (j * TWO62) * c == (j * c) * TWO62;
  }

  lemma DeRow(u: int, v: int, d: seq<int>, e: seq<int>, md0: int, info: ModInfo) returns (row: seq<int>)
    requires info.Valid() && |d| == |e| == 5
    requires LowLimbs(d) && SmallLimbs(d) && LowLimbs(e) && SmallLimbs(e)
    requires InRange(Value(d), info.M()) && InRange(Value(e), info.M())
    requires Abs(u) + Abs(v) <= TWO62
    requires md0 == (if d[4] < 0 then u else 0) + (if e[4] < 0 then v else 0)
    ensures var md := Corrected(md0, Dot(u, d[0], v, e[0]), info);
      && -2 * TWO62 < md <= TWO62
      && |row| == 5
      && (forall i :: 0 <= i < 5 ==> row[i] == Dot(u, d[i], v, e[i]) + Dot(info.modulus[i], md, 0, 0) && -TERM <= row[i] <= TERM)
      && row[0] % TWO62 == 0 && row[..1] == [row[0]] && row[..5] == row
      && Value(row) == u * Value(d) + v * Value(e) + md * info.M()
      && -2 * info.M() * TWO62 < Value(row) < info.M() * TWO62
      && (Value(d) == 0 && v == 0 ==> md == 0)
  {
    hide Value, LimbPow, U64, Corrected;
    var c := Dot(u, d[0], v, e[0]);
    var md := Corrected(md0, c, info);
    CorrectedLow(md0, c, info);
    row := LimbRow(u, v, md, d, e, info.modulus);
    RowValue(u, v, md, d, e, info.modulus);
    forall i | 0 <= i < 5
      ensures row[i] == Dot(u, d[i], v, e[i]) + Dot(info.modulus[i], md, 0, 0) && -TERM <= row[i] <= TERM
    {
      LimbTerm(u, v, md, d[i], e[i], info.modulus[i]);
    }
    TopLimb(d);
    TopLimb(e);
    DeRange(u, v, Value(d), Value(e), md0, md, info.M());
    if Value(d) == 0 && v == 0 {
      ZeroLimb(d);
      CorrectedZero(info);
    }
  }

  lemma CorrectedZero(info: ModInfo)
    ensures Corrected(0, 0, info) == 0
  {
  }

  lemma ZeroLimb(d: seq<int>)
    requires |d| == 5 && LowLimbs(d) && Value(d) == 0
    ensures d[0] == 0 && d[4] == 0
  {
    FirstLimb(d);
    TopLimb(d);
    var p, t := LimbPow(4), d[4];
    if t >= 1 {
      MulMono(1, t, p);
    }
  }

  /** (-2 M, M) is kept: first every negative entry gains a modulus, then a multiple of M below 2^62 M is taken away. */
  lemma DeRange(u: int, v: int, d: int, e: int, md0: int, md: int, m: int)
    requires InRange(d, m) && InRange(e, m) && m > 0 && Abs(u) + Abs(v) <= TWO62
    requires md0 == (if d < 0 then u else 0) + (if e < 0 then v else 0)
    requires md0 - TWO62 < md <= md0
    ensures -2 * m * TWO62 < u * d + v * e + md * m < m * TWO62
  {
    var a := if d < 0 then d + m else d;
    var b := if e < 0 then e + m else e;
    var u' := if d < 0 then u else 0;
    var v' := if e < 0 then v else 0;
    RowMagnitude(u, v, a, b, m - 1);
    Gained(u, d, m);
    Gained(v, e, m);
    TakenAway(u' , v', md, m);
  }

  lemma TakenAway(u: int, v: int, md: int, m: int)
    requires m > 0 && u + v - TWO62 < md <= u + v
    ensures u * m + v * m - TWO62 * m < md * m <= u * m + v * m
  {
    MulMono(u + v - TWO62 + 1, md, m);
    MulMono(md, u + v, m);
  }

  lemma Gained(u: int, d: int, m: int)
    ensures u * (d + m) == u * d + u * m
  {
  }

  lemma DeResult(row: seq<int>, out: seq<int>, c: int, m: int)
    requires |row| == 5 && |out| == 4 && 3 <= m <= TWO256 && Carried(row, out, c)
    requires -2 * m * TWO62 < Value(row) < m * TWO62
    ensures TWO62 * Value(out + [c]) == Value(row) && Int64(c)
    ensures LowLimbs(out + [c]) && SmallLimbs(out + [c]) && InRange(Value(out + [c]), m)
  {
    assert LimbPow(5) == TWO62 * TWO62 * TWO62 * TWO62 * TWO62;
    CarryFinish(row, out, c);
  }

  /** One row of the update, limb by limb: the limbs of (u d + v e + md M) / 2^62. */
  method UpdateDeRow(u: int, v: int, d: seq<int>, e: seq<int>, info: ModInfo) returns (o: seq<int>, ghost md: int)
    requires info.Valid() && |d| == |e| == 5
    requires LowLimbs(d) && SmallLimbs(d) && LowLimbs(e) && SmallLimbs(e)
    requires InRange(Value(d), info.M()) && InRange(Value(e), info.M())
    requires Abs(u) + Abs(v) <= TWO62
    ensures |o| == 5 && LowLimbs(o) && SmallLimbs(o) && InRange(Value(o), info.M())
    ensures TWO62 * Value(o) == u * Value(d) + v * Value(e) + md * info.M()
    ensures Value(d) == 0 && v == 0 ==> Value(o) == 0
  {
    hide Value, LimbPow, Carried, Dot, U64, LowLimbs, SmallLimbs, InRange, Corrected, ModInfo.Inverts;
    var m := info.modulus;
    // a multiple of M for each negative number keeps the range from growing downwards
    var m1 := (if d[4] < 0 then u else 0) + (if e[4] < 0 then v else 0);
    ghost var row := DeRow(u, v, d, e, m1, info);
    var c := Dot(u, d[0], v, e[0]);
    // one more multiple, below 2^62, makes the division exact
    m1 := Corrected(m1, c, info);
    assert Int64(m1);
    c := c + Dot(m[0], m1, 0, 0);
    CarryStart(c);
    assert c % TWO62 == 0;
    c := c / TWO62;
    // limb k of the sum is stored as output limb k - 1
    o := [];
    c := AddLimb(c, Dot(u, d[1], v, e[1]), m[1], m1, row, 1, o);
    o, c := o + [c % TWO62], c / TWO62;
    c := AddLimb(c, Dot(u, d[2], v, e[2]), m[2], m1, row, 2, o);
    o, c := o + [c % TWO62], c / TWO62;
    c := AddLimb(c, Dot(u, d[3], v, e[3]), m[3], m1, row, 3, o);
    o, c := o + [c % TWO62], c / TWO62;
    c := AddLimb(c, Dot(u, d[4], v, e[4]), m[4], m1, row, 4, o);
    o, c := o + [c % TWO62], c / TWO62;
    // what remains is the top limb
    DeResult(row, o, c, info.M());
    o := o + [c];
    md := m1;
    DeZero(o, u, v, Value(d), Value(e), md, info.M());
  }

  method UpdateDe(d: array<int>, e: array<int>, t: Matrix, info: ModInfo) returns (ghost md: int, ghost me: int)
    requires info.Valid() && d.Length == e.Length == 5 && d != e
    requires LowLimbs(d[..]) && SmallLimbs(d[..]) && LowLimbs(e[..]) && SmallLimbs(e[..])
    requires InRange(Value(d[..]), info.M()) && InRange(Value(e[..]), info.M())
    requires Abs(t.u) + Abs(t.v) <= TWO62 && Abs(t.q) + Abs(t.r) <= TWO62
    modifies d, e
    ensures TWO62 * Value(d[..]) == t.u * old(Value(d[..])) + t.v * old(Value(e[..])) + md * info.M()
    ensures TWO62 * Value(e[..]) == t.q * old(Value(d[..])) + t.r * old(Value(e[..])) + me * info.M()
    ensures LowLimbs(d[..]) && SmallLimbs(d[..]) && LowLimbs(e[..]) && SmallLimbs(e[..])
    ensures InRange(Value(d[..]), info.M()) && InRange(Value(e[..]), info.M())
    ensures old(Value(d[..])) == 0 && t.v == 0 ==> Value(d[..]) == 0
  {
    hide Value, LowLimbs, SmallLimbs, InRange;
    var D, E := d[..], e[..];
    var newD, newE;
    newD, md := UpdateDeRow(t.u, t.v, D, E, info);
    newE, me := UpdateDeRow(t.q, t.r, D, E, info);
    d[0], d[1], d[2], d[3], d[4] := newD[0], newD[1], newD[2], newD[3], newD[4];
    e[0], e[1], e[2], e[3], e[4] := newE[0], newE[1], newE[2], newE[3], newE[4];
    assert d[..] == newD && e[..] == newE;
  }

  lemma DeZero(d: seq<int>, u: int, v: int, x: int, y: int, md: int, m: int)
    requires TWO62 * Value(d) == u * x + v * y + md * m
    requires x == 0 && v == 0 ==> md == 0
    ensures x == 0 && v == 0 ==> Value(d) == 0
  {
  }

  /** One limb of the running sum, skipping the modulus limb when it is zero. */
  method AddLimb(c: int, x: int, m: int, md: int, ghost row: seq<int>, ghost k: nat, ghost out: seq<int>) returns (s: int)
    requires k < |row| && row[k] == x + Dot(m, md, 0, 0) && -TERM <= row[k] <= TERM && Carried(row[..k], out, c)
    ensures s == c + row[k] && Int128(s)
    ensures Carried(row[..k + 1], out + [s % TWO62], s / TWO62)
  {
    hide Carried;
    CarryStep(row, k, out, c, row[k]);
    s := c + x;
    // no product is added when it would be zero
    if m != 0 {
      s := s + m * md;
    }
  }
}
