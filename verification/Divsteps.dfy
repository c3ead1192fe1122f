/**
 * The divstep iteration at the heart of modular inversion: one step as the paper defines it, runs of
 * steps, and the two routines that compute a whole batch of steps from the bottom limbs alone.
 */
module Divsteps {
  import opened Integers

  /** The two numbers, the step counter and the transition matrix accumulated so far. */
  datatype State = State(eta: int, f: int, g: int, u: int, v: int, q: int, r: int)

  datatype Matrix = Matrix(u: int, v: int, q: int, r: int)

  /**
   * One divstep. The counter is eta = -delta when c == 1 and zeta = -(delta + 1/2) when c == 2; in both
   * encodings a swap happens exactly when g is odd and the counter is negative.
   */
  function Step(c: int, s: State): (t: State)
    requires s.f % 2 == 1
    ensures t.f % 2 == 1
  {
    if s.g % 2 == 0 then
      State(s.eta - 1, s.f, s.g / 2, 2 * s.u, 2 * s.v, s.q, s.r)
    else if s.eta < 0 then
      State(-s.eta - c, s.g, (s.g - s.f) / 2, 2 * s.q, 2 * s.r, s.q - s.u, s.r - s.v)
    else
      State(s.eta - 1, s.f, (s.g + s.f) / 2, 2 * s.u, 2 * s.v, s.q + s.u, s.r + s.v)
  }

  /** n divsteps in a row. */
  function Run(c: int, n: nat, s: State): (t: State)
    requires s.f % 2 == 1
    ensures t.f % 2 == 1
  {
    if n == 0 then s else Run(c, n - 1, Step(c, s))
  }

  /** The numbers never leave the range they start in, and the counter moves by at most one a step. */
  lemma {:induction false} RunInRange(c: int, n: nat, s: State, m: int)
    requires s.f % 2 == 1 && (c == 1 || c == 2) && -m < s.f <= m && -m < s.g < m
    ensures var t := Run(c, n, s); -m < t.f <= m && -m < t.g < m && Abs(t.eta) <= Abs(s.eta) + n
  {
    if n != 0 {
      RunInRange(c, n - 1, Step(c, s), m);
    }
  }

  function Start(eta: int, f: int, g: int): State {
    State(eta, f, g, 1, 0, 0, 1)
  }

  function MatrixOf(s: State): Matrix {
    Matrix(s.u, s.v, s.q, s.r)
  }

  function Abs(x: int): nat {
    if x < 0 then -x else x
  }

  function Det(t: Matrix): int {
    t.u * t.r - t.v * t.q
  }

  // ---------- chaining runs ----------

  /** Everything but the matrix of a run depends on the counter and the two numbers only. */
  lemma {:induction false} RunForgetsMatrix(c: int, n: nat, s: State, t: State)
    requires s.f % 2 == 1 && s.eta == t.eta && s.f == t.f && s.g == t.g
    ensures var s', t' := Run(c, n, s), Run(c, n, t); s'.eta == t'.eta && s'.f == t'.f && s'.g == t'.g
  {
    if n != 0 {
      RunForgetsMatrix(c, n - 1, Step(c, s), Step(c, t));
    }
  }

  lemma {:induction false} RunAdd(c: int, a: nat, b: nat, s: State)
    requires s.f % 2 == 1
    ensures Run(c, a + b, s) == Run(c, b, Run(c, a, s))
    decreases a
  {
    if a != 0 {
      RunAdd(c, a - 1, b, Step(c, s));
    }
  }

  // ---------- what every run of divsteps keeps ----------

  /** One matrix row (a, b) maps (x, y) to p f. */
  predicate Row(a: int, b: int, x: int, y: int, f: int, p: int) {
    a * x + b * y == f * p
  }

  /**
   * After k steps from (f0, g0), where p is 2^k: the matrix maps (f0, g0) to p (f, g), has determinant p
   * and row norms at most p.
   */
  ghost predicate Tracks(s: State, f0: int, g0: int, p: nat) {
    && Row(s.u, s.v, f0, g0, s.f, p)
    && Row(s.q, s.r, f0, g0, s.g, p)
    && Det(MatrixOf(s)) == p
    && Abs(s.u) + Abs(s.v) <= p
    && Abs(s.q) + Abs(s.r) <= p
  }

  lemma StepTracks(c: int, s: State, f0: int, g0: int, p: nat)
    requires s.f % 2 == 1 && Tracks(s, f0, g0, p)
    ensures Tracks(Step(c, s), f0, g0, 2 * p)
  {
    hide Row, Det;
    if s.g % 2 == 0 {
      EvenTracks(s, s.g / 2, f0, g0, p);
    } else if s.eta < 0 {
      SwapTracks(s, (s.g - s.f) / 2, f0, g0, p);
    } else {
      AddTracks(s, (s.g + s.f) / 2, f0, g0, p);
    }
  }

  lemma EvenTracks(s: State, h: int, f0: int, g0: int, p: nat)
    requires Tracks(s, f0, g0, p) && s.g == 2 * h
    ensures Tracks(State(s.eta, s.f, h, 2 * s.u, 2 * s.v, s.q, s.r), f0, g0, 2 * p)
  {
    hide Row, Det;
    RowDouble(s.u, s.v, f0, g0, s.f, p);
    RowHalve(s.q, s.r, f0, g0, h, p);
    DetStep(s.u, s.v, s.q, s.r);
  }

  lemma AddTracks(s: State, h: int, f0: int, g0: int, p: nat)
    requires Tracks(s, f0, g0, p) && s.g + s.f == 2 * h
    ensures Tracks(State(s.eta, s.f, h, 2 * s.u, 2 * s.v, s.q + s.u, s.r + s.v), f0, g0, 2 * p)
  {
    hide Row, Det;
    RowDouble(s.u, s.v, f0, g0, s.f, p);
    RowAdd(s.q, s.r, s.u, s.v, f0, g0, s.g, s.f, p);
    RowHalve(s.q + s.u, s.r + s.v, f0, g0, h, p);
    DetAdd(s.u, s.v, s.q, s.r);
  }

  lemma SwapTracks(s: State, h: int, f0: int, g0: int, p: nat)
    requires Tracks(s, f0, g0, p) && s.g - s.f == 2 * h
    ensures Tracks(State(s.eta, s.g, h, 2 * s.q, 2 * s.r, s.q - s.u, s.r - s.v), f0, g0, 2 * p)
  {
    hide Row, Det;
    RowDouble(s.q, s.r, f0, g0, s.g, p);
    RowNegate(s.u, s.v, f0, g0, s.f, p);
    RowAdd(s.q, s.r, -s.u, -s.v, f0, g0, s.g, -s.f, p);
    RowHalve(s.q - s.u, s.r - s.v, f0, g0, h, p);
    DetSwap(s.u, s.v, s.q, s.r);
  }

  lemma RowDouble(a: int, b: int, x: int, y: int, f: int, p: int)
    requires Row(a, b, x, y, f, p)
    ensures Row(2 * a, 2 * b, x, y, f, 2 * p)
  {
  }

  lemma RowHalve(a: int, b: int, x: int, y: int, h: int, p: int)
    requires Row(a, b, x, y, 2 * h, p)
    ensures Row(a, b, x, y, h, 2 * p)
  {
  }

  lemma RowNegate(a: int, b: int, x: int, y: int, f: int, p: int)
    requires Row(a, b, x, y, f, p)
    ensures Row(-a, -b, x, y, -f, p)
  {
  }

  lemma RowAdd(a: int, b: int, c: int, d: int, x: int, y: int, f: int, g: int, p: int)
    requires Row(a, b, x, y, f, p) && Row(c, d, x, y, g, p)
    ensures Row(a + c, b + d, x, y, f + g, p)
  {
  }

  lemma DetStep(u: int, v: int, q: int, r: int)
    ensures Det(Matrix(2 * u, 2 * v, q, r)) == 2 * Det(Matrix(u, v, q, r))
  {
  }

  lemma DetAdd(u: int, v: int, q: int, r: int)
    ensures Det(Matrix(2 * u, 2 * v, q + u, r + v)) == 2 * Det(Matrix(u, v, q, r))
  {
  }

  lemma DetSwap(u: int, v: int, q: int, r: int)
    ensures Det(Matrix(2 * q, 2 * r, q - u, r - v)) == 2 * Det(Matrix(u, v, q, r))
  {
  }

  lemma {:induction false} RunTracks(c: int, n: nat, s: State, f0: int, g0: int, p: nat)
    requires s.f % 2 == 1 && Tracks(s, f0, g0, p)
    ensures Tracks(Run(c, n, s), f0, g0, Shl(p, n))
    decreases n
  {
    hide Row, Det, Pow2, Shl, Step;
    ShlZero(p);
    if n != 0 {
      StepTracks(c, s, f0, g0, p);
      RunTracks(c, n - 1, Step(c, s), f0, g0, 2 * p);
      ShlSucc(p, n - 1);
    }
  }

  // ---------- n divsteps look at the n bottom bits only ----------

  lemma HalfCong(a: int, b: int, n: nat)
    requires n > 0 && Cong(a, b, Pow2(n))
    ensures a % 2 == b % 2
    ensures Cong(a / 2, b / 2, Pow2(n - 1))
  {
    var k := CongWitness(a, b, Pow2(n));
    assert a == b + 2 * (k * Pow2(n - 1));
    assert a / 2 == b / 2 + k * Pow2(n - 1);
    CongIntro(a / 2, b / 2, Pow2(n - 1), k);
  }

  lemma CongHalved(a: int, b: int, n: nat)
    requires n > 0 && Cong(a, b, Pow2(n))
    ensures Cong(a, b, Pow2(n - 1))
  {
    CongFactor(a, b, Pow2(n - 1), 2);
  }

  lemma {:induction false} RunLocal(c: int, n: nat, s: State, t: State)
    requires s.f % 2 == 1 && t.f % 2 == 1
    requires s.eta == t.eta && MatrixOf(s) == MatrixOf(t)
    requires Cong(s.f, t.f, Pow2(n)) && Cong(s.g, t.g, Pow2(n))
    ensures Run(c, n, s).eta == Run(c, n, t).eta
    ensures MatrixOf(Run(c, n, s)) == MatrixOf(Run(c, n, t))
  {
    if n != 0 {
      HalfCong(s.g, t.g, n);
      CongHalved(s.f, t.f, n);
      CongHalved(s.g, t.g, n);
      CongAdd(s.g, t.g, s.f, t.f, Pow2(n));
      HalfCong(s.g + s.f, t.g + t.f, n);
      assert Cong(s.g - s.f, t.g - t.f, Pow2(n)) by {
        var k := CongWitness(s.g, t.g, Pow2(n));
        var l := CongWitness(s.f, t.f, Pow2(n));
        assert s.g - s.f == t.g - t.f + (k - l) * Pow2(n);
        CongIntro(s.g - s.f, t.g - t.f, Pow2(n), k - l);
      }
      HalfCong(s.g - s.f, t.g - t.f, n);
      RunLocal(c, n - 1, Step(c, s), Step(c, t));
    }
  }

  // ---------- the three shortcuts of the variable-time batch ----------

  /** Trailing zeros of g: that many divsteps at once. */
  lemma {:induction false} SkipZeros(c: int, n: nat, z: nat, s: State, h: int)
    requires s.f % 2 == 1 && z <= n && s.g == Shl(h, z)
    ensures Run(c, n, s) == Run(c, n - z, Skipped(s, z, h))
    decreases z
  {
    hide Shl, Pow2;
    if z == 0 {
      ShlZero(s.u);
      ShlZero(s.v);
      ShlZero(h);
    } else {
      ShlSucc(s.u, z - 1);
      ShlSucc(s.v, z - 1);
      ShlSucc(h, z - 1);
      SkipZeros(c, n - 1, z - 1, Step(c, s), h);
      assert Skipped(Step(c, s), z - 1, h) == Skipped(s, z, h);
    }
  }

  function Skipped(s: State, z: nat, h: int): State {
    State(s.eta - z, s.f, h, Shl(s.u, z), Shl(s.v, z), s.q, s.r)
  }

  /** With g odd and a negative counter, the step may be taken after replacing (f, g) by (g, -f). */
  lemma SwapFirst(n: nat, s: State)
    requires n > 0 && s.f % 2 == 1 && s.g % 2 == 1 && s.eta < 0
    ensures Run(1, n, s) == Run(1, n, State(-s.eta, s.g, -s.f, s.q, s.r, -s.u, -s.v))
  {
  }

  /** Adding w f to g in advance, for a w that cancels b bottom bits of g, with no swap in the next b steps. */
  lemma {:induction false} CancelFirst(n: nat, b: nat, s: State, w: nat, k: int)
    requires s.f % 2 == 1 && b <= n && b <= s.eta + 1
    requires w < Pow2(b) && Times(w, s.f) + s.g == Shl(k, b)
    ensures Run(1, n, s) == Run(1, n, Added(s, w))
    decreases b
  {
    hide Times, Shl;
    if b == 0 {
      TimesZero(s.f);
      TimesZero(s.u);
      TimesZero(s.v);
    } else {
      StepCancels(s, b, w, k);
      CancelFirst(n - 1, b - 1, Step(1, s), w / 2, k);
    }
  }

  /** One step, before and after the addition. */
  lemma StepCancels(s: State, b: nat, w: nat, k: int)
    requires s.f % 2 == 1 && b > 0 && s.eta >= 0 && Times(w, s.f) + s.g == Shl(k, b)
    ensures Step(1, Added(s, w)) == Added(Step(1, s), w / 2)
    ensures Times(w / 2, Step(1, s).f) + Step(1, s).g == Shl(k, b - 1)
  {
    hide Times, Shl;
    Split(w, s.f);
    Split(w, s.u);
    Split(w, s.v);
    ShlSucc(k, b - 1);
  }

  function Times(w: int, x: int): int {
    w * x
  }

  function Added(s: State, w: int): State {
    s.(g := s.g + Times(w, s.f), q := s.q + Times(w, s.u), r := s.r + Times(w, s.v))
  }

  lemma TimesZero(x: int)
    ensures Times(0, x) == 0
  {
  }

  lemma Split(w: nat, x: int)
    ensures Times(w, x) == (if w % 2 == 1 then x else 0) + 2 * Times(w / 2, x)
    ensures 2 * Times(w / 2, x) == Times(w / 2, 2 * x)
  {
  }
}
