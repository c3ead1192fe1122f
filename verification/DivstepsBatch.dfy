/**
 * The two routines that run a batch of divsteps on 64-bit words: 59 branch-free steps, and 62 steps that
 * skip zeros and cancel up to six bits at a time. Both return exactly what the elementary steps give.
 */
module DivstepsBatch {
  import opened Integers
  import opened Divsteps

  type Word = x: int | 0 <= x < TWO64

  /** Unsigned 64-bit wrap-around. */
  function U64(x: int): (w: int)
    ensures 0 <= w < TWO64
  {
    x % TWO64
  }

  /** Unsigned 32-bit wrap-around. */
  function U32(x: int): int {
    x % TWO32
  }

  /** The signed reading of a 64-bit word. */
  function S64(x: int): int {
    if x < TWO63 then x else x - TWO64
  }

  /** Number of trailing zero bits. */
  function Ctz(x: nat): (z: nat)
    requires x > 0
  {
    if x % 2 == 1 then 0 else 1 + Ctz(x / 2)
  }

  // ---------- words stand for integers ----------

  lemma WordCong(x: int)
    ensures Cong(U64(x), x, TWO64)
  {
    CongMod(x, TWO64);
  }

  lemma WordEq(x: int, y: int)
    requires Cong(x, y, TWO64)
    ensures U64(x) == U64(y)
  {
    WordCong(x);
    WordCong(y);
    CongSym(U64(y), y, TWO64);
    CongTrans(U64(x), x, y, TWO64);
    CongTrans(U64(x), y, U64(y), TWO64);
    CongUnique(U64(x), U64(y), TWO64);
  }

  lemma WordShl(a: int, z: nat)
    ensures U64(U64(a) * Pow2(z)) == U64(Shl(a, z))
  {
    WordCong(a);
    CongMod(Pow2(z), TWO64);
    CongRefl(Pow2(z), TWO64);
    CongMul(U64(a), a, Pow2(z), Pow2(z), TWO64);
    WordEq(U64(a) * Pow2(z), Shl(a, z));
  }

  lemma CongRefl(a: int, m: int)
    requires m > 0
    ensures Cong(a, a, m)
  {
  }

  lemma WordNeg(a: int)
    ensures U64(-U64(a)) == U64(-a)
  {
    WordCong(a);
    var k := CongWitness(U64(a), a, TWO64);
    CongIntro(-U64(a), -a, TWO64, -k);
    WordEq(-U64(a), -a);
  }

  lemma WordAdd(a: int, b: int)
    ensures U64(U64(a) + U64(b)) == U64(a + b)
  {
    WordCong(a);
    WordCong(b);
    CongAdd(U64(a), a, U64(b), b, TWO64);
    WordEq(U64(a) + U64(b), a + b);
  }

  lemma WordAddTimes(a: int, b: int, w: int)
    ensures U64(U64(a) + U64(b) * w) == U64(a + Times(w, b))
  {
    WordCong(a);
    WordCong(b);
    CongRefl(w, TWO64);
    CongMul(U64(b), b, w, w, TWO64);
    CongAdd(U64(a), a, U64(b) * w, b * w, TWO64);
    WordEq(U64(a) + U64(b) * w, a + b * w);
  }

  lemma SignedWord(a: int)
    requires -TWO63 <= a < TWO63
    ensures S64(U64(a)) == a
  {
    WordCong(a);
    if a >= 0 {
      CongUnique(U64(a), a, TWO64);
    } else {
      var k := CongWitness(U64(a), a, TWO64);
      CongIntro(U64(a), a + TWO64, TWO64, k - 1);
      CongUnique(U64(a), a + TWO64, TWO64);
    }
  }

  /** A wrapped result still has the right i bottom bits. */
  lemma WordLowBits(x: int, y: int, i: nat)
    requires i <= 64 && Cong(x, y, Pow2(i))
    ensures Cong(U64(x), y, Pow2(i))
  {
    WordCong(x);
    Pow2At64();
    Pow2Add(64 - i, i);
    CongFactor(U64(x), x, Pow2(i), Pow2(64 - i));
    CongTrans(U64(x), x, y, Pow2(i));
  }

  lemma CongDown(a: int, b: int, i: nat, j: nat)
    requires j <= i && Cong(a, b, Pow2(i))
    ensures Cong(a, b, Pow2(j))
  {
    Pow2Add(i - j, j);
    CongFactor(a, b, Pow2(j), Pow2(i - j));
  }

  // ---------- counting zeros with a sentinel ----------

  lemma {:induction false} CtzBelow(g: nat, x: nat, i: nat, m: nat) returns (h: nat)
    requires m % 2 == 1 && x == g % Pow2(i) + Shl(m, i) && x > 0
    ensures Ctz(x) <= i && g == Shl(h, Ctz(x))
    ensures Ctz(x) < i ==> h % 2 == 1
    decreases i
  {
    hide Shl;
    if i == 0 {
      ShlZero(m);
      ShlZero(g);
      h := g;
    } else {
      ShlSucc(m, i - 1);
      HalfMod(g, Pow2(i - 1));
      if x % 2 == 1 {
        ShlZero(g);
        h := g;
      } else {
        h := CtzBelow(g / 2, x / 2, i - 1, m);
        ShlSucc(h, Ctz(x / 2));
      }
    }
  }

  lemma HalfMod(g: nat, p: nat)
    requires p > 0
    ensures g % (2 * p) == 2 * ((g / 2) % p) + g % 2
  {
    var h := g / 2;
    assert h == p * (h / p) + h % p;
    assert g == (h / p) * (2 * p) + (2 * (h % p) + g % 2) by {
      assert 2 * (p * (h / p)) == (h / p) * (2 * p);
    }
    DivModUnique(g, 2 * p, h / p, 2 * (h % p) + g % 2);
  }

  /** g | (UINT64_MAX << i) */
  function Sentinel(g: Word, i: nat): (x: int)
    requires i < 64
    ensures x > 0
  {
    Pow2At64();
    Pow2Monotone(i, 63);
    assert 2 * Pow2(63) == Pow2(64);
    g % Pow2(i) + (TWO64 - Pow2(i))
  }

  lemma SentinelValue(g: Word, i: nat)
    requires i < 64
    ensures Sentinel(g, i) == g % Pow2(i) + Shl(Pow2(64 - i) - 1, i)
    ensures (Pow2(64 - i) - 1) % 2 == 1
  {
    Pow2At64();
    Pow2Add(64 - i, i);
    Pow2Down(64 - i);
    ShlPred(Pow2(64 - i), i);
  }

  lemma ShlPred(p: int, i: nat)
    ensures Shl(p - 1, i) == p * Pow2(i) - Pow2(i)
  {
  }

  lemma CtzSentinel(g: Word, i: nat) returns (h: nat)
    requires i < 64
    ensures Ctz(Sentinel(g, i)) <= i && g == Shl(h, Ctz(Sentinel(g, i)))
    ensures Ctz(Sentinel(g, i)) < i ==> h % 2 == 1
  {
    hide Pow2, Shl, Ctz, Sentinel;
    SentinelValue(g, i);
    h := CtzBelow(g, Sentinel(g, i), i, Pow2(64 - i) - 1);
  }

  /** The zeros seen in the word are zeros of the integer it stands for. */
  lemma ShiftBoth(g: int, G: int, i: nat, z: nat, h: int) returns (H: int)
    requires z <= i && Cong(g, G, Pow2(i)) && g == Shl(h, z)
    ensures G == Shl(H, z) && Cong(h, H, Pow2(i - z))
    ensures g / Pow2(z) == h
  {
    ModMultiple(h, Pow2(z));
    var k := CongWitness(g, G, Pow2(i));
    Pow2Add(i - z, z);
    H := h - k * Pow2(i - z);
    calc {
      Shl(H, z);
      (h - k * Pow2(i - z)) * Pow2(z);
      h * Pow2(z) - k * (Pow2(i - z) * Pow2(z));
      g - k * Pow2(i);
      G;
    }
    CongIntro(h, H, Pow2(i - z), k);
  }

  // ---------- the multiples of f that cancel bits of g ----------

  lemma SmallPow2(b: nat)
    requires b <= 6
    ensures Pow2(6 - b) * Pow2(b) == 64
    ensures b <= 4 ==> Pow2(4 - b) * Pow2(b) == 16
  {
    Pow2Add(6 - b, b);
    assert Pow2(6) == 64;
    if b <= 4 {
      Pow2Add(4 - b, b);
      assert Pow2(4) == 16;
    }
  }

  /** (f^2 - 1)^2 is a multiple of 64 for odd f, so f g (f^2 - 2) is -g/f modulo 64. */
  lemma SixBits(f: int, g: int)
    requires f % 2 == 1
    ensures Cong(f * (f * g * (f * f - 2)) + g, 0, 64)
  {
    var a := f / 2;
    var t := a * (a + 1) / 2;
    ConsecutiveEven(a);
    assert f == 2 * a + 1;
    assert f * f - 1 == 8 * t by {
      assert f * f == 4 * (a * (a + 1)) + 1;
    }
    var e := f * f - 1;
    calc {
      f * (f * g * (f * f - 2)) + g;
      { assert f * (f * g * (e - 1)) == g * ((f * f) * (e - 1)); }
      g * ((f * f) * (e - 1)) + g;
      { assert f * f == e + 1; assert (e + 1) * (e - 1) == e * e - 1; }
      g * (e * e);
      { assert e * e == (8 * t) * (8 * t) == 64 * (t * t); }
      g * (64 * (t * t));
      (g * (t * t)) * 64;
    }
    CongIntro(f * (f * g * (f * f - 2)) + g, 0, 64, g * (t * t));
  }

  lemma ConsecutiveEven(a: int)
    ensures a * (a + 1) == 2 * (a * (a + 1) / 2)
  {
    if a % 2 == 0 {
      assert a * (a + 1) == 2 * (a / 2 * (a + 1));
    } else {
      assert a + 1 == 2 * ((a + 1) / 2);
      assert a * (a + 1) == 2 * (a * ((a + 1) / 2));
    }
  }

  /** f + (((f + 1) & 4) << 1) is the inverse of f modulo 16. */
  lemma FourBits(f: int)
    requires f % 2 == 1
    ensures Cong(f * (f + ((f + 1) / 4 % 2) * 8), 1, 16)
  {
    var a, c := f / 16, f % 16;
    var d := (c + 1) / 4 % 2;
    assert (f + 1) / 4 == 4 * a + (c + 1) / 4;
    var k := ResidueInverse(c);
    Expand16(a, c, d);
    CongIntro(f * (f + 8 * d), 1, 16, a * (16 * a + c + 8 * d) + c * a + k);
  }

  lemma Expand16(a: int, c: int, d: int)
    ensures (16 * a + c) * (16 * a + c + 8 * d)
      == 16 * (a * (16 * a + c + 8 * d) + c * a) + c * (c + 8 * d)
  {
  }

  lemma ResidueInverse(c: int) returns (k: int)
    requires 0 <= c < 16 && c % 2 == 1
    ensures c * (c + 8 * ((c + 1) / 4 % 2)) == 1 + 16 * k
  {
    k := match c
      case 1 => 0 case 3 => 2 case 5 => 4 case 7 => 3
      case 9 => 5 case 11 => 13 case 13 => 17 case _ => 14;
  }

  /** The six-bit multiplier: bottom b bits of f g (f^2 - 2). */
  lemma CancelSix(f: int, g: int, b: nat) returns (k: int)
    requires f % 2 == 1 && b <= 6
    ensures 0 <= U64(f * g * (f * f - 2)) % Pow2(b) < Pow2(b)
    ensures Times(U64(f * g * (f * f - 2)) % Pow2(b), f) + g == Shl(k, b)
  {
    SixBits(f, g);
    SmallPow2(b);
    CongFactor(f * (f * g * (f * f - 2)) + g, 0, Pow2(b), Pow2(6 - b));
    k := CancelWith(f, g, b, f * g * (f * f - 2), U64(f * g * (f * f - 2)));
  }

  /** The four-bit multiplier: bottom b bits of -g times the inverse of f modulo 16. */
  lemma CancelFour(f: int, g: int, b: nat) returns (k: int)
    requires f % 2 == 1 && b <= 4
    ensures 0 <= U64(U32(-U32(f + ((f + 1) / 4 % 2) * 8)) * g) % Pow2(b) < Pow2(b)
    ensures Times(U64(U32(-U32(f + ((f + 1) / 4 % 2) * 8)) * g) % Pow2(b), f) + g == Shl(k, b)
  {
    hide U64, Cong, Pow2, Shl, Times;
    var inv := f + ((f + 1) / 4 % 2) * 8;
    NegWord32(inv, b);
    var x := U32(-U32(inv));
    NegInverse(f, g, inv, b);
    CongRefl(g, Pow2(b));
    CongMul(x, -inv, g, g, Pow2(b));
    WordLowBits(x * g, -inv * g, b);
    k := CancelMod(f, g, b, -inv * g, U64(x * g));
  }

  lemma NegWord32(inv: int, b: nat)
    requires b <= 32
    ensures Cong(U32(-U32(inv)), -inv, Pow2(b))
  {
    CongMod(inv, TWO32);
    CongNeg(U32(inv), inv, TWO32);
    CongMod(-U32(inv), TWO32);
    CongTrans(U32(-U32(inv)), -U32(inv), -inv, TWO32);
    Pow2At64();
    CongDown(U32(-U32(inv)), -inv, 32, b);
  }

  lemma NegInverse(f: int, g: int, inv: int, b: nat)
    requires f % 2 == 1 && b <= 4 && inv == f + ((f + 1) / 4 % 2) * 8
    ensures Cong(f * (-inv * g) + g, 0, Pow2(b))
  {
    FourBits(f);
    SmallPow2(b);
    CongFactor(f * inv, 1, Pow2(b), Pow2(4 - b));
    var p := Pow2(b);
    var j := CongWitness(f * inv, 1, p);
    Distribute(f, inv, g, j, p);
    CongIntro(f * (-inv * g) + g, 0, p, -j * g);
  }

  lemma Distribute(f: int, inv: int, g: int, j: int, p: int)
    requires f * inv == 1 + j * p
    ensures f * (-inv * g) + g == (-j * g) * p
  {
    assert f * (-inv * g) == -((f * inv) * g);
    assert (j * p) * g == (j * g) * p;
  }

  lemma CancelWith(f: int, g: int, b: nat, x: int, y: int) returns (k: int)
    requires b <= 64 && Cong(f * x + g, 0, Pow2(b)) && y == U64(x)
    ensures 0 <= y % Pow2(b) < Pow2(b)
    ensures Times(y % Pow2(b), f) + g == Shl(k, b)
  {
    CongRefl(x, Pow2(b));
    WordLowBits(x, x, b);
    k := CancelMod(f, g, b, x, y);
  }

  lemma CancelMod(f: int, g: int, b: nat, x: int, y: int) returns (k: int)
    requires Cong(f * x + g, 0, Pow2(b)) && Cong(y, x, Pow2(b))
    ensures 0 <= y % Pow2(b) < Pow2(b)
    ensures Times(y % Pow2(b), f) + g == Shl(k, b)
  {
    var p := Pow2(b);
    CongMod(y, p);
    CongTrans(y % p, y, x, p);
    var i := CongWitness(y % p, x, p);
    var j := CongWitness(f * x + g, 0, p);
    k := j + i * f;
    calc {
      (y % p) * f + g;
      (x + i * p) * f + g;
      (f * x + g) + (i * f) * p;
      j * p + (i * f) * p;
      k * p;
    }
  }

  /** A multiplier that works for the words works for the integers they stand for. */
  lemma CancelBoth(f: int, F: int, g: int, G: int, i: nat, b: nat, w: int, k: int) returns (K: int)
    requires b <= i && Cong(f, F, Pow2(i)) && Cong(g, G, Pow2(i))
    requires Times(w, f) + g == Shl(k, b)
    ensures Times(w, F) + G == Shl(K, b)
  {
    CongDown(f, F, i, b);
    CongDown(g, G, i, b);
    var p := Pow2(b);
    var c := CongWitness(f, F, p);
    var d := CongWitness(g, G, p);
    K := k - w * c - d;
    calc {
      w * F + G;
      w * (f - c * p) + (g - d * p);
      (w * f + g) - (w * c) * p - d * p;
      K * p;
    }
  }

  // ---------- 62 divsteps in variable time ----------

  /** What the words of the loop stand for: the state s, with i divsteps still to do. */
  ghost predicate Stands(i: nat, s: State, f: int, g: int, u: int, v: int, q: int, r: int) {
    && s.f % 2 == 1
    && Cong(f, s.f, Pow2(i)) && Cong(g, s.g, Pow2(i))
    && u == U64(s.u) && v == U64(s.v) && q == U64(s.q) && r == U64(s.r)
  }

  lemma ZerosStand(i: nat, s: State, f: int, g: Word, u: int, v: int, q: int, r: int) returns (s': State)
    requires 0 < i <= 62 && Stands(i, s, f, g, u, v, q, r)
    ensures Ctz(Sentinel(g, i)) <= i
    ensures var z := Ctz(Sentinel(g, i));
      && s'.eta == s.eta - z
      && Stands(i - z, s', f, g / Pow2(z), U64(u * Pow2(z)), U64(v * Pow2(z)), q, r)
      && Run(1, i - z, s') == Run(1, i, s)
      && 0 <= g / Pow2(z) < TWO64
      && (z < i ==> (g / Pow2(z)) % 2 == 1)
      && (g % 2 == 0 ==> z > 0)
  {
    hide Run, Step, U64, Shl, Cong, Pow2, Sentinel, Stands, Ctz;
    var z := Ctz(Sentinel(g, i));
    var h := CtzSentinel(g, i);
    ZerosAreOdd(g, h, z, i);
    ExpandStands(i, s, f, g, u, v, q, r);
    var h' := ShiftBoth(g, s.g, i, z, h);
    SkipZeros(1, i, z, s, h');
    s' := Skipped(s, z, h');
    WordShl(s.u, z);
    WordShl(s.v, z);
    CongDown(f, s.f, i, i - z);
    IntroStands(i - z, s', f, h, U64(u * Pow2(z)), U64(v * Pow2(z)), q, r);
    QuotientBound(g, Pow2(z));
  }

  lemma ExpandStands(i: nat, s: State, f: int, g: int, u: int, v: int, q: int, r: int)
    requires Stands(i, s, f, g, u, v, q, r)
    ensures s.f % 2 == 1
    ensures Cong(f, s.f, Pow2(i)) && Cong(g, s.g, Pow2(i))
    ensures u == U64(s.u) && v == U64(s.v) && q == U64(s.q) && r == U64(s.r)
    ensures i > 0 ==> f % 2 == 1 && g % 2 == s.g % 2
  {
    if i > 0 {
      HalfCong(f, s.f, i);
      HalfCong(g, s.g, i);
    }
  }

  lemma IntroStands(i: nat, s: State, f: int, g: int, u: int, v: int, q: int, r: int)
    requires s.f % 2 == 1
    requires Cong(f, s.f, Pow2(i)) && Cong(g, s.g, Pow2(i))
    requires u == U64(s.u) && v == U64(s.v) && q == U64(s.q) && r == U64(s.r)
    ensures Stands(i, s, f, g, u, v, q, r)
  {
  }

  lemma ZerosAreOdd(g: int, h: int, z: nat, i: nat)
    requires g == Shl(h, z) && i > 0 && (z < i ==> h % 2 == 1)
    ensures g % 2 == 0 ==> z > 0
  {
    if z == 0 {
      ShlZero(h);
    }
  }

  lemma QuotientBound(g: nat, p: nat)
    requires p > 0
    ensures 0 <= g / p <= g
  {
    assert g == p * (g / p) + g % p;
    MulMono(1, p, g / p);
  }

  function Swapped(s: State): State {
    State(-s.eta, s.g, -s.f, s.q, s.r, -s.u, -s.v)
  }

  lemma SwapStands(i: nat, s: State, f: int, g: int, u: int, v: int, q: int, r: int)
    requires 0 < i <= 62 && Stands(i, s, f, g, u, v, q, r)
    requires s.eta < 0 && g % 2 == 1
    ensures Stands(i, Swapped(s), g, U64(-f), q, r, U64(-u), U64(-v))
    ensures Run(1, i, Swapped(s)) == Run(1, i, s)
  {
    hide Run, Step, U64, Cong, Pow2, Stands;
    ExpandStands(i, s, f, g, u, v, q, r);
    SwapFirst(i, s);
    WordNeg(s.u);
    WordNeg(s.v);
    CongNeg(f, s.f, Pow2(i));
    WordLowBits(-f, -s.f, i);
    IntroStands(i, Swapped(s), g, U64(-f), q, r, U64(-u), U64(-v));
  }

  lemma CongNeg(a: int, b: int, m: int)
    requires m > 0 && Cong(a, b, m)
    ensures Cong(-a, -b, m)
  {
    var k := CongWitness(a, b, m);
    CongIntro(-a, -b, m, -k);
  }

  lemma AddStands(i: nat, b: nat, s: State, f: int, g: int, u: int, v: int, q: int, r: int, w: nat, k: int)
    requires 0 < b <= i <= 62 && b <= s.eta + 1 && Stands(i, s, f, g, u, v, q, r)
    requires w < Pow2(b) && Times(w, f) + g == Shl(k, b)
    ensures Stands(i, Added(s, w), f, U64(g + f * w), u, v, U64(q + u * w), U64(r + v * w))
    ensures Run(1, i, Added(s, w)) == Run(1, i, s)
    ensures U64(g + f * w) % 2 == 0
  {
    hide Run, Step, U64, Shl, Cong, Pow2, Stands;
    ExpandStands(i, s, f, g, u, v, q, r);
    var K := CancelBoth(f, s.f, g, s.g, i, b, w, k);
    CancelFirst(i, b, s, w, K);
    WordAddTimes(s.q, s.u, w);
    WordAddTimes(s.r, s.v, w);
    CongRefl(w, Pow2(i));
    CongMul(f, s.f, w, w, Pow2(i));
    CongAdd(g, s.g, f * w, s.f * w, Pow2(i));
    assert Times(w, s.f) == s.f * w;
    WordLowBits(g + f * w, s.g + s.f * w, i);
    IntroStands(i, Added(s, w), f, U64(g + f * w), u, v, U64(q + u * w), U64(r + v * w));
    ExpandStands(i, Added(s, w), f, U64(g + f * w), u, v, U64(q + u * w), U64(r + v * w));
    EvenShl(K, b);
  }

  lemma EvenShl(k: int, b: nat)
    requires b > 0
    ensures Shl(k, b) % 2 == 0
  {
    ShlSucc(k, b - 1);
  }

  lemma StartTracks(eta: int, f0: int, g0: int)
    ensures Tracks(Start(eta, f0, g0), f0, g0, 1)
  {
  }

  lemma TracksHidden(c: int, n: nat, s: State, f0: int, g0: int)
    requires s.f % 2 == 1 && Tracks(s, f0, g0, 1)
    ensures Tracks(Run(c, n, s), f0, g0, Shl(1, n))
  {
    hide *;
    RunTracks(c, n, s, f0, g0, 1);
  }

  /** The entries of the matrix of n divsteps. */
  lemma RunBounds(c: int, n: nat, eta: int, f0: int, g0: int)
    requires f0 % 2 == 1
    ensures Tracks(Run(c, n, Start(eta, f0, g0)), f0, g0, Pow2(n))
  {
    hide Run, Pow2, Shl;
    StartTracks(eta, f0, g0);
    TracksHidden(c, n, Start(eta, f0, g0), f0, g0);
    ShlOne(n);
  }

  /** The words at the end are the signed matrix entries. */
  lemma MatrixFits(eta: int, f0: int, g0: int)
    requires f0 % 2 == 1
    ensures var s := Run(1, 62, Start(eta, f0, g0));
      && S64(U64(s.u)) == s.u && S64(U64(s.v)) == s.v && S64(U64(s.q)) == s.q && S64(U64(s.r)) == s.r
  {
    hide Run, Row, Det, S64, U64, Pow2;
    var s := Run(1, 62, Start(eta, f0, g0));
    RunBounds(1, 62, eta, f0, g0);
    Pow2At64();
    SignedWord(s.u);
    SignedWord(s.v);
    SignedWord(s.q);
    SignedWord(s.r);
  }

  method Divsteps62Var(eta0: int, f0: Word, g0: Word) returns (eta: int, t: Matrix)
    requires f0 % 2 == 1
    ensures eta == Run(1, 62, Start(eta0, f0, g0)).eta
    ensures t == MatrixOf(Run(1, 62, Start(eta0, f0, g0)))
  {
    hide Run, Step, U64, Shl, Times, Cong, Pow2, Ctz, Sentinel, Stands;
    var u, v, q, r := 1, 0, 0, 1;
    var f, g: Word := f0, g0;
    var i := 62;
    eta := eta0;
    ghost var s := Start(eta0, f0, g0);
    StartStands(62, s, f0, g0);
    while true
      invariant 0 < i <= 62
      invariant s.f % 2 == 1 && s.eta == eta && Stands(i, s, f, g, u, v, q, r)
      invariant Run(1, i, s) == Run(1, 62, Start(eta0, f0, g0))
      decreases 2 * i + g % 2
    {
      // the extra bit at position i stops the count there
      var zeros := Ctz(Sentinel(g, i));
      s := ZerosStand(i, s, f, g, u, v, q, r);
      g := g / Pow2(zeros);
      u := U64(u * Pow2(zeros));
      v := U64(v * Pow2(zeros));
      eta := eta - zeros;
      i := i - zeros;
      if i == 0 {
        break;
      }
      var limit, w;
      ghost var b, k;
      if eta < 0 {
        SwapStands(i, s, f, g, u, v, q, r);
        s := Swapped(s);
        eta := -eta;
        f, g := g, U64(-f);
        u, q := q, U64(-u);
        v, r := r, U64(-v);
        limit := if eta + 1 > i then i else eta + 1;
        // the bottom min(limit, 6) bits
        b := if limit < 6 then limit else 6;
        ExpandStands(i, s, f, g, u, v, q, r);
        k := CancelSix(f, g, b);
        w := U64(f * g * (f * f - 2)) % Pow2(if limit < 6 then limit else 6);
      } else {
        limit := if eta + 1 > i then i else eta + 1;
        // the bottom min(limit, 4) bits
        b := if limit < 4 then limit else 4;
        ExpandStands(i, s, f, g, u, v, q, r);
        k := CancelFour(f, g, b);
        w := U32(f + ((f + 1) / 4 % 2) * 8);
        w := U64(U32(-w) * g) % Pow2(if limit < 4 then limit else 4);
      }
      AddStands(i, b, s, f, g, u, v, q, r, w, k);
      s := Added(s, w);
      g := U64(g + f * w);
      q := U64(q + u * w);
      r := U64(r + v * w);
    }
    ExpandStands(0, s, f, g, u, v, q, r);
    RunZero(1, s);
    MatrixFits(eta0, f0, g0);
    t := Matrix(S64(u), S64(v), S64(q), S64(r));
  }

  lemma StartStands(i: nat, s: State, f0: Word, g0: Word)
    requires f0 % 2 == 1 && s.f == f0 && s.g == g0 && s.u == s.r == 1 && s.v == s.q == 0
    ensures Stands(i, s, f0, g0, 1, 0, 0, 1)
  {
    CongRefl(f0, Pow2(i));
    CongRefl(g0, Pow2(i));
  }

  // ---------- 59 divsteps without branches ----------

  /** The words of the constant-time loop: f, g and eight times the matrix of s, with n divsteps still to do. */
  ghost predicate StandsBy8(n: nat, s: State, f: int, g: int, u: int, v: int, q: int, r: int) {
    && s.f % 2 == 1
    && Cong(f, s.f, Pow2(n + 1)) && Cong(g, s.g, Pow2(n + 1))
    && u == U64(8 * s.u) && v == U64(8 * s.v) && q == U64(8 * s.q) && r == U64(8 * s.r)
  }

  lemma ExpandBy8(n: nat, s: State, f: int, g: int, u: int, v: int, q: int, r: int)
    requires StandsBy8(n, s, f, g, u, v, q, r)
    ensures s.f % 2 == 1
    ensures Cong(f, s.f, Pow2(n + 1)) && Cong(g, s.g, Pow2(n + 1))
    ensures Cong(f, s.f, Pow2(n)) && Cong(g, s.g, Pow2(n))
    ensures u == U64(8 * s.u) && v == U64(8 * s.v) && q == U64(8 * s.q) && r == U64(8 * s.r)
    ensures f % 2 == 1 && g % 2 == s.g % 2
  {
    HalfCong(f, s.f, n + 1);
    HalfCong(g, s.g, n + 1);
    CongDown(f, s.f, n + 1, n);
    CongDown(g, s.g, n + 1, n);
  }

  /** Adding, subtracting and doubling words that hold eight times an integer. */
  lemma WordsBy8(a: int, b: int)
    ensures U64(U64(8 * a) + U64(8 * b)) == U64(8 * (a + b))
    ensures U64(U64(8 * a) + U64(-U64(8 * b))) == U64(8 * (a - b))
    ensures U64(2 * U64(8 * a)) == U64(8 * (2 * a))
  {
    WordAdd(8 * a, 8 * b);
    WordNeg(8 * b);
    WordAdd(8 * a, -(8 * b));
    WordAdd(8 * a, 8 * a);
  }

  lemma ShiftBy8(n: nat, s: State, f: int, g: int, h: int, u: int, v: int, q: int, r: int)
    requires 0 < n && s.f % 2 == 1
    requires Cong(f, s.f, Pow2(n)) && Cong(g, 2 * s.g, Pow2(n + 1)) && h == g / 2
    requires u == U64(8 * s.u) && v == U64(8 * s.v) && q == U64(8 * s.q) && r == U64(8 * s.r)
    ensures StandsBy8(n - 1, s, f, h, u, v, q, r)
  {
    HalfCong(g, 2 * s.g, n + 1);
  }

  lemma StepOdd(s: State)
    requires s.f % 2 == 1 && s.g % 2 == 1
    ensures var t := Step(2, s);
      if s.eta < 0 then t.f == s.g && 2 * t.g == s.g - s.f && t.u == 2 * s.q && t.v == 2 * s.r && t.q == s.q - s.u && t.r == s.r - s.v
      else t.f == s.f && 2 * t.g == s.g + s.f && t.u == 2 * s.u && t.v == 2 * s.v && t.q == s.q + s.u && t.r == s.r + s.v
  {
  }

  lemma EvenBy8(n: nat, s: State, f: int, g: int, u: int, v: int, q: int, r: int)
    requires 0 < n && StandsBy8(n, s, f, g, u, v, q, r) && s.g % 2 == 0
    ensures StandsBy8(n - 1, Step(2, s), f, g / 2, U64(2 * u), U64(2 * v), q, r)
  {
    hide Cong, U64, Pow2, StandsBy8;
    ExpandBy8(n, s, f, g, u, v, q, r);
    WordsBy8(s.u, 0);
    WordsBy8(s.v, 0);
    ShiftBy8(n, Step(2, s), f, g, g / 2, U64(2 * u), U64(2 * v), q, r);
  }

  lemma AddWords(a: int, b: int, x: int, y: int)
    requires x == U64(8 * a) && y == U64(8 * b)
    ensures U64(2 * x) == U64(8 * (2 * a)) && U64(y + x) == U64(8 * (b + a))
  {
    hide U64;
    WordsBy8(a, 0);
    WordsBy8(b, a);
  }

  lemma AddLow(f: int, g: int, F: int, G: int, n: nat)
    requires 0 < n <= 63 && Cong(f, F, Pow2(n)) && Cong(g, G, Pow2(n))
    ensures Cong(U64(g + f), G + F, Pow2(n))
  {
    hide U64, Cong, Pow2;
    CongAdd(g, G, f, F, Pow2(n));
    WordLowBits(g + f, G + F, n);
  }

  lemma AddBy8(n: nat, s: State, f: int, g: int, g': int, u: int, v: int, q: int, r: int, q': int, r': int)
    requires 0 < n <= 62 && StandsBy8(n, s, f, g, u, v, q, r) && s.g % 2 == 1 && s.eta >= 0
    requires g' == U64(g + f) && q' == U64(q + u) && r' == U64(r + v)
    ensures StandsBy8(n - 1, Step(2, s), f, g' / 2, U64(2 * u), U64(2 * v), q', r')
  {
    hide Cong, U64, Pow2, StandsBy8, Step;
    ExpandBy8(n, s, f, g, u, v, q, r);
    StepOdd(s);
    AddWords(s.u, s.q, u, q);
    AddWords(s.v, s.r, v, r);
    AddLow(f, g, s.f, s.g, n + 1);
    ShiftBy8(n, Step(2, s), f, g', g' / 2, U64(2 * u), U64(2 * v), q', r');
  }

  lemma SwapWords(a: int, b: int, x: int, y: int)
    requires x == U64(8 * a) && y == U64(8 * b)
    ensures U64(y + U64(-x)) == U64(8 * (b - a))
    ensures U64(2 * U64(x + U64(y + U64(-x)))) == U64(8 * (2 * b))
  {
    hide U64;
    WordsBy8(b, a);
    WordsBy8(a, b - a);
    WordsBy8(b, 0);
  }

  lemma SwapLow(f: int, g: int, F: int, G: int, n: nat)
    requires 0 < n <= 63 && Cong(f, F, Pow2(n)) && Cong(g, G, Pow2(n))
    ensures Cong(U64(g + U64(-f)), G - F, Pow2(n))
    ensures Cong(U64(f + U64(g + U64(-f))), G, Pow2(n))
    ensures Cong(U64(f + U64(g + U64(-f))), G, Pow2(n - 1))
  {
    hide U64, Cong, Pow2;
    CongNeg(f, F, Pow2(n));
    WordLowBits(-f, -F, n);
    CongAdd(g, G, U64(-f), -F, Pow2(n));
    WordLowBits(g + U64(-f), G - F, n);
    CongAdd(f, F, U64(g + U64(-f)), G - F, Pow2(n));
    WordLowBits(f + U64(g + U64(-f)), G, n);
    CongDown(U64(f + U64(g + U64(-f))), G, n, n - 1);
  }

  lemma SwapBy8(n: nat, s: State, f: int, g: int, g': int, u: int, v: int, q: int, r: int, q': int, r': int)
    requires 0 < n <= 62 && StandsBy8(n, s, f, g, u, v, q, r) && s.g % 2 == 1 && s.eta < 0
    requires g' == U64(g + U64(-f)) && q' == U64(q + U64(-u)) && r' == U64(r + U64(-v))
    ensures StandsBy8(n - 1, Step(2, s), U64(f + g'), g' / 2, U64(2 * U64(u + q')), U64(2 * U64(v + r')), q', r')
  {
    hide Cong, U64, Pow2, StandsBy8, Step;
    ExpandBy8(n, s, f, g, u, v, q, r);
    StepOdd(s);
    SwapWords(s.u, s.q, u, q);
    SwapWords(s.v, s.r, v, r);
    SwapLow(f, g, s.f, s.g, n + 1);
    ShiftBy8(n, Step(2, s), U64(f + g'), g', g' / 2, U64(2 * U64(u + q')), U64(2 * U64(v + r')), q', r');
  }

  method Divsteps59(zeta0: int, f0: Word, g0: Word) returns (zeta: int, t: Matrix)
    requires f0 % 2 == 1
    ensures var s := Run(2, 59, Start(zeta0, f0, g0));
      zeta == s.eta && t == Matrix(8 * s.u, 8 * s.v, 8 * s.q, 8 * s.r)
  {
    hide Run, U64, Cong, Pow2, StandsBy8;
    var u, v, q, r := 8, 0, 0, 8;
    var f, g: Word := f0, g0;
    zeta := zeta0;
    ghost var s := Start(zeta0, f0, g0);
    StartBy8(59, s, f0, g0);
    var i := 3;
    while i < 62
      invariant 3 <= i <= 62
      invariant s.f % 2 == 1 && s.eta == zeta && StandsBy8(62 - i, s, f, g, u, v, q, r)
      invariant Run(2, 62 - i, s) == Run(2, 59, Start(zeta0, f0, g0))
    {
      ExpandBy8(62 - i, s, f, g, u, v, q, r);
      RunUnfold(62 - i, s);
      // both decisions of the step, before anything changes
      var c1, c2 := zeta < 0, g % 2 == 1;
      var x := if c1 then U64(-f) else f;
      var y := if c1 then U64(-u) else u;
      var z := if c1 then U64(-v) else v;
      var g', q', r' := g, q, r;
      if c2 {
        g', q', r' := U64(g + x), U64(q + y), U64(r + z);
      }
      c1 := c1 && c2;
      zeta := if c1 then -zeta - 2 else zeta - 1;
      var f', u', v' := f, u, v;
      if c1 {
        f', u', v' := U64(f + g'), U64(u + q'), U64(v + r');
        SwapBy8(62 - i, s, f, g, g', u, v, q, r, q', r');
      } else if c2 {
        AddBy8(62 - i, s, f, g, g', u, v, q, r, q', r');
      } else {
        EvenBy8(62 - i, s, f, g, u, v, q, r);
      }
      s := Step(2, s);
      f, q, r := f', q', r';
      g := g' / 2;
      u := U64(2 * u');
      v := U64(2 * v');
      i := i + 1;
    }
    ExpandBy8(0, s, f, g, u, v, q, r);
    RunZero(2, s);
    MatrixFits59(zeta0, f0, g0);
    t := Matrix(S64(u), S64(v), S64(q), S64(r));
  }

  lemma RunUnfold(n: nat, s: State)
    requires n > 0 && s.f % 2 == 1
    ensures Run(2, n, s) == Run(2, n - 1, Step(2, s))
  {
  }

  lemma RunZero(c: int, s: State)
    requires s.f % 2 == 1
    ensures Run(c, 0, s) == s
  {
  }

  lemma StartBy8(n: nat, s: State, f0: Word, g0: Word)
    requires f0 % 2 == 1 && s.f == f0 && s.g == g0 && s.u == s.r == 1 && s.v == s.q == 0
    ensures StandsBy8(n, s, f0, g0, 8, 0, 0, 8)
  {
    CongRefl(f0, Pow2(n + 1));
    CongRefl(g0, Pow2(n + 1));
  }

  lemma MatrixFits59(zeta: int, f0: int, g0: int)
    requires f0 % 2 == 1
    ensures var s := Run(2, 59, Start(zeta, f0, g0));
      && S64(U64(8 * s.u)) == 8 * s.u && S64(U64(8 * s.v)) == 8 * s.v
      && S64(U64(8 * s.q)) == 8 * s.q && S64(U64(8 * s.r)) == 8 * s.r
  {
    hide Run, Row, Det, S64, U64, Pow2;
    var s := Run(2, 59, Start(zeta, f0, g0));
    RunBounds(2, 59, zeta, f0, g0);
    Pow2At64();
    SignedWord(8 * s.u);
    SignedWord(8 * s.v);
    SignedWord(8 * s.q);
    SignedWord(8 * s.r);
  }
}
