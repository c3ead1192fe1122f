/** Powers of two and divisibility, shared by the arithmetic modules. */
module Integers {

  function Pow2(n: nat): (p: int)
    ensures p > 0
  {
    if n == 0 then 1 else 2 * Pow2(n - 1)
  }

  lemma {:induction false} Pow2Add(a: nat, b: nat)
    ensures Pow2(a + b) == Pow2(a) * Pow2(b)
  {
    if a != 0 {
      Pow2Add(a - 1, b);
      assert Pow2(a + b) == 2 * Pow2(a - 1 + b);
    }
  }

  lemma {:induction false} Pow2Monotone(a: nat, b: nat)
    requires a <= b
    ensures Pow2(a) <= Pow2(b)
    decreases b
  {
    if a < b {
      Pow2Monotone(a, b - 1);
    }
  }

  const B56: int := 0x100_0000_0000_0000
  const B60: int := 0x1000_0000_0000_0000
  const TWO32: int := 0x1_0000_0000
  const TWO59: int := 0x800_0000_0000_0000
  const TWO62: int := 0x4000_0000_0000_0000
  const TWO63: int := 0x8000_0000_0000_0000
  const TWO64: int := 0x1_0000_0000_0000_0000

  lemma Pow2At16()
    ensures Pow2(16) == 0x1_0000 && Pow2(2) == 4
  {
  }

  lemma Pow2At64()
    ensures Pow2(32) == TWO32 && Pow2(59) == TWO59 && Pow2(62) == TWO62 && Pow2(63) == TWO63 && Pow2(64) == TWO64
  {
    hide Pow2;
    Pow2At16();
    Pow2Add(16, 16);
    Pow2Add(32, 32);
    Pow2Down(64);
    Pow2Down(63);
    Pow2Down(62);
    Pow2Down(61);
    Pow2Down(60);
  }

  const TWO128: int := 0x1_0000_0000_0000_0000_0000_0000_0000_0000
  const TWO255: int := 0x8000_0000_0000_0000_0000_0000_0000_0000_0000_0000_0000_0000_0000_0000_0000_0000
  const TWO256: int := 0x1_0000_0000_0000_0000_0000_0000_0000_0000_0000_0000_0000_0000_0000_0000_0000_0000

  lemma Pow2At256()
    ensures Pow2(128) == TWO128 && Pow2(255) == TWO255 && Pow2(256) == TWO256
  {
    hide Pow2;
    Pow2At64();
    Pow2Add(64, 64);
    Pow2Add(128, 128);
    Pow2Down(256);
  }

  lemma Pow2Down(n: nat)
    requires n > 0
    ensures Pow2(n) == 2 * Pow2(n - 1)
  {
  }

  /** a << n on unbounded integers. */
  function Shl(a: int, n: nat): int {
    a * Pow2(n)
  }

  lemma ShlZero(a: int)
    ensures Shl(a, 0) == a
  {
  }

  lemma ShlOne(n: nat)
    ensures Shl(1, n) == Pow2(n)
  {
  }

  lemma ShlSucc(a: int, n: nat)
    ensures Shl(a, n + 1) == 2 * Shl(a, n) == Shl(2 * a, n)
  {
  }

  /** a and b agree modulo m. */
  predicate Cong(a: int, b: int, m: int)
    requires m > 0
  {
    (a - b) % m == 0
  }

  lemma ModMultiple(k: int, m: int)
    requires m > 0
    ensures (k * m) % m == 0
    ensures (k * m) / m == k
  {
    DivModUnique(k * m, m, k, 0);
  }

  /** Euclidean division is determined by its defining equation. */
  lemma DivModUnique(a: int, m: int, k: int, r: int)
    requires m > 0 && a == k * m + r && 0 <= r < m
    ensures a / m == k && a % m == r
  {
    var k', r' := a / m, a % m;
    assert a == m * k' + r';
    assert (k - k') * m == r' - r;
    if k - k' >= 1 {
      MulMono(1, k - k', m);
    } else if k - k' <= -1 {
      MulMono(k - k', -1, m);
    }
  }

  lemma DivModSwap(a: int, m: int, k: int, r: int)
    requires m > 0 && a == r + m * k && 0 <= r < m
    ensures a / m == k && a % m == r
  {
    DivModUnique(a, m, k, r);
  }

  lemma MulMono(a: int, b: int, m: int)
    requires a <= b && m >= 0
    ensures a * m <= b * m
  {
  }

  /** A congruence, as an explicit multiple. */
  lemma CongWitness(a: int, b: int, m: int) returns (k: int)
    requires m > 0 && Cong(a, b, m)
    ensures a == b + k * m
  {
    k := (a - b) / m;
    assert a - b == m * k + (a - b) % m;
  }

  lemma CongIntro(a: int, b: int, m: int, k: int)
    requires m > 0 && a == b + k * m
    ensures Cong(a, b, m)
  {
    ModMultiple(k, m);
    assert a - b == k * m;
  }

  lemma CongMod(a: int, m: int)
    requires m > 0
    ensures Cong(a % m, a, m)
  {
    hide Cong;
    assert a == m * (a / m) + a % m;
    CongIntro(a % m, a, m, -(a / m));
  }

  lemma CongAdd(a: int, b: int, c: int, d: int, m: int)
    requires m > 0 && Cong(a, b, m) && Cong(c, d, m)
    ensures Cong(a + c, b + d, m)
  {
    var k := CongWitness(a, b, m);
    var l := CongWitness(c, d, m);
    assert a + c == b + d + (k + l) * m;
    CongIntro(a + c, b + d, m, k + l);
  }

  lemma CongMul(a: int, b: int, c: int, d: int, m: int)
    requires m > 0 && Cong(a, b, m) && Cong(c, d, m)
    ensures Cong(a * c, b * d, m)
  {
    var k := CongWitness(a, b, m);
    var l := CongWitness(c, d, m);
    calc {
      a * c;
      (b + k * m) * (d + l * m);
      b * d + (b * l + k * d + k * m * l) * m;
    }
    CongIntro(a * c, b * d, m, b * l + k * d + k * m * l);
  }

  lemma CongTrans(a: int, b: int, c: int, m: int)
    requires m > 0 && Cong(a, b, m) && Cong(b, c, m)
    ensures Cong(a, c, m)
  {
    var k := CongWitness(a, b, m);
    var l := CongWitness(b, c, m);
    assert a == c + (k + l) * m;
    CongIntro(a, c, m, k + l);
  }

  lemma CongSym(a: int, b: int, m: int)
    requires m > 0 && Cong(a, b, m)
    ensures Cong(b, a, m)
  {
    var k := CongWitness(a, b, m);
    assert b == a + (-k) * m;
    CongIntro(b, a, m, -k);
  }

  /** Congruence modulo a multiple of m gives congruence modulo m. */
  lemma CongFactor(a: int, b: int, m: int, c: int)
    requires m > 0 && c > 0 && c * m > 0 && Cong(a, b, c * m)
    ensures Cong(a, b, m)
  {
    var k := CongWitness(a, b, c * m);
    assert k * (c * m) == (k * c) * m;
    CongIntro(a, b, m, k * c);
  }

  /** Congruent numbers in one window of width m are equal. */
  lemma CongUnique(a: int, b: int, m: int)
    requires m > 0 && Cong(a, b, m) && -m < a - b < m
    ensures a == b
  {
  }

  lemma RegroupQuotient(p: int, q: int, hh: int, hl: int)
    ensures p * (q * hh + hl) == hh * (p * q) + hl * p
  {
  }

  lemma QuotientOfQuotient(x: int, p: int, q: int)
    requires p > 0 && q > 0
    ensures p * q > 0 && (x / p) / q == x / (p * q)
  {
    var h, l := x / p, x % p;
    var hh, hl := h / q, h % q;
    assert x == p * h + l && h == q * hh + hl;
    MulMono(1, q, p);
    MulMono(hl + 1, q, p);
    MulMono(0, hl, p);
    RegroupQuotient(p, q, hh, hl);
    DivModUnique(x, p * q, hh, l + hl * p);
  }
}
