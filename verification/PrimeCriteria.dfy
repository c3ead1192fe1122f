/**
 * When a number is prime: by trial division, and by the criteria of Pocklington and of Brillhart, Lehmer and Selfridge,
 * from a power of 2 modulo the number and prime divisors of its predecessor.
 */
module PrimeCriteria {
  import opened Integers
  import opened Primes
  import I = ModularInverse

  // ---------- the least prime divisor ----------

  /** Every number from 2 up has a prime divisor, and one not above the square root unless it is prime. */
  lemma {:induction false} PrimeFactor(m: nat) returns (r: nat)
    requires m > 1
    ensures Prime(r) && m % r == 0 && (Prime(m) || r * r <= m)
  {
    r := m;
    if Prime(m) {
      ModMultiple(1, m);
    } else {
      var c, d := ProperDivisors(m);
      r := PrimeFactor(c);
      var k := c / r;
      assert c == r * k;
      assert m == (k * d) * r;
      ModMultiple(k * d, r);
      FactorBelow(r, c, d);
    }
  }

  lemma ProperDivisors(m: nat) returns (c: nat, d: nat)
    requires m > 1 && !Prime(m)
    ensures 1 < c <= d && m == c * d && c < m && d < m
  {
    var x: int :| x > 0 && I.Divides(x, m) && x != 1 && x != m;
    var y: int :| m == x * y;
    CofactorIsProper(m, x, y);
    c, d := if x <= y then x else y, if x <= y then y else x;
    assert x * y == y * x;
  }

  lemma CofactorIsProper(m: int, x: int, y: int)
    requires m > 1 && x > 0 && m == x * y && x != 1 && x != m
    ensures 1 < y < m && 1 < x < m
  {
    if y <= 0 {
      MulMono(y, 0, x);
    } else if y > 1 {
      MulMono(2, x, y);
      MulMono(2, y, x);
    }
  }

  lemma FactorBelow(r: nat, c: nat, d: nat)
    requires 0 < r && 0 < c <= d && c % r == 0
    ensures r * r <= c * d
  {
    var k := c / r;
    assert c == r * k;
    if k <= 0 {
      MulMono(k, 0, r);
    } else {
      MulMono(1, k, r);
    }
    MulMono(r, c, r);
    MulMono(r, d, c);
  }

  // ---------- trial division ----------

  /** None of 2, ..., k divides m. */
  predicate Undivided(m: int, k: nat) {
    k < 2 || (m % k != 0 && Undivided(m, k - 1))
  }

  lemma {:induction false} UndividedAt(m: int, k: nat, r: nat)
    requires Undivided(m, k) && 2 <= r <= k
    ensures m % r != 0
    decreases k
  {
    if r < k {
      UndividedAt(m, k - 1, r);
    }
  }

  lemma TrialDivision(m: nat, k: nat)
    requires m > 1 && m < (k + 1) * (k + 1) && Undivided(m, k)
    ensures Prime(m)
  {
    hide Undivided;
    var r := PrimeFactor(m);
    if !Prime(m) {
      if r > k {
        MulMono(k + 1, r, k + 1);
        MulMono(k + 1, r, r);
      }
      UndividedAt(m, k, r);
    }
  }

  // ---------- divisors of m are 1 modulo f ----------

  /** Every prime divisor of m is 1 modulo f. */
  ghost predicate FactorsAre(m: int, f: nat)
    requires f > 0
  {
    forall r: nat :: Prime(r) && Divided(m, r) ==> (r - 1) % f == 0
  }

  predicate Divided(m: int, r: int) {
    r > 0 && m % r == 0
  }

  /**
   * From a power of 2 that is 1 modulo m, and that is prime to m once the exponent is divided by a prime q: every prime
   * divisor of m is 1 modulo q.
   */
  lemma OneFactor(m: nat, q: nat, k: nat, v: int, t: int)
    requires m > 1 && Prime(q) && Cong(Power(2, q * k), 1, m) && Cong(Power(2, k), v, m) && Cong(t * (v - 1), 1, m)
    ensures FactorsAre(m, q)
  {
    hide Prime, Cong, Divided;
    PrimeAboveOne(q);
    forall r: nat | Prime(r) && Divided(m, r)
      ensures (r - 1) % q == 0
    {
      if (r - 1) % q != 0 {
        PrimeAboveOne(r);
        ModDivisor(Power(2, q * k), 1, m, r);
        ModDivisor(Power(2, k), v, m, r);
        ModDivisor(t * (v - 1), 1, m, r);
        RootIsOne(r, q, k);
        UnitIsNotZero(r, Power(2, k), v, t);
      }
    }
  }

  lemma PrimeAboveOne(r: nat)
    requires Prime(r)
    ensures r > 1
  {
  }

  lemma ModDivisor(x: int, y: int, m: nat, r: nat)
    requires m > 0 && r > 0 && Divided(m, r) && Cong(x, y, m)
    ensures Cong(x, y, r)
  {
    hide Cong;
    var c := m / r;
    assert m == c * r;
    if c <= 0 {
      MulMono(c, 0, r);
    }
    CongFactor(x, y, r, c);
  }

  /** If q does not divide r - 1, a number whose power q is 1 modulo the prime r is 1 itself. */
  lemma RootIsOne(r: nat, q: nat, k: nat)
    requires Prime(r) && r > 1 && Prime(q) && (r - 1) % q != 0 && Cong(Power(2, q * k), 1, r)
    ensures Cong(Power(2, k), 1, r)
  {
    hide Prime, Cong;
    var b := Power(2, k);
    assert k * q == q * k;
    PowerPower(2, k, q);
    PrimeAboveOne(q);
    NotZero(b, q, r);
    var u, j := Coefficients(q, r - 1);
    Fermat(r, b);
    PowersMeet(b, r, r - 1, q, u, j);
  }

  lemma PowersMeet(b: int, m: nat, s: nat, q: nat, u: nat, j: nat)
    requires m > 0 && Cong(Power(b, s), 1, m) && Cong(Power(b, q), 1, m) && u * s == 1 + j * q
    ensures Cong(b, 1, m)
  {
    hide Cong, Power;
    PowerPower(b, s, u);
    PowerOfOne(Power(b, s), u, m);
    PowerPower(b, q, j);
    PowerOfOne(Power(b, q), j, m);
    PowerAdd(b, 1, q * j);
    assert s * u == 1 + q * j;
    FirstPower(b);
    CongIntro(b, b, m, 0);
    CongMul(b, b, Power(b, q * j), 1, m);
    CongSym(b * Power(b, q * j), b, m);
    CongTrans(b, Power(b, 1 + q * j), 1, m);
  }

  lemma FirstPower(b: int)
    ensures Power(b, 1) == b
  {
    assert Power(b, 1) == b * Power(b, 0);
  }

  lemma NotZero(b: int, q: nat, r: nat)
    requires q > 0 && r > 1 && Cong(Power(b, q), 1, r)
    ensures b % r != 0
  {
    if b % r == 0 {
      var c := b / r;
      assert b == r * c;
      var l := CongWitness(Power(b, q), 1, r);
      var p := Power(b, q - 1);
      assert b * p == r * (c * p);
      assert r * (c * p) - l * r == (c * p - l) * r;
      assert (c * p - l) * r == 1;
      NoUnit(c * p - l, r);
    }
  }

  lemma NoUnit(x: int, r: int)
    requires r > 1
    ensures x * r != 1
  {
    if x >= 1 {
      MulMono(1, x, r);
    } else {
      MulMono(x, 0, r);
    }
  }

  /** A positive multiple of s that is 1 modulo the prime q. */
  lemma Coefficients(q: nat, s: nat) returns (u: nat, j: nat)
    requires Prime(q) && s % q != 0
    ensures u * s == 1 + j * q
  {
    PrimeAboveOne(q);
    var t := InverseModulo(q, s);
    u := t % q;
    CongMod(t, q);
    CongIntro(s, s, q, 0);
    CongMul(u, t, s, s, q);
    CongTrans(u * s, t * s, 1, q);
    var k := CongWitness(u * s, 1, q);
    assert u * s >= 0;
    if k < 0 {
      MulMono(k, -1, q);
    }
    j := k;
  }

  lemma UnitIsNotZero(r: nat, b: int, v: int, t: int)
    requires r > 1 && Cong(b, v, r) && Cong(t * (v - 1), 1, r)
    ensures !Cong(b, 1, r)
  {
    hide Cong;
    if Cong(b, 1, r) {
      CongSym(b, v, r);
      CongTrans(v, b, 1, r);
      var k := CongWitness(v, 1, r);
      var l := CongWitness(t * (v - 1), 1, r);
      NoUnit(t * k - l, r);
      UnitAlgebra(t, v, k, l, r);
    }
  }

  lemma UnitAlgebra(t: int, v: int, k: int, l: int, r: int)
    requires v == 1 + k * r && t * (v - 1) == 1 + l * r
    ensures (t * k - l) * r == 1
  {
    assert t * (k * r) == (t * k) * r;
    assert (t * k) * r - l * r == (t * k - l) * r;
  }

  /** Two such conditions make one. */
  lemma BothFactors(m: int, f: nat, q: nat)
    requires f > 0 && Prime(q) && f % q != 0 && FactorsAre(m, f) && FactorsAre(m, q)
    ensures f * q > 0 && FactorsAre(m, f * q)
  {
    hide Prime, Divided;
    PrimeAboveOne(q);
    MulMono(1, f, q);
    forall r: nat | Prime(r) && Divided(m, r)
      ensures (r - 1) % (f * q) == 0
    {
      var x := (r - 1) / f;
      assert r - 1 == f * x;
      PrimeProduct(q, f, x);
      var y := x / q;
      assert x == q * y;
      assert f * (q * y) == y * (f * q);
      ModMultiple(y, f * q);
    }
  }

  /** Pocklington's criterion. */
  lemma Pocklington(m: nat, f: nat)
    requires m > 1 && f > 0 && FactorsAre(m, f) && m < (f + 1) * (f + 1)
    ensures Prime(m)
  {
    hide FactorsAre;
    var r := PrimeFactor(m);
    if !Prime(m) {
      FactorAbove(m, f, r);
      MulMono(f + 1, r, f + 1);
      MulMono(f + 1, r, r);
    }
  }

  lemma FactorAbove(m: int, f: nat, r: nat)
    requires f > 0 && FactorsAre(m, f) && Prime(r) && m % r == 0
    ensures r >= f + 1
  {
    assert Divided(m, r);
    var x := (r - 1) / f;
    assert r - 1 == f * x;
    if x <= 0 {
      MulMono(x, 0, f);
    } else {
      MulMono(1, x, f);
    }
  }

  /** With the prime divisors, all divisors are 1 modulo f. */
  lemma {:induction false} DivisorIs(m: nat, f: nat, d: nat)
    requires m > 0 && f > 0 && FactorsAre(m, f) && Divided(m, d)
    ensures (d - 1) % f == 0
    decreases d
  {
    hide Prime, FactorsAre, Divided;
    if d == 1 {
      ModMultiple(0, f);
    } else {
      var r, e := SplitDivisor(m, d);
      DivisorIs(m, f, e);
      FactorIs(m, f, r);
      ProductIsOne(f, r, e);
    }
  }

  lemma SplitDivisor(m: nat, d: nat) returns (r: nat, e: nat)
    requires m > 0 && d != 1 && Divided(m, d)
    ensures Prime(r) && Divided(m, r) && Divided(m, e) && d == r * e && e < d
  {
    hide Prime;
    r := PrimeFactor(d);
    PrimeAboveOne(r);
    var c := m / d;
    e := d / r;
    assert d == r * e && m == d * c;
    if e <= 0 {
      MulMono(e, 0, r);
    }
    MulMono(2, r, e);
    assert m == (r * c) * e && m == (e * c) * r;
    ModMultiple(r * c, e);
    ModMultiple(e * c, r);
  }

  lemma ProductIsOne(f: nat, r: nat, e: nat)
    requires f > 0 && (r - 1) % f == 0 && (e - 1) % f == 0
    ensures (r * e - 1) % f == 0
  {
    var x, y := (r - 1) / f, (e - 1) / f;
    assert r == 1 + f * x && e == 1 + f * y;
    ProductIs(f, x, y);
    ModMultiple(x + y + f * x * y, f);
  }

  lemma FactorIs(m: int, f: nat, r: nat)
    requires f > 0 && FactorsAre(m, f) && Prime(r) && Divided(m, r)
    ensures (r - 1) % f == 0
  {
  }

  lemma ProductIs(f: int, x: int, y: int)
    ensures (1 + f * x) * (1 + f * y) - 1 == (x + y + f * x * y) * f
  {
  }

  /**
   * The criterion of Brillhart, Lehmer and Selfridge: f above the cube root of m is enough if, with (m - 1) / f written
   * as b f + a, the number a^2 - 4 b is no square.
   */
  lemma CubeRootCriterion(m: nat, f: nat, a: nat, b: nat, s: nat)
    requires m > 1 && f > 1 && FactorsAre(m, f) && m < f * f * f
    requires m == 1 + (b * f + a) * f && a < f
    requires a * a < 4 * b || s * s < a * a - 4 * b < (s + 1) * (s + 1)
    ensures Prime(m)
  {
    hide Prime, FactorsAre;
    if !Prime(m) {
      var x, y := TwoDivisors(m, f);
      Digits(m, f, a, b, x, y);
      SquareOfDifference(x, y);
      NoSquare(x - y, s, a * a - 4 * b);
    }
  }

  lemma TwoDivisors(m: nat, f: nat) returns (x: int, y: int)
    requires m > 1 && f > 0 && FactorsAre(m, f) && !Prime(m)
    ensures x > 0 && y > 0 && m == (1 + f * x) * (1 + f * y)
  {
    hide Prime, FactorsAre;
    var c, d := ProperDivisors(m);
    ModMultiple(c, d);
    ModMultiple(d, c);
    assert m == d * c;
    DivisorIs(m, f, c);
    DivisorIs(m, f, d);
    x, y := (c - 1) / f, (d - 1) / f;
    assert c == 1 + f * x && d == 1 + f * y;
    Positive(f, x);
    Positive(f, y);
  }

  lemma Positive(f: nat, x: int)
    requires f > 0 && f * x > 0
    ensures x > 0
  {
    if x <= 0 {
      MulMono(x, 0, f);
    }
  }

  lemma SquareOfDifference(x: int, y: int)
    ensures (x - y) * (x - y) == (x + y) * (x + y) - 4 * (x * y)
  {
  }

  lemma NoSquare(z: int, s: nat, w: int)
    requires w < 0 || s * s < w < (s + 1) * (s + 1)
    ensures z * z != w
  {
    var z' := if z >= 0 then z else -z;
    assert z * z == z' * z';
    if z' <= s {
      MulMono(z', s, z');
      MulMono(z', s, s);
    } else {
      MulMono(s + 1, z', s + 1);
      MulMono(s + 1, z', z');
    }
  }

  /** A product of two numbers that are 1 modulo f, below f^3, shows their sum and product. */
  lemma Digits(m: int, f: int, a: int, b: int, x: int, y: int)
    requires f > 1 && m < f * f * f && m == 1 + (b * f + a) * f && 0 <= a < f
    requires x > 0 && y > 0 && m == (1 + f * x) * (1 + f * y)
    ensures a == x + y && b == x * y
  {
    ProductIs(f, x, y);
    var r := x + y + f * x * y;
    assert (b * f + a) * f == r * f;
    CancelFactor(b * f + a, r, f);
    BelowSquare(f, x, y, r, m);
    SumBelow(f, x, y);
    assert r == (x * y) * f + (x + y);
    DivModUnique(r, f, x * y, x + y);
    DivModUnique(r, f, b, a);
  }

  lemma CancelFactor(x: int, y: int, f: int)
    requires f > 0 && x * f == y * f
    ensures x == y
  {
    if x < y {
      MulMono(x + 1, y, f);
    } else if y < x {
      MulMono(y + 1, x, f);
    }
  }

  lemma BelowSquare(f: int, x: int, y: int, r: int, m: int)
    requires f > 1 && m < f * f * f && m == 1 + r * f && r == x + y + f * x * y && x > 0 && y > 0
    ensures x + y + (x * y) * f < f * f
  {
    if r >= f * f {
      MulMono(f * f, r, f);
    }
    assert f * x * y == (x * y) * f;
  }

  lemma SumBelow(f: int, x: int, y: int)
    requires f > 1 && x > 0 && y > 0 && x + y + (x * y) * f < f * f
    ensures x + y < f
  {
    var p := x * y;
    if p >= f {
      MulMono(f, p, f);
    }
    // x + y <= x y + 1 <= f
    MulMono(1, x, y - 1);
    assert x * (y - 1) == p - x;
    if x + y >= f {
      MulMono(f - 1, p, f);
    }
  }
}
