/** Prime moduli: inverses, products, and Fermat's theorem. */
module Primes {
  import opened Integers
  import I = ModularInverse

  ghost predicate Prime(m: int) {
    m > 1 && forall c: int :: c > 0 && I.Divides(c, m) ==> c == 1 || c == m
  }

  // ---------- inverses ----------

  /** r is the inverse of x modulo m, or 0 for 0. */
  predicate Reciprocal(r: int, x: int, m: int)
    requires m > 0
  {
    0 <= r < m && if x == 0 then r == 0 else (r * x) % m == 1
  }

  lemma PrimeDivisor(m: int, c: int, k: int)
    requires Prime(m) && c > 0 && m == c * k
    ensures c == 1 || c == m
  {
    I.DividesIntro(c, m, k);
  }

  /** Every remainder but 0 has an inverse: descent on the remainder. */
  lemma {:induction false} InverseBelow(m: int, r: nat) returns (t: int)
    requires Prime(m) && 0 < r < m
    ensures Cong(t * r, 1, m)
    decreases r
  {
    if r == 1 {
      t := 1;
      CongIntro(1 * r, 1, m, 0);
    } else {
      var q, s := m / r, m % r;
      assert m == r * q + s;
      if s == 0 {
        PrimeDivisor(m, r, q);
      }
      var t' := InverseBelow(m, s);
      var k := CongWitness(t' * s, 1, m);
      t := -(t' * q);
      InverseStep(m, r, q, s, t', k);
      CongIntro(t * r, 1, m, k - t');
    }
  }

  lemma InverseStep(m: int, r: int, q: int, s: int, t: int, k: int)
    requires m == r * q + s && t * s == 1 + k * m
    ensures -(t * q) * r == 1 + (k - t) * m
  {
    assert t * (r * q + s) == t * m;
    assert t * (r * q + s) == (t * q) * r + t * s;
  }

  lemma InverseModulo(m: int, x: int) returns (t: int)
    requires Prime(m) && x % m != 0
    ensures Cong(t * x, 1, m)
  {
    t := InverseBelow(m, x % m);
    CongMod(x, m);
    CongIntro(t, t, m, 0);
    CongMul(t, t, x % m, x, m);
    CongSym(t * (x % m), t * x, m);
    CongTrans(t * x, t * (x % m), 1, m);
  }

  /** A product is a multiple of a prime only with one of its factors. */
  lemma PrimeProduct(m: int, x: int, y: int)
    requires Prime(m) && (x * y) % m == 0
    ensures x % m == 0 || y % m == 0
  {
    if x % m != 0 {
      var t := InverseModulo(m, x);
      var k := CongWitness(t * x, 1, m);
      var l := (x * y) / m;
      assert x * y == m * l;
      Cancelled(m, x, y, t, k, l);
      ModMultiple(t * l - k * y, m);
    }
  }

  lemma Cancelled(m: int, x: int, y: int, t: int, k: int, l: int)
    requires t * x == 1 + k * m && x * y == m * l
    ensures y == (t * l - k * y) * m
  {
    assert t * (x * y) == (t * x) * y;
    assert t * (m * l) == (t * l) * m;
    assert (1 + k * m) * y == y + (k * y) * m;
  }

  // ---------- powers ----------

  function Power(x: int, n: nat): int {
    if n == 0 then 1 else x * Power(x, n - 1)
  }

  lemma {:induction false} PowerAdd(x: int, m: nat, n: nat)
    ensures Power(x, m + n) == Power(x, m) * Power(x, n)
  {
    if m != 0 {
      PowerAdd(x, m - 1, n);
      assert x * (Power(x, m - 1) * Power(x, n)) == (x * Power(x, m - 1)) * Power(x, n);
    }
  }

  lemma {:induction false} PowerPower(x: int, m: nat, n: nat)
    ensures Power(x, m * n) == Power(Power(x, m), n)
    decreases n
  {
    if n != 0 {
      PowerPower(x, m, n - 1);
      assert m * n == m + m * (n - 1);
      PowerAdd(x, m, m * (n - 1));
    } else {
      assert m * n == 0;
    }
  }

  lemma {:induction false} PowerCong(x: int, y: int, n: nat, m: int)
    requires m > 0 && Cong(x, y, m)
    ensures Cong(Power(x, n), Power(y, n), m)
  {
    if n == 0 {
      CongIntro(1, 1, m, 0);
    } else {
      PowerCong(x, y, n - 1, m);
      CongMul(x, y, Power(x, n - 1), Power(y, n - 1), m);
    }
  }

  lemma {:induction false} PowerOne(n: nat)
    ensures Power(1, n) == 1
  {
    if n != 0 {
      PowerOne(n - 1);
    }
  }

  /** A power of something that is 1. */
  lemma PowerOfOne(x: int, n: nat, m: int)
    requires m > 0 && Cong(x, 1, m)
    ensures Cong(Power(x, n), 1, m)
  {
    PowerCong(x, 1, n, m);
    PowerOne(n);
  }

  // ---------- Fermat's theorem ----------

  function Factorial(n: nat): int {
    if n == 0 then 1 else n * Factorial(n - 1)
  }

  /** y is one of the remainders of x, 2 x, ..., k x. */
  ghost predicate Hit(x: int, m: int, k: nat, y: int)
    requires m > 0
  {
    exists i: int :: 0 < i <= k && Times(x, i, m) == y
  }

  function Times(x: int, i: int, m: int): int
    requires m > 0
  {
    (x * i) % m
  }

  /** The product of all numbers up to n that are such remainders. */
  ghost function HitProduct(x: int, m: int, k: nat, n: nat): int
    requires m > 0
  {
    if n == 0 then 1 else (if Hit(x, m, k, n) then n else 1) * HitProduct(x, m, k, n - 1)
  }

  lemma TimesInjective(m: int, x: int, i: int, j: int)
    requires Prime(m) && x % m != 0 && 0 < i < m && 0 < j < m && Times(x, i, m) == Times(x, j, m)
    ensures i == j
  {
    hide Prime;
    DifferenceOfTimes(m, x, i, j);
    PrimeProduct(m, x, i - j);
    if i != j {
      Within(m, i - j);
    }
  }

  lemma DifferenceOfTimes(m: int, x: int, i: int, j: int)
    requires m > 0 && (x * i) % m == (x * j) % m
    ensures (x * (i - j)) % m == 0
  {
    var a, b := (x * i) / m, (x * j) / m;
    assert x * i == m * a + (x * i) % m && x * j == m * b + (x * j) % m;
    assert x * (i - j) == x * i - x * j;
    assert x * (i - j) == (a - b) * m;
    ModMultiple(a - b, m);
  }

  lemma Within(m: int, d: int)
    requires -m < d < m && d != 0
    ensures d % m != 0
  {
    if d > 0 {
      DivModUnique(d, m, 0, d);
    } else {
      DivModUnique(d, m, -1, d + m);
    }
  }

  lemma TimesPositive(m: int, x: int, i: int)
    requires Prime(m) && x % m != 0 && 0 < i < m
    ensures 0 < Times(x, i, m) < m
  {
    Within(m, i);
    if Times(x, i, m) == 0 {
      PrimeProduct(m, x, i);
    }
  }

  /** One more multiple adds its remainder to those that are hit, and no other. */
  lemma HitNext(x: int, m: int, k: nat, y: int)
    requires Prime(m) && x % m != 0 && k + 1 < m
    ensures Hit(x, m, k + 1, y) <==> Hit(x, m, k, y) || y == Times(x, k + 1, m)
    ensures !Hit(x, m, k, Times(x, k + 1, m))
  {
    hide Prime, Times;
    if Hit(x, m, k + 1, y) {
      var i: int :| 0 < i <= k + 1 && Times(x, i, m) == y;
    }
    if y == Times(x, k + 1, m) {
      assert Times(x, k + 1, m) == y;
    }
    if Hit(x, m, k, Times(x, k + 1, m)) {
      var i: int :| 0 < i <= k && Times(x, i, m) == Times(x, k + 1, m);
      TimesInjective(m, x, i, k + 1);
    }
  }

  lemma {:induction false} HitProductNext(x: int, m: int, k: nat, n: nat)
    requires Prime(m) && x % m != 0 && k + 1 < m
    ensures var y := Times(x, k + 1, m);
      HitProduct(x, m, k + 1, n) == (if 0 < y <= n then y else 1) * HitProduct(x, m, k, n)
  {
    hide Prime, Times, Hit;
    if n != 0 {
      HitNext(x, m, k, n);
      HitProductNext(x, m, k, n - 1);
      Reorder(n, Times(x, k + 1, m), HitProduct(x, m, k, n - 1));
    }
  }

  lemma Reorder(n: int, y: int, p: int)
    ensures n * (y * p) == y * (n * p)
  {
  }

  /** The product of the remainders of x, ..., k x is that of x, ..., k x. */
  lemma {:induction false} HitProductIs(x: int, m: int, k: nat)
    requires Prime(m) && x % m != 0 && k < m
    ensures Cong(HitProduct(x, m, k, m - 1), Power(x, k) * Factorial(k), m)
    decreases k
  {
    hide Prime, Cong, Hit;
    if k == 0 {
      NoneHit(x, m, m - 1);
      CongIntro(1, 1, m, 0);
    } else {
      HitProductIs(x, m, k - 1);
      HitProductNext(x, m, k - 1, m - 1);
      TimesPositive(m, x, k);
      CongMod(x * k, m);
      var p, q := HitProduct(x, m, k - 1, m - 1), Power(x, k - 1) * Factorial(k - 1);
      CongMul(Times(x, k, m), x * k, p, q, m);
      PowerStep(x, k, Power(x, k - 1), Factorial(k - 1));
    }
  }

  lemma PowerStep(x: int, i: int, q: int, p: int)
    ensures (x * i) * (q * p) == (x * q) * (i * p)
  {
  }

  lemma {:induction false} NoneHit(x: int, m: int, n: nat)
    requires m > 0
    ensures HitProduct(x, m, 0, n) == 1
  {
    if n != 0 {
      NoneHit(x, m, n - 1);
    }
  }

  /** All are hit. */
  lemma AllHit(x: int, m: int, y: int)
    requires Prime(m) && x % m != 0 && 0 < y < m
    ensures Hit(x, m, m - 1, y)
  {
    hide Prime;
    var t := InverseModulo(m, x);
    var k := CongWitness(t * x, 1, m);
    var i, j := HitIndex(x, m, y, t, k);
    DivModUnique(x * i, m, j, y);
    NotAtZero(x, m, i, y);
    assert Times(x, i, m) == y;
  }

  lemma HitIndex(x: int, m: int, y: int, t: int, k: int) returns (i: int, j: int)
    requires m > 0 && t * x == 1 + k * m
    ensures 0 <= i < m && x * i == y + m * j
  {
    i := (t * y) % m;
    var l := (t * y) / m;
    assert t * y == m * l + i;
    HitBy(x, m, y, t, i, l, k);
    j := k * y - x * l;
  }

  lemma NotAtZero(x: int, m: int, i: int, y: int)
    requires m > 0 && y > 0 && (x * i) % m == y
    ensures i != 0
  {
  }

  lemma HitBy(x: int, m: int, y: int, t: int, i: int, j: int, k: int)
    requires t * x == 1 + k * m && t * y == m * j + i
    ensures x * i == y + m * (k * y - x * j)
  {
    assert x * (t * y) == (t * x) * y;
    assert x * (m * j + i) == m * (x * j) + x * i;
    assert (1 + k * m) * y == y + m * (k * y);
  }

  lemma {:induction false} AllHitProduct(x: int, m: int, n: nat)
    requires Prime(m) && x % m != 0 && n < m
    ensures HitProduct(x, m, m - 1, n) == Factorial(n) && Factorial(n) % m != 0
    decreases n
  {
    hide Prime, Hit;
    if n == 0 {
      Within(m, 1);
    } else {
      AllHitProduct(x, m, n - 1);
      AllHit(x, m, n);
      Within(m, n);
      if (n * Factorial(n - 1)) % m == 0 {
        PrimeProduct(m, n, Factorial(n - 1));
      }
    }
  }

  /** The power m - 1 of every number that is not a multiple of the prime m is 1 modulo m. */
  lemma Fermat(m: int, x: int)
    requires Prime(m) && x % m != 0
    ensures Cong(Power(x, m - 1), 1, m)
  {
    hide Cong;
    HitProductIs(x, m, m - 1);
    AllHitProduct(x, m, m - 1);
    FermatCancel(m, Power(x, m - 1), Factorial(m - 1));
  }

  lemma FermatCancel(m: int, w: int, p: int)
    requires Prime(m) && p % m != 0 && Cong(p, w * p, m)
    ensures Cong(w, 1, m)
  {
    var k := CongWitness(p, w * p, m);
    assert (w - 1) * p == (-k) * m;
    ModMultiple(-k, m);
    PrimeProduct(m, w - 1, p);
  }
}
