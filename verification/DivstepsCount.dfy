/**
 * How many divsteps are enough. With the counter that starts at delta == 1 (c == 1) it is 724, and with the one that
 * starts at delta == 1/2 (c == 2) it is 590, for every odd modulus of up to 256 bits. From one moment at which the
 * counter stands where it started to the next, the pair (f, g) goes through one of a family of linear maps. For each
 * counter there is a polygon which all these maps send into smaller copies of itself, smaller by a fixed rate for
 * every divstep. Once the copy is small enough, it holds no pair of an odd f and a g other than zero.
 */
module DivstepsCount {
  import opened Divsteps
  import opened Integers

  // ---------- the polygons ----------

  /** The polygon for c == 1, scaled by r: one of each two opposite sides. */
  predicate Half1(f: real, g: real, r: real) {
    && 37.0 * f - 1186.0 * g <= 2784557.0 * r
    && 49.0 * f - 381.0 * g <= 842017.0 * r
    && 23.0 * f - 114.0 * g <= 243320.0 * r
    && 1453.0 * f - 4180.0 * g <= 8360840.0 * r
    && 233.0 * f - 579.0 * g <= 1261573.0 * r
    && 71.0 * f - 155.0 * g <= 370839.0 * r
    && 3.0 * f - 4.0 * g <= 14234.0 * r
    && 541.0 * f - 56.0 * g <= 2208250.0 * r
    && f <= 4082.0 * r
    && 155.0 * f + 88.0 * g <= 812230.0 * r
    && 97.0 * f + 81.0 * g <= 569232.0 * r
    && f + 2.0 * g <= 8719.0 * r
  }

  /** The polygon for c == 2. */
  predicate Half2(f: real, g: real, r: real) {
    && f - 20.0 * g <= 16981.0 * r
    && 5.0 * f - 72.0 * g <= 60349.0 * r
    && 29.0 * f - 118.0 * g <= 90271.0 * r
    && 19.0 * f - 62.0 * g <= 46757.0 * r
    && 125.0 * f - 391.0 * g <= 294265.0 * r
    && 9.0 * f - 25.0 * g <= 19091.0 * r
    && 104.0 * f - 239.0 * g <= 189227.0 * r
    && 18.0 * f - 35.0 * g <= 29409.0 * r
    && 17.0 * f - 24.0 * g <= 23510.0 * r
    && 39.0 * f - 53.0 * g <= 53000.0 * r
    && 89.0 * f - 84.0 * g <= 108497.0 * r
    && 21.0 * f - 17.0 * g <= 24901.0 * r
    && 95.0 * f - 63.0 * g <= 109491.0 * r
    && 23.0 * f - 9.0 * g <= 25683.0 * r
    && 289.0 * f - 104.0 * g <= 321931.0 * r
    && 101.0 * f + 15.0 * g <= 122932.0 * r
    && 242.0 * f + 103.0 * g <= 314936.0 * r
    && 23.0 * f + 18.0 * g <= 34415.0 * r
    && 7.0 * f + 8.0 * g <= 12083.0 * r
    && 31.0 * f + 38.0 * g <= 55205.0 * r
    && 30.0 * f + 47.0 * g <= 61431.0 * r
    && 25.0 * f + 63.0 * g <= 70569.0 * r
    && 15.0 * f + 67.0 * g <= 67541.0 * r
    && g <= 878.0 * r
  }

  predicate Half(c: int, f: real, g: real, r: real) {
    if c == 1 then Half1(f, g, r) else Half2(f, g, r)
  }

  predicate Inside(c: int, f: real, g: real, r: real) {
    Half(c, f, g, r) && Half(c, -f, -g, r)
  }

  function Width(c: int): real {
    if c == 1 then 2500.0 else 800.0
  }

  /** Where the numbers start: g between 0 and f, and f at most the bound on the modulus. */
  predicate Fan(c: int, f: real, g: real, r: real) {
    0.0 <= g <= f <= Width(c) * r
  }

  predicate Ready(c: int, f: real, g: real, r: real) {
    Inside(c, f, g, r) || Fan(c, f, g, r) || Fan(c, -f, -g, r)
  }

  /** The rate for one divstep. */
  function Rate(c: int): real {
    if c == 1 then 0.782665 else 0.74025
  }

  /** What f is divided by on its way through a swap. */
  function Share(c: int): real {
    if c == 1 then 0.25 else 0.5
  }

  /** By how much the image is smaller, the powers of two that the swap divides by left out. */
  function Gain(c: int, e: nat): real {
    if c == 1 then
      if e == 0 then 0.61256 else if e == 1 then 0.75047 else if e == 2 then 0.91942 else 1.12641
    else
      if e == 0 then 0.74025 else if e == 1 then 0.81126 else if e == 2 then 0.8891 else if e == 3 then 0.9744 else 1.06788
  }

  // ---------- one turn ----------

  // The image after e divsteps on even g and a swap is (g, k g - f / 4) or (g, k g - f / 2), divided by 2^e. Which k it is
  // depends on the divsteps that follow; here are the least and the largest, for e == 0, 1, ... and for all e from 3 or 4 on.

  lemma Low1After0(f: real, g: real, r: real)
    requires Ready(1, f, g, r)
    ensures Half(1, g, 0.25 * g - 0.25 * f, 0.61256 * r)
  {
  }

  lemma High1After0(f: real, g: real, r: real)
    requires Ready(1, f, g, r)
    ensures Half(1, g, 0.75 * g - 0.25 * f, 0.61256 * r)
  {
  }

  lemma Low1After1(f: real, g: real, r: real)
    requires Ready(1, f, g, r)
    ensures Half(1, g, 0.125 * g - 0.25 * f, 0.75047 * r)
  {
  }

  lemma High1After1(f: real, g: real, r: real)
    requires Ready(1, f, g, r)
    ensures Half(1, g, 0.875 * g - 0.25 * f, 0.75047 * r)
  {
  }

  lemma Low1After2(f: real, g: real, r: real)
    requires Ready(1, f, g, r)
    ensures Half(1, g, 0.0625 * g - 0.25 * f, 0.91942 * r)
  {
  }

  lemma High1After2(f: real, g: real, r: real)
    requires Ready(1, f, g, r)
    ensures Half(1, g, 0.9375 * g - 0.25 * f, 0.91942 * r)
  {
  }

  lemma Low1After3(f: real, g: real, r: real)
    requires Ready(1, f, g, r)
    ensures Half(1, g, -(0.25 * f), 1.12641 * r)
  {
  }

  lemma High1After3(f: real, g: real, r: real)
    requires Ready(1, f, g, r)
    ensures Half(1, g, g - 0.25 * f, 1.12641 * r)
  {
  }

  lemma Low2After0(f: real, g: real, r: real)
    requires Ready(2, f, g, r)
    ensures Half(2, g, 0.5 * g - 0.5 * f, 0.74025 * r)
  {
  }

  lemma Low2After1(f: real, g: real, r: real)
    requires Ready(2, f, g, r)
    ensures Half(2, g, 0.25 * g - 0.5 * f, 0.81126 * r)
  {
  }

  lemma High2After1(f: real, g: real, r: real)
    requires Ready(2, f, g, r)
    ensures Half(2, g, 0.75 * g - 0.5 * f, 0.81126 * r)
  {
  }

  lemma Low2After2(f: real, g: real, r: real)
    requires Ready(2, f, g, r)
    ensures Half(2, g, 0.125 * g - 0.5 * f, 0.8891 * r)
  {
  }

  lemma High2After2(f: real, g: real, r: real)
    requires Ready(2, f, g, r)
    ensures Half(2, g, 0.875 * g - 0.5 * f, 0.8891 * r)
  {
  }

  lemma Low2After3(f: real, g: real, r: real)
    requires Ready(2, f, g, r)
    ensures Half(2, g, 0.0625 * g - 0.5 * f, 0.9744 * r)
  {
  }

  lemma High2After3(f: real, g: real, r: real)
    requires Ready(2, f, g, r)
    ensures Half(2, g, 0.9375 * g - 0.5 * f, 0.9744 * r)
  {
  }

  lemma Low2After4(f: real, g: real, r: real)
    requires Ready(2, f, g, r)
    ensures Half(2, g, -(0.5 * f), 1.06788 * r)
  {
  }

  lemma High2After4(f: real, g: real, r: real)
    requires Ready(2, f, g, r)
    ensures Half(2, g, g - 0.5 * f, 1.06788 * r)
  {
  }

  lemma Grown(c: int, f: real, g: real, r: real, s: real)
    requires Half(c, f, g, r) && r <= s
    ensures Half(c, f, g, s)
  {
    if c == 1 {
    } else {
    }
  }

  predicate InOrder(x: real, m: real, y: real) {
    x <= m <= y || y <= m <= x
  }

  lemma Convex(c: int, f: real, x: real, y: real, m: real, r: real)
    requires Half(c, f, x, r) && Half(c, f, y, r) && InOrder(x, m, y)
    ensures Half(c, f, m, r)
  {
    if c == 1 {
    } else {
    }
  }

  lemma Between(c: int, f: real, x: real, y: real, m: real, r: real)
    requires Inside(c, f, x, r) && Inside(c, f, y, r) && InOrder(x, m, y)
    ensures Inside(c, f, m, r)
  {
    hide Half;
    Convex(c, f, x, y, m, r);
    Convex(c, -f, -x, -y, -m, r);
  }

  function Pow(b: real, n: nat): real {
    if n == 0 then 1.0 else b * Pow(b, n - 1)
  }

  lemma PowNext(b: real, n: nat)
    ensures Pow(b, 0) == 1.0 && Pow(b, n + 1) == b * Pow(b, n)
  {
  }

  lemma {:induction false} PowAdd(b: real, m: nat, n: nat)
    ensures Pow(b, m + n) == Pow(b, m) * Pow(b, n)
  {
    if m != 0 {
      PowAdd(b, m - 1, n);
      assert Pow(b, m + n) == b * Pow(b, m - 1 + n);
      Regroup(b, Pow(b, m - 1), Pow(b, n));
    }
  }

  lemma Regroup(a: real, b: real, c: real)
    ensures a * (b * c) == (a * b) * c
  {
  }

  lemma {:induction false} PowPositive(b: real, n: nat)
    requires b > 0.0
    ensures Pow(b, n) > 0.0
  {
    if n != 0 {
      PowPositive(b, n - 1);
      Positive(b, Pow(b, n - 1));
    }
  }

  lemma Positive(a: real, b: real)
    requires a > 0.0 && b > 0.0
    ensures a * b > 0.0
  {
  }

  lemma Monotone(a: real, b: real, k: real)
    requires a <= b && k >= 0.0
    ensures a * k <= b * k && k * a <= k * b
  {
  }

  lemma {:induction false} Reciprocal(n: nat)
    ensures Pow(0.5, n) * Pow(2.0, n) == 1.0 && 0.0 < Pow(0.5, n) <= 1.0
  {
    if n != 0 {
      Reciprocal(n - 1);
      assert Pow(0.5, n) * Pow(2.0, n) == (0.5 * 2.0) * (Pow(0.5, n - 1) * Pow(2.0, n - 1));
    }
  }

  /** The part of g that takes the place of a share of f, at least. */
  function Part(c: int, e: nat): real
    requires c == 1 || c == 2
  {
    Pow(0.5, e + 3 - c)
  }

  lemma SmallParts()
    ensures Part(1, 0) == 0.25 && Part(1, 1) == 0.125 && Part(1, 2) == 0.0625
    ensures Part(2, 0) == 0.5 && Part(2, 1) == 0.25 && Part(2, 2) == 0.125 && Part(2, 3) == 0.0625
  {
    assert Pow(0.5, 1) == 0.5 * Pow(0.5, 0);
    assert Pow(0.5, 2) == 0.5 * Pow(0.5, 1);
    assert Pow(0.5, 3) == 0.5 * Pow(0.5, 2);
    assert Pow(0.5, 4) == 0.5 * Pow(0.5, 3);
  }

  /** The image after e divsteps on even g and a swap, as far as one of each two opposite sides goes. */
  lemma HalfTurn(c: int, e: nat, f: real, g: real, r: real, k: real, x: real, y: real)
    requires (c == 1 || c == 2) && Ready(c, f, g, r) && k == Part(c, e)
    requires x == k * g - Share(c) * f && y == (1.0 - k) * g - Share(c) * f
    ensures Half(c, g, x, Gain(c, e) * r) && Half(c, g, y, Gain(c, e) * r)
  {
    hide Half, Ready, Pow;
    SmallParts();
    if c == 1 {
      if e == 0 {
        Low1After0(f, g, r);
        High1After0(f, g, r);
      } else if e == 1 {
        Low1After1(f, g, r);
        High1After1(f, g, r);
      } else if e == 2 {
        Low1After2(f, g, r);
        High1After2(f, g, r);
      } else {
        Low1After3(f, g, r);
        High1After3(f, g, r);
        Reciprocal(e + 3 - c);
        FarTurn(c, 0.25 * f, g, Gain(c, e) * r, k);
      }
    } else {
      if e == 0 {
        Low2After0(f, g, r);
      } else if e == 1 {
        Low2After1(f, g, r);
        High2After1(f, g, r);
      } else if e == 2 {
        Low2After2(f, g, r);
        High2After2(f, g, r);
      } else if e == 3 {
        Low2After3(f, g, r);
        High2After3(f, g, r);
      } else {
        Low2After4(f, g, r);
        High2After4(f, g, r);
        Reciprocal(e + 3 - c);
        FarTurn(c, 0.5 * f, g, Gain(c, e) * r, k);
      }
    }
  }

  lemma FarTurn(c: int, z: real, g: real, r: real, k: real)
    requires Half(c, g, -z, r) && Half(c, g, g - z, r) && 0.0 <= k <= 1.0
    ensures Half(c, g, k * g - z, r) && Half(c, g, (1.0 - k) * g - z, r)
  {
    hide Half;
    var a, b := k * g, (1.0 - k) * g;
    Fraction(k, g);
    Fraction(1.0 - k, g);
    Convex(c, g, -z, g - z, a - z, r);
    Convex(c, g, -z, g - z, b - z, r);
  }

  lemma Fraction(k: real, g: real)
    requires 0.0 <= k <= 1.0
    ensures 0.0 <= k * g <= g || g <= k * g <= 0.0
  {
  }

  lemma Turn(c: int, e: nat, f: real, g: real, r: real, k: real)
    requires (c == 1 || c == 2) && Ready(c, f, g, r) && k == Part(c, e)
    ensures Inside(c, g, k * g - Share(c) * f, Gain(c, e) * r) && Inside(c, g, (1.0 - k) * g - Share(c) * f, Gain(c, e) * r)
  {
    hide Half, Part, Gain, Fan, Share;
    var x, y := k * g - Share(c) * f, (1.0 - k) * g - Share(c) * f;
    Opposite(k, f, g, Share(c));
    Opposite(1.0 - k, f, g, Share(c));
    HalfTurn(c, e, f, g, r, k, x, y);
    HalfTurn(c, e, -f, -g, r, k, -x, -y);
  }

  lemma Opposite(k: real, f: real, g: real, s: real)
    ensures k * (-g) - s * (-f) == -(k * g - s * f)
  {
  }

  // ---------- the rate of a turn ----------

  /** What the rate allows to a turn of 2 e + 3 - c divsteps. */
  function Allowed(c: int, e: nat): real
    requires c == 1 || c == 2
  {
    Pow(2.0, e) * Pow(Rate(c), 2 * e + 3 - c)
  }

  lemma AllowedNext(c: int, e: nat)
    requires c == 1 || c == 2
    ensures Allowed(c, e + 1) == (2.0 * Rate(c) * Rate(c)) * Allowed(c, e)
  {
    var p, q, x := Pow(2.0, e), Pow(Rate(c), 2 * e + 3 - c), Rate(c);
    assert Pow(x, 2 * e + 4 - c) == x * q;
    assert Pow(x, 2 * e + 5 - c) == x * (x * q);
    assert (2.0 * p) * (x * (x * q)) == (2.0 * x * x) * (p * q);
  }

  lemma AllowedFirst(c: int)
    requires c == 1 || c == 2
    ensures Allowed(c, 0) == if c == 1 then 0.782665 * 0.782665 else 0.74025
  {
    assert Pow(Rate(c), 1) == Rate(c) * Pow(Rate(c), 0);
    assert Pow(Rate(c), 2) == Rate(c) * Pow(Rate(c), 1);
  }

  lemma {:induction false} GainAllowed(c: int, e: nat)
    requires c == 1 || c == 2
    ensures 0.0 < Gain(c, e) <= Allowed(c, e)
    ensures e <= 4 ==> Allowed(c, e) == (if c == 1 then 0.782665 * 0.782665 else 0.74025) * Pow(2.0 * Rate(c) * Rate(c), e)
  {
    hide Allowed;
    var s := 2.0 * Rate(c) * Rate(c);
    if e == 0 {
      AllowedFirst(c);
    } else {
      GainAllowed(c, e - 1);
      AllowedNext(c, e - 1);
      if e <= 4 {
        Powers(s);
      } else {
        Monotone(1.0, s, Allowed(c, e - 1));
      }
    }
  }

  lemma Powers(s: real)
    ensures Pow(s, 0) == 1.0 && Pow(s, 1) == s && Pow(s, 2) == s * s && Pow(s, 3) == s * s * s && Pow(s, 4) == s * s * s * s
  {
    assert Pow(s, 1) == s * Pow(s, 0);
    assert Pow(s, 2) == s * Pow(s, 1);
    assert Pow(s, 3) == s * Pow(s, 2);
    assert Pow(s, 4) == s * Pow(s, 3);
  }

  lemma {:induction false} Shrunk(c: int, e: nat, f: real, g: real, r: real, f': real, g': real, r': real)
    requires Inside(c, f, g, r) && f' == Pow(0.5, e) * f && g' == Pow(0.5, e) * g && r' == Pow(0.5, e) * r
    ensures Inside(c, f', g', r')
  {
    hide Half;
    if e != 0 {
      var h := Pow(0.5, e - 1);
      Shrunk(c, e - 1, f, g, r, h * f, h * g, h * r);
      Regroup(0.5, h, f);
      Regroup(0.5, h, g);
      Regroup(0.5, h, r);
      HalvedTo(c, h * f, h * g, h * r, f', g', r');
    }
  }

  lemma HalvedTo(c: int, f: real, g: real, r: real, f': real, g': real, r': real)
    requires Inside(c, f, g, r) && f' == 0.5 * f && g' == 0.5 * g && r' == 0.5 * r
    ensures Inside(c, f', g', r')
  {
    hide Half;
    Halved(c, f, g, r, f', g', r');
    Halved(c, -f, -g, r, -f', -g', r');
  }

  lemma Halved(c: int, f: real, g: real, r: real, f': real, g': real, r': real)
    requires Half(c, f, g, r) && f' == 0.5 * f && g' == 0.5 * g && r' == 0.5 * r
    ensures Half(c, f', g', r')
  {
    if c == 1 {
    } else {
    }
  }

  lemma ShrunkTo(c: int, e: nat, f: real, g: real, r: real, f': real, g': real, s: real)
    requires Inside(c, f, g, r) && f' == Pow(0.5, e) * f && g' == Pow(0.5, e) * g && Pow(0.5, e) * r <= s
    ensures Inside(c, f', g', s)
  {
    hide Half, Inside;
    var z := Pow(0.5, e) * r;
    Shrunk(c, e, f, g, r, f', g', z);
    Widened(c, f', g', z, s);
  }

  lemma Widened(c: int, f: real, g: real, r: real, s: real)
    requires Inside(c, f, g, r) && r <= s
    ensures Inside(c, f, g, s)
  {
    hide Half;
    Grown(c, f, g, r, s);
    Grown(c, -f, -g, r, s);
  }

  /** A turn is e divsteps on even g, a swap, and as many divsteps as bring the counter back: each shrinks the polygon by the rate. */
  lemma WholeTurn(c: int, e: nat, f: real, g: real, r: real, k: real, g': real, x: real, y: real, s: real)
    requires (c == 1 || c == 2) && Ready(c, f, g, r) && k == Part(c, e) && r >= 0.0
    requires s == Pow(Rate(c), 2 * e + 3 - c) * r && g' == Pow(0.5, e) * g
    requires x == Pow(0.5, e) * (k * g - Share(c) * f) && y == Pow(0.5, e) * ((1.0 - k) * g - Share(c) * f)
    ensures Inside(c, g', x, s) && Inside(c, g', y, s)
  {
    hide Half, Inside, Ready, Part, Gain, Share, Pow;
    var z := Gain(c, e) * r;
    Turn(c, e, f, g, r, k);
    Rates(c, e, r);
    ShrunkTo(c, e, g, k * g - Share(c) * f, z, g', x, s);
    ShrunkTo(c, e, g, (1.0 - k) * g - Share(c) * f, z, g', y, s);
  }

  lemma Rates(c: int, e: nat, r: real)
    requires (c == 1 || c == 2) && r >= 0.0
    ensures Pow(0.5, e) * (Gain(c, e) * r) <= Pow(Rate(c), 2 * e + 3 - c) * r
  {
    hide Gain, Pow;
    var h, p, q, x := Pow(0.5, e), Pow(2.0, e), Pow(Rate(c), 2 * e + 3 - c), Gain(c, e);
    GainAllowed(c, e);
    Reciprocal(e);
    Monotone(x, p * q, h);
    Regroup(h, p, q);
    Monotone(h * x, q, r);
    Regroup(h, x, r);
  }

  // ---------- runs ----------

  function Top(c: int): real {
    Pow(2.0, 256) / Width(c)
  }

  /** The scale of the polygon after n divsteps. */
  function Radius(c: int, n: nat): real {
    Pow(Rate(c), n) * Top(c)
  }

  function Times(a: real, b: real): real {
    a * b
  }

  /** The number that lies at h on the way from x to y. */
  function Mix(h: real, x: real, y: real): real {
    x + h * (y - x)
  }

  /** t divsteps on even g have gone by since the counter was at its start: before them, the pair was in the polygon or where it started. */
  ghost predicate Behind(c: int, n: nat, t: nat, f: real, g: real) {
    t <= n && BehindAt(c, n, t, f, Times(Pow(2.0, t), g))
  }

  ghost predicate BehindAt(c: int, n: nat, t: nat, f: real, g: real)
    requires t <= n
  {
    Inside(c, f, g, Radius(c, n - t)) || (t == n && Fan(c, f, g, Radius(c, 0)))
  }

  /** In k divsteps the counter is at its start again: then the pair is in the polygon, whatever multiples of f are added to g on the way. */
  ghost predicate Ahead(c: int, n: nat, k: nat, f: real, g: real) {
    && Inside(c, f, Mix(Pow(0.5, k), 0.0, g), Radius(c, n + k))
    && Inside(c, f, Mix(Pow(0.5, k), f, g), Radius(c, n + k))
  }

  /** What holds after n divsteps from the start. */
  ghost predicate Confined(c: int, n: nat, s: State) {
    if s.eta < 0 then Behind(c, n, -s.eta - 1, s.f as real, s.g as real) else Ahead(c, n, s.eta + 1, s.f as real, s.g as real)
  }

  lemma RadiusPositive(c: int, n: nat)
    ensures Top(c) > 0.0 && Radius(c, n) > 0.0
  {
    hide Pow;
    PowPositive(2.0, 256);
    PowPositive(Rate(c), n);
    Positive(Pow(Rate(c), n), Top(c));
  }

  lemma RadiusAdd(c: int, m: nat, n: nat)
    ensures Radius(c, m + n) == Pow(Rate(c), m) * Radius(c, n)
  {
    hide Pow;
    PowAdd(Rate(c), m, n);
    Regroup(Pow(Rate(c), m), Pow(Rate(c), n), Top(c));
  }

  lemma EvenBehind(c: int, n: nat, t: nat, f: real, g: real)
    requires Behind(c, n, t, f, 2.0 * g)
    ensures Behind(c, n + 1, t + 1, f, g)
  {
    hide Inside, Radius, Times, Fan;
    Doubled(t, g);
  }

  lemma Doubled(t: nat, g: real)
    ensures Times(Pow(2.0, t), 2.0 * g) == Times(Pow(2.0, t + 1), g)
  {
    assert Pow(2.0, t + 1) == 2.0 * Pow(2.0, t);
    Regroup(Pow(2.0, t), 2.0, g);
  }

  lemma EvenAhead(c: int, n: nat, k: nat, f: real, g: real)
    requires Ahead(c, n, k + 1, f, 2.0 * g)
    ensures Ahead(c, n + 1, k, f, g)
  {
    hide Inside, Radius, Mix, Pow;
    HalfSteps(k, f, g);
    Between(c, f, Mix(Pow(0.5, k), 0.0, g), Mix(Pow(0.5, k + 1), f, 2.0 * g), Mix(Pow(0.5, k), f, g), Radius(c, n + (k + 1)));
  }

  lemma OddAhead(c: int, n: nat, k: nat, f: real, g: real)
    requires Ahead(c, n, k + 1, f, 2.0 * g - f)
    ensures Ahead(c, n + 1, k, f, g)
  {
    hide Inside, Radius, Mix, Pow;
    HalfSteps(k, f, g);
    Between(c, f, Mix(Pow(0.5, k + 1), 0.0, 2.0 * g - f), Mix(Pow(0.5, k), f, g), Mix(Pow(0.5, k), 0.0, g), Radius(c, n + (k + 1)));
  }

  lemma HalfSteps(k: nat, f: real, g: real)
    ensures var h, l := Pow(0.5, k), Pow(0.5, k + 1);
      && Mix(l, 0.0, 2.0 * g) == Mix(h, 0.0, g) && Mix(l, f, 2.0 * g - f) == Mix(h, f, g)
      && InOrder(Mix(h, 0.0, g), Mix(h, f, g), Mix(l, f, 2.0 * g))
      && InOrder(Mix(l, 0.0, 2.0 * g - f), Mix(h, 0.0, g), Mix(h, f, g))
  {
    hide Mix, Pow;
    var h := Pow(0.5, k);
    Reciprocal(k);
    Fraction(h, f);
    PowNext(0.5, k);
    MixAt(h, 0.0, g);
    MixAt(h, f, g);
    MixAtHalf(h, 0.0, 2.0 * g);
    MixAtHalf(h, f, 2.0 * g);
    MixAtHalf(h, 0.0, 2.0 * g - f);
    MixAtHalf(h, f, 2.0 * g - f);
  }

  lemma MixAt(h: real, x: real, y: real)
    ensures Mix(h, x, y) == x + h * y - h * x
  {
    assert h * (y - x) == h * y - h * x;
  }

  lemma MixAtHalf(h: real, x: real, y: real)
    ensures Mix(0.5 * h, x, y) == x + 0.5 * (h * y) - 0.5 * (h * x)
  {
    assert h * (y - x) == h * y - h * x;
  }

  /** A swap after t divsteps on even g: the pair before them makes a whole turn. */
  lemma Swap(c: int, n: nat, t: nat, f: real, g: real)
    requires (c == 1 || c == 2) && Behind(c, n, t, f, g)
    ensures Ahead(c, n + 1, t + 2 - c, g, 0.5 * (g - f))
  {
    hide Inside, Radius, Fan, Pow, Share, Mix, Times;
    var z, l, r := Times(Pow(2.0, t), g), Pow(0.5, t + 2 - c), Radius(c, n - t);
    RadiusPositive(c, n - t);
    RadiusAdd(c, 2 * t + 3 - c, n - t);
    TurnValues(c, t, f, g);
    WholeTurn(c, t, f, z, r, Part(c, t), g, Mix(l, 0.0, 0.5 * (g - f)), Mix(l, g, 0.5 * (g - f)), Radius(c, n + 1 + (t + 2 - c)));
  }

  lemma TurnValues(c: int, t: nat, f: real, g: real)
    requires c == 1 || c == 2
    ensures var k, h, l, z := Part(c, t), Pow(0.5, t), Pow(0.5, t + 2 - c), Times(Pow(2.0, t), g);
      && g == h * z
      && Mix(l, 0.0, 0.5 * (g - f)) == h * (k * z - Share(c) * f)
      && Mix(l, g, 0.5 * (g - f)) == h * ((1.0 - k) * z - Share(c) * f)
  {
    var k, h, l, z := Part(c, t), Pow(0.5, t), Pow(0.5, t + 2 - c), Pow(2.0, t) * g;
    Reciprocal(t);
    Regroup(h, Pow(2.0, t), g);
    assert k == 0.5 * l;
    PartShare(c, t);
    calc {
      h * (k * z - Share(c) * f);
      k * (h * z) - (h * Share(c)) * f;
      k * g - k * f;
    }
    calc {
      h * ((1.0 - k) * z - Share(c) * f);
      h * z - k * (h * z) - (h * Share(c)) * f;
      g - k * g - k * f;
    }
  }

  lemma PartShare(c: int, t: nat)
    requires c == 1 || c == 2
    ensures Part(c, t) == Pow(0.5, t) * Share(c)
  {
    PowAdd(0.5, t, 3 - c);
    assert Pow(0.5, 1) == 0.5 * Pow(0.5, 0);
    assert Pow(0.5, 2) == 0.5 * Pow(0.5, 1);
  }

  lemma Joined(c: int, n: nat, f: real, g: real)
    requires Ahead(c, n, 0, f, g)
    ensures Behind(c, n, 0, f, g)
  {
    hide Inside, Radius;
  }

  lemma StepConfined(c: int, n: nat, s: State)
    requires (c == 1 || c == 2) && s.f % 2 == 1 && Confined(c, n, s)
    ensures Confined(c, n + 1, Step(c, s))
  {
    hide Behind, Ahead;
    var t := Step(c, s);
    var f, g, g' := s.f as real, s.g as real, t.g as real;
    if s.eta < 0 {
      if s.g % 2 == 0 {
        EvenBehind(c, n, -s.eta - 1, f, g');
      } else {
        Swap(c, n, -s.eta - 1, f, g);
        assert g' == 0.5 * (g - f);
        if t.eta < 0 {
          Joined(c, n + 1, g, g');
        }
      }
    } else {
      if s.g % 2 == 0 {
        EvenAhead(c, n, s.eta, f, g');
      } else {
        assert g == 2.0 * g' - f;
        OddAhead(c, n, s.eta, f, g');
      }
      if t.eta < 0 {
        Joined(c, n + 1, f, g');
      }
    }
  }

  lemma {:induction false} RunConfined(c: int, j: nat, n: nat, s: State)
    requires (c == 1 || c == 2) && s.f % 2 == 1 && Confined(c, j, s)
    ensures Confined(c, j + n, Run(c, n, s))
    decreases n
  {
    hide Step, Confined;
    if n != 0 {
      StepConfined(c, j, s);
      RunConfined(c, j + 1, n - 1, Step(c, s));
    }
  }

  lemma StartConfined(c: int, m: nat, x: nat)
    requires x <= m <= TWO256
    ensures Confined(c, 0, Start(-1, m, x))
  {
    hide Inside, Pow;
    TopPower();
    PowNext(2.0, 0);
    PowNext(Rate(c), 0);
    assert Width(c) * Radius(c, 0) == Pow(2.0, 256);
  }

  lemma TopPower()
    ensures Pow(2.0, 256) == TWO256 as real
  {
    hide Pow;
    Powers(2.0);
    PowAdd(2.0, 4, 4);
    PowAdd(2.0, 8, 8);
    PowAdd(2.0, 16, 16);
    PowAdd(2.0, 32, 32);
    PowAdd(2.0, 64, 64);
    PowAdd(2.0, 128, 128);
  }

  // ---------- enough ----------

  function Enough(c: int): nat {
    if c == 1 then 724 else 590
  }

  /** The scale at which the polygon holds no pair with odd f and g other than zero. */
  function Last(c: int): real {
    if c == 1 then 0.000412 else 0.00125
  }

  /** The two powers 2^a and x^n together are at most b. */
  ghost predicate AtMost(x: real, n: nat, a: nat, b: real) {
    Pow(x, n) * Pow(2.0, a) <= b
  }

  lemma Squared(x: real, n: nat, a: nat, b: real, s: real)
    requires x > 0.0 && AtMost(x, n, a, b) && b * b <= s
    ensures AtMost(x, 2 * n, 2 * a, s)
  {
    hide Pow;
    var p := Pow(x, n) * Pow(2.0, a);
    PowAdd(x, n, n);
    PowAdd(2.0, a, a);
    PowPositive(x, n);
    PowPositive(2.0, a);
    Positive(Pow(x, n), Pow(2.0, a));
    Monotone(p, b, p);
    Monotone(p, b, b);
    assert (Pow(x, n) * Pow(x, n)) * (Pow(2.0, a) * Pow(2.0, a)) == p * p;
  }

  lemma Onward(x: real, n: nat, a: nat, b: real, d: nat, s: real)
    requires x > 0.0 && AtMost(x, n, a, b) && x * Pow(2.0, d) * b <= s
    ensures AtMost(x, n + 1, a + d, s)
  {
    hide Pow;
    var p := Pow(x, n) * Pow(2.0, a);
    PowAdd(2.0, a, d);
    PowPositive(2.0, d);
    Positive(x, Pow(2.0, d));
    PowNext(x, n);
    Monotone(p, b, x * Pow(2.0, d));
    assert (x * Pow(x, n)) * (Pow(2.0, a) * Pow(2.0, d)) == (x * Pow(2.0, d)) * p;
  }

  lemma LastRadius(c: int)
    requires c == 1 || c == 2
    ensures Radius(c, Enough(c)) <= Last(c)
  {
    hide Radius, Pow;
    if c == 1 {
      LastRadius1(Rate(1));
      RadiusWidth(1, 724);
      assert 2500.0 * Radius(1, 724) <= 1.029532319;
    } else {
      LastRadius2(Rate(2));
      RadiusWidth(2, 590);
      assert 800.0 * Radius(2, 590) <= 1.0;
    }
  }

  lemma LastRadius1(x: real)
    requires x == 0.782665
    ensures AtMost(x, 724, 256, 1.029532319)
  {
    hide Pow, AtMost;
    SmallPowers(x);
    Squared(x, 1, 0, 0.782665, 0.6125645023);
    Squared(x, 2, 0, 0.6125645023, 0.3752352695);
    Onward(x, 4, 0, 0.3752352695, 2, 1.174734049);
    Squared(x, 5, 2, 1.174734049, 1.380000086);
    Onward(x, 10, 4, 1.380000086, 0, 1.080077768);
    Squared(x, 11, 4, 1.080077768, 1.166567985);
    Squared(x, 22, 8, 1.166567985, 1.360880864);
    Onward(x, 44, 16, 1.360880864, 0, 1.065113822);
    Squared(x, 45, 16, 1.065113822, 1.134467454);
    Squared(x, 90, 32, 1.134467454, 1.287016405);
    Onward(x, 180, 64, 1.287016405, 0, 1.007302695);
    Squared(x, 181, 64, 1.007302695, 1.01465872);
    Squared(x, 362, 128, 1.01465872, 1.029532319);
  }

  lemma LastRadius2(x: real)
    requires x == 0.74025
    ensures AtMost(x, 590, 256, 0.9929888966)
  {
    hide Pow, AtMost;
    SmallPowers(x);
    Squared(x, 1, 0, 0.74025, 0.5479700625);
    Squared(x, 2, 0, 0.5479700625, 0.3002711894);
    Squared(x, 4, 0, 0.3002711894, 0.09016278719);
    Onward(x, 8, 0, 0.09016278719, 4, 1.067888052);
    Squared(x, 9, 4, 1.067888052, 1.140384892);
    Squared(x, 18, 8, 1.140384892, 1.300477702);
    Squared(x, 36, 16, 1.300477702, 1.691242254);
    Onward(x, 72, 32, 1.691242254, 0, 1.251942079);
    Squared(x, 73, 32, 1.251942079, 1.56735897);
    Onward(x, 146, 64, 1.56735897, 0, 1.160237478);
    Squared(x, 147, 64, 1.160237478, 1.346151006);
    Onward(x, 294, 128, 1.346151006, 0, 0.9964882822);
    Squared(x, 295, 128, 0.9964882822, 0.9929888966);
  }

  lemma RadiusWidth(c: int, n: nat)
    ensures Width(c) * Radius(c, n) == Pow(Rate(c), n) * Pow(2.0, 256)
  {
    hide Pow;
    var w, t := Width(c), Pow(2.0, 256);
    assert w * (t / w) == t;
    assert w * (Pow(Rate(c), n) * (t / w)) == Pow(Rate(c), n) * (w * (t / w));
  }

  lemma SmallPowers(x: real)
    ensures AtMost(x, 1, 0, x) && Pow(2.0, 0) == 1.0 && Pow(2.0, 2) == 4.0 && Pow(2.0, 4) == 16.0
  {
    Powers(2.0);
    Powers(x);
  }

  // What is left in the polygon at the last scale, the counter being at its start, or one or more divsteps before it

  lemma NoneLeft(c: int, f: int, g: int, r: real)
    requires (c == 1 || c == 2) && f % 2 == 1 && r <= Last(c) && Inside(c, f as real, g as real, r)
    ensures g == 0
  {
    if c == 1 {
    } else {
    }
  }

  lemma NoneLeftBefore(c: int, f: real, g: real, r: real)
    requires (c == 1 || c == 2) && (f >= 1.0 || f <= -1.0) && r <= Rate(c) * Last(c)
    requires Inside(c, f, Mix(0.5, 0.0, g), r) && Inside(c, f, Mix(0.5, f, g), r)
    ensures -1.0 < g < 1.0
  {
    hide Inside, Mix;
    MixAt(0.5, 0.0, g);
    MixAt(0.5, f, g);
    if c == 1 {
      OneBefore1(f, g, r, Mix(0.5, 0.0, g), Mix(0.5, f, g));
    } else {
      OneBefore2(f, g, r, Mix(0.5, 0.0, g), Mix(0.5, f, g));
    }
  }

  lemma OneBefore1(f: real, g: real, r: real, x: real, y: real)
    requires (f >= 1.0 || f <= -1.0) && r <= 0.782665 * 0.000412 && x == 0.5 * g && y == 0.5 * f + 0.5 * g
    requires Inside(1, f, x, r) && Inside(1, f, y, r)
    ensures -1.0 < g < 1.0
  {
  }

  lemma OneBefore2(f: real, g: real, r: real, x: real, y: real)
    requires (f >= 1.0 || f <= -1.0) && r <= 0.74025 * 0.00125 && x == 0.5 * g && y == 0.5 * f + 0.5 * g
    requires Inside(2, f, x, r) && Inside(2, f, y, r)
    ensures -1.0 < g < 1.0
  {
  }

  /** Two divsteps before, no f is left whose pair stays inside whatever is added. */
  lemma TwoBefore(c: int, f: real, g: real, r: real)
    requires (c == 1 || c == 2) && r <= Rate(c) * Rate(c) * Last(c)
    requires Inside(c, f, Mix(0.25, 0.0, g), r) && Inside(c, f, Mix(0.25, f, g), r)
    ensures -1.0 < f < 1.0
  {
    hide Inside, Mix;
    MixAt(0.25, 0.0, g);
    MixAt(0.25, f, g);
    Pinched(c, f, Mix(0.25, 0.0, g), Mix(0.25, f, g), r);
  }

  lemma Pinched(c: int, f: real, x: real, y: real, r: real)
    requires (c == 1 || c == 2) && r <= Rate(c) * Rate(c) * Last(c) && y == 0.75 * f + x && Inside(c, f, x, r) && Inside(c, f, y, r)
    ensures -1.0 < f < 1.0
  {
    if c == 1 {
    } else {
    }
  }

  /** Three divsteps before, no f is left at all. */
  lemma Narrow(c: int, f: real, g: real, r: real)
    requires (c == 1 || c == 2) && Inside(c, f, g, r) && r <= Rate(c) * Rate(c) * Rate(c) * Last(c)
    ensures -1.0 < f < 1.0
  {
    if c == 1 {
    } else {
    }
  }

  /** How far g reaches. */
  lemma Reach(c: int, f: real, g: real, r: real)
    requires (c == 1 || c == 2) && Inside(c, f, g, r)
    ensures var w := if c == 1 then 2466.0 * r else 878.0 * r; -w <= g <= w
  {
    if c == 1 {
    } else {
    }
  }

  lemma Ended(c: int, s: State)
    requires (c == 1 || c == 2) && s.f % 2 == 1 && Confined(c, Enough(c), s)
    ensures s.g == 0
  {
    hide Inside, Radius, Last, Pow, Times, Mix, Fan;
    var f, g, n := s.f as real, s.g as real, Enough(c);
    LastRadius(c);
    if s.eta < 0 {
      var t: nat := -s.eta - 1;
      var z := Times(Pow(2.0, t), g);
      if Inside(c, f, z, Radius(c, n - t)) {
        EndedBehind(c, t, s.f, s.g, z);
      } else {
        EndedFan(c, s.f, s.g, z);
      }
    } else {
      EndedAhead(c, s.eta + 1, s.f, s.g);
    }
  }

  lemma EndedFan(c: int, f: int, g: int, z: real)
    requires (c == 1 || c == 2) && z == Times(Pow(2.0, Enough(c)), g as real) && Fan(c, f as real, z, Radius(c, 0))
    ensures g == 0
  {
    hide Pow, Radius, Times;
    RadiusWidth(c, 0);
    PowNext(Rate(c), 0);
    Larger(Enough(c) - 256);
    if g != 0 {
      AtLeast(Pow(2.0, Enough(c)), g);
    }
  }

  lemma {:induction false} Larger(n: nat)
    ensures 0.0 < Pow(2.0, 256) && (if n == 0 then Pow(2.0, 256) <= Pow(2.0, 256 + n) else Pow(2.0, 256) < Pow(2.0, 256 + n))
  {
    hide Pow;
    PowPositive(2.0, 256);
    if n != 0 {
      PowNext(2.0, 256 + (n - 1));
      Larger(n - 1);
    }
  }

  lemma AtLeast(p: real, g: int)
    requires p > 0.0 && g != 0
    ensures Times(p, g as real) >= p || Times(p, g as real) <= -p
  {
    if g >= 1 {
      Monotone(1.0, g as real, p);
    } else {
      Monotone(g as real, -1.0, p);
    }
  }

  /** Going back t divsteps, the polygon grows by less than the power of two that g had lost. */
  lemma {:induction false} FarBehind(c: int, t: nat)
    requires (c == 1 || c == 2) && 1 <= t <= Enough(c)
    ensures (if c == 1 then 2466.0 else 878.0) * Radius(c, Enough(c) - t) < Pow(2.0, t)
  {
    hide Pow, Radius;
    PowNext(2.0, t - 1);
    RadiusAdd(c, 1, Enough(c) - t);
    PowNext(Rate(c), 0);
    RadiusPositive(c, Enough(c) - t);
    if t == 1 {
      LastRadius(c);
      PowNext(2.0, 0);
    } else {
      FarBehind(c, t - 1);
    }
  }

  lemma EndedBehind(c: int, t: nat, f: int, g: int, z: real)
    requires (c == 1 || c == 2) && f % 2 == 1 && t <= Enough(c) && Radius(c, Enough(c)) <= Last(c)
    requires z == Times(Pow(2.0, t), g as real) && Inside(c, f as real, z, Radius(c, Enough(c) - t))
    ensures g == 0
  {
    hide Inside, Radius, Pow, Last, Times;
    if t == 0 {
      TimesOne(g as real);
      NoneLeft(c, f, g, Radius(c, Enough(c)));
    } else {
      FarBehind(c, t);
      Reach(c, f as real, z, Radius(c, Enough(c) - t));
      if g != 0 {
        PowPositive(2.0, t);
        AtLeast(Pow(2.0, t), g);
      }
    }
  }

  lemma TimesOne(g: real)
    ensures Times(Pow(2.0, 0), g) == g
  {
  }

  lemma {:induction false} Smaller(c: int, k: nat)
    ensures 0.0 < Pow(Rate(c), k) <= 1.0
  {
    if k != 0 {
      Smaller(c, k - 1);
      Monotone(Rate(c), 1.0, Pow(Rate(c), k - 1));
      Positive(Rate(c), Pow(Rate(c), k - 1));
    }
  }

  lemma RadiusAhead(c: int, k: nat)
    requires c == 1 || c == 2
    ensures Radius(c, Enough(c) + k) <= Pow(Rate(c), k) * Last(c)
  {
    hide Radius, Pow;
    LastRadius(c);
    RadiusAdd(c, k, Enough(c));
    Smaller(c, k);
    Monotone(Radius(c, Enough(c)), Last(c), Pow(Rate(c), k));
  }

  lemma RadiusFarAhead(c: int, k: nat)
    requires (c == 1 || c == 2) && k >= 3
    ensures Radius(c, Enough(c) + k) <= Rate(c) * Rate(c) * Rate(c) * Last(c)
  {
    hide Radius, Pow;
    RadiusAhead(c, k);
    Powers(Rate(c));
    Smaller(c, k - 3);
    PowAdd(Rate(c), 3, k - 3);
    var p := Rate(c) * Rate(c) * Rate(c);
    Monotone(Pow(Rate(c), k - 3), 1.0, p);
    Monotone(Pow(Rate(c), k), p, Last(c));
  }

  lemma EndedAhead(c: int, k: nat, f: int, g: int)
    requires (c == 1 || c == 2) && f % 2 == 1 && k >= 1 && Ahead(c, Enough(c), k, f as real, g as real)
    ensures g == 0
  {
    hide Inside, Radius, Pow, Mix;
    if k <= 2 {
      RadiusAhead(c, k);
      Powers(0.5);
      Powers(Rate(c));
      if k == 1 {
        NoneLeftBefore(c, f as real, g as real, Radius(c, Enough(c) + 1));
      } else {
        TwoBefore(c, f as real, g as real, Radius(c, Enough(c) + 2));
      }
    } else {
      RadiusFarAhead(c, k);
      Narrow(c, f as real, Mix(Pow(0.5, k), 0.0, g as real), Radius(c, Enough(c) + k));
    }
  }

  lemma {:induction false} StaysZero(c: int, n: nat, s: State)
    requires s.f % 2 == 1 && s.g == 0
    ensures Run(c, n, s).g == 0
  {
    if n != 0 {
      StaysZero(c, n - 1, Step(c, s));
    }
  }

  /** From the start, 724 or 590 divsteps bring g to zero, for every odd modulus of up to 256 bits and every number up to it. */
  lemma DivstepsSuffice(c: int, n: nat, m: nat, x: nat)
    requires (c == 1 && n >= 724) || (c == 2 && n >= 590)
    requires m % 2 == 1 && x <= m <= TWO256
    ensures Run(c, n, Start(-1, m, x)).g == 0
  {
    hide Run, Confined;
    var s := Start(-1, m, x);
    StartConfined(c, m, x);
    RunConfined(c, 0, Enough(c), s);
    Ended(c, Run(c, Enough(c), s));
    RunAdd(c, Enough(c), n - Enough(c), s);
    StaysZero(c, n - Enough(c), Run(c, Enough(c), s));
  }
}
