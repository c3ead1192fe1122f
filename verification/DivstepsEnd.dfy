/** Divsteps come to an end: from every odd f and every g, some number of steps brings g to zero. */
module DivstepsEnd {
  import opened Divsteps
  import opened DivstepsBatch
  import opened Integers

  // ---------- the matrix remembers a swap ----------

  /** The entry v is zero up to the first swap and never after, because r stays odd. */
  lemma {:induction false} SwapStays(c: int, n: nat, s: State)
    requires s.f % 2 == 1 && s.v % 2 == 0 && s.r % 2 == 1
    ensures var t := Run(c, n, s); t.v % 2 == 0 && t.r % 2 == 1 && (s.v != 0 ==> t.v != 0)
    decreases n
  {
    hide Step;
    if n != 0 {
      StepParity(c, s);
      SwapStays(c, n - 1, Step(c, s));
    }
  }

  lemma StepParity(c: int, s: State)
    requires s.f % 2 == 1 && s.v % 2 == 0 && s.r % 2 == 1
    ensures var t := Step(c, s); t.v % 2 == 0 && t.r % 2 == 1 && (s.v != 0 ==> t.v != 0)
  {
    Parity(s.v, s.r);
  }

  lemma Parity(v: int, r: int)
    requires v % 2 == 0 && r % 2 == 1
    ensures r != 0 && (2 * v) % 2 == 0 && (2 * r) % 2 == 0 && (r - v) % 2 == 1 && (r + v) % 2 == 1
  {
  }

  /** A row with small enough norm cannot scale up the larger of two numbers. */
  lemma StrictRow(a: int, b: int, x: int, y: int, p: int)
    requires Abs(a) + Abs(b) <= p && b != 0 && Abs(y) < Abs(x)
    ensures a * x + b * y != x * p
  {
    AbsProduct(a, x);
    AbsProduct(b, y);
    AbsProduct(x, p);
    StrictSum(Abs(a), Abs(b), Abs(x), Abs(y), p);
  }

  lemma StrictSum(a: nat, b: nat, x: nat, y: nat, p: int)
    requires a + b <= p && b > 0 && y < x
    ensures a * x + b * y < x * p
  {
    MulMono(a + b, p, x);
    Product(b, x - y);
    assert (a + b) * x == a * x + b * y + b * (x - y);
  }

  lemma Product(b: nat, d: nat)
    requires b > 0 && d > 0
    ensures b * d > 0
  {
  }

  lemma AbsProduct(a: int, x: int)
    ensures Abs(a * x) == Abs(a) * Abs(x)
  {
    if a < 0 {
      assert a * x == -((-a) * x);
    }
    if x < 0 {
      assert Abs(a) * x == -(Abs(a) * (-x));
    }
    MulMono(0, Abs(x), Abs(a));
  }

  /** No pair of different magnitudes comes back once a swap has happened: one row would have to scale up the larger number. */
  lemma NoReturn(c: int, n: nat, eta: int, f: int, g: int)
    requires f % 2 == 1 && g != 0 && Abs(f) != Abs(g) && Run(c, n, Start(eta, f, g)).v != 0
    ensures var t := Run(c, n, Start(eta, f, g)); !(t.f == f && t.g == g)
  {
    hide Run, Det;
    var t, p := Run(c, n, Start(eta, f, g)), Pow2(n);
    RunBounds(c, n, eta, f, g);
    SwapStays(c, n, Start(eta, f, g));
    if t.f == f && t.g == g {
      if Abs(g) < Abs(f) {
        StrictRow(t.u, t.v, f, g, p);
      } else if t.q != 0 {
        StrictRow(t.r, t.q, g, f, p);
      } else {
        NoSteps(n, t.r, g);
        EmptyRun(c, eta, f, g);
      }
    }
  }

  lemma NoSteps(n: nat, r: int, g: int)
    requires g != 0 && r % 2 == 1 && r * g == g * Pow2(n)
    ensures n == 0
  {
    SameFactor(r, Pow2(n), g);
  }

  lemma SameFactor(r: int, p: int, g: int)
    requires g != 0 && r * g == g * p
    ensures r == p
  {
    if r < p {
      MulMono(r + 1, p, Abs(g));
    } else if p < r {
      MulMono(p + 1, r, Abs(g));
    }
  }

  lemma EmptyRun(c: int, eta: int, f: int, g: int)
    requires f % 2 == 1
    ensures Run(c, 0, Start(eta, f, g)).v == 0
  {
  }

  // ---------- a swap always comes ----------

  /** Without a swap the counter falls below zero, and g loses its zeros. */
  lemma {:induction false} SwapComes(c: int, s: State) returns (k: nat)
    requires s.f % 2 == 1 && s.r % 2 == 1
    ensures var t := Run(c, k, s); t.g == 0 || t.v != 0
    decreases if s.eta >= 0 then s.eta + 1 else 0, Abs(s.g)
  {
    if s.g == 0 || s.v != 0 {
      k := 0;
    } else if s.eta < 0 && s.g % 2 == 1 {
      k := 1;
      assert Run(c, 1, s) == Run(c, 0, Step(c, s));
    } else {
      k := SwapComes(c, Step(c, s));
      k := k + 1;
    }
  }

  /** From two numbers of one magnitude it is over as soon as the counter is below zero. */
  lemma {:induction false} EqualEnds(c: int, s: State) returns (n: nat)
    requires s.f % 2 == 1 && Abs(s.f) == Abs(s.g)
    ensures Run(c, n, s).g == 0
    decreases if s.g == s.f then 0 else 1, if s.eta >= 0 then s.eta + 1 else 0
  {
    var t := Step(c, s);
    if t.g == 0 {
      n := 1;
      assert Run(c, 1, s) == Run(c, 0, t);
    } else {
      n := EqualEnds(c, t);
      n := n + 1;
    }
  }

  // ---------- the end ----------

  /** A run with a swap leads from one pair to a state. */
  ghost predicate CameBy(c: int, k: nat, eta0: int, f0: int, g0: int, eta: int, f: int, g: int) {
    f0 % 2 == 1 && var t := Run(c, k, Start(eta0, f0, g0)); t.eta == eta && t.f == f && t.g == g && t.v != 0
  }

  ghost predicate Came(c: int, p: (int, int), eta: int, f: int, g: int) {
    exists k: nat, eta0: int :: CameBy(c, k, eta0, p.0, p.1, eta, f, g)
  }

  lemma CameOn(c: int, p: (int, int), eta: int, f: int, g: int, j: nat)
    requires Came(c, p, eta, f, g) && f % 2 == 1
    ensures var t := Run(c, j, Start(eta, f, g)); Came(c, p, t.eta, t.f, t.g)
  {
    hide Run;
    var k: nat, eta0: int :| CameBy(c, k, eta0, p.0, p.1, eta, f, g);
    var s := Run(c, k, Start(eta0, p.0, p.1));
    RunAdd(c, k, j, Start(eta0, p.0, p.1));
    RunForgetsMatrix(c, j, s, Start(eta, f, g));
    SwapStays(c, k, Start(eta0, p.0, p.1));
    SwapStays(c, j, s);
    var t := Run(c, j, Start(eta, f, g));
    assert CameBy(c, k + j, eta0, p.0, p.1, t.eta, t.f, t.g);
  }

  /** The pairs in range, of which only finitely many can be passed. */
  ghost function Box(m: int): (b: set<(int, int)>)
    ensures forall f: int, g: int :: (f, g) in b <==> -m < f <= m && -m < g < m
  {
    var b := set f: int, g: int | -m < f <= m && -m < g < m :: (f, g);
    b
  }

  lemma {:induction false} Ends(c: int, eta: int, f: int, g: int, m: int, seen: set<(int, int)>) returns (n: nat)
    requires f % 2 == 1 && (c == 1 || c == 2) && -m < f <= m && -m < g < m && seen <= Box(m)
    requires forall p :: p in seen ==> Came(c, p, eta, f, g)
    ensures Run(c, n, Start(eta, f, g)).g == 0
    decreases |Box(m) - seen|
  {
    hide Run, Came, Box;
    if g == 0 {
      n := 0;
      NotYet(c, eta, f, g);
    } else if Abs(f) == Abs(g) {
      n := EqualEnds(c, Start(eta, f, g));
    } else {
      NotSeen(c, eta, f, g, seen);
      var k := SwapComes(c, Start(eta, f, g));
      var t := Run(c, k, Start(eta, f, g));
      if t.g == 0 {
        n := k;
      } else {
        RunInRange(c, k, Start(eta, f, g), m);
        CameHere(c, k, eta, f, g);
        forall p | p in seen
          ensures Came(c, p, t.eta, t.f, t.g)
        {
          CameOn(c, p, eta, f, g, k);
        }
        Fewer(Box(m), seen, (f, g));
        n := Ends(c, t.eta, t.f, t.g, m, seen + {(f, g)});
        RunAdd(c, k, n, Start(eta, f, g));
        RunForgetsMatrix(c, n, t, Start(t.eta, t.f, t.g));
        n := k + n;
      }
    }
  }

  lemma NotYet(c: int, eta: int, f: int, g: int)
    requires f % 2 == 1
    ensures Run(c, 0, Start(eta, f, g)).g == g
  {
  }

  lemma NotSeen(c: int, eta: int, f: int, g: int, seen: set<(int, int)>)
    requires f % 2 == 1 && g != 0 && Abs(f) != Abs(g) && forall p :: p in seen ==> Came(c, p, eta, f, g)
    ensures (f, g) !in seen
  {
    if (f, g) in seen {
      var k: nat, eta0: int :| CameBy(c, k, eta0, f, g, eta, f, g);
      NoReturn(c, k, eta0, f, g);
    }
  }

  lemma CameHere(c: int, k: nat, eta: int, f: int, g: int)
    requires f % 2 == 1 && Run(c, k, Start(eta, f, g)).v != 0
    ensures var t := Run(c, k, Start(eta, f, g)); Came(c, (f, g), t.eta, t.f, t.g)
  {
    var t := Run(c, k, Start(eta, f, g));
    assert CameBy(c, k, eta, f, g, t.eta, t.f, t.g);
  }

  lemma Fewer(box: set<(int, int)>, seen: set<(int, int)>, p: (int, int))
    requires p in box && p !in seen
    ensures |box - (seen + {p})| < |box - seen|
  {
    assert box - (seen + {p}) == (box - seen) - {p};
  }

  /** Every inversion comes to an end: whatever the odd modulus and the number below it, some number of divsteps brings g to zero. */
  lemma ReachesZero(c: int, eta: int, m: nat, x: nat) returns (n: nat)
    requires (c == 1 || c == 2) && m % 2 == 1 && x < m
    ensures Run(c, n, Start(eta, m, x)).g == 0
  {
    n := Ends(c, eta, m, x, m, {});
  }
}
