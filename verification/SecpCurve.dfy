/** The points of the curve are a curve in the sense of the multiplication algorithms: cyclic of order n, phi is lambda. */
module SecpCurve {
  import opened PointsGroup
  import opened PointsEndo
  import opened PointsCount
  import opened CyclicGroups
  import opened GeneratorChain
  import opened Groups
  import opened Recoding
  import opened SplitLambda
  import opened Curves
  import opened PrimeModuli
  import opened Primes

  // ---------- the endomorphism and multiples ----------

  lemma EndoNegate(p: Point)
    ensures Endo(Negate(p)) == Negate(Endo(p))
  {
    hide Add, Negate, Endo, Reduced, Group.Valid;
    PointsAreAGroup();
    var g := PointGroup();
    AddNegate(p);
    EndoAdd(p, Negate(p));
    EndoInfinity();
    g.NegUnique(Endo(p), Endo(Negate(p)));
  }

  lemma EndoInfinity()
    ensures Endo(INFINITY) == INFINITY
  {
  }

  lemma {:induction false} EndoMul(k: int, p: Point)
    ensures Endo(PointGroup().Mul(k, p)) == PointGroup().Mul(k, Endo(p))
    decreases if k < 0 then 1 - k else k
  {
    hide Add, Negate, Endo, Reduced;
    var g := PointGroup();
    if k == 0 {
      EndoInfinity();
    } else if k > 0 {
      EndoMul(k - 1, p);
      EndoAdd(g.Mul(k - 1, p), p);
    } else {
      EndoMul(-k, p);
      EndoNegate(g.Mul(-k, p));
    }
  }

  /** phi(s G + t phi(G)) == -t G + (s - t) phi(G) */
  lemma EndoComb(s: int, t: int)
    ensures Endo(Comb(s, t)) == Comb(-t, s - t)
  {
    hide Add, Negate, Endo, Reduced, Group.Mul, Group.Valid;
    PointsAreAGroup();
    var g, p := PointGroup(), Generator();
    var q := Endo(p);
    EndoAdd(g.Mul(s, p), g.Mul(t, q));
    EndoMul(s, p);
    EndoMul(t, q);
    CombScale(t, -1, -1);
    CombScale(s, 0, 1);
    CombsOfImages();
    CombAdd(0, s, -t, -t);
  }

  lemma CombScale(k: int, s: int, t: int)
    ensures PointGroup().Mul(k, Comb(s, t)) == Comb(k * s, k * t)
  {
    hide Add, Negate, Endo, Reduced, Group.Mul, Group.Valid;
    PointsAreAGroup();
    var g, p := PointGroup(), Generator();
    g.MulAdd(k, g.Mul(s, p), g.Mul(t, Endo(p)));
    g.MulMul(k, s, p);
    g.MulMul(k, t, Endo(p));
  }

  // ---------- the order of the generator ----------

  lemma CombZero()
    ensures Comb(0, 0) == INFINITY
  {
    hide Add, Negate, Endo, Reduced;
    PointsAreAGroup();
    PointGroup().Zero(INFINITY);
  }

  /** The first vector of the short basis is a relation between G and phi(G), ... */
  lemma FirstRelation()
    ensures Comb(A1, -MINUS_B1) == INFINITY
  {
    hide Add, Comb;
    Chain13();
    GeneratorImages();
    var s, t := A1 - 1, -MINUS_B1 - 1;
    assert Comb(s, t) == Comb(-1, -1);
    CombAdd(s, t, 1, 1);
    CombAdd(-1, -1, 1, 1);
    CombZero();
  }

  /** ... and so is its image, the second. */
  lemma SecondRelation()
    ensures Comb(MINUS_B1, A2) == INFINITY
  {
    hide Endo, Comb;
    FirstRelation();
    EndoComb(A1, -MINUS_B1);
    EndoInfinity();
    assert A1 - -MINUS_B1 == A2;
  }

  /** Every combination of the two is one. */
  lemma Relation(u: int, v: int)
    ensures Comb(u * A1 + v * MINUS_B1, u * -MINUS_B1 + v * A2) == INFINITY
  {
    hide Add, Comb, Group.Mul, Group.Valid;
    PointsAreAGroup();
    var g := PointGroup();
    FirstRelation();
    SecondRelation();
    CombScale(u, A1, -MINUS_B1);
    CombScale(v, MINUS_B1, A2);
    g.MulOfZero(u);
    g.MulOfZero(v);
    CombAdd(u * A1, u * -MINUS_B1, v * MINUS_B1, v * A2);
    g.Zero(INFINITY);
  }

  lemma GeneratorOrder()
    ensures PointGroup().Mul(N, Generator()) == INFINITY
  {
    hide Add, Endo, Group.Valid, Negate;
    PointsAreAGroup();
    var g, p := PointGroup(), Generator();
    Relation(A2, MINUS_B1);
    Determinant();
    g.MulZero(Endo(p));
    g.Zero(g.Mul(N, p));
  }

  /** The determinant of the basis is n. */
  lemma Determinant()
    ensures A2 * A1 + MINUS_B1 * MINUS_B1 == N && A2 * -MINUS_B1 + MINUS_B1 * A2 == 0
  {
  }

  /** On the generator, phi is multiplication by lambda. */
  lemma EndoOfGenerator()
    ensures Endo(Generator()) == PointGroup().Mul(LAMBDA, Generator())
  {
    hide Add, Endo, Group.Mul, Group.Valid, Negate;
    PointsAreAGroup();
    var g, p := PointGroup(), Generator();
    Relation(0xbaa0f31a58983e29f45bd6af822aa4a5, 0x99e8bc1685af502e7d796ed168161b42);
    Bezout();
    // (n - lambda) G + phi(G) == 0
    g.MulOne(Endo(p));
    g.NegUnique(g.Mul(N - LAMBDA, p), Endo(p));
    g.MulNeg(N - LAMBDA, p);
    GeneratorOrder();
    g.MulPlus(N, LAMBDA - N, p);
    g.Zero(g.Mul(LAMBDA - N, p));
  }

  lemma Bezout()
    ensures var u, v := 0xbaa0f31a58983e29f45bd6af822aa4a5, 0x99e8bc1685af502e7d796ed168161b42;
      u * A1 + v * MINUS_B1 == N - LAMBDA && u * -MINUS_B1 + v * A2 == 1
  {
  }

  lemma GeneratorHasOrder()
    ensures OfOrder(PointGroup(), Generator(), N)
  {
    hide Add, Prime, Endo, Group.Mul, Group.Valid, Negate;
    NIsPrime();
    PointsAreAGroup();
    GeneratorOrder();
  }

  // ---------- the generator generates ----------

  lemma {:induction false} MultipleOfGenerator(q: Point) returns (k: nat)
    ensures k < N && q == PointGroup().Mul(k, Generator())
  {
    hide Add, Endo, Group.Mul, Group.Valid, Negate, OfOrder, Reduced;
    var g, p := PointGroup(), Generator();
    GeneratorHasOrder();
    PointsAreAGroup();
    if !Generated(g, p, q) {
      PointsNoOrderTwo();
      var s := ThreeCosets(g, p, N, q);
      PointsBound(s);
    }
    var j: int :| g.Mul(j, p) == q;
    k := j % N;
    GeneratorOrder();
    MulRemainder(g, p, N, j);
  }

  lemma MulRemainder<T(!new)>(g: Group<T>, x: T, n: nat, j: int)
    requires g.Valid() && n > 0 && g.Mul(n, x) == g.zero
    ensures g.Mul(j, x) == g.Mul(j % n, x)
  {
    hide Group.Mul, Group.Valid;
    var d := j / n;
    assert j == d * n + j % n;
    g.MulPlus(d * n, j % n, x);
    g.MulMul(d, n, x);
    g.MulOfZero(d);
    g.Zero(g.Mul(j % n, x));
  }

  /** The curve has exactly n points: the n multiples of the generator, all different. */
  lemma CurveOrder() returns (s: set<Point>)
    ensures |s| == N && forall q: Point :: q in s
  {
    hide Add, Endo, Group.Mul, Group.Valid, Negate, OfOrder, Reduced, Coset;
    var g, p := PointGroup(), Generator();
    GeneratorHasOrder();
    PointsAreAGroup();
    s := Coset(g, p, INFINITY, N);
    CosetSize(g, p, INFINITY, N, N);
    forall q: Point
      ensures q in s
    {
      var k := MultipleOfGenerator(q);
      g.Zero(q);
      InCoset(g, p, INFINITY, N, k);
    }
  }

  lemma {:induction false} InCoset<T(!new)>(g: Group<T>, x: T, q: T, n: nat, k: nat)
    requires k < n
    ensures g.add(q, g.Mul(k, x)) in Coset(g, x, q, n)
  {
    hide Group.Mul;
    if k < n - 1 {
      InCoset(g, x, q, n - 1, k);
    }
  }

  // ---------- the curve ----------

  ghost function Secp256k1(): Curve<Point> {
    Curve(PointGroup(), Generator(), p => Endo(p))
  }

  /** For every point, phi is multiplication by lambda and the multiple n is infinity. */
  lemma EndoIsLambda(q: Point)
    ensures Endo(q) == PointGroup().Mul(LAMBDA, q) && PointGroup().Mul(N, q) == INFINITY
  {
    hide Add, Endo, Group.Mul, Group.Valid, Negate, Reduced;
    PointsAreAGroup();
    var g, p := PointGroup(), Generator();
    var k := MultipleOfGenerator(q);
    EndoMul(k, p);
    EndoOfGenerator();
    GeneratorOrder();
    g.MulMul(k, LAMBDA, p);
    g.MulMul(LAMBDA, k, p);
    g.MulMul(k, N, p);
    g.MulMul(N, k, p);
    g.MulOfZero(k);
  }

  /** The points of the curve are what the multiplication algorithms assume. */
  lemma PointsAreACurve()
    ensures Secp256k1().Valid()
  {
    hide Add, Endo, Group.Mul, Group.Valid, Negate, Reduced;
    PointsAreAGroup();
    forall q: Point
      ensures Secp256k1().endo(q) == PointGroup().Mul(LAMBDA, q) && PointGroup().Mul(N, q) == INFINITY
    {
      EndoIsLambda(q);
    }
  }
}
