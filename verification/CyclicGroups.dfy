/** When an element of prime order generates a finite group: there is no room for a third coset of its multiples. */
module CyclicGroups {
  import opened Integers
  import opened Groups
  import opened Primes

  ghost predicate Generated<T(!new)>(g: Group<T>, x: T, q: T) {
    exists k: int :: g.Mul(k, x) == q
  }

  ghost predicate OfOrder<T(!new)>(g: Group<T>, x: T, n: nat) {
    g.Valid() && Prime(n) && n != 2 && x != g.zero && g.Mul(n, x) == g.zero
  }

  ghost predicate NoOrderTwo<T(!new)>(g: Group<T>) {
    forall y :: g.add(y, y) == g.zero ==> y == g.zero
  }

  /** A multiple that is zero is a multiple of n. */
  lemma ZeroMultiple<T(!new)>(g: Group<T>, x: T, n: nat, k: int)
    requires n > 0 && OfOrder(g, x, n) && g.Mul(k, x) == g.zero
    ensures k % n == 0
  {
    hide Group.Mul, Group.Valid;
    if k % n != 0 {
      var t := InverseModulo(n, k);
      var j := CongWitness(t * k, 1, n);
      assert t * k == 1 + j * n;
      g.MulMul(t, k, x);
      g.MulOfZero(t);
      g.MulPlus(1, j * n, x);
      g.MulMul(j, n, x);
      g.MulOfZero(j);
      g.MulOne(x);
      g.Zero(x);
    }
  }

  /** The first n multiples are different, from wherever one starts. */
  lemma MultiplesApart<T(!new)>(g: Group<T>, x: T, n: nat, q: T, k: nat, l: nat)
    requires OfOrder(g, x, n) && k < n && l < n && g.add(q, g.Mul(k, x)) == g.add(q, g.Mul(l, x))
    ensures k == l
  {
    hide Group.Mul, Group.Valid, Prime;
    g.Comm(q, g.Mul(k, x));
    g.Comm(q, g.Mul(l, x));
    g.Cancel(g.Mul(k, x), g.Mul(l, x), q);
    var i: int, j: int := k, l;
    g.MulPlus(i, -j, x);
    g.MulNeg(j, x);
    g.Inverse(g.Mul(j, x));
    ZeroMultiple(g, x, n, k - l);
    if k != l {
      Within(n, k - l);
    }
  }

  /** q, q + x, ..., q + (n - 1) x */
  ghost function Coset<T(!new)>(g: Group<T>, x: T, q: T, n: nat): set<T> {
    if n == 0 then {} else Coset(g, x, q, n - 1) + {g.add(q, g.Mul(n - 1, x))}
  }

  lemma {:induction false} CosetMember<T(!new)>(g: Group<T>, x: T, q: T, n: nat, p: T) returns (k: nat)
    requires p in Coset(g, x, q, n)
    ensures k < n && p == g.add(q, g.Mul(k, x))
  {
    if p == g.add(q, g.Mul(n - 1, x)) {
      k := n - 1;
    } else {
      k := CosetMember(g, x, q, n - 1, p);
    }
  }

  lemma {:induction false} CosetSize<T(!new)>(g: Group<T>, x: T, q: T, n: nat, m: nat)
    requires OfOrder(g, x, n) && m <= n
    ensures |Coset(g, x, q, m)| == m
    decreases m
  {
    hide Group.Mul, Group.Valid, OfOrder;
    if m != 0 {
      CosetSize(g, x, q, n, m - 1);
      var p := g.add(q, g.Mul(m - 1, x));
      if p in Coset(g, x, q, m - 1) {
        var k := CosetMember(g, x, q, m - 1, p);
        MultiplesApart(g, x, n, q, k, m - 1);
      }
    }
  }

  /** Cosets that share an element differ by a multiple. */
  lemma CosetsApart<T(!new)>(g: Group<T>, x: T, q: T, r: T, n: nat)
    requires g.Valid() && !Generated(g, x, g.add(q, g.neg(r)))
    ensures Coset(g, x, q, n) !! Coset(g, x, r, n)
  {
    hide Group.Mul, Group.Valid, Coset;
    forall p | p in Coset(g, x, q, n) && p in Coset(g, x, r, n)
      ensures false
    {
      var k := CosetMember(g, x, q, n, p);
      var l := CosetMember(g, x, r, n, p);
      Difference(g, x, q, r, k, l);
    }
  }

  lemma Difference<T(!new)>(g: Group<T>, x: T, q: T, r: T, k: int, l: int)
    requires g.Valid() && g.add(q, g.Mul(k, x)) == g.add(r, g.Mul(l, x))
    ensures Generated(g, x, g.add(q, g.neg(r)))
  {
    hide Group.Mul, Group.Valid;
    var a, b := g.Mul(k, x), g.Mul(l, x);
    // (q + a) + (-r + -a) == (r + b) + (-r + -a)
    g.Swap(q, a, g.neg(r), g.neg(a));
    g.Swap(r, b, g.neg(r), g.neg(a));
    g.Inverse(a);
    g.Inverse(r);
    g.Zero(g.add(q, g.neg(r)));
    g.Zero(g.add(b, g.neg(a)));
    g.MulNeg(k, x);
    g.MulPlus(l, -k, x);
    assert g.Mul(l - k, x) == g.add(q, g.neg(r));
  }

  /** If twice q is a multiple, so is q. */
  lemma HalfGenerated<T(!new)>(g: Group<T>, x: T, n: nat, q: T)
    requires OfOrder(g, x, n) && NoOrderTwo(g) && Generated(g, x, g.add(q, q))
    ensures Generated(g, x, q)
  {
    hide Group.Mul, Group.Valid, Prime;
    var k: int :| g.Mul(k, x) == g.add(q, q);
    OddPrime(n);
    var h := if k % 2 == 0 then k / 2 else (k + n) / 2;
    assert 2 * h == k || 2 * h == k + n;
    var m := g.Mul(h, x);
    g.Double(h, x);
    g.MulPlus(k, n, x);
    g.Zero(g.Mul(k, x));
    assert g.add(m, m) == g.add(q, q);
    var y := g.add(q, g.neg(m));
    g.Swap(q, g.neg(m), q, g.neg(m));
    g.NegAdd(m, m);
    g.Inverse(g.add(m, m));
    assert g.add(y, y) == g.zero;
    g.Inverse(m);
    g.Cancel(q, m, g.neg(m));
  }

  lemma OddPrime(n: nat)
    requires Prime(n) && n != 2
    ensures n % 2 == 1
  {
    if n % 2 == 0 {
      PrimeDivisor(n, 2, n / 2);
    }
  }

  /** An element that is not a multiple leads to three cosets, which have 3 n elements. */
  lemma ThreeCosets<T(!new)>(g: Group<T>, x: T, n: nat, q: T) returns (s: set<T>)
    requires OfOrder(g, x, n) && NoOrderTwo(g) && !Generated(g, x, q)
    ensures |s| == 3 * n
  {
    hide Group.Mul, Group.Valid, Prime, Coset, NoOrderTwo;
    var z, r := g.zero, g.neg(q);
    var a, b, c := Coset(g, x, z, n), Coset(g, x, q, n), Coset(g, x, r, n);
    CosetSize(g, x, z, n, n);
    CosetSize(g, x, q, n, n);
    CosetSize(g, x, r, n, n);
    g.NegZero();
    g.Zero(q);
    g.NegNeg(q);
    CosetsApart(g, x, q, z, n);
    if Generated(g, x, r) {
      NegGenerated(g, x, r);
    }
    g.Zero(r);
    CosetsApart(g, x, r, z, n);
    if Generated(g, x, g.add(q, q)) {
      HalfGenerated(g, x, n, q);
    }
    CosetsApart(g, x, q, r, n);
    s := a + b + c;
    DisjointSizes(a, b, c);
  }

  lemma NegGenerated<T(!new)>(g: Group<T>, x: T, r: T)
    requires g.Valid() && Generated(g, x, r)
    ensures Generated(g, x, g.neg(r))
  {
    hide Group.Mul, Group.Valid;
    var k: int :| g.Mul(k, x) == r;
    g.MulNeg(k, x);
    assert g.Mul(-k, x) == g.neg(r);
  }

  lemma DisjointSizes<T>(a: set<T>, b: set<T>, c: set<T>)
    requires a !! b && a !! c && b !! c
    ensures |a + b + c| == |a| + |b| + |c|
  {
  }
}
