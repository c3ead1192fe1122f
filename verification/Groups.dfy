/** Abelian groups and their integer multiples: what the scalar-multiplication algorithms compute in. */
module Groups {

  /** Only serves to instantiate the group laws by hand. */
  predicate Use<T>(x: T, y: T, z: T) {
    true
  }

  datatype Group<!T(!new)> = Group(zero: T, add: (T, T) -> T, neg: T -> T) {

    ghost predicate Valid() {
      forall x, y, z {:trigger Use(x, y, z)} :: Use(x, y, z) ==>
        && add(add(x, y), z) == add(x, add(y, z))
        && add(x, y) == add(y, x)
        && add(zero, x) == x
        && add(x, neg(x)) == zero
    }

    /** k x, for any integer k */
    function Mul(k: int, x: T): T
      decreases if k < 0 then 1 - k else k
    {
      if k == 0 then zero
      else if k > 0 then add(Mul(k - 1, x), x)
      else neg(Mul(-k, x))
    }

    /** c[0] p[0] + c[1] p[1] + ... */
    function Lin(c: seq<int>, p: seq<T>): T
      requires |c| == |p|
    {
      if |c| == 0 then zero else add(Mul(c[0], p[0]), Lin(c[1..], p[1..]))
    }

    // ---------- group laws, one call each ----------

    lemma Comm(x: T, y: T)
      requires Valid()
      ensures add(x, y) == add(y, x)
    {
      assert Use(x, y, x);
    }

    lemma Assoc(x: T, y: T, z: T)
      requires Valid()
      ensures add(add(x, y), z) == add(x, add(y, z))
    {
      assert Use(x, y, z);
    }

    lemma Zero(x: T)
      requires Valid()
      ensures add(zero, x) == x && add(x, zero) == x
    {
      assert Use(x, zero, x) && Use(zero, x, x);
    }

    lemma Inverse(x: T)
      requires Valid()
      ensures add(x, neg(x)) == zero && add(neg(x), x) == zero
    {
      assert Use(x, neg(x), x) && Use(neg(x), x, x);
    }

    /** (x + y) + (z + w) == (x + z) + (y + w) */
    lemma Swap(x: T, y: T, z: T, w: T)
      requires Valid()
      ensures add(add(x, y), add(z, w)) == add(add(x, z), add(y, w))
    {
      Assoc(x, y, add(z, w));
      Assoc(y, z, w);
      Comm(y, z);
      Assoc(z, y, w);
      Assoc(x, z, add(y, w));
    }

    /** Adding y last or in the middle is the same. */
    lemma Slide(x: T, y: T, z: T)
      requires Valid()
      ensures add(add(x, y), z) == add(add(x, z), y)
    {
      Assoc(x, y, z);
      Comm(y, z);
      Assoc(x, z, y);
    }

    lemma Cancel(x: T, y: T, z: T)
      requires Valid() && add(x, z) == add(y, z)
      ensures x == y
    {
      Assoc(x, z, neg(z));
      Assoc(y, z, neg(z));
      Inverse(z);
      Zero(x);
      Zero(y);
    }

    lemma NegUnique(x: T, y: T)
      requires Valid() && add(x, y) == zero
      ensures y == neg(x)
    {
      Inverse(x);
      Comm(x, y);
      Comm(x, neg(x));
      Cancel(y, neg(x), x);
    }

    lemma NegAdd(x: T, y: T)
      requires Valid()
      ensures neg(add(x, y)) == add(neg(x), neg(y))
    {
      Swap(x, y, neg(x), neg(y));
      Inverse(x);
      Inverse(y);
      Zero(zero);
      NegUnique(add(x, y), add(neg(x), neg(y)));
    }

    lemma NegNeg(x: T)
      requires Valid()
      ensures neg(neg(x)) == x
    {
      Inverse(x);
      NegUnique(neg(x), x);
    }

    lemma NegZero()
      requires Valid()
      ensures neg(zero) == zero
    {
      Zero(zero);
      NegUnique(zero, zero);
    }

    // ---------- multiples ----------

    lemma MulZero(x: T)
      ensures Mul(0, x) == zero
    {
    }

    lemma MulOne(x: T)
      requires Valid()
      ensures Mul(1, x) == x
    {
      assert Mul(1, x) == add(Mul(0, x), x);
      Zero(x);
    }

    lemma MulTwo(x: T)
      requires Valid()
      ensures Mul(2, x) == add(x, x)
    {
      MulOne(x);
      assert Mul(2, x) == add(Mul(1, x), x);
    }

    lemma MulNeg(k: int, x: T)
      requires Valid()
      ensures Mul(-k, x) == neg(Mul(k, x))
    {
      if k == 0 {
        NegZero();
      } else if k < 0 {
        NegNeg(Mul(-k, x));
      }
    }

    lemma MulSucc(k: int, x: T)
      requires Valid()
      ensures Mul(k + 1, x) == add(Mul(k, x), x)
    {
      if k < 0 {
        // k = -(m + 1)
        var m := -k - 1;
        assert Mul(m + 1, x) == add(Mul(m, x), x);
        MulNeg(m + 1, x);
        MulNeg(m, x);
        NegAdd(Mul(m, x), x);
        Assoc(neg(Mul(m, x)), neg(x), x);
        Inverse(x);
        Zero(neg(Mul(m, x)));
      }
    }

    lemma {:induction false} MulPlus(k: int, l: int, x: T)
      requires Valid()
      ensures Mul(k + l, x) == add(Mul(k, x), Mul(l, x))
      decreases if l < 0 then -l else l
    {
      if l == 0 {
        Zero(Mul(k, x));
      } else if l > 0 {
        MulPlus(k, l - 1, x);
        MulSucc(k + l - 1, x);
        Assoc(Mul(k, x), Mul(l - 1, x), x);
      } else {
        MulPlus(k, l + 1, x);
        MulSucc(k + l, x);
        MulSucc(l, x);
        Assoc(Mul(k, x), Mul(l, x), x);
        Cancel(Mul(k + l, x), add(Mul(k, x), Mul(l, x)), x);
      }
    }

    lemma {:induction false} MulAdd(k: int, x: T, y: T)
      requires Valid()
      ensures Mul(k, add(x, y)) == add(Mul(k, x), Mul(k, y))
      decreases if k < 0 then 1 - k else k
    {
      if k == 0 {
        Zero(zero);
      } else if k > 0 {
        MulAdd(k - 1, x, y);
        Swap(Mul(k - 1, x), Mul(k - 1, y), x, y);
      } else {
        MulAdd(-k, x, y);
        NegAdd(Mul(-k, x), Mul(-k, y));
      }
    }

    lemma MulOfZero(k: int)
      requires Valid()
      ensures Mul(k, zero) == zero
    {
      MulAdd(k, zero, zero);
      Zero(zero);
      Zero(Mul(k, zero));
      Comm(zero, Mul(k, zero));
      Cancel(Mul(k, zero), zero, Mul(k, zero));
    }

    lemma MulOfNeg(k: int, x: T)
      requires Valid()
      ensures Mul(k, neg(x)) == neg(Mul(k, x))
    {
      MulAdd(k, x, neg(x));
      Inverse(x);
      MulOfZero(k);
      NegUnique(Mul(k, x), Mul(k, neg(x)));
    }

    lemma {:induction false} MulMul(k: int, l: int, x: T)
      requires Valid()
      ensures Mul(k, Mul(l, x)) == Mul(k * l, x)
      decreases if k < 0 then 1 - k else k
    {
      if k == 0 {
      } else if k > 0 {
        MulMul(k - 1, l, x);
        MulPlus((k - 1) * l, l, x);
        assert (k - 1) * l + l == k * l;
      } else {
        MulMul(-k, l, x);
        MulNeg(-k * l, x);
        assert -(-k * l) == k * l;
      }
    }

    lemma Double(k: int, x: T)
      requires Valid()
      ensures add(Mul(k, x), Mul(k, x)) == Mul(2 * k, x)
    {
      MulPlus(k, k, x);
    }

    // ---------- linear combinations ----------

    lemma {:induction false} LinAdd(c: seq<int>, d: seq<int>, p: seq<T>)
      requires Valid() && |c| == |d| == |p|
      ensures Lin(Sums(c, d), p) == add(Lin(c, p), Lin(d, p))
    {
      if |c| == 0 {
        Zero(zero);
      } else {
        LinAdd(c[1..], d[1..], p[1..]);
        assert Sums(c, d)[1..] == Sums(c[1..], d[1..]);
        MulPlus(c[0], d[0], p[0]);
        Swap(Mul(c[0], p[0]), Mul(d[0], p[0]), Lin(c[1..], p[1..]), Lin(d[1..], p[1..]));
      }
    }

    lemma {:induction false} LinScale(k: int, c: seq<int>, p: seq<T>)
      requires Valid() && |c| == |p|
      ensures Lin(Scaled(k, c), p) == Mul(k, Lin(c, p))
    {
      if |c| == 0 {
        MulOfZero(k);
      } else {
        LinScale(k, c[1..], p[1..]);
        assert Scaled(k, c)[1..] == Scaled(k, c[1..]);
        MulMul(k, c[0], p[0]);
        MulAdd(k, Mul(c[0], p[0]), Lin(c[1..], p[1..]));
      }
    }

    lemma {:induction false} LinConcat(c: seq<int>, d: seq<int>, p: seq<T>, q: seq<T>)
      requires Valid() && |c| == |p| && |d| == |q|
      ensures Lin(c + d, p + q) == add(Lin(c, p), Lin(d, q))
    {
      if |c| == 0 {
        assert c + d == d && p + q == q;
        Zero(Lin(d, q));
      } else {
        LinConcat(c[1..], d, p[1..], q);
        assert (c + d)[1..] == c[1..] + d && (p + q)[1..] == p[1..] + q;
        Assoc(Mul(c[0], p[0]), Lin(c[1..], p[1..]), Lin(d, q));
      }
    }

    lemma LinOne(k: int, x: T)
      requires Valid()
      ensures Lin([k], [x]) == Mul(k, x)
    {
      assert [k][1..] == [] && [x][1..] == [];
      Zero(Mul(k, x));
    }

    lemma LinSnoc(c: seq<int>, p: seq<T>, k: int, x: T)
      requires Valid() && |c| == |p|
      ensures Lin(c + [k], p + [x]) == add(Lin(c, p), Mul(k, x))
    {
      LinConcat(c, [k], p, [x]);
      LinOne(k, x);
    }

    /** Adding x to one entry adds its multiple. */
    lemma {:induction false} LinUpdate(c: seq<int>, p: seq<T>, i: nat, x: T)
      requires Valid() && |c| == |p| && i < |c|
      ensures Lin(c, p[i := add(p[i], x)]) == add(Lin(c, p), Mul(c[i], x))
    {
      if i == 0 {
        MulAdd(c[0], p[0], x);
        Slide(Mul(c[0], p[0]), Mul(c[0], x), Lin(c[1..], p[1..]));
        assert p[0 := add(p[0], x)][1..] == p[1..];
      } else {
        LinUpdate(c[1..], p[1..], i - 1, x);
        assert p[i := add(p[i], x)][1..] == p[1..][i - 1 := add(p[i], x)];
        Assoc(Mul(c[0], p[0]), Lin(c[1..], p[1..]), Mul(c[i], x));
      }
    }

    lemma {:induction false} LinZeroPoints(c: seq<int>, p: seq<T>)
      requires Valid() && |c| == |p| && forall i :: 0 <= i < |p| ==> p[i] == zero
      ensures Lin(c, p) == zero
    {
      if |c| != 0 {
        LinZeroPoints(c[1..], p[1..]);
        MulOfZero(c[0]);
        Zero(zero);
      }
    }

    lemma {:induction false} LinZeroScalars(c: seq<int>, p: seq<T>)
      requires Valid() && |c| == |p| && forall i :: 0 <= i < |c| ==> c[i] == 0
      ensures Lin(c, p) == zero
    {
      if |c| != 0 {
        LinZeroScalars(c[1..], p[1..]);
        Zero(zero);
      }
    }
  }

  function Sums(c: seq<int>, d: seq<int>): (s: seq<int>)
    requires |c| == |d|
  {
    seq(|c|, i requires 0 <= i < |c| => c[i] + d[i])
  }

  function Scaled(k: int, c: seq<int>): (s: seq<int>) {
    seq(|c|, i requires 0 <= i < |c| => k * c[i])
  }
}
