/** A curve as the multiplication algorithms see it: a group of order N with a generator and a fast endomorphism. */
module Curves {
  import opened Integers
  import opened Groups
  import opened Recoding
  import opened SplitLambda

  datatype Curve<!T(!new)> = Curve(group: Group<T>, generator: T, endo: T -> T) {

    ghost predicate Valid() {
      && group.Valid()
      && (forall x {:trigger endo(x)} :: endo(x) == group.Mul(LAMBDA, x))
      && (forall x {:trigger group.Mul(N, x)} :: group.Mul(N, x) == group.zero)
    }

    /** Multiples depend on the scalar modulo N only. */
    lemma MulCong(k: int, l: int, x: T)
      requires Valid() && Cong(k, l, N)
      ensures group.Mul(k, x) == group.Mul(l, x)
    {
      hide Cong, Group.Mul;
      var j := CongWitness(k, l, N);
      group.MulPlus(l, j * N, x);
      group.MulMul(j, N, x);
      group.MulOfZero(j);
      group.Zero(group.Mul(l, x));
    }

    lemma MulSigned(k: nat, x: T)
      requires Valid() && k < N
      ensures group.Mul(SignedScalar(k), x) == group.Mul(k, x)
    {
      hide Cong, Group.Mul, Pow2;
      CongIntro(SignedScalar(k), k, N, if SignedScalar(k) == k then 0 else -1);
      MulCong(SignedScalar(k), k, x);
    }

    /** The two halves of a scalar, one against x and one against its image, give the multiple. */
    lemma SplitMul(k: nat, x: T)
      requires Valid() && k < N
      ensures group.add(group.Mul(SignedScalar(First(k)), x), group.Mul(SignedScalar(Second(k)), endo(x))) == group.Mul(k, x)
    {
      hide Cong, Group.Mul, First, Second, SignedScalar;
      MulSigned(First(k), x);
      MulSigned(Second(k), endo(x));
      group.MulMul(Second(k), LAMBDA, x);
      group.MulPlus(First(k), Second(k) * LAMBDA, x);
      SplitRecombines(k);
      MulCong(First(k) + Second(k) * LAMBDA, k, x);
    }

    lemma EndoMul(k: int, x: T)
      requires Valid()
      ensures endo(group.Mul(k, x)) == group.Mul(k, endo(x))
    {
      hide Group.Mul;
      group.MulMul(LAMBDA, k, x);
      group.MulMul(k, LAMBDA, x);
    }
  }

  // ---------- the scalars themselves are such a curve ----------

  type Residue = x: int | 0 <= x < N witness 0

  function AddMod(x: Residue, y: Residue): Residue {
    (x + y) % N
  }

  function NegateResidue(x: Residue): Residue {
    NegateMod(x)
  }

  function TimesLambda(x: Residue): Residue {
    (LAMBDA * x) % N
  }

  function ScalarCurve(): Curve<Residue> {
    Curve(Group<Residue>.Group(0, AddMod, NegateResidue), 1, TimesLambda)
  }

  lemma {:induction false} ScalarMul(k: int, x: Residue)
    ensures ScalarCurve().group.Mul(k, x) == (k * x) % N
    decreases if k < 0 then 1 - k else k
  {
    var g := ScalarCurve().group;
    if k == 0 {
      assert 0 * x == 0;
    } else if k > 0 {
      ScalarMul(k - 1, x);
      SumMod((k - 1) * x, x);
      Products(k, x);
    } else {
      ScalarMul(-k, x);
      NegMod(-k * x);
      Products(k, x);
    }
  }

  lemma Products(k: int, x: int)
    ensures (k - 1) * x + x == k * x && -(-k * x) == k * x
  {
  }

  lemma SumMod(a: int, x: int)
    requires 0 <= x < N
    ensures (a % N + x) % N == (a + x) % N
  {
    var q := a / N;
    assert a == N * q + a % N;
    var s := a % N + x;
    DivModUnique(a + x, N, q + s / N, s % N);
  }

  lemma NegMod(a: int)
    ensures (if a % N == 0 then 0 else N - a % N) == (-a) % N
  {
    var q := a / N;
    assert a == N * q + a % N;
    if a % N == 0 {
      DivModUnique(-a, N, -q, 0);
    } else {
      DivModUnique(-a, N, -q - 1, N - a % N);
    }
  }

  lemma ScalarsAreAGroup()
    ensures ScalarCurve().group.Valid()
  {
    var g := ScalarCurve().group;
    forall x: Residue, y: Residue, z: Residue
      ensures g.add(g.add(x, y), z) == g.add(x, g.add(y, z))
    {
      SumMod(x + y, z);
      SumMod(y + z, x);
    }
    forall x: Residue
      ensures g.add(0, x) == x && g.add(x, g.neg(x)) == 0
    {
      ModSmall(x, N);
    }
  }

  /** The assumptions on a curve are consistent: the integers modulo N meet them. */
  lemma ScalarsAreACurve()
    ensures ScalarCurve().Valid()
  {
    hide Group.Mul, Group.Valid;
    ScalarsAreAGroup();
    var c := ScalarCurve();
    forall x: Residue
      ensures c.endo(x) == c.group.Mul(LAMBDA, x)
      ensures c.group.Mul(N, x) == c.group.zero
    {
      ScalarMul(LAMBDA, x);
      ScalarMul(N, x);
      ModMultiple(x, N);
    }
  }
}
