/** Splitting a scalar along the curve endomorphism into two halves of about 128 bits. */
module SplitLambda {
  import opened Integers
  import opened Recoding

  const LAMBDA: int := 0x5363ad4cc05c30e0a5261c028812645a122e22ea20816678df02967c1b23bd72
  const G1: int := 0x3086D221A7D46BCDE86C90E49284EB153DAA8A1471E8CA7FE893209A45DBB031
  const G2: int := 0xE4437ED6010E88286F547FA90ABFE4C4221208AC9DF506C61571B4AE8AC47F71
  const MINUS_B1: int := 0xE4437ED6010E88286F547FA90ABFE4C3
  const MINUS_B2: int := 0xFFFFFFFFFFFFFFFFFFFFFFFFFFFFFFFE8A280AC50774346DD765CDA83DB1562C
  const K1_BOUND: int := 0xA2A8918CA85BAFE22016D0B917E4DD77
  const K2_BOUND: int := 0x8A65287BD47179FB2BE08846CEA267ED
  const TWO383: int := 0x800000000000000000000000000000000000000000000000000000000000000000000000000000000000000000000000
  const TWO384: int := 0x1000000000000000000000000000000000000000000000000000000000000000000000000000000000000000000000000

  // the reduced lattice basis (A1, -MINUS_B1), (A2, B2)
  const A1: int := 0x3086d221a7d46bcde86c90e49284eb15
  const A2: int := 0x114ca50f7a8e2f3f657c1108d9d44cfd8
  const B2: int := 0x3086d221a7d46bcde86c90e49284eb15

  /** a b / 2^384, rounded to nearest */
  function MulShift384(a: nat, b: nat): nat {
    (a * b + TWO383) / TWO384
  }

  /** The two halves as the source computes them, modulo N. */
  function Second(k: nat): (r2: int)
    ensures 0 <= r2 < N
  {
    ((MulShift384(k, G1) * MINUS_B1) % N + (MulShift384(k, G2) * MINUS_B2) % N) % N
  }

  function First(k: nat): (r1: int)
    ensures 0 <= r1 < N
  {
    (NegateMod((Second(k) * LAMBDA) % N) + k) % N
  }

  function NegateMod(x: int): int {
    if x == 0 then 0 else N - x
  }

  /** The short lattice vector reached from k. */
  function ShortFirst(k: nat): int {
    k - MulShift384(k, G1) * A1 - MulShift384(k, G2) * A2
  }

  function ShortSecond(k: nat): int {
    MulShift384(k, G1) * MINUS_B1 - MulShift384(k, G2) * B2
  }

  // ---------- the rounding error ----------

  lemma Rounded(k: nat, g: nat) returns (e: int)
    ensures 0 <= e < TWO384 && TWO384 * MulShift384(k, g) == k * g + TWO383 - e
  {
    e := (k * g + TWO383) % TWO384;
  }

  lemma FirstBound(k: int, c1: int, c2: int, e1: int, e2: int)
    requires 0 <= k < N && 0 <= e1 < TWO384 && 0 <= e2 < TWO384
    requires TWO384 * c1 == k * G1 + TWO383 - e1 && TWO384 * c2 == k * G2 + TWO383 - e2
    ensures -K1_BOUND < k - c1 * A1 - c2 * A2 < K1_BOUND
  {
  }

  lemma SecondBound(k: int, c1: int, c2: int, e1: int, e2: int)
    requires 0 <= k < N && 0 <= e1 < TWO384 && 0 <= e2 < TWO384
    requires TWO384 * c1 == k * G1 + TWO383 - e1 && TWO384 * c2 == k * G2 + TWO383 - e2
    ensures -K2_BOUND < c1 * MINUS_B1 - c2 * B2 < K2_BOUND
  {
  }

  lemma ShortBounds(k: nat)
    requires k < N
    ensures -K1_BOUND < ShortFirst(k) < K1_BOUND && -K2_BOUND < ShortSecond(k) < K2_BOUND
  {
    hide MulShift384;
    var e1 := Rounded(k, G1);
    var e2 := Rounded(k, G2);
    FirstBound(k, MulShift384(k, G1), MulShift384(k, G2), e1, e2);
    SecondBound(k, MulShift384(k, G1), MulShift384(k, G2), e1, e2);
  }

  // ---------- the residues ----------

  /** The basis lies in the lattice of pairs with a + b lambda divisible by N. */
  lemma BasisInLattice()
    ensures A1 - MINUS_B1 * LAMBDA == -0x4a5ac2bf7b5f37f9f1db10d7a2a9c981 * N
    ensures A2 + B2 * LAMBDA == 0xfce9b1dd4eb7dd2718a2906787061b2 * N
    ensures MINUS_B2 == N - B2
  {
  }

  lemma SecondResidue(k: nat)
    ensures Cong(Second(k), ShortSecond(k), N)
  {
    hide MulShift384, Cong;
    var c1, c2 := MulShift384(k, G1), MulShift384(k, G2);
    CongMod(c1 * MINUS_B1, N);
    CongMod(c2 * MINUS_B2, N);
    CongAdd((c1 * MINUS_B1) % N, c1 * MINUS_B1, (c2 * MINUS_B2) % N, c2 * MINUS_B2, N);
    CongMod((c1 * MINUS_B1) % N + (c2 * MINUS_B2) % N, N);
    CongTrans(Second(k), (c1 * MINUS_B1) % N + (c2 * MINUS_B2) % N, c1 * MINUS_B1 + c2 * MINUS_B2, N);
    CongIntro(c1 * MINUS_B1 + c2 * MINUS_B2, ShortSecond(k), N, c2);
    CongTrans(Second(k), c1 * MINUS_B1 + c2 * MINUS_B2, ShortSecond(k), N);
  }

  lemma FirstIsRemainder(k: nat)
    ensures Cong(First(k), k - Second(k) * LAMBDA, N)
  {
    hide MulShift384, Cong, Second;
    var m := Second(k) * LAMBDA;
    var q := m / N;
    assert m == N * q + m % N;
    CongMod(NegateMod(m % N) + k, N);
    if m % N == 0 {
      CongIntro(NegateMod(m % N) + k, k - m, N, q);
    } else {
      CongIntro(NegateMod(m % N) + k, k - m, N, q + 1);
    }
    CongTrans(First(k), NegateMod(m % N) + k, k - m, N);
  }

  /** The split is a split: the halves recombine to k. */
  lemma SplitRecombines(k: nat)
    ensures Cong(First(k) + Second(k) * LAMBDA, k, N)
  {
    hide MulShift384, Cong, Second, First;
    FirstIsRemainder(k);
    CongIntro(Second(k) * LAMBDA, Second(k) * LAMBDA, N, 0);
    CongAdd(First(k), k - Second(k) * LAMBDA, Second(k) * LAMBDA, Second(k) * LAMBDA, N);
  }

  lemma FirstResidue(k: nat)
    ensures Cong(First(k), ShortFirst(k), N)
  {
    hide MulShift384, Cong, Second, First, ShortSecond, ShortFirst;
    FirstIsRemainder(k);
    SecondResidue(k);
    var c1, c2 := MulShift384(k, G1), MulShift384(k, G2);
    CongIntro(LAMBDA, LAMBDA, N, 0);
    CongMul(Second(k), ShortSecond(k), LAMBDA, LAMBDA, N);
    var j := CongWitness(Second(k) * LAMBDA, ShortSecond(k) * LAMBDA, N);
    LatticeStep(k, c1, c2);
    CongIntro(k - Second(k) * LAMBDA, ShortFirst(k), N, -j + -0x4a5ac2bf7b5f37f9f1db10d7a2a9c981 * c1 + 0xfce9b1dd4eb7dd2718a2906787061b2 * c2);
    CongTrans(First(k), k - Second(k) * LAMBDA, ShortFirst(k), N);
  }

  lemma LatticeStep(k: nat, c1: nat, c2: nat)
    requires c1 == MulShift384(k, G1) && c2 == MulShift384(k, G2)
    ensures k - ShortSecond(k) * LAMBDA == ShortFirst(k) + (-0x4a5ac2bf7b5f37f9f1db10d7a2a9c981 * c1 + 0xfce9b1dd4eb7dd2718a2906787061b2 * c2) * N
  {
  }

  /** A residue of a short number is short, once numbers from 2^255 up count as negative. */
  lemma ShortResidue(r: int, s: int, bound: int)
    requires 0 <= r < N && Cong(r, s, N) && -bound < s < bound && bound <= TWO128
    ensures SignedScalar(r) == s
  {
    Pow2At256();
    if s >= 0 {
      CongUnique(r, s, N);
    } else {
      CongIntro(s, s + N, N, -1);
      CongTrans(r, s, s + N, N);
      CongUnique(r, s + N, N);
    }
  }

  /** Both halves are short: below 2^128 in magnitude, within the documented bounds. */
  lemma SplitIsShort(k: nat)
    requires k < N
    ensures -K1_BOUND < SignedScalar(First(k)) < K1_BOUND
    ensures -K2_BOUND < SignedScalar(Second(k)) < K2_BOUND
    ensures K1_BOUND < TWO128 && K2_BOUND < TWO128
  {
    hide MulShift384, Cong, Second, First, ShortSecond, ShortFirst, SignedScalar;
    ShortBounds(k);
    FirstResidue(k);
    SecondResidue(k);
    ShortResidue(First(k), ShortFirst(k), K1_BOUND);
    ShortResidue(Second(k), ShortSecond(k), K2_BOUND);
  }
}
