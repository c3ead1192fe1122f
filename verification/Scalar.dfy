/** Scalars modulo the group order on four 64-bit limbs. */
module Scalar {
  import opened Integers
  import opened Recoding

  const W: int := TWO64
  const W2: int := TWO128
  const W3: int := TWO128 * TWO64
  const W4: int := TWO256

  const N0: int := 0xBFD25E8CD0364141
  const N1: int := 0xBAAEDCE6AF48A03B
  const N2: int := 0xFFFFFFFFFFFFFFFE
  const N3: int := 0xFFFFFFFFFFFFFFFF

  // limbs of 2^256 - N
  const NC0: int := 0x402DA1732FC9BEBF
  const NC1: int := 0x4551231950B75FC4
  const NC: int := NC0 + NC1 * W + W2

  // limbs of (N - 1) / 2
  const H0: int := 0xDFE92F46681B20A0
  const H1: int := 0x5D576E7357A4501D
  const H2: int := 0xFFFFFFFFFFFFFFFF
  const H3: int := 0x7FFFFFFFFFFFFFFF

  predicate Word(x: int) {
    0 <= x < W
  }

  predicate Limbs(a: seq<int>) {
    |a| == 4 && forall i :: 0 <= i < 4 ==> Word(a[i])
  }

  function Sum4(a0: int, a1: int, a2: int, a3: int): int {
    a0 + a1 * W + a2 * W2 + a3 * W3
  }

  function Value(a: seq<int>): int
    requires |a| == 4
  {
    Sum4(a[0], a[1], a[2], a[3])
  }

  lemma ValueBounds(a: seq<int>)
    requires Limbs(a)
    ensures 0 <= Value(a) < W4
  {
  }

  lemma Constants()
    ensures Sum4(N0, N1, N2, N3) == N && NC == W4 - N && Sum4(H0, H1, H2, H3) == (N - 1) / 2
  {
  }

  // ---------- comparisons ----------

  method CheckOverflow(a: seq<int>) returns (yes: int)
    requires Limbs(a)
    ensures yes == if Value(a) >= N then 1 else 0
  {
    var no, over := false, false;
    no := no || a[3] < N3;
    no := no || a[2] < N2;
    over := over || (a[2] > N2 && !no);
    no := no || a[1] < N1;
    over := over || (a[1] > N1 && !no);
    over := over || (a[0] >= N0 && !no);
    yes := if over then 1 else 0;
    Compare4(a[0], a[1], a[2], a[3]);
  }

  lemma Compare4(a0: int, a1: int, a2: int, a3: int)
    requires Word(a0) && Word(a1) && Word(a2) && Word(a3)
    ensures Sum4(a0, a1, a2, a3) >= N
      <==> a3 == N3 && (a2 > N2 || (a2 == N2 && (a1 > N1 || (a1 == N1 && a0 >= N0))))
  {
  }

  method IsHigh(a: seq<int>) returns (high: bool)
    requires Limbs(a)
    ensures high <==> Value(a) > (N - 1) / 2
  {
    var yes, no := false, false;
    no := no || a[3] < H3;
    yes := yes || (a[3] > H3 && !no);
    no := no || (a[2] < H2 && !yes);
    no := no || (a[1] < H1 && !yes);
    yes := yes || (a[1] > H1 && !no);
    yes := yes || (a[0] > H0 && !no);
    high := yes;
    CompareHalf(a[0], a[1], a[2], a[3]);
  }

  lemma CompareHalf(a0: int, a1: int, a2: int, a3: int)
    requires Word(a0) && Word(a1) && Word(a2) && Word(a3)
    ensures Sum4(a0, a1, a2, a3) > (N - 1) / 2
      <==> a3 > H3 || (a3 == H3 && a2 == H2 && (a1 > H1 || (a1 == H1 && a0 > H0)))
  {
  }

  method IsZero(a: seq<int>) returns (zero: bool)
    requires Limbs(a)
    ensures zero <==> Value(a) == 0
  {
    zero := a[0] == 0 && a[1] == 0 && a[2] == 0 && a[3] == 0;
  }

  // ---------- chains of carries ----------

  /** Four columns, each the word kept and the carry passed on. */
  lemma Chain(s0: int, s1: int, s2: int, s3: int, d0: int, d1: int, d2: int, d3: int, t1: int, t2: int, t3: int, t4: int)
    requires s0 == d0 + W * t1 && s1 + t1 == d1 + W * t2 && s2 + t2 == d2 + W * t3 && s3 + t3 == d3 + W * t4
    ensures Sum4(s0, s1, s2, s3) == Sum4(d0, d1, d2, d3) + W4 * t4
  {
  }

  lemma SumWords(d0: int, d1: int, d2: int, d3: int)
    requires Word(d0) && Word(d1) && Word(d2) && Word(d3)
    ensures 0 <= Sum4(d0, d1, d2, d3) < W4
  {
  }

  /** The low word of an accumulator and what is left above it. */
  method Extract(c: int) returns (lo: int, hi: int)
    requires 0 <= c < W2
    ensures c == lo + W * hi && Word(lo) && Word(hi)
  {
    lo, hi := c % W, c / W;
  }

  method StoreWords(r: array<int>, d0: int, d1: int, d2: int, d3: int)
    requires r.Length == 4 && Word(d0) && Word(d1) && Word(d2) && Word(d3)
    modifies r
    ensures r[..] == [d0, d1, d2, d3] && Limbs(r[..]) && Value(r[..]) == Sum4(d0, d1, d2, d3)
  {
    r[0], r[1], r[2], r[3] := d0, d1, d2, d3;
    assert r[..] == [d0, d1, d2, d3];
  }

  /** r + overflow (2^256 - N), with the carry out of 2^256 dropped. */
  method Reduce(r: array<int>, overflow: int)
    requires r.Length == 4 && Limbs(r[..]) && 0 <= overflow <= 1
    modifies r
    ensures Limbs(r[..]) && Value(r[..]) == (old(Value(r[..])) + overflow * NC) % W4
  {
    hide Sum4;
    var r0, r1, r2, r3 := r[0], r[1], r[2], r[3];
    assert Word(r0) && Word(r1) && Word(r2) && Word(r3);
    var d0, t1 := Extract(r0 + overflow * NC0);
    var d1, t2 := Extract(t1 + (r1 + overflow * NC1));
    var d2, t3 := Extract(t2 + (r2 + overflow));
    var d3, t4 := Extract(t3 + r3);
    Chain(r0 + overflow * NC0, r1 + overflow * NC1, r2 + overflow, r3, d0, d1, d2, d3, t1, t2, t3, t4);
    SumWords(d0, d1, d2, d3);
    StoreWords(r, d0, d1, d2, d3);
    ReduceSum(r0, r1, r2, r3, overflow);
    DivModUnique(Sum4(r0, r1, r2, r3) + overflow * NC, W4, t4, Sum4(d0, d1, d2, d3));
  }

  lemma ReduceSum(r0: int, r1: int, r2: int, r3: int, o: int)
    ensures Sum4(r0 + o * NC0, r1 + o * NC1, r2 + o, r3) == Sum4(r0, r1, r2, r3) + o * NC
  {
  }

  /** Subtracting N once, when the value is at least N or has a bit at 2^256. */
  lemma ReduceOnce(v: int, overflow: int, r: int)
    requires 0 <= v < 2 * N && 0 <= overflow <= 1 && (overflow == 1 <==> v >= N)
    requires r == (v % W4 + overflow * NC) % W4
    ensures r == v - overflow * N && r == v % N
  {
    Constants();
    if overflow == 1 {
      if v >= W4 {
        DivModUnique(v, W4, 1, v - W4);
        DivModUnique(v - W4 + NC, W4, 0, v - N);
      } else {
        DivModUnique(v, W4, 0, v);
        DivModUnique(v + NC, W4, 1, v - N);
      }
      DivModUnique(v, N, 1, v - N);
    } else {
      DivModUnique(v, W4, 0, v);
      DivModUnique(v, N, 0, v);
    }
  }

  /** r := a + b modulo N; the result says whether N was subtracted. */
  method Add(r: array<int>, a: seq<int>, b: seq<int>) returns (overflow: int)
    requires r.Length == 4 && Limbs(a) && Limbs(b) && Value(a) < N && Value(b) < N
    modifies r
    ensures Limbs(r[..]) && Value(r[..]) == (Value(a) + Value(b)) % N
    ensures overflow == if Value(a) + Value(b) >= N then 1 else 0
  {
    hide Sum4;
    var d0, t1 := Extract(a[0] + b[0]);
    var d1, t2 := Extract(t1 + (a[1] + b[1]));
    var d2, t3 := Extract(t2 + (a[2] + b[2]));
    var d3, t4 := Extract(t3 + (a[3] + b[3]));
    Chain(a[0] + b[0], a[1] + b[1], a[2] + b[2], a[3] + b[3], d0, d1, d2, d3, t1, t2, t3, t4);
    SumOfSums(a, b);
    SumWords(d0, d1, d2, d3);
    StoreWords(r, d0, d1, d2, d3);
    var over := CheckOverflow(r[..]);
    ghost var v := Value(a) + Value(b);
    CarryOrOver(v, Sum4(d0, d1, d2, d3), t4, over);
    overflow := t4 + over;
    Reduce(r, overflow);
    ReduceOnce(v, overflow, Value(r[..]));
  }

  lemma SumOfSums(a: seq<int>, b: seq<int>)
    requires |a| == |b| == 4
    ensures Sum4(a[0] + b[0], a[1] + b[1], a[2] + b[2], a[3] + b[3]) == Value(a) + Value(b)
  {
  }

  lemma CarryOrOver(v: int, s: int, t: int, over: int)
    requires v == s + W4 * t && 0 <= s < W4 && 0 <= v < 2 * N && over == if s >= N then 1 else 0
    ensures 0 <= t + over <= 1 && (t + over == 1 <==> v >= N) && s == v % W4
  {
  }

  /** r := -a modulo N, with 0 for 0 */
  method Negate(r: array<int>, a: seq<int>)
    requires r.Length == 4 && Limbs(a) && Value(a) < N
    modifies r
    ensures Limbs(r[..]) && Value(r[..]) == if Value(a) == 0 then 0 else N - Value(a)
  {
    hide Sum4;
    var zero := IsZero(a);
    ValueBounds(a);
    var d0, t1 := Extract((W - 1 - a[0]) + (N0 + 1));
    var d1, t2 := Extract(t1 + ((W - 1 - a[1]) + N1));
    var d2, t3 := Extract(t2 + ((W - 1 - a[2]) + N2));
    var d3, t4 := Extract(t3 + ((W - 1 - a[3]) + N3));
    Chain((W - 1 - a[0]) + (N0 + 1), (W - 1 - a[1]) + N1, (W - 1 - a[2]) + N2, (W - 1 - a[3]) + N3, d0, d1, d2, d3, t1, t2, t3, t4);
    NegateSum(a);
    SumWords(d0, d1, d2, d3);
    NegateCarry(Value(a), Sum4(d0, d1, d2, d3), t4);
    if zero {
      StoreWords(r, 0, 0, 0, 0);
      ZeroSum();
    } else {
      StoreWords(r, d0, d1, d2, d3);
    }
  }

  lemma ZeroSum()
    ensures Sum4(0, 0, 0, 0) == 0
  {
  }

  lemma NegateSum(a: seq<int>)
    requires |a| == 4
    ensures Sum4((W - 1 - a[0]) + (N0 + 1), (W - 1 - a[1]) + N1, (W - 1 - a[2]) + N2, (W - 1 - a[3]) + N3) == W4 + N - Value(a)
  {
  }

  lemma NegateCarry(v: int, s: int, t: int)
    requires W4 + N - v == s + W4 * t && 0 <= s < W4 && 0 <= v < N
    ensures v != 0 ==> s == N - v && t == 1
  {
  }

  /** Negate when the flag is set; the result is the sign applied. */
  method CondNegate(r: array<int>, flag: bool) returns (sign: int)
    requires r.Length == 4 && Limbs(r[..]) && Value(r[..]) < N
    modifies r
    ensures Limbs(r[..]) && sign == if flag then -1 else 1
    ensures Value(r[..]) == if flag && old(Value(r[..])) != 0 then N - old(Value(r[..])) else old(Value(r[..]))
  {
    if flag {
      Negate(r, r[..]);
    }
    sign := if flag then -1 else 1;
  }
}
