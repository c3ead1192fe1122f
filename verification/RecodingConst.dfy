/** The constant-time recoding: every digit is odd and nonzero, and a skew of 1 or 2 is subtracted afterwards. */
module RecodingConst {
  import opened Integers
  import opened Recoding
  import opened RecodingFixed

  const HALF_N: int := (N - 1) / 2

  /** High scalars stand for negative numbers. */
  function SignedHigh(a: int): int {
    if a > HALF_N then a - N else a
  }

  predicate OddDigits(d: seq<int>, w: nat) {
    forall i :: 0 <= i < |d| ==> d[i] % 2 == 1 && -Pow2(w) < d[i] < Pow2(w)
  }

  /** Written digits and the digit still held back make up the low bits of s. */
  ghost predicate ConstPrefix(d: seq<int>, last: int, s: nat, negative: bool, w: nat, off: nat) {
    && off == w * |d|
    && DigitSum(d, w) + Signed(negative, last) * Pow2(off) == Signed(negative, s % Pow2(off + w))
  }

  lemma ConstNext(d: seq<int>, last: int, s: nat, negative: bool, w: nat, off: nat, u: int, even: int)
    requires ConstPrefix(d, last, s, negative, w, off) && u == Bits(s, off + w, w)
    ensures ConstPrefix(d + [Signed(negative, last - even * Pow2(w))], u + even, s, negative, w, off + w)
  {
    hide Pow2, DigitSum, Bits;
    DigitSumSnoc(d, Signed(negative, last - even * Pow2(w)), w);
    BitsSplit(s, off + w, w);
    Pow2Add(off, w);
    ConstAlgebra(negative, DigitSum(d, w), last, even, u, s % Pow2(off + w), Pow2(off), Pow2(w));
    WindowStep(w, |d| + 1);
  }

  lemma ConstAlgebra(negative: bool, sum: int, last: int, even: int, u: int, m: int, p: int, q: int)
    requires sum + Signed(negative, last) * p == Signed(negative, m)
    ensures sum + Signed(negative, last - even * q) * p + Signed(negative, u + even) * (p * q) == Signed(negative, m + u * (p * q))
  {
  }

  lemma DivDiv(s: nat, a: nat, b: nat)
    ensures (s / Pow2(a)) / Pow2(b) == s / Pow2(a + b)
  {
    hide Pow2;
    Pow2Add(a, b);
    QuotientOfQuotient(s, Pow2(a), Pow2(b));
  }

  /** The scalar that is recoded: the magnitude of a plus its skew, with its sign. */
  method SkewedScalar(a: int) returns (negative: bool, skew: int, s: int)
    requires 0 <= a < N
    ensures skew == 1 || skew == 2
    ensures 0 < s < N && s % 2 == 1 && Signed(negative, s) == SignedHigh(a) + skew
  {
    var flip := a > HALF_N;
    var bit := if flip != (a % 2 == 1) then 1 else 0;
    var notNegOne := a != N - 1;
    // adding 2 to minus one would overflow
    s := if notNegOne then a + (if bit == 1 then 2 else 1) else a;
    assert 0 <= s < N;
    s := if flip then N - s else s;
    negative := flip && notNegOne;
    skew := if bit == 1 then 2 else 1;
  }

  method WnafConst(wnaf: array<int>, a: int, w: nat, size: nat) returns (skew: int)
    requires 0 <= a < N && 1 <= w <= 15 && size > 0
    requires WnafSize(size, w) < wnaf.Length
    requires -Pow2(size) < SignedHigh(a) < Pow2(size)
    modifies wnaf
    ensures skew == 1 || skew == 2
    ensures OddDigits(wnaf[..WnafSize(size, w) + 1], w)
    ensures DigitSum(wnaf[..WnafSize(size, w) + 1], w) == SignedHigh(a) + skew
    ensures wnaf[WnafSize(size, w) + 1..] == old(wnaf[WnafSize(size, w) + 1..])
  {
    hide Pow2, DigitSum, Bits, ConstPrefix, OddDigits, WnafSize, SignedHigh;
    var negative, s;
    negative, skew, s := SkewedScalar(a);
    ghost var s0: nat := s;
    ghost var len := WnafSize(size, w);
    var word: nat := 0;
    ConstStart(s0, negative, w);
    DivNonnegative(s, Pow2(w));
    var u := s % Pow2(w);
    s := s / Pow2(w);
    ghost var off: nat := 0;
    assert wnaf[..0] == [];
    // at least one iteration, since size is positive
    while word * w < size
      invariant 0 <= word <= len && off == w * word
      invariant ConstPrefix(wnaf[..word], u, s0, negative, w, off) && OddDigits(wnaf[..word], w)
      invariant 0 <= s == s0 / Pow2(off + w) && OddPositive(u, w)
      invariant word * w >= size ==> word == len
      invariant forall k :: len < k < wnaf.Length ==> wnaf[k] == old(wnaf[k])
    {
      ghost var d := wnaf[..word];
      WindowCount(size, w, word);
      u, s := NextDigit(wnaf, word, u, s, s0, negative, w, off);
      word, off := word + 1, off + w;
    }
    wnaf[word] := Signed(negative, u);
    assert wnaf[..word] == wnaf[..len];
    SkewedBound(SignedHigh(a), skew, s0, negative, Pow2(size));
    ConstEnd(wnaf[..len], u, s0, negative, w, off, size);
    assert wnaf[..len + 1] == wnaf[..len] + [Signed(negative, u)];
  }

  /** One iteration: read the next window, make it odd and settle the digit held back. */
  method NextDigit(wnaf: array<int>, word: nat, last: int, s: nat, ghost s0: nat, negative: bool, w: nat, ghost off: nat)
    returns (u: int, s': nat)
    requires w >= 1 && word < wnaf.Length && OddPositive(last, w) && s == s0 / Pow2(off + w)
    requires ConstPrefix(wnaf[..word], last, s0, negative, w, off) && OddDigits(wnaf[..word], w)
    modifies wnaf
    ensures ConstPrefix(wnaf[..word + 1], u, s0, negative, w, off + w) && OddDigits(wnaf[..word + 1], w)
    ensures s' == s0 / Pow2(off + w + w) && OddPositive(u, w)
    ensures forall k :: word < k < wnaf.Length ==> wnaf[k] == old(wnaf[k])
  {
    hide Pow2, DigitSum, Bits, ConstPrefix, OddDigits;
    NextBits(s0, off + w, w);
    ghost var d, low := wnaf[..word], s % Pow2(w);
    var last';
    u, last', s' := ConstDigit(s, last, w);
    ConstNext(d, last, s0, negative, w, off, low, u - low);
    OddSnoc(d, Signed(negative, last'), w);
    wnaf[word] := Signed(negative, last');
    assert wnaf[..word + 1] == d + [Signed(negative, last')];
  }

  /** One digit: read the next window, make it odd and settle the digit held back. */
  method ConstDigit(s: nat, last: int, w: nat) returns (u: int, last': int, s': nat)
    requires w >= 1 && OddPositive(last, w)
    ensures u == s % Pow2(w) + (if (s % Pow2(w)) % 2 == 0 then 1 else 0)
    ensures last' == last - (if (s % Pow2(w)) % 2 == 0 then 1 else 0) * Pow2(w)
    ensures s' == s / Pow2(w) && OddPositive(u, w)
    ensures last' % 2 == 1 && -Pow2(w) < last' < Pow2(w)
  {
    hide Pow2;
    Pow2Down(w);
    u := s % Pow2(w);
    s' := s / Pow2(w);
    var even := u % 2 == 0;
    u := u + (if even then 1 else 0);
    last' := last - (if even then Pow2(w) else 0);
  }

  lemma NextBits(s0: nat, off: nat, w: nat)
    ensures (s0 / Pow2(off)) % Pow2(w) == Bits(s0, off, w)
    ensures (s0 / Pow2(off)) / Pow2(w) == s0 / Pow2(off + w)
  {
    hide Pow2;
    DivDiv(s0, off, w);
  }

  lemma OddSnoc(d: seq<int>, x: int, w: nat)
    requires OddDigits(d, w) && x % 2 == 1 && -Pow2(w) < x < Pow2(w)
    ensures OddDigits(d + [x], w)
  {
  }

  lemma ConstStart(s: nat, negative: bool, w: nat)
    requires s % 2 == 1 && w >= 1
    ensures ConstPrefix([], s % Pow2(w), s, negative, w, 0)
    ensures OddDigits([], w) && OddPositive(s % Pow2(w), w)
  {
    assert Pow2(0) == 1;
    FirstBits(s, w);
    FirstBits(s, 1);
    LowestBit(s, 0, w);
  }

  lemma WindowCount(size: nat, w: nat, word: nat)
    requires w >= 1 && word * w < size
    ensures word < WnafSize(size, w)
    ensures (word + 1) * w >= size ==> word + 1 == WnafSize(size, w)
    ensures word * w + w == (word + 1) * w == w * (word + 1)
  {
    var len := WnafSize(size, w);
    assert size + w - 1 == w * len + (size + w - 1) % w;
    if word >= len {
      MulMono(len, word, w);
    }
    if word + 1 < len {
      MulMono(word + 2, len, w);
    }
  }

  lemma DivNonnegative(s: nat, p: int)
    requires p > 0
    ensures s / p >= 0
  {
  }

  lemma SkewedBound(x: int, skew: int, s: int, negative: bool, p: int)
    requires -p < x < p && 1 <= skew <= 2 && s > 0 && Signed(negative, s) == x + skew
    ensures s <= p + 1
  {
  }

  lemma ConstEnd(d: seq<int>, u: int, s: nat, negative: bool, w: nat, off: nat, size: nat)
    requires ConstPrefix(d, u, s, negative, w, off) && size <= off && size > 0 && w >= 1
    requires s <= Pow2(size) + 1
    requires OddDigits(d, w) && OddPositive(u, w)
    ensures DigitSum(d + [Signed(negative, u)], w) == Signed(negative, s)
    ensures OddDigits(d + [Signed(negative, u)], w)
    ensures s / Pow2(off + w) == 0
  {
    hide Pow2, DigitSum, OddDigits;
    OddSnoc(d, Signed(negative, u), w);
    DigitSumSnoc(d, Signed(negative, u), w);
    Pow2Monotone(size + 1, off + w);
    Pow2Monotone(1, size);
    Pow2Down(size + 1);
    assert Pow2(1) == 2 by {
      Pow2Down(1);
      PowZero();
    }
    DivModUnique(s, Pow2(off + w), 0, s);
  }
}
