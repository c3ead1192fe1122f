/** Signed-digit recodings of scalars: windowed NAF, fixed windows with skew, and the constant-time variant. */
module Recoding {
  import opened Integers

  /** The secp256k1 group order. */
  const N: int := 0xFFFFFFFF_FFFFFFFF_FFFFFFFF_FFFFFFFE_BAAEDCE6_AF48A03B_BFD25E8C_D0364141

  /** sum of d[i] 2^(w i) */
  function DigitSum(d: seq<int>, w: nat): int {
    if |d| == 0 then 0 else d[0] + Pow2(w) * DigitSum(d[1..], w)
  }

  /** count bits of s from position off */
  function Bits(s: nat, off: nat, count: nat): (b: int)
    ensures 0 <= b < Pow2(count)
  {
    (s / Pow2(off)) % Pow2(count)
  }

  function Zeros(n: nat): (z: seq<int>)
    ensures |z| == n && forall i :: 0 <= i < n ==> z[i] == 0
  {
    seq(n, _ => 0)
  }

  predicate OddOrZero(x: int) {
    x == 0 || x % 2 == 1
  }

  // ---------- digit sums and bits ----------

  lemma {:induction false} DigitSumSnoc(d: seq<int>, x: int, w: nat)
    ensures DigitSum(d + [x], w) == DigitSum(d, w) + x * Pow2(w * |d|)
  {
    if |d| == 0 {
      assert (d + [x])[1..] == [];
    } else {
      DigitSumSnoc(d[1..], x, w);
      assert (d + [x])[1..] == d[1..] + [x];
      Pow2Add(w, w * (|d| - 1));
      assert w * |d| == w + w * (|d| - 1);
      Distribute(Pow2(w), DigitSum(d[1..], w), x, Pow2(w * (|d| - 1)));
    }
  }

  lemma Distribute(p: int, a: int, x: int, q: int)
    ensures p * (a + x * q) == p * a + x * (p * q)
  {
  }

  lemma {:induction false} DigitSumZeros(d: seq<int>, z: nat, w: nat)
    ensures DigitSum(d + Zeros(z), w) == DigitSum(d, w)
    decreases z
  {
    if z == 0 {
      assert d + Zeros(0) == d;
    } else {
      DigitSumZeros(d, z - 1, w);
      assert d + Zeros(z) == (d + Zeros(z - 1)) + [0];
      DigitSumSnoc(d + Zeros(z - 1), 0, w);
    }
  }

  /** The bottom off + count bits are the bottom off bits and the next count. */
  lemma BitsSplit(s: nat, off: nat, count: nat)
    ensures s % Pow2(off + count) == s % Pow2(off) + Bits(s, off, count) * Pow2(off)
  {
    hide Pow2;
    Pow2Add(off, count);
    ModProduct(s, Pow2(off), Pow2(count));
  }

  lemma ModProduct(s: nat, p: int, q: int)
    requires p > 0 && q > 0
    ensures p * q > 0
    ensures s % (p * q) == s % p + ((s / p) % q) * p
  {
    var h, l := s / p, s % p;
    var hh, hl := h / q, h % q;
    MulMono(1, q, p);
    MulMono(hl + 1, q, p);
    MulMono(0, hl, p);
    RegroupQuotient(p, q, hh, hl);
    DivModUnique(s, p * q, hh, l + hl * p);
  }

  lemma ModSmall(s: nat, p: nat)
    requires s < p
    ensures s % p == s
  {
  }

  // ---------- windowed NAF ----------

  function Signed(negative: bool, x: int): int {
    if negative then -x else x
  }

  /** Scalars from 2^255 up stand for negative numbers. */
  function SignedScalar(a: int): int {
    if a >= Pow2(255) then a - N else a
  }

  /** Nonzero digits are odd, small, and at least w apart. */
  predicate Naf(d: seq<int>, w: nat)
    requires w >= 1
  {
    && (forall i :: 0 <= i < |d| ==> OddOrZero(d[i]) && -Pow2(w - 1) < d[i] < Pow2(w - 1))
    && (forall i, j :: 0 <= i < j < |d| && d[i] != 0 && d[j] != 0 ==> j - i >= w)
  }

  lemma LowestBit(s: nat, bit: nat, now: nat)
    requires now >= 1
    ensures Bits(s, bit, now) % 2 == Bits(s, bit, 1)
  {
    var h := s / Pow2(bit);
    assert Pow2(now) == 2 * Pow2(now - 1) && Pow2(1) == 2;
    ModTwice(h, Pow2(now - 1));
  }

  lemma ModTwice(h: nat, q: int)
    requires q > 0
    ensures (h % (2 * q)) % 2 == h % 2
  {
    var k, r := h / (2 * q), h % (2 * q);
    assert h == (2 * q) * k + r;
    assert (2 * q) * k == 2 * (q * k);
  }

  /** (word >> (w-1)) & 1 */
  function NafCarry(word: int, w: nat): int
    requires w >= 1
  {
    (word / Pow2(w - 1)) % 2
  }

  function NafDigit(word: int, w: nat): int
    requires w >= 1
  {
    word - NafCarry(word, w) * Pow2(w)
  }

  /** The carry rule on numbers: word is odd and below n; half is 2^(w-1), and either the window is full or n <= half. */
  lemma CarryRule(word: int, n: int, half: int, full: int)
    requires 0 <= word < n && word % 2 == 1 && half > 0 && half % 2 == 0 && full == 2 * half
    requires n <= half || n == full
    ensures var carry := (word / half) % 2;
      && 0 <= carry <= 1
      && (n <= half ==> carry == 0)
      && -half < word - carry * full < half
      && (word - carry * full) % 2 == 1
  {
    if word >= half {
      DivModUnique(word, half, 1, word - half);
    } else {
      DivModUnique(word, half, 0, word);
    }
  }

  /** The word read at one position, with its carry: what the digit and the next carry are. */
  lemma NafWord(s: nat, bit: nat, now: nat, w: nat, carry: nat, word: int)
    requires 1 <= now <= w && w >= 2 && carry <= 1
    requires word == Bits(s, bit, now) + carry && Bits(s, bit, 1) != carry
    ensures 0 <= NafCarry(word, w) <= 1
    ensures now < w ==> NafCarry(word, w) == 0
    ensures -Pow2(w - 1) < NafDigit(word, w) < Pow2(w - 1) && NafDigit(word, w) % 2 == 1
    ensures word < Pow2(now)
  {
    hide Pow2, Bits, NafCarry, NafDigit;
    LowestBit(s, bit, now);
    OneBit(s, bit);
    if now < w {
      Pow2Monotone(now, w - 1);
    }
    OddWord(Bits(s, bit, now), Bits(s, bit, 1), carry, Pow2(now), now);
    Pow2Down(w);
    Pow2Down(w - 1);
    CarryRule(word, Pow2(now), Pow2(w - 1), Pow2(w));
    NafDigitIs(word, w);
  }

  lemma NafDigitIs(word: int, w: nat)
    requires w >= 1
    ensures NafCarry(word, w) == (word / Pow2(w - 1)) % 2
    ensures NafDigit(word, w) == word - NafCarry(word, w) * Pow2(w)
  {
  }

  /** A word whose lowest bit differs from the carry becomes odd and stays in its window. */
  lemma OddWord(b: int, low: int, carry: int, p: int, now: nat)
    requires now >= 1 && p == Pow2(now) && 0 <= b < p && b % 2 == low
    requires 0 <= low <= 1 && 0 <= carry <= 1 && low != carry
    ensures 0 <= b + carry < p && (b + carry) % 2 == 1
  {
  }

  lemma OneBit(s: nat, bit: nat)
    ensures 0 <= Bits(s, bit, 1) <= 1
  {
  }

  /** The digits written so far, with the carry, make up the bottom bits of s. */
  ghost predicate NafPrefix(d: seq<int>, s: nat, carry: int, negative: bool) {
    DigitSum(d, 1) == Signed(negative, s % Pow2(|d|) - carry * Pow2(|d|))
  }

  lemma NafSkip(d: seq<int>, s: nat, carry: int, negative: bool)
    requires NafPrefix(d, s, carry, negative) && Bits(s, |d|, 1) == carry
    ensures NafPrefix(d + [0], s, carry, negative)
  {
    hide Pow2, Bits, DigitSum;
    DigitSumSnoc(d, 0, 1);
    BitsSplit(s, |d|, 1);
    Pow2Down(|d| + 1);
  }

  lemma NafStep(d: seq<int>, s: nat, carry: int, carry': int, negative: bool, now: nat, w: nat, word: int)
    requires NafPrefix(d, s, carry, negative) && 1 <= now <= w
    requires word == Bits(s, |d|, now) + carry && carry' == NafCarry(word, w) && (now < w ==> carry' == 0)
    ensures NafPrefix(d + [Signed(negative, NafDigit(word, w))] + Zeros(now - 1), s, carry', negative)
  {
    hide Pow2, Bits, DigitSum, NafCarry, Signed;
    var n := |d|;
    var x := Signed(negative, NafDigit(word, w));
    var q := if now == w then Pow2(w) else Pow2(now);
    DigitSumSnoc(d, x, 1);
    DigitSumZeros(d + [x], now - 1, 1);
    BitsSplit(s, n, now);
    Pow2Add(n, now);
    SignedAlgebra(negative, s % Pow2(n), Bits(s, n, now), carry, carry', Pow2(n), q);
  }

  lemma SignedAlgebra(negative: bool, l: int, b: int, c: int, c': int, p: int, q: int)
    ensures Signed(negative, l - c * p) + Signed(negative, b + c - c' * q) * p
      == Signed(negative, (l + b * p) - c' * (p * q))
  {
  }

  /** Every nonzero digit has its window before the end. */
  predicate Room(d: seq<int>, w: nat) {
    forall i :: 0 <= i < |d| && d[i] != 0 ==> i + w <= |d|
  }

  lemma NafExtend(d: seq<int>, x: int, z: nat, w: nat)
    requires w >= 1 && Naf(d, w) && Room(d, w)
    requires OddOrZero(x) && -Pow2(w - 1) < x < Pow2(w - 1)
    ensures Naf(d + [x] + Zeros(z), w)
    ensures z >= w - 1 || x == 0 ==> Room(d + [x] + Zeros(z), w)
  {
    hide Pow2;
    Pow2Positive(w - 1);
  }

  /** A digit and the zeros of its window are written. */
  lemma NafWindow(d: seq<int>, s: nat, carry: nat, negative: bool, now: nat, w: nat, word: int)
    requires 1 <= now <= w && w >= 2 && carry <= 1
    requires NafPrefix(d, s, carry, negative) && Naf(d, w) && Room(d, w)
    requires word == Bits(s, |d|, now) + carry && Bits(s, |d|, 1) != carry
    ensures var d' := d + [Signed(negative, NafDigit(word, w))] + Zeros(now - 1);
      NafPrefix(d', s, NafCarry(word, w), negative) && Naf(d', w) && (now == w ==> Room(d', w))
  {
    hide Pow2, Bits, NafPrefix, NafCarry, NafDigit, Naf, Room;
    NafWord(s, |d|, now, w, carry, word);
    NafStep(d, s, carry, NafCarry(word, w), negative, now, w, word);
    NafExtend(d, Signed(negative, NafDigit(word, w)), now - 1, w);
  }

  lemma Pow2Positive(n: nat)
    ensures Pow2(n) > 0
  {
  }

  lemma TopBit(a: nat)
    requires a < TWO256
    ensures Bits(a, 255, 1) == 1 <==> a >= TWO255
  {
    hide Pow2;
    Pow2At256();
    Pow2At16();
    Pow2Down(2);
    if a >= TWO255 {
      DivModUnique(a, TWO255, 1, a - TWO255);
    } else {
      DivModUnique(a, TWO255, 0, a);
    }
  }

  /** Bits above the length of s are zero. */
  lemma HighBits(s: nat, off: nat, count: nat, n: nat)
    requires off + count <= n + 1 && n >= off && s < Pow2(n)
    ensures Bits(s, off, count) < Pow2(n - off)
  {
    hide Pow2;
    Pow2Add(off, n - off);
    var h := s / Pow2(off);
    assert s == Pow2(off) * h + s % Pow2(off);
    if h >= Pow2(n - off) {
      MulMono(Pow2(n - off), h, Pow2(off));
    }
    Pow2Monotone(0, n - off);
    ModAtMost(h, Pow2(count));
  }

  lemma ModAtMost(h: nat, p: int)
    requires p > 0
    ensures h % p <= h
  {
  }

  /** Once the input fits, the last window leaves no carry. */
  lemma NoFinalCarry(s: nat, bit: nat, now: nat, w: nat, carry: nat, word: int, len: nat)
    requires bit + now == len && 1 <= now <= w && w >= 2 && carry <= 1 && s < Pow2(len - 1)
    requires word == Bits(s, bit, now) + carry && Bits(s, bit, 1) != carry
    ensures NafCarry(word, w) == 0
  {
    hide Pow2, Bits, NafCarry;
    NafWord(s, bit, now, w, carry, word);
    if now == w {
      LastWord(s, bit, w, carry, word);
      SmallWord(word, w);
    }
  }

  /** A last word of full width stays in the lower half of its window. */
  lemma LastWord(s: nat, bit: nat, w: nat, carry: nat, word: int)
    requires w >= 2 && carry <= 1 && s < Pow2(bit + w - 1)
    requires word == Bits(s, bit, w) + carry && Bits(s, bit, 1) != carry
    ensures 0 <= word < Pow2(w - 1)
  {
    hide Pow2, Bits;
    HighBits(s, bit, w, bit + w - 1);
    LowestBit(s, bit, w);
    OneBit(s, bit);
    Pow2Down(w - 1);
    BitsNonnegative(s, bit, w);
    EvenOrBelow(Bits(s, bit, w), carry, Pow2(w - 2));
  }

  lemma BitsNonnegative(s: nat, off: nat, count: nat)
    ensures Bits(s, off, count) >= 0
  {
  }

  /** What is below an even bound and does not end in the carry stays below it with the carry. */
  lemma EvenOrBelow(b: int, carry: int, half: int)
    requires b < 2 * half && 0 <= carry <= 1 && b % 2 != carry
    ensures b + carry < 2 * half
  {
  }

  lemma SmallWord(word: nat, w: nat)
    requires w >= 1 && word < Pow2(w - 1)
    ensures NafCarry(word, w) == 0
  {
    hide Pow2;
    DivModUnique(word, Pow2(w - 1), 0, word);
  }

  /** A negated scalar and its magnitude. */
  method SignAndMagnitude(a: int) returns (negative: bool, s: int)
    requires 0 <= a < N
    ensures 0 <= s < N && SignedScalar(a) == Signed(negative, s)
  {
    hide Pow2, Bits;
    Pow2At256();
    TopBit(a);
    negative := Bits(a, 255, 1) == 1;
    s := if negative then N - a else a;
  }

  method EcmultWnaf(wnaf: array<int>, len: nat, a: int, w: nat) returns (bits: nat)
    requires len <= 256 && len <= wnaf.Length && 0 <= a < N && 2 <= w <= 31
    modifies wnaf
    ensures Naf(wnaf[..len], w)
    ensures bits <= len && (forall i :: bits <= i < len ==> wnaf[i] == 0) && (bits > 0 ==> wnaf[bits - 1] != 0)
    ensures len > 0 && -Pow2(len - 1) < SignedScalar(a) < Pow2(len - 1) ==> DigitSum(wnaf[..len], 1) == SignedScalar(a)
    ensures wnaf[len..] == old(wnaf[len..])
  {
    hide Pow2, Bits, DigitSum, NafPrefix, NafCarry, NafDigit, Naf, Room;
    forall i | 0 <= i < len {
      wnaf[i] := 0;
    }
    var negative, s := SignAndMagnitude(a);
    var lastSetBit, bit, carry := -1, 0, 0;
    NafStart(wnaf[..0], s, negative, w);
    while bit < len
      invariant 0 <= bit <= len && 0 <= carry <= 1 && -1 <= lastSetBit < bit
      invariant NafPrefix(wnaf[..bit], s, carry, negative)
      invariant Naf(wnaf[..bit], w) && (Room(wnaf[..bit], w) || bit == len)
      invariant (forall i :: lastSetBit < i < len ==> wnaf[i] == 0) && (lastSetBit >= 0 ==> wnaf[lastSetBit] != 0)
      invariant bit == len > 0 && s < Pow2(len - 1) ==> carry == 0
      invariant wnaf[len..] == old(wnaf[len..])
    {
      if Bits(s, bit, 1) == carry {
        NafSkip(wnaf[..bit], s, carry, negative);
        NafExtend(wnaf[..bit], 0, 0, w);
        assert wnaf[..bit] + [0] + Zeros(0) == wnaf[..bit] + [0] == wnaf[..bit + 1];
        if bit + 1 == len && s < Pow2(len - 1) {
          HighBits(s, bit, 1, len - 1);
          PowZero();
        }
        bit := bit + 1;
      } else {
        var now := if w > len - bit then len - bit else w;
        var word := Bits(s, bit, now) + carry;
        NafWord(s, bit, now, w, carry, word);
        if bit + now == len && s < Pow2(len - 1) {
          NoFinalCarry(s, bit, now, w, carry, word, len);
        }
        ghost var d := wnaf[..bit];
        NafWindow(d, s, carry, negative, now, w, word);
        carry := NafCarry(word, w);
        word := NafDigit(word, w);
        wnaf[bit] := if negative then -word else word;
        assert wnaf[..bit] == d;
        ZeroWindow(wnaf[..], bit, now);
        lastSetBit := bit;
        bit := bit + now;
      }
    }
    bits := lastSetBit + 1;
    if len > 0 && -Pow2(len - 1) < SignedScalar(a) < Pow2(len - 1) {
      Pow2Down(len);
      ModSmall(s, Pow2(len));
      NafEnd(wnaf[..len], s, negative);
    }
  }

  lemma ZeroWindow(a: seq<int>, bit: nat, now: nat)
    requires 1 <= now && bit + now <= |a| && forall i :: bit < i < bit + now ==> a[i] == 0
    ensures a[..bit + now] == a[..bit] + [a[bit]] + Zeros(now - 1)
  {
  }

  lemma PowZero()
    ensures Pow2(0) == 1
  {
  }

  lemma NafStart(d: seq<int>, s: nat, negative: bool, w: nat)
    requires d == [] && w >= 1
    ensures NafPrefix(d, s, 0, negative) && Naf(d, w) && Room(d, w)
  {
  }

  lemma NafEnd(d: seq<int>, s: nat, negative: bool)
    requires NafPrefix(d, s, 0, negative) && s % Pow2(|d|) == s
    ensures DigitSum(d, 1) == Signed(negative, s)
  {
  }
}
