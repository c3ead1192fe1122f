/** Shifts of limb numbers: the rounded product shift, and the small right shift of the recodings. */
module ScalarShift {
  import opened Integers
  import opened Recoding
  import opened Scalar
  import opened ScalarMul

  /** A number of any length on 64-bit limbs. */
  function Words(h: seq<int>): int {
    if |h| == 0 then 0 else h[0] + W * Words(h[1..])
  }

  predicate AllWords(h: seq<int>) {
    forall i :: 0 <= i < |h| ==> Word(h[i])
  }

  /** Limb i of the number shifted right by n < 64 bits: the rest of limb i, and the low bits of the limb above. */
  function ShiftLimb(h: seq<int>, i: nat, n: nat): int
    requires i < |h| && n < 64
  {
    h[i] / Pow2(n) + (if i + 1 < |h| then (h[i + 1] % Pow2(n)) * Pow2(64 - n) else 0)
  }

  function Shifted(h: seq<int>, n: nat): (s: seq<int>)
    requires n < 64
    ensures |s| == |h|
  {
    seq(|h|, i requires 0 <= i < |h| => ShiftLimb(h, i, n))
  }

  lemma PowersMeet(n: nat)
    requires n < 64
    ensures Pow2(n) * Pow2(64 - n) == W
  {
    hide Pow2;
    Pow2Add(n, 64 - n);
    Pow2At64();
  }

  /** One limb: quotient and remainder by 2^n, and the remainder moved to the top of the limb below. */
  lemma LimbSplit(x: int, n: nat)
    requires Word(x) && n < 64
    ensures x == x % Pow2(n) + Pow2(n) * (x / Pow2(n))
    ensures 0 <= x % Pow2(n) < Pow2(n) && 0 <= x / Pow2(n) < Pow2(64 - n)
    ensures 0 <= (x % Pow2(n)) * Pow2(64 - n) <= W - Pow2(64 - n)
  {
    hide Pow2;
    PowersMeet(n);
    SplitBounds(x, Pow2(n), Pow2(64 - n));
  }

  lemma SplitBounds(x: int, p: int, q: int)
    requires Word(x) && p > 0 && q > 0 && p * q == W
    ensures x == x % p + p * (x / p) && 0 <= x % p < p && 0 <= x / p < q
    ensures 0 <= (x % p) * q <= W - q
  {
  }

  /** Shifting all limbs divides the number. */
  lemma {:induction false} ShiftedIsQuotient(h: seq<int>, n: nat)
    requires AllWords(h) && n < 64 && |h| > 0
    ensures AllWords(Shifted(h, n))
    ensures Words(h) == h[0] % Pow2(n) + Pow2(n) * Words(Shifted(h, n))
    decreases |h|
  {
    hide Pow2;
    LimbSplit(h[0], n);
    var s := Shifted(h, n);
    if |h| == 1 {
      assert s[1..] == [] && h[1..] == [];
      assert Words(s) == s[0] + W * Words(s[1..]);
    } else {
      var t := h[1..];
      ShiftedIsQuotient(t, n);
      assert s[1..] == Shifted(t, n);
      LimbSplit(h[1], n);
      PowersMeet(n);
      ShiftAlgebra(h[0] % Pow2(n), h[0] / Pow2(n), t[0] % Pow2(n), Words(Shifted(t, n)), Pow2(n), Pow2(64 - n));
      forall i | 0 <= i < |s|
        ensures Word(s[i])
      {
        if i > 0 {
          assert s[i] == s[1..][i - 1];
        }
      }
    }
  }

  lemma ShiftAlgebra(r0: int, q0: int, r1: int, rest: int, p: int, p': int)
    requires p * p' == W
    ensures (r0 + p * q0) + W * (r1 + p * rest) == r0 + p * ((q0 + r1 * p') + W * rest)
  {
  }

  lemma ShiftedDivides(h: seq<int>, n: nat)
    requires AllWords(h) && n < 64 && |h| > 0
    ensures Words(Shifted(h, n)) == Words(h) / Pow2(n)
    ensures Words(h) % Pow2(n) == h[0] % Pow2(n)
  {
    hide Pow2, Words, Shifted;
    ShiftedIsQuotient(h, n);
    LimbSplit(h[0], n);
    DivModSwap(Words(h), Pow2(n), Words(Shifted(h, n)), h[0] % Pow2(n));
  }

  lemma WordsOf4(h: seq<int>)
    requires |h| == 4
    ensures Words(h) == Value(h)
  {
    assert Words(h[3..]) == h[3] + W * Words(h[4..]);
    assert Words(h[2..]) == h[2] + W * Words(h[3..]);
    assert Words(h[1..]) == h[1] + W * Words(h[2..]);
  }

  /** Shift right in place by up to 15 bits; the bits shifted out are the result. */
  method ShrInt(r: array<int>, n: nat) returns (ret: int)
    requires r.Length == 4 && Limbs(r[..]) && 0 < n < 16
    modifies r
    ensures ret == old(Value(r[..])) % Pow2(n)
    ensures Limbs(r[..]) && Value(r[..]) == old(Value(r[..])) / Pow2(n)
  {
    hide Pow2, Value;
    ghost var h := r[..];
    ret := r[0] % Pow2(n);
    // word arithmetic drops the bits of the left shift above 64
    var d0 := r[0] / Pow2(n) + (r[1] % Pow2(n)) * Pow2(64 - n);
    var d1 := r[1] / Pow2(n) + (r[2] % Pow2(n)) * Pow2(64 - n);
    var d2 := r[2] / Pow2(n) + (r[3] % Pow2(n)) * Pow2(64 - n);
    var d3 := r[3] / Pow2(n);
    r[0], r[1], r[2], r[3] := d0, d1, d2, d3;
    assert r[..] == Shifted(h, n);
    ShiftedDivides(h, n);
    WordsOf4(h);
    WordsOf4(r[..]);
    ShiftedIsQuotient(h, n);
  }

  // ---------- the rounded product shift ----------

  lemma {:induction false} WordsSplit(h: seq<int>, k: nat)
    requires AllWords(h) && k <= |h|
    ensures Words(h) == Words(h[..k]) + Pow2(64 * k) * Words(h[k..])
    ensures 0 <= Words(h[..k]) < Pow2(64 * k)
    decreases k
  {
    hide Pow2;
    if k == 0 {
      PowZero();
      assert h[0..] == h && h[..0] == [];
    } else {
      WordsSplit(h[1..], k - 1);
      assert h[1..][..k - 1] == h[..k][1..] && h[1..][k - 1..] == h[k..];
      Pow2Add(64, 64 * (k - 1));
      Pow2At64();
      SplitAlgebra(h[0], Words(h[1..][..k - 1]), Pow2(64 * (k - 1)), Words(h[k..]));
    }
  }

  lemma SplitAlgebra(x: int, low: int, p: int, high: int)
    requires Word(x) && 0 <= low < p
    ensures x + W * (low + p * high) == (x + W * low) + (W * p) * high
    ensures 0 <= x + W * low < W * p
  {
  }

  lemma WordsOf8(l: seq<int>)
    requires |l| == 8
    ensures Words(l) == Sum8(l)
  {
    assert Words(l[7..]) == l[7] + W * Words(l[8..]);
    assert Words(l[6..]) == l[6] + W * Words(l[7..]);
    assert Words(l[5..]) == l[5] + W * Words(l[6..]);
    assert Words(l[4..]) == l[4] + W * Words(l[5..]);
    assert Words(l[3..]) == l[3] + W * Words(l[4..]);
    assert Words(l[2..]) == l[2] + W * Words(l[3..]);
    assert Words(l[1..]) == l[1] + W * Words(l[2..]);
  }

  /** l / 2^shift, and the bit just below. */
  lemma QuotientAt(l: seq<int>, limbs: nat, n: nat)
    requires AllWords(l) && limbs < |l| && n < 64
    ensures Words(l) / Pow2(64 * limbs + n) == Words(Shifted(l[limbs..], n))
  {
    hide Pow2, Words, Shifted;
    WordsSplit(l, limbs);
    ShiftedDivides(l[limbs..], n);
    DivModSwap(Words(l), Pow2(64 * limbs), Words(l[limbs..]), Words(l[..limbs]));
    QuotientOfQuotient(Words(l), Pow2(64 * limbs), Pow2(n));
    Pow2Add(64 * limbs, n);
  }

  lemma {:induction false} Nonnegative(l: seq<int>)
    requires AllWords(l)
    ensures Words(l) >= 0
    decreases |l|
  {
    if |l| > 0 {
      Nonnegative(l[1..]);
    }
  }

  /** Rounding to nearest is the quotient plus the bit below it. */
  lemma RoundUp(x: nat, shift: nat)
    requires shift >= 1
    ensures (x + Pow2(shift - 1)) / Pow2(shift) == x / Pow2(shift) + Bits(x, shift - 1, 1)
  {
    hide Pow2;
    Pow2Down(shift);
    Pow2Down(1);
    PowZero();
    HalfUp(x, Pow2(shift - 1));
  }

  lemma HalfUp(x: nat, p: int)
    requires p > 0
    ensures (x + p) / (2 * p) == x / (2 * p) + (x / p) % 2
  {
    var h, l := x / p, x % p;
    var hh, hl := h / 2, h % 2;
    HalfParts(x, p, h, l, hh, hl);
    DivModSwap(x, 2 * p, hh, if hl == 0 then l else p + l);
    DivModSwap(x + p, 2 * p, hh + hl, if hl == 0 then p + l else l);
  }

  lemma HalfParts(x: int, p: int, h: int, l: int, hh: int, hl: int)
    requires x == p * h + l && h == 2 * hh + hl && 0 <= hl <= 1
    ensures x == (if hl == 0 then l else p + l) + (2 * p) * hh
    ensures x + p == (if hl == 0 then p + l else l) + (2 * p) * (hh + hl)
  {
    var y := p * hh;
    assert (2 * p) * hh == 2 * y;
    if hl == 0 {
      assert p * h == 2 * y;
    } else {
      assert p * h == 2 * y + p;
      assert (2 * p) * (hh + 1) == 2 * y + 2 * p;
    }
  }

  /** The four limbs kept, limb by limb with the tests of the source. */
  function ShiftWord(l: seq<int>, k: nat, shift: nat): int
    requires |l| == 8 && 256 <= shift && k < 4
  {
    var limbs, low := shift / 64, shift % 64;
    if k + limbs >= 8 then 0
    else l[k + limbs] / Pow2(low) + (if k + 1 + limbs < 8 && low != 0 then (l[k + 1 + limbs] % Pow2(low)) * Pow2(64 - low) else 0)
  }

  /** The limbs above the shift, padded with zeros to four. */
  lemma ShiftWords(l: seq<int>, shift: nat)
    requires AllWords(l) && |l| == 8 && 256 <= shift < 512
    ensures var d := [ShiftWord(l, 0, shift), ShiftWord(l, 1, shift), ShiftWord(l, 2, shift), ShiftWord(l, 3, shift)];
      Limbs(d) && Value(d) == Words(l) / Pow2(shift)
  {
    hide Pow2, Value;
    var limbs, low := shift / 64, shift % 64;
    var h := l[limbs..];
    var d := [ShiftWord(l, 0, shift), ShiftWord(l, 1, shift), ShiftWord(l, 2, shift), ShiftWord(l, 3, shift)];
    ShiftedIsQuotient(h, low);
    QuotientAt(l, limbs, low);
    PowZero();
    forall k | 0 <= k < 4
      ensures d[k] == if k < |h| then Shifted(h, low)[k] else 0
    {
      if k + 1 < |h| {
        assert h[k + 1] == l[k + 1 + limbs];
      }
    }
    assert d == Shifted(h, low) + Zeros(4 - |h|);
    PadZeros(Shifted(h, low), 4 - |h|);
    WordsOf4(d);
  }

  lemma {:induction false} PadZeros(h: seq<int>, z: nat)
    ensures Words(h + Zeros(z)) == Words(h)
    decreases |h|, z
  {
    if |h| > 0 {
      PadZeros(h[1..], z);
      assert (h + Zeros(z))[1..] == h[1..] + Zeros(z);
    } else if z > 0 {
      PadZeros([], z - 1);
      assert ([] + Zeros(z))[1..] == [] + Zeros(z - 1);
    } else {
      assert h + Zeros(0) == h;
    }
  }

  /** r := a b / 2^shift, rounded to nearest */
  method MulShiftVar(r: array<int>, a: seq<int>, b: seq<int>, shift: nat)
    requires r.Length == 4 && Limbs(a) && Limbs(b) && Value(a) < N && Value(b) < N && 256 <= shift < 512
    modifies r
    ensures Limbs(r[..]) && Value(r[..]) == (Value(a) * Value(b) + Pow2(shift - 1)) / Pow2(shift) < N
  {
    hide Pow2, Value, ShiftWord, Words8, Bits;
    var l := new int[8];
    Mul512(l, a, b);
    ProductWords(l[..], a, b);
    ShiftWords(l[..], shift);
    var d0, d1, d2, d3 := ShiftWord(l[..], 0, shift), ShiftWord(l[..], 1, shift), ShiftWord(l[..], 2, shift), ShiftWord(l[..], 3, shift);
    var bit := BitOf(l[..], shift - 1);
    RoundUp(Words(l[..]), shift);
    ShiftFits(a, b, shift);
    AddBit(r, [d0, d1, d2, d3], bit);
  }

  /** The rounded quotient of two scalars below N is below N. */
  lemma ShiftFits(a: seq<int>, b: seq<int>, shift: nat)
    requires Limbs(a) && Limbs(b) && Value(a) < N && Value(b) < N && 256 <= shift
    ensures (Value(a) * Value(b) + Pow2(shift - 1)) / Pow2(shift) < N
  {
    hide Pow2, Value;
    ValueBounds(a);
    ValueBounds(b);
    ProductBelow(Value(a), Value(b));
    Pow2Down(shift);
    Pow2Monotone(256, shift);
    Pow2At256();
    QuotientBelow(Value(a) * Value(b) + Pow2(shift - 1), Pow2(shift - 1));
  }

  lemma ProductBelow(x: int, y: int)
    requires 0 <= x < N && 0 <= y < N
    ensures x * y <= (N - 1) * (N - 1)
  {
    MulMono(x, N - 1, y);
    MulMono(y, N - 1, N - 1);
  }

  lemma QuotientBelow(x: int, half: int)
    requires x <= (N - 1) * (N - 1) + half && 2 * half >= W4
    ensures x / (2 * half) < N
  {
  }

  lemma ProductWords(l: seq<int>, a: seq<int>, b: seq<int>)
    requires |a| == |b| == 4 && Words8(l) && Sum8(l) == Value(a) * Value(b)
    ensures AllWords(l) && |l| == 8 && Words(l) == Value(a) * Value(b) && Words(l) >= 0
  {
    WordsOf8(l);
    Nonnegative(l);
  }

  /** Bit pos of a limb number. */
  method BitOf(l: seq<int>, pos: nat) returns (bit: int)
    requires AllWords(l) && pos < 64 * |l| && Words(l) >= 0
    ensures bit == Bits(Words(l), pos, 1) && 0 <= bit <= 1
  {
    hide Pow2;
    var limb, low := pos / 64, pos % 64;
    bit := (l[limb] / Pow2(low)) % 2;
    QuotientAt(l, limb, low);
    var h := l[limb..];
    ghost var s := Shifted(h, low);
    assert s[0] == ShiftLimb(h, 0, low);
    TopPartEven(low);
    Pow2Down(1);
    PowZero();
    assert Words(s) == s[0] + W * Words(s[1..]);
    if |h| > 1 {
      EvenMultiple(l[limb] / Pow2(low), h[1] % Pow2(low), Pow2(64 - low), Words(s[1..]));
    } else {
      EvenMultiple(l[limb] / Pow2(low), 0, Pow2(64 - low), Words(s[1..]));
    }
  }

  lemma TopPartEven(n: nat)
    requires n < 64
    ensures Pow2(64 - n) % 2 == 0
  {
  }

  lemma EvenMultiple(x: int, y: int, p: int, z: int)
    requires p % 2 == 0
    ensures (x + y * p + W * z) % 2 == x % 2
  {
    var q := p / 2;
    assert y * p == 2 * (y * q);
  }

  /** Add 0 or 1 at the bottom. */
  method AddBit(r: array<int>, d: seq<int>, bit: int)
    requires r.Length == 4 && Limbs(d) && 0 <= bit <= 1
    requires Value(d) + bit < W4
    modifies r
    ensures Limbs(r[..]) && Value(r[..]) == Value(d) + bit
  {
    hide Sum4;
    var e0, t1 := Extract(d[0] + bit);
    var e1, t2 := Extract(t1 + d[1]);
    var e2, t3 := Extract(t2 + d[2]);
    var e3, t4 := Extract(t3 + d[3]);
    Chain(d[0] + bit, d[1], d[2], d[3], e0, e1, e2, e3, t1, t2, t3, t4);
    SumWords(e0, e1, e2, e3);
    FirstWord(d[0], d[1], d[2], d[3], bit);
    StoreWords(r, e0, e1, e2, e3);
  }

  lemma FirstWord(d0: int, d1: int, d2: int, d3: int, bit: int)
    ensures Sum4(d0 + bit, d1, d2, d3) == Sum4(d0, d1, d2, d3) + bit
  {
  }
}
