/** The two fixed-window recodings, which allow a small skew to be subtracted afterwards. */
module RecodingFixed {
  import opened Integers
  import opened Recoding

  /** Number of w-bit windows in the given number of bits. */
  function WnafSize(bits: nat, w: nat): nat
    requires w >= 1
  {
    (bits + w - 1) / w
  }

  /** Digits are zero or odd and below 2^w in magnitude. */
  predicate FixedDigits(d: seq<int>, w: nat) {
    forall i :: 0 <= i < |d| ==> OddOrZero(d[i]) && -Pow2(w) < d[i] < Pow2(w)
  }

  predicate OddPositive(x: int, w: nat) {
    x % 2 == 1 && 0 < x < Pow2(w)
  }

  // ---------- fixed windows ----------

  /** Make the last digit absorb an even value. */
  function Absorb(d: seq<int>, val: int, w: nat): (r: seq<int>)
    requires |d| >= 1
    ensures |r| == |d|
  {
    if val % 2 == 0 then d[|d| - 1 := d[|d| - 1] - Pow2(w)] else d
  }

  /** Fold a last digit 1 or -1 into a digit of the other sign before it. */
  function Fold(d: seq<int>, w: nat): (r: seq<int>)
    requires |d| >= 1
    ensures |r| == |d|
  {
    var n := |d|;
    if n >= 2 && d[n - 1] == 1 && d[n - 2] < 0 then d[n - 2 := d[n - 2] + Pow2(w)][n - 1 := 0]
    else if n >= 2 && d[n - 1] == -1 && d[n - 2] > 0 then d[n - 2 := d[n - 2] - Pow2(w)][n - 1 := 0]
    else d
  }

  function OddOf(val: int): int {
    if val % 2 == 0 then val + 1 else val
  }

  /** One window of the recoding. */
  function FixedStep(d: seq<int>, val: int, w: nat): (r: seq<int>)
    requires |d| >= 1
    ensures |r| == |d| + 1
  {
    Fold(Absorb(d, val, w), w) + [OddOf(val)]
  }

  lemma LastDigit(d: seq<int>, x: int, w: nat)
    requires |d| >= 1
    ensures DigitSum(d[|d| - 1 := x], w) == DigitSum(d, w) + (x - d[|d| - 1]) * Pow2(w * (|d| - 1))
  {
    var n := |d| - 1;
    assert d == d[..n] + [d[n]] && d[n := x] == d[..n] + [x];
    DigitSumSnoc(d[..n], d[n], w);
    DigitSumSnoc(d[..n], x, w);
    Spread(x, d[n], Pow2(w * n));
  }

  lemma Spread(x: int, y: int, p: int)
    ensures (x - y) * p == x * p - y * p
  {
  }

  /** Moving one unit of the last digit into the digit before it. */
  lemma FoldDigit(d: seq<int>, k: int, w: nat)
    requires |d| >= 2
    ensures DigitSum(d[|d| - 2 := d[|d| - 2] + k * Pow2(w)][|d| - 1 := d[|d| - 1] - k], w) == DigitSum(d, w)
  {
    hide Pow2, DigitSum;
    var n := |d|;
    var low := d[..n - 2];
    var a, b := d[n - 2], d[n - 1];
    assert d == (low + [a]) + [b];
    assert d[n - 2 := a + k * Pow2(w)][n - 1 := b - k] == (low + [a + k * Pow2(w)]) + [b - k];
    DigitSumSnoc(low, a, w);
    DigitSumSnoc(low + [a], b, w);
    DigitSumSnoc(low, a + k * Pow2(w), w);
    DigitSumSnoc(low + [a + k * Pow2(w)], b - k, w);
    WindowStep(w, n - 1);
    FoldAlgebra(a, b, k, Pow2(w), Pow2(w * (n - 2)));
  }

  lemma FoldAlgebra(a: int, b: int, k: int, p: int, q: int)
    ensures (a + k * p) * q + (b - k) * (p * q) == a * q + b * (p * q)
  {
  }

  lemma FoldSum(d: seq<int>, w: nat)
    requires |d| >= 1
    ensures DigitSum(Fold(d, w), w) == DigitSum(d, w)
  {
    hide Pow2, DigitSum;
    if |d| >= 2 {
      FoldDigit(d, 1, w);
      FoldDigit(d, -1, w);
      FoldOne(Pow2(w));
    }
  }

  lemma FoldOne(p: int)
    ensures 1 * p == p && -1 * p == -p
  {
  }

  lemma AbsorbSum(d: seq<int>, val: int, w: nat)
    requires |d| >= 1
    ensures DigitSum(Absorb(d, val, w), w) + OddOf(val) * Pow2(w * |d|) == DigitSum(d, w) + val * Pow2(w * |d|)
  {
    hide Pow2, DigitSum;
    if val % 2 == 0 {
      var n := |d|;
      WindowStep(w, n);
      LastDigit(d, d[n - 1] - Pow2(w), w);
      StepAlgebra(val, Pow2(w), Pow2(w * (n - 1)));
    }
  }

  lemma WindowStep(w: nat, n: nat)
    requires n >= 1
    ensures w * n == w + w * (n - 1)
    ensures Pow2(w * n) == Pow2(w) * Pow2(w * (n - 1))
  {
    hide Pow2;
    TimesPred(w, n);
    PowSum(w * n, w, w * (n - 1));
  }

  lemma TimesPred(w: nat, n: nat)
    requires n >= 1
    ensures w * n == w + w * (n - 1)
    ensures w * n >= 0 && w * (n - 1) >= 0
  {
  }

  lemma PowSum(e: nat, a: nat, b: nat)
    requires e == a + b
    ensures Pow2(e) == Pow2(a) * Pow2(b)
  {
    hide Pow2;
    Pow2Add(a, b);
  }

  lemma StepAlgebra(val: int, p: int, q: int)
    ensures -p * q + (val + 1) * (p * q) == val * (p * q)
  {
  }

  lemma FixedStepSum(d: seq<int>, val: int, w: nat)
    requires |d| >= 1
    ensures DigitSum(FixedStep(d, val, w), w) == DigitSum(d, w) + val * Pow2(w * |d|)
  {
    hide Pow2, DigitSum, Fold, Absorb, OddOf;
    AbsorbSum(d, val, w);
    FoldSum(Absorb(d, val, w), w);
    DigitSumSnoc(Fold(Absorb(d, val, w), w), OddOf(val), w);
  }

  lemma FixedStepDigits(d: seq<int>, val: int, w: nat)
    requires |d| >= 1 && w >= 1 && FixedDigits(d, w) && OddPositive(d[|d| - 1], w) && 0 <= val < Pow2(w)
    ensures FixedDigits(FixedStep(d, val, w), w)
    ensures OddPositive(FixedStep(d, val, w)[|d|], w)
  {
    hide Pow2, Fold, Absorb;
    Pow2Down(w);
    AbsorbDigits(d, val, w);
    FoldDigits(Absorb(d, val, w), w);
  }

  lemma AbsorbDigits(d: seq<int>, val: int, w: nat)
    requires |d| >= 1 && w >= 1 && FixedDigits(d, w) && OddPositive(d[|d| - 1], w)
    ensures FixedDigits(Absorb(d, val, w), w)
  {
    hide Pow2;
    Pow2Down(w);
  }

  lemma FoldDigits(d: seq<int>, w: nat)
    requires |d| >= 1 && w >= 1 && FixedDigits(d, w)
    ensures FixedDigits(Fold(d, w), w)
  {
    hide Pow2;
    Pow2Down(w);
  }

  /** The bits covered by the first windows. */
  function Covered(windows: nat, w: nat): nat
    requires w >= 1
  {
    if windows == WnafSize(128, w) then 128 else w * windows
  }

  lemma SizeBounds(w: nat)
    requires 1 <= w <= 30
    ensures var size := WnafSize(128, w);
      size >= 2 && w * (size - 1) < 128 <= w * size
  {
    var size := WnafSize(128, w);
    assert 128 + w - 1 == w * size + (128 + w - 1) % w;
    if size <= 1 {
      MulMono(size, 1, w);
    }
  }

  lemma CoveredStep(pos: nat, w: nat)
    requires 1 <= w <= 30 && pos < WnafSize(128, w)
    ensures Covered(pos + 1, w) > Covered(pos, w) == w * pos
    ensures Covered(pos + 1, w) - Covered(pos, w) <= w
    ensures Covered(pos + 1, w) - Covered(pos, w) == (if pos + 1 == WnafSize(128, w) then 128 - w * pos else w)
  {
    hide WnafSize;
    SizeBounds(w);
    assert w * (pos + 1) == w * pos + w;
    if pos + 1 < WnafSize(128, w) {
      MulMono(pos + 1, WnafSize(128, w) - 1, w);
    }
  }

  /** A window of zero bits can be left out. */
  lemma SkipWindow(s: nat, pos: nat, w: nat)
    requires 1 <= w <= 30 && pos < WnafSize(128, w)
    requires Bits(s, w * pos, Covered(pos + 1, w) - Covered(pos, w)) == 0
    ensures s % Pow2(Covered(pos + 1, w)) == s % Pow2(Covered(pos, w))
  {
    hide Bits, Pow2, Covered, WnafSize;
    CoveredStep(pos, w);
    BitsSplit(s, w * pos, Covered(pos + 1, w) - Covered(pos, w));
  }

  /** The digits so far stand for the bits covered so far, plus the skew. */
  ghost predicate FixedPrefix(d: seq<int>, s: nat, skew: int, w: nat)
    requires 1 <= w
  {
    && |d| >= 1
    && DigitSum(d, w) == s % Pow2(Covered(|d|, w)) + skew
    && FixedDigits(d, w) && OddPositive(d[|d| - 1], w)
  }

  lemma FixedStart(s: nat, w: nat)
    requires 1 <= w <= 30
    ensures var skew := if s % 2 == 0 then 1 else 0;
      FixedPrefix([Bits(s, 0, w) + skew], s, skew, w)
  {
    hide Pow2, Bits, DigitSum, Covered, WnafSize;
    SizeBounds(w);
    CoveredStep(0, w);
    LowestBit(s, 0, w);
    Pow2Down(w);
    FirstBits(s, 1);
    FirstBits(s, w);
    PowZero();
    Pow2Down(1);
    var x := Bits(s, 0, w) + (if s % 2 == 0 then 1 else 0);
    OddWord(Bits(s, 0, w), Bits(s, 0, 1), 1 - Bits(s, 0, 1), Pow2(w), w);
    SingleDigit(x, w);
  }

  lemma FirstBits(s: nat, w: nat)
    ensures Bits(s, 0, w) == s % Pow2(w)
  {
    assert Pow2(0) == 1;
    assert s / 1 == s;
  }

  lemma SingleDigit(x: int, w: nat)
    ensures DigitSum([x], w) == x
  {
    hide Pow2;
    assert [x][1..] == [];
  }

  lemma FixedNext(d: seq<int>, s: nat, skew: int, w: nat, val: int)
    requires 1 <= w <= 30 && FixedPrefix(d, s, skew, w) && |d| < WnafSize(128, w)
    requires val == Bits(s, w * |d|, Covered(|d| + 1, w) - Covered(|d|, w))
    ensures FixedPrefix(FixedStep(d, val, w), s, skew, w)
  {
    hide Pow2, Bits, DigitSum, FixedStep, FixedDigits, OddPositive, Covered, WnafSize;
    var n := |d|;
    CoveredStep(n, w);
    var width := Covered(n + 1, w) - Covered(n, w);
    Pow2Monotone(width, w);
    BitsSplit(s, w * n, width);
    FixedStepSum(d, val, w);
    FixedStepDigits(d, val, w);
  }

  method WnafFixed(wnaf: array<int>, off: nat, s: int, w: nat) returns (skew: int)
    requires 0 <= s < N && 1 <= w <= 30 && off + WnafSize(128, w) <= wnaf.Length
    modifies wnaf
    ensures 0 <= skew <= 1
    ensures FixedDigits(wnaf[off..off + WnafSize(128, w)], w)
    ensures DigitSum(wnaf[off..off + WnafSize(128, w)], w) == s % Pow2(128) + skew
    ensures wnaf[..off] == old(wnaf[..off]) && wnaf[off + WnafSize(128, w)..] == old(wnaf[off + WnafSize(128, w)..])
  {
    hide Pow2, Bits, DigitSum, FixedStep, FixedDigits, OddPositive, WnafSize, FixedPrefix, Covered;
    var size := WnafSize(128, w);
    SizeBounds(w);
    skew := 0;
    if s == 0 {
      ClearDigits(wnaf, off, size);
      AllZeroDigits(wnaf[off..off + size], w);
      return;
    }
    if s % 2 == 0 {
      skew := 1;
    }
    wnaf[off] := Bits(s, 0, w) + skew;
    FixedStart(s, w);
    var maxPos := SkipLeadingZeros(wnaf, off, s, w);
    assert wnaf[off..off + 1] == [Bits(s, 0, w) + skew];
    FillWindows(wnaf, off, s, w, maxPos, skew);
    FixedEnd(wnaf[..], off, size, maxPos + 1, s, skew, w);
    assert wnaf[..][off..off + size] == wnaf[off..off + size];
  }

  method ClearDigits(wnaf: array<int>, off: nat, size: nat)
    requires off + size <= wnaf.Length
    modifies wnaf
    ensures forall k :: off <= k < off + size ==> wnaf[k] == 0
    ensures wnaf[..off] == old(wnaf[..off]) && wnaf[off + size..] == old(wnaf[off + size..])
  {
    var pos := 0;
    while pos < size
      invariant 0 <= pos <= size
      invariant forall k :: off <= k < off + pos ==> wnaf[k] == 0
      invariant wnaf[..off] == old(wnaf[..off]) && wnaf[off + size..] == old(wnaf[off + size..])
    {
      wnaf[off + pos] := 0;
      pos := pos + 1;
    }
  }

  /** The position of the first nonzero word from the top, clearing the words above it. */
  method SkipLeadingZeros(wnaf: array<int>, off: nat, s: nat, w: nat) returns (maxPos: nat)
    requires 1 <= w <= 30 && off + WnafSize(128, w) <= wnaf.Length && WnafSize(128, w) >= 2
    modifies wnaf
    ensures maxPos < WnafSize(128, w)
    ensures s % Pow2(128) == s % Pow2(Covered(maxPos + 1, w))
    ensures forall k :: off + maxPos < k < off + WnafSize(128, w) ==> wnaf[k] == 0
    ensures wnaf[..off + 1] == old(wnaf[..off + 1])
    ensures wnaf[off + WnafSize(128, w)..] == old(wnaf[off + WnafSize(128, w)..])
  {
    hide Pow2, Bits, WnafSize, Covered;
    var size := WnafSize(128, w);
    var lastW := 128 - (size - 1) * w;
    maxPos := size - 1;
    FullyCovered(w);
    while maxPos > 0
      invariant 0 <= maxPos <= size - 1
      invariant s % Pow2(128) == s % Pow2(Covered(maxPos + 1, w))
      invariant forall k :: off + maxPos < k < off + size ==> wnaf[k] == 0
      invariant wnaf[..off + 1] == old(wnaf[..off + 1]) && wnaf[off + size..] == old(wnaf[off + size..])
    {
      CoveredStep(maxPos, w);
      var val := Bits(s, maxPos * w, if maxPos == size - 1 then lastW else w);
      if val != 0 {
        break;
      }
      SkipWindow(s, maxPos, w);
      wnaf[off + maxPos] := 0;
      maxPos := maxPos - 1;
    }
  }

  /** The loop over the windows above the first. */
  method FillWindows(wnaf: array<int>, off: nat, s: nat, w: nat, maxPos: nat, ghost skew: int)
    requires 1 <= w <= 30 && off + WnafSize(128, w) <= wnaf.Length && maxPos < WnafSize(128, w)
    requires FixedPrefix(wnaf[off..off + 1], s, skew, w)
    modifies wnaf
    ensures FixedPrefix(wnaf[off..off + maxPos + 1], s, skew, w)
    ensures forall k :: 0 <= k < off || off + maxPos < k < wnaf.Length ==> wnaf[k] == old(wnaf[k])
  {
    hide Pow2, Bits, DigitSum, FixedStep, FixedDigits, OddPositive, WnafSize, FixedPrefix, Covered;
    var size := WnafSize(128, w);
    var lastW := 128 - (size - 1) * w;
    var pos := 1;
    while pos <= maxPos
      invariant 1 <= pos <= maxPos + 1
      invariant FixedPrefix(wnaf[off..off + pos], s, skew, w)
      invariant forall k :: 0 <= k < off || off + maxPos < k < wnaf.Length ==> wnaf[k] == old(wnaf[k])
    {
      CoveredStep(pos, w);
      var val := Bits(s, pos * w, if pos == size - 1 then lastW else w);
      FixedNext(wnaf[off..off + pos], s, skew, w, val);
      StoreStep(wnaf, off, pos, val, w);
      pos := pos + 1;
    }
  }

  /** The writes of one loop iteration. */
  method StoreStep(wnaf: array<int>, off: nat, pos: nat, val: int, w: nat)
    requires 1 <= pos && off + pos < wnaf.Length
    modifies wnaf
    ensures wnaf[off..off + pos + 1] == FixedStep(old(wnaf[off..off + pos]), val, w)
    ensures forall k :: 0 <= k < off || off + pos < k < wnaf.Length ==> wnaf[k] == old(wnaf[k])
  {
    hide Pow2, Absorb, Fold;
    StoreAbsorbed(wnaf, off, pos, val, w);
    StoreFolded(wnaf, off, pos, w);
    assert wnaf[off..off + pos + 1] == wnaf[off..off + pos] + [wnaf[off + pos]];
  }

  /** An even word borrows from the digit before it. */
  method StoreAbsorbed(wnaf: array<int>, off: nat, pos: nat, val: int, w: nat)
    requires 1 <= pos && off + pos < wnaf.Length
    modifies wnaf
    ensures wnaf[off..off + pos] == Absorb(old(wnaf[off..off + pos]), val, w) && wnaf[off + pos] == OddOf(val)
    ensures forall k :: 0 <= k < off || off + pos < k < wnaf.Length ==> wnaf[k] == old(wnaf[k])
  {
    hide Pow2;
    if val % 2 == 0 {
      wnaf[off + pos - 1] := wnaf[off + pos - 1] - Pow2(w);
      wnaf[off + pos] := val + 1;
    } else {
      wnaf[off + pos] := val;
    }
  }

  /** A coefficient 1 or -1 after a digit of the other sign becomes zero. */
  method StoreFolded(wnaf: array<int>, off: nat, pos: nat, w: nat)
    requires 1 <= pos && off + pos < wnaf.Length
    modifies wnaf
    ensures wnaf[off..off + pos] == Fold(old(wnaf[off..off + pos]), w)
    ensures forall k :: 0 <= k < off || off + pos <= k < wnaf.Length ==> wnaf[k] == old(wnaf[k])
  {
    hide Pow2;
    if pos >= 2 && ((wnaf[off + pos - 1] == 1 && wnaf[off + pos - 2] < 0) || (wnaf[off + pos - 1] == -1 && wnaf[off + pos - 2] > 0)) {
      if wnaf[off + pos - 1] == 1 {
        wnaf[off + pos - 2] := wnaf[off + pos - 2] + Pow2(w);
      } else {
        wnaf[off + pos - 2] := wnaf[off + pos - 2] - Pow2(w);
      }
      wnaf[off + pos - 1] := 0;
    }
  }

  lemma FullyCovered(w: nat)
    requires 1 <= w <= 30
    ensures Covered(WnafSize(128, w), w) == 128
  {
  }

  lemma AllZeroDigits(d: seq<int>, w: nat)
    requires forall i :: 0 <= i < |d| ==> d[i] == 0
    ensures DigitSum(d, w) == 0 && FixedDigits(d, w)
    ensures 0 % Pow2(128) == 0
  {
    assert d == [] + Zeros(|d|);
    DigitSumZeros([], |d|, w);
    ModSmall(0, Pow2(128));
    Pow2Positive(w);
  }

  lemma FixedEnd(all: seq<int>, off: nat, size: nat, used: nat, s: nat, skew: int, w: nat)
    requires 1 <= w <= 30 && 1 <= used <= size && off + size <= |all|
    requires FixedPrefix(all[off..off + used], s, skew, w)
    requires s % Pow2(128) == s % Pow2(Covered(used, w))
    requires forall k :: off + used <= k < off + size ==> all[k] == 0
    ensures DigitSum(all[off..off + size], w) == s % Pow2(128) + skew && FixedDigits(all[off..off + size], w)
  {
    hide Pow2, Covered, DigitSum;
    var d, e := all[off..off + size], all[off..off + used];
    assert d == e + Zeros(size - used);
    DigitSumZeros(e, size - used, w);
    Pow2Positive(w);
    forall i | 0 <= i < |d|
      ensures OddOrZero(d[i]) && -Pow2(w) < d[i] < Pow2(w)
    {
      if i < used {
        assert d[i] == e[i];
      }
    }
  }
}
