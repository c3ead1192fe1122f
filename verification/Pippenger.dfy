/** Pippenger's bucket method for sums of multiples of points. */
module Pippenger {
  import opened Integers
  import opened Groups
  import opened Recoding
  import opened RecodingFixed

  datatype PointState = PointState(inputPos: nat, skew: int)

  // ---------- sums of buckets ----------

  function Total<T(!new)>(g: Group<T>, b: seq<T>): T {
    if |b| == 0 then g.zero else g.add(Total(g, b[1..]), b[0])
  }

  /** 1 b[0] + 2 b[1] + 3 b[2] + ... */
  function Ramp<T(!new)>(g: Group<T>, b: seq<T>): T {
    if |b| == 0 then g.zero else g.add(Ramp(g, b[1..]), Total(g, b))
  }

  function Affine(c: int, n: nat): seq<int> {
    seq(n, j => c + 2 * j)
  }

  /** 1 b[0] + 3 b[1] + 5 b[2] + ... */
  function BucketSum<T(!new)>(g: Group<T>, b: seq<T>): T {
    g.Lin(Affine(1, |b|), b)
  }

  lemma {:induction false} AffineSum<T(!new)>(g: Group<T>, c: int, b: seq<T>)
    requires g.Valid()
    ensures g.Lin(Affine(c, |b|), b) == g.add(g.Mul(c, Total(g, b)), g.Mul(2, if |b| == 0 then g.zero else Ramp(g, b[1..])))
    decreases |b|
  {
    if |b| == 0 {
      g.MulOfZero(c);
      g.MulOfZero(2);
      g.Zero(g.zero);
    } else {
      var t := b[1..];
      var rest := if |t| == 0 then g.zero else Ramp(g, t[1..]);
      AffineSum(g, c + 2, t);
      assert Affine(c, |b|)[1..] == Affine(c + 2, |t|);
      g.MulPlus(c, 2, Total(g, t));
      g.MulAdd(c, Total(g, t), b[0]);
      g.MulAdd(2, rest, Total(g, t));
      if |t| == 0 {
        g.Zero(g.zero);
      }
      Rearrange(g, g.Mul(c, b[0]), g.Mul(c, Total(g, t)), g.Mul(2, Total(g, t)), g.Mul(2, rest));
    }
  }

  lemma Rearrange<T(!new)>(g: Group<T>, x: T, y: T, z: T, w: T)
    requires g.Valid()
    ensures g.add(x, g.add(g.add(y, z), w)) == g.add(g.add(y, x), g.add(w, z))
  {
    g.Assoc(x, g.add(y, z), w);
    g.Assoc(x, y, z);
    g.Comm(x, y);
    g.Assoc(g.add(y, x), z, w);
    g.Comm(z, w);
  }

  // ---------- rows of digits ----------

  predicate Rows(rows: seq<seq<int>>, n: nat) {
    forall j :: 0 <= j < |rows| ==> |rows[j]| == n
  }

  function Column(rows: seq<seq<int>>, n: nat, i: nat): (c: seq<int>)
    requires Rows(rows, n) && i < n
    ensures |c| == |rows|
  {
    seq(|rows|, j requires 0 <= j < |rows| => rows[j][i])
  }

  /** What the digits from position i up stand for, row by row. */
  function Highs(rows: seq<seq<int>>, n: nat, i: nat, w: nat): (c: seq<int>)
    requires Rows(rows, n) && i <= n
    ensures |c| == |rows|
  {
    seq(|rows|, j requires 0 <= j < |rows| => DigitSum(rows[j][i..], w))
  }

  lemma HighsStep<T(!new)>(g: Group<T>, rows: seq<seq<int>>, n: nat, i: nat, w: nat, q: seq<T>)
    requires g.Valid() && Rows(rows, n) && i < n && |q| == |rows|
    ensures g.Lin(Highs(rows, n, i, w), q)
      == g.add(g.Mul(Pow2(w), g.Lin(Highs(rows, n, i + 1, w), q)), g.Lin(Column(rows, n, i), q))
  {
    hide Pow2;
    var up := Scaled(Pow2(w), Highs(rows, n, i + 1, w));
    forall j | 0 <= j < |rows|
      ensures DigitSum(rows[j][i..], w) == rows[j][i] + up[j]
    {
      assert rows[j][i..][1..] == rows[j][i + 1..];
    }
    assert Highs(rows, n, i, w) == Sums(up, Column(rows, n, i));
    g.LinAdd(up, Column(rows, n, i), q);
    g.LinScale(Pow2(w), Highs(rows, n, i + 1, w), q);
  }

  lemma HighsTop<T(!new)>(g: Group<T>, rows: seq<seq<int>>, n: nat, w: nat, q: seq<T>)
    requires g.Valid() && Rows(rows, n) && |q| == |rows|
    ensures g.Lin(Highs(rows, n, n, w), q) == g.zero
  {
    g.LinZeroScalars(Highs(rows, n, n, w), q);
  }

  // ---------- one window ----------

  lemma BucketAdd<T(!new)>(g: Group<T>, b: seq<T>, i: nat, x: T)
    requires g.Valid() && i < |b|
    ensures BucketSum(g, b[i := g.add(b[i], x)]) == g.add(BucketSum(g, b), g.Mul(2 * i + 1, x))
  {
    g.LinUpdate(Affine(1, |b|), b, i, x);
  }

  /** Adding a point to the bucket of its digit adds that multiple of it. */
  method AddDigit<T(!new)>(g: Group<T>, buckets: array<T>, n: int, p: T)
    requires g.Valid() && OddOrZero(n) && -2 * buckets.Length < n < 2 * buckets.Length
    modifies buckets
    ensures BucketSum(g, buckets[..]) == g.add(old(BucketSum(g, buckets[..])), g.Mul(n, p))
  {
    hide BucketSum, Group.Mul;
    ghost var b := buckets[..];
    if n > 0 {
      var idx := (n - 1) / 2;
      assert 2 * idx + 1 == n;
      BucketAdd(g, b, idx, p);
      buckets[idx] := g.add(buckets[idx], p);
      assert buckets[..] == b[idx := g.add(b[idx], p)];
    } else if n < 0 {
      var idx := -(n + 1) / 2;
      assert 2 * idx + 1 == -n;
      var tmp := g.neg(p);
      BucketAdd(g, b, idx, tmp);
      g.MulOfNeg(2 * idx + 1, p);
      g.MulNeg(-n, p);
      buckets[idx] := g.add(buckets[idx], tmp);
      assert buckets[..] == b[idx := g.add(b[idx], tmp)];
    } else {
      g.MulZero(p);
      g.Zero(BucketSum(g, b));
    }
  }

  /** Empty buckets, then every point into the bucket of its digit; the skews go to the first bucket at the end. */
  method FillBuckets<T(!new)>(g: Group<T>, buckets: array<T>, ps: array<PointState>, wnafNa: array<int>, no: nat,
                              nWnaf: nat, i: nat, pt: seq<T>, ghost rows: seq<seq<int>>, ghost q: seq<T>, ghost skews: seq<int>)
    requires g.Valid() && i < nWnaf && buckets.Length >= 1
    requires Loaded(ps[..], wnafNa[..], no, nWnaf, pt, rows, q, skews)
    requires forall j :: 0 <= j < no ==> OddOrZero(rows[j][i]) && -2 * buckets.Length < rows[j][i] < 2 * buckets.Length
    requires buckets as object != ps && buckets as object != wnafNa
    modifies buckets
    ensures BucketSum(g, buckets[..]) == g.Lin(Adjusted(rows, nWnaf, i, skews), q)
  {
    hide BucketSum, Group.Mul, Group.Lin;
    var j := 0;
    while j < buckets.Length
      invariant 0 <= j <= buckets.Length && forall k :: 0 <= k < j ==> buckets[k] == g.zero
    {
      buckets[j] := g.zero;
      j := j + 1;
    }
    EmptyBuckets(g, buckets[..]);
    var np := 0;
    ghost var adj := Adjusted(rows, nWnaf, i, skews);
    NothingAdded(g, adj, q);
    while np < no
      invariant 0 <= np <= no
      invariant BucketSum(g, buckets[..]) == g.Lin(adj[..np], q[..np])
    {
      RowIndex(np, no, nWnaf, i);
      var n := wnafNa[np * nWnaf + i];
      assert n == rows[np][i];
      var state := ps[np];
      var p := pt[state.inputPos];
      ghost var sum := BucketSum(g, buckets[..]);
      if i == 0 {
        // correct for wnaf skew
        if state.skew != 0 {
          AddDigit(g, buckets, -1, p);
        } else {
          g.MulZero(p);
          g.Zero(sum);
        }
        AdjustOne(g, sum, n, state.skew, p);
      }
      AddDigit(g, buckets, n, p);
      OnePoint(g, adj, q, np);
      np := np + 1;
    }
    assert adj[..no] == adj && q[..no] == q;
  }

  lemma AdjustOne<T(!new)>(g: Group<T>, sum: T, n: int, skew: int, p: T)
    requires g.Valid()
    ensures g.add(g.add(sum, g.Mul(-skew, p)), g.Mul(n, p)) == g.add(sum, g.Mul(n - skew, p))
  {
    g.Assoc(sum, g.Mul(-skew, p), g.Mul(n, p));
    g.MulPlus(-skew, n, p);
  }

  lemma OnePoint<T(!new)>(g: Group<T>, adj: seq<int>, q: seq<T>, np: nat)
    requires g.Valid() && |adj| == |q| && np < |q|
    ensures g.Lin(adj[..np + 1], q[..np + 1]) == g.add(g.Lin(adj[..np], q[..np]), g.Mul(adj[np], q[np]))
  {
    assert adj[..np + 1] == adj[..np] + [adj[np]] && q[..np + 1] == q[..np] + [q[np]];
    g.LinSnoc(adj[..np], q[..np], adj[np], q[np]);
  }

  lemma NothingAdded<T(!new)>(g: Group<T>, adj: seq<int>, q: seq<T>)
    requires |adj| == |q|
    ensures g.Lin(adj[..0], q[..0]) == g.zero
  {
  }

  lemma EmptyBuckets<T(!new)>(g: Group<T>, b: seq<T>)
    requires g.Valid() && forall k :: 0 <= k < |b| ==> b[k] == g.zero
    ensures BucketSum(g, b) == g.zero
  {
    g.LinZeroPoints(Affine(1, |b|), b);
  }

  /** Row np of the digit array lies inside it. */
  lemma RowIndex(np: nat, no: nat, nWnaf: nat, i: nat)
    requires np < no && i < nWnaf
    ensures 0 <= np * nWnaf && np * nWnaf + i < np * nWnaf + nWnaf <= no * nWnaf
  {
    MulMono(np + 1, no, nWnaf);
  }

  /** The digits of position i, less the skews at the bottom position. */
  function Adjusted(rows: seq<seq<int>>, n: nat, i: nat, skews: seq<int>): (c: seq<int>)
    requires Rows(rows, n) && i < n && |skews| == |rows|
  {
    seq(|rows|, j requires 0 <= j < |rows| => rows[j][i] - (if i == 0 then skews[j] else 0))
  }

  /** The arrays hold one row of digits, the skew and the position of every point kept. */
  ghost predicate Loaded<T(!new)>(ps: seq<PointState>, wnafNa: seq<int>, no: nat, nWnaf: nat, pt: seq<T>,
                                  rows: seq<seq<int>>, q: seq<T>, skews: seq<int>)
  {
    && |rows| == |q| == |skews| == no <= |ps| && Rows(rows, nWnaf)
    && no * nWnaf <= |wnafNa|
    && (forall j :: 0 <= j < no ==> ps[j].inputPos < |pt| && pt[ps[j].inputPos] == q[j])
    && (forall j :: 0 <= j < no ==> 0 <= ps[j].skew == skews[j] <= 1)
    && (forall j, i :: 0 <= j < no && 0 <= i < nWnaf ==> Digit(wnafNa, j, nWnaf, i) == rows[j][i])
  }

  function Digit(wnafNa: seq<int>, j: nat, nWnaf: nat, i: nat): int {
    if j * nWnaf + i < |wnafNa| then wnafNa[j * nWnaf + i] else 0
  }

  /** The running-sum evaluation of the buckets, with the last doubling of the window deferred. */
  method CombineBuckets<T(!new)>(g: Group<T>, buckets: array<T>, bucketWindow: nat, r0: T) returns (r: T)
    requires g.Valid() && buckets.Length >= 1
    ensures r == g.add(g.Mul(Pow2(bucketWindow + 1), r0), BucketSum(g, buckets[..]))
  {
    hide BucketSum, Group.Mul, Group.Lin;
    r := r0;
    g.MulOne(r0);
    PowZero();
    var j := 0;
    while j < bucketWindow
      invariant 0 <= j <= bucketWindow && r == g.Mul(Pow2(j), r0)
    {
      r := g.add(r, r);
      g.Double(Pow2(j), r0);
      j := j + 1;
    }
    var runningSum := g.zero;
    ghost var b := buckets[..];
    ghost var top := r;
    j := buckets.Length - 1;
    assert b[j + 1..] == [];
    g.Zero(top);
    while j > 0
      invariant 0 <= j < buckets.Length
      invariant runningSum == Total(g, b[j + 1..]) && r == g.add(top, Ramp(g, b[j + 1..]))
    {
      assert b[j..][1..] == b[j + 1..];
      runningSum := g.add(runningSum, buckets[j]);
      g.Assoc(top, Ramp(g, b[j + 1..]), runningSum);
      r := g.add(r, runningSum);
      j := j - 1;
    }
    runningSum := g.add(runningSum, buckets[0]);
    r := g.add(r, r);
    r := g.add(r, runningSum);
    assert b[1..] == b[j + 1..];
    Combined(g, top, b);
    g.Double(Pow2(bucketWindow), r0);
  }

  lemma Combined<T(!new)>(g: Group<T>, top: T, b: seq<T>)
    requires g.Valid() && |b| >= 1
    ensures var r := g.add(top, Ramp(g, b[1..]));
      g.add(g.add(r, r), Total(g, b)) == g.add(g.add(top, top), BucketSum(g, b))
  {
    var w := Ramp(g, b[1..]);
    AffineSum(g, 1, b);
    g.MulOne(Total(g, b));
    g.MulTwo(w);
    g.Swap(top, w, top, w);
    g.Assoc(g.add(top, top), g.add(w, w), Total(g, b));
    g.Comm(g.add(w, w), Total(g, b));
  }

  // ---------- the whole multiplication ----------

  predicate SmallScalars(sc: seq<int>) {
    forall i :: 0 <= i < |sc| ==> 0 <= sc[i] < TWO128
  }

  /** Recode the scalars, leaving out zero scalars and the point at infinity. */
  method LoadPoints<T(!new, ==)>(g: Group<T>, w: nat, ps: array<PointState>, wnafNa: array<int>, sc: seq<int>, pt: seq<T>)
    returns (no: nat, ghost rows: seq<seq<int>>, ghost q: seq<T>, ghost skews: seq<int>)
    requires g.Valid() && 1 <= w <= 30 && |sc| == |pt| <= ps.Length && SmallScalars(sc)
    requires |pt| * WnafSize(128, w) <= wnafNa.Length
    modifies ps, wnafNa
    ensures Loaded(ps[..], wnafNa[..], no, WnafSize(128, w), pt, rows, q, skews)
    ensures forall j :: 0 <= j < no ==> FixedDigits(rows[j], w)
    ensures g.Lin(Values(rows, skews, w), q) == g.Lin(sc, pt)
  {
    hide WnafSize, Pow2, DigitSum, Group.Lin, Group.Mul, FixedDigits;
    var nWnaf := WnafSize(128, w);
    no, rows, q, skews := 0, [], [], [];
    var np := 0;
    SizeBounds(w);
    NothingAdded(g, sc, pt);
    NothingAdded(g, Values(rows, skews, w), q);
    while np < |pt|
      invariant no <= np <= |pt| && |rows| == |skews| == |q| == no
      invariant Loaded(ps[..], wnafNa[..], no, nWnaf, pt, rows, q, skews)
      invariant forall j :: 0 <= j < no ==> FixedDigits(rows[j], w)
      invariant g.Lin(Values(rows, skews, w), q) == g.Lin(sc[..np], pt[..np])
    {
      OnePoint(g, sc, pt, np);
      if sc[np] == 0 || pt[np] == g.zero {
        SkipPoint(g, g.Lin(sc[..np], pt[..np]), sc[np], pt[np]);
      } else {
        RowIndex(no, |pt|, nWnaf, 0);
        ghost var ps0, wnaf0 := ps[..], wnafNa[..];
        var skew := WnafFixed(wnafNa, no * nWnaf, sc[np], w);
        ps[no] := PointState(np, skew);
        ghost var row := wnafNa[no * nWnaf..no * nWnaf + nWnaf];
        Append(ps0, wnaf0, ps[..], wnafNa[..], no, nWnaf, pt, rows, q, skews, row, np, skew);
        AppendValue(g, rows, skews, w, q, row, skew, sc[np], pt[np]);
        rows, q, skews := rows + [row], q + [pt[np]], skews + [skew];
        no := no + 1;
      }
      np := np + 1;
    }
    assert sc[..np] == sc && pt[..np] == pt;
  }

  /** The numbers the rows stand for, less their skews. */
  function Values(rows: seq<seq<int>>, skews: seq<int>, w: nat): (c: seq<int>)
    requires |rows| == |skews|
  {
    seq(|rows|, j requires 0 <= j < |rows| => DigitSum(rows[j], w) - skews[j])
  }

  lemma AppendValue<T(!new)>(g: Group<T>, rows: seq<seq<int>>, skews: seq<int>, w: nat, q: seq<T>, row: seq<int>, skew: int, k: int, p: T)
    requires g.Valid() && |rows| == |skews| == |q| && 0 <= k < TWO128 && DigitSum(row, w) == k % Pow2(128) + skew
    ensures g.Lin(Values(rows + [row], skews + [skew], w), q + [p]) == g.add(g.Lin(Values(rows, skews, w), q), g.Mul(k, p))
  {
    hide Pow2, DigitSum;
    Pow2At256();
    ModSmall(k, TWO128);
    assert Values(rows + [row], skews + [skew], w) == Values(rows, skews, w) + [k];
    g.LinSnoc(Values(rows, skews, w), q, k, p);
  }

  lemma SkipPoint<T(!new)>(g: Group<T>, x: T, k: int, p: T)
    requires g.Valid() && (k == 0 || p == g.zero)
    ensures g.add(x, g.Mul(k, p)) == x
  {
    g.MulZero(p);
    g.MulOfZero(k);
    g.Zero(x);
  }

  lemma Append<T(!new)>(ps0: seq<PointState>, wnaf0: seq<int>, ps: seq<PointState>, wnafNa: seq<int>, no: nat, nWnaf: nat, pt: seq<T>,
                        rows: seq<seq<int>>, q: seq<T>, skews: seq<int>, row: seq<int>, np: nat, skew: int)
    requires Loaded(ps0, wnaf0, no, nWnaf, pt, rows, q, skews)
    requires no < |ps0| && ps == ps0[no := PointState(np, skew)] && np < |pt| && 0 <= skew <= 1
    requires |wnafNa| == |wnaf0| && 0 <= no * nWnaf && no * nWnaf + nWnaf <= |wnafNa|
    requires wnafNa[..no * nWnaf] == wnaf0[..no * nWnaf] && row == wnafNa[no * nWnaf..no * nWnaf + nWnaf]
    ensures Loaded(ps, wnafNa, no + 1, nWnaf, pt, rows + [row], q + [pt[np]], skews + [skew])
  {
    assert (no + 1) * nWnaf == no * nWnaf + nWnaf;
    forall j, i | 0 <= j < no + 1 && 0 <= i < nWnaf
      ensures Digit(wnafNa, j, nWnaf, i) == (rows + [row])[j][i]
    {
      if j < no {
        RowIndex(j, no, nWnaf, i);
        assert wnafNa[j * nWnaf + i] == wnafNa[..no * nWnaf][j * nWnaf + i];
        assert Digit(wnaf0, j, nWnaf, i) == rows[j][i];
      } else {
        assert row[i] == wnafNa[no * nWnaf + i];
      }
    }
  }

  /** sum sc[i] pt[i], for scalars below 2^128 and any bucket window. */
  method PippengerWnaf<T(!new, ==)>(g: Group<T>, buckets: array<T>, bucketWindow: nat, ps: array<PointState>, wnafNa: array<int>,
                                    sc: seq<int>, pt: seq<T>)
    returns (r: T)
    requires g.Valid() && 1 <= bucketWindow <= 29 && buckets.Length == Pow2(bucketWindow)
    requires |sc| == |pt| <= ps.Length && SmallScalars(sc)
    requires |pt| * WnafSize(128, bucketWindow + 1) <= wnafNa.Length
    requires buckets as object != ps && buckets as object != wnafNa
    modifies buckets, ps, wnafNa
    ensures r == g.Lin(sc, pt)
  {
    hide WnafSize, Pow2, DigitSum, Group.Lin, Group.Mul, Loaded, FixedDigits, BucketSum, SmallScalars;
    var w := bucketWindow + 1;
    var nWnaf := WnafSize(128, w);
    var no;
    ghost var rows, q, skews;
    no, rows, q, skews := LoadPoints(g, w, ps, wnafNa, sc, pt);
    r := g.zero;
    LoadedFacts(ps[..], wnafNa[..], no, nWnaf, pt, rows, q, skews);
    if no == 0 {
      NothingAdded(g, Values(rows, skews, w), q);
      assert Values(rows, skews, w) == Values(rows, skews, w)[..0] && q == q[..0];
      return;
    }
    SizeBounds(w);
    HighsTop(g, rows, nWnaf, w, q);
    Pow2Down(w);
    Pow2Monotone(0, bucketWindow);
    PowZero();
    var i: int := nWnaf - 1;
    while i >= 0
      invariant -1 <= i < nWnaf
      invariant Loaded(ps[..], wnafNa[..], no, nWnaf, pt, rows, q, skews)
      invariant r == g.Lin(if i >= 0 then Highs(rows, nWnaf, i + 1, w) else Values(rows, skews, w), q)
    {
      DigitsFit(rows, nWnaf, i, w);
      FillBuckets(g, buckets, ps, wnafNa, no, nWnaf, i, pt, rows, q, skews);
      ghost var r0 := r;
      r := CombineBuckets(g, buckets, bucketWindow, r);
      WindowSum(g, rows, nWnaf, i, w, q, skews);
      i := i - 1;
    }
  }

  lemma LoadedFacts<T(!new)>(ps: seq<PointState>, wnafNa: seq<int>, no: nat, nWnaf: nat, pt: seq<T>,
                             rows: seq<seq<int>>, q: seq<T>, skews: seq<int>)
    requires Loaded(ps, wnafNa, no, nWnaf, pt, rows, q, skews)
    ensures |rows| == |q| == |skews| == no && Rows(rows, nWnaf)
  {
  }

  lemma DigitsFit(rows: seq<seq<int>>, n: nat, i: nat, w: nat)
    requires Rows(rows, n) && i < n && w >= 1
    requires forall j :: 0 <= j < |rows| ==> FixedDigits(rows[j], w)
    ensures forall j :: 0 <= j < |rows| ==> OddOrZero(rows[j][i]) && -2 * Pow2(w - 1) < rows[j][i] < 2 * Pow2(w - 1)
  {
  }

  lemma WindowSum<T(!new)>(g: Group<T>, rows: seq<seq<int>>, n: nat, i: nat, w: nat, q: seq<T>, skews: seq<int>)
    requires g.Valid() && Rows(rows, n) && i < n && |q| == |rows| == |skews|
    ensures g.add(g.Mul(Pow2(w), g.Lin(Highs(rows, n, i + 1, w), q)), g.Lin(Adjusted(rows, n, i, skews), q))
      == g.Lin(if i > 0 then Highs(rows, n, i, w) else Values(rows, skews, w), q)
  {
    hide Pow2, DigitSum, Group.Lin;
    HighsStep(g, rows, n, i, w, q);
    if i > 0 {
      assert Adjusted(rows, n, i, skews) == Column(rows, n, i);
    } else {
      var less := Scaled(-1, skews);
      assert Adjusted(rows, n, 0, skews) == Sums(Column(rows, n, 0), less);
      g.LinAdd(Column(rows, n, 0), less, q);
      g.LinAdd(Highs(rows, n, 0, w), less, q);
      forall j | 0 <= j < |rows|
        ensures rows[j][0..] == rows[j]
      {
      }
      assert Values(rows, skews, w) == Sums(Highs(rows, n, 0, w), less);
      g.Assoc(g.Mul(Pow2(w), g.Lin(Highs(rows, n, 1, w), q)), g.Lin(Column(rows, n, 0), q), g.Lin(less, q));
    }
  }
}
