/** The guards of the ordering: which proposals and which outputs are let through. */
module OrderGuards {
  import opened OrderBuffer

  const INT31: int := 0x8000_0000

  /** One lane's entry of an output: the block's head and the batch signature on it. */
  datatype Proof = Proof(leader: int, k: int, height: int, signs: seq<bv8>)

  predicate Int32(x: int) {
    -INT31 <= x < INT31
  }

  /** Wrapping subtraction of 32-bit integers */
  function Minus32(a: int, b: int): (d: int)
    requires Int32(a) && Int32(b)
    ensures Int32(d) && (d == a - b || d == a - b + 2 * INT31 || d == a - b - 2 * INT31)
  {
    var d := a - b;
    if d >= INT31 then d - 2 * INT31 else if d < -INT31 then d + 2 * INT31 else d
  }

  // ---------- proposals ----------

  /** Lanes of one leader, and of the first i leaders, in which a is strictly ahead. */
  function RowAhead(a: array2<int>, b: array2<int>, i: nat, j: nat): nat
    requires i < a.Length0 == b.Length0 && j <= a.Length1 == b.Length1
    reads a, b
  {
    if j == 0 then 0 else RowAhead(a, b, i, j - 1) + (if a[i, j - 1] > b[i, j - 1] then 1 else 0)
  }

  function GridAhead(a: array2<int>, b: array2<int>, i: nat): nat
    requires i <= a.Length0 == b.Length0 && a.Length1 == b.Length1
    reads a, b
  {
    if i == 0 then 0 else GridAhead(a, b, i - 1) + RowAhead(a, b, i - 1, a.Length1)
  }

  /** The lanes counted are those strictly ahead. */
  lemma {:induction false} RowAheadIs(a: array2<int>, b: array2<int>, i: nat, j: nat)
    requires i < a.Length0 == b.Length0 && j <= a.Length1 == b.Length1
    ensures RowAhead(a, b, i, j) == |set q: nat | q < j && a[i, q] > b[i, q] :: (i, q)|
    decreases j
  {
    if j > 0 {
      RowAheadIs(a, b, i, j - 1);
      var before := set q: nat | q < j - 1 && a[i, q] > b[i, q] :: (i, q);
      var now := set q: nat | q < j && a[i, q] > b[i, q] :: (i, q);
      assert now == if a[i, j - 1] > b[i, j - 1] then before + {(i, j - 1)} else before;
      assert (i, j - 1) !in before;
    }
  }

  lemma {:induction false} GridAheadIs(a: array2<int>, b: array2<int>, i: nat)
    requires i <= a.Length0 == b.Length0 && a.Length1 == b.Length1
    ensures GridAhead(a, b, i) == |set p: nat, q: nat | p < i && q < a.Length1 && a[p, q] > b[p, q] :: (p, q)|
    decreases i
  {
    hide RowAhead;
    if i > 0 {
      var r := i - 1;
      GridAheadIs(a, b, r);
      RowAheadIs(a, b, r, a.Length1);
      OneRowMore(a, b, r, a.Length1);
    }
  }

  lemma OneRowMore(a: array2<int>, b: array2<int>, r: nat, k: nat)
    requires r < a.Length0 == b.Length0 && k == a.Length1 == b.Length1
    ensures |set p: nat, q: nat | p < r + 1 && q < k && a[p, q] > b[p, q] :: (p, q)|
      == |set p: nat, q: nat | p < r && q < k && a[p, q] > b[p, q] :: (p, q)| + |set q: nat | q < k && a[r, q] > b[r, q] :: (r, q)|
  {
    var now := set p: nat, q: nat | p < r + 1 && q < k && a[p, q] > b[p, q] :: (p, q);
    var before := set p: nat, q: nat | p < r && q < k && a[p, q] > b[p, q] :: (p, q);
    var row := set q: nat | q < k && a[r, q] > b[r, q] :: (r, q);
    forall x: (nat, nat)
      ensures x in now <==> x in before || x in row
    {
      if x.0 == r {
        assert x == (r, x.1);
      }
    }
    assert now == before + row;
    assert before !! row;
  }

  /** The guard on a proposal: heights received against heights committed, lanes counted over all leaders. */
  method CheckInput(a: array2<int>, b: array2<int>, n: nat, k: nat) returns (ok: bool)
    requires a.Length0 == b.Length0 == n && a.Length1 == b.Length1 == k
    ensures ok <==>
      && (forall i: nat, j: nat :: i < n && j < k ==> a[i, j] >= b[i, j])
      && |set i: nat, j: nat | i < n && j < k && a[i, j] > b[i, j] :: (i, j)| > n * 2 / 3
  {
    var count := 0;
    var i := 0;
    while i < n
      invariant 0 <= i <= n && count == GridAhead(a, b, i)
      invariant forall p: nat, q: nat :: p < i && q < k ==> a[p, q] >= b[p, q]
    {
      var j := 0;
      while j < k
        invariant 0 <= j <= k && count == GridAhead(a, b, i) + RowAhead(a, b, i, j)
        invariant forall q: nat :: q < j ==> a[i, q] >= b[i, q]
      {
        if a[i, j] < b[i, j] {
          return false;
        } else if a[i, j] > b[i, j] {
          count := count + 1;
        }
        j := j + 1;
      }
      i := i + 1;
    }
    GridAheadIs(a, b, n);
    ok := count > n * 2 / 3;
  }

  // ---------- outputs ----------

  predicate Heights32(hps: seq<Proof>) {
    forall i :: 0 <= i < |hps| ==> Int32(hps[i].height)
  }

  /** The height moves on, as the code computes it: by a positive wrapped difference. */
  predicate Gains(new': Proof, old': Proof)
    requires Int32(new'.height) && Int32(old'.height)
  {
    Minus32(new'.height, old'.height) > 0
  }

  /** Lanes that move on, among the first m. */
  function Gaining(new': seq<Proof>, old': seq<Proof>, m: nat): nat
    requires Heights32(new') && Heights32(old') && m <= |new'| && m <= |old'|
  {
    if m == 0 then 0 else Gaining(new', old', m - 1) + (if Gains(new'[m - 1], old'[m - 1]) then 1 else 0)
  }

  lemma {:induction false} GainingIs(new': seq<Proof>, old': seq<Proof>, m: nat)
    requires Heights32(new') && Heights32(old') && m <= |new'| && m <= |old'|
    ensures Gaining(new', old', m) == |set i | 0 <= i < m && Minus32(new'[i].height, old'[i].height) > 0|
    decreases m
  {
    hide Minus32;
    if m > 0 {
      GainingIs(new', old', m - 1);
      var before := set i | 0 <= i < m - 1 && Minus32(new'[i].height, old'[i].height) > 0;
      var now := set i | 0 <= i < m && Minus32(new'[i].height, old'[i].height) > 0;
      assert now == if Minus32(new'[m - 1].height, old'[m - 1].height) > 0 then before + {m - 1} else before;
      assert m - 1 !in before;
    }
  }

  /** More lanes than the difference wait in the buffer, so the signature is looked up and not verified. */
  predicate LookedUp(blocks: array2<seq<Block>>, new': Proof, old': Proof)
    requires Int32(new'.height) && Int32(old'.height) && 1 <= new'.leader <= blocks.Length0 && 1 <= new'.k <= blocks.Length1
    reads blocks
  {
    |blocks[new'.leader - 1, new'.k - 1]| > Minus32(new'.height, old'.height)
  }

  /** Where the signature is looked up: as far from the first block as the heights are apart. */
  function Target(lane: seq<Block>, p: Proof): int
    requires |lane| > 0 && Int32(p.height) && Int32(lane[0].height)
  {
    Minus32(p.height, lane[0].height)
  }

  predicate Lanes32(blocks: array2<seq<Block>>)
    reads blocks
  {
    forall i: nat, j: nat :: i < blocks.Length0 && j < blocks.Length1 ==> forall m :: 0 <= m < |blocks[i, j]| ==> Int32(blocks[i, j][m].height)
  }

  /** An entry that makes the node halt: an index out of range. */
  predicate Breaks(blocks: array2<seq<Block>>, new': Proof, old': Proof)
    requires Int32(new'.height) && Int32(old'.height) && Lanes32(blocks)
    reads blocks
  {
    Gains(new', old') &&
    (!(1 <= new'.leader <= blocks.Length0 && 1 <= new'.k <= blocks.Length1)
     || (LookedUp(blocks, new', old') && var lane := blocks[new'.leader - 1, new'.k - 1]; Target(lane, new') >= |lane|))
  }

  /** An entry that is let through: it moves on with a signature that is known or verified, or stays where it is. */
  predicate Passes(blocks: array2<seq<Block>>, verified: Proof -> bool, new': Proof, old': Proof)
    requires Int32(new'.height) && Int32(old'.height) && Lanes32(blocks)
    reads blocks
  {
    if Gains(new', old') then
      && 1 <= new'.leader <= blocks.Length0 && 1 <= new'.k <= blocks.Length1
      && var lane := blocks[new'.leader - 1, new'.k - 1];
      if LookedUp(blocks, new', old') then
        Target(lane, new') < 0 || (Target(lane, new') < |lane| && lane[Target(lane, new')].signs == new'.signs)
      else
        verified(new')
    else
      new'.height >= old'.height
  }

  /** The first m entries are let through. */
  predicate AllPass(blocks: array2<seq<Block>>, verified: Proof -> bool, new': seq<Proof>, old': seq<Proof>, m: nat)
    requires Heights32(new') && Heights32(old') && Lanes32(blocks) && m <= |new'| && m <= |old'|
    reads blocks
  {
    forall i :: 0 <= i < m ==> Passes(blocks, verified, new'[i], old'[i])
  }

  /** An output that is let through against one before it: every entry is, and more than two thirds of them move on. */
  predicate Accepts(blocks: array2<seq<Block>>, verified: Proof -> bool, new': seq<Proof>, old': seq<Proof>, num: nat)
    requires Heights32(new') && Heights32(old') && Lanes32(blocks)
    reads blocks
  {
    |old'| == |new'| == num && AllPass(blocks, verified, new', old', num) && Gaining(new', old', num) > num * 2 / 3
  }

  datatype Verdict = Accepted | Rejected | Halted

  /** An entry whose signature has to be verified, and is not. */
  predicate Unverified(blocks: array2<seq<Block>>, verified: Proof -> bool, new': Proof, old': Proof)
    requires Int32(new'.height) && Int32(old'.height)
    reads blocks
  {
    var diff := Minus32(new'.height, old'.height);
    && diff > 0 && 1 <= new'.leader <= blocks.Length0 && 1 <= new'.k <= blocks.Length1
    && |blocks[new'.leader - 1, new'.k - 1]| <= diff && !verified(new')
  }

  /**
   * What is let through, said of heights, lanes and signatures: a lane whose height moves on exists, and either it holds no
   * more blocks than the difference and the signature is verified, or the block as far from the first as the heights are
   * apart has this signature, unless that place is in front of the first.
   */
  lemma PassesExactly(blocks: array2<seq<Block>>, verified: Proof -> bool, new': Proof, old': Proof)
    requires Int32(new'.height) && Int32(old'.height) && Lanes32(blocks)
    ensures Passes(blocks, verified, new', old') <==>
      var diff := Minus32(new'.height, old'.height);
      if diff <= 0 then new'.height >= old'.height
      else
        && 1 <= new'.leader <= blocks.Length0 && 1 <= new'.k <= blocks.Length1
        && var lane := blocks[new'.leader - 1, new'.k - 1];
          if |lane| <= diff then verified(new')
          else var i := Minus32(new'.height, lane[0].height); i < 0 || (i < |lane| && lane[i].signs == new'.signs)
  {
  }

  /**
   * The guard on an output against the one before it; the very first output is not checked. The buffer may be read
   * while a lane has a gap, and then the look-up can run past its end.
   */
  method CheckInputs(new': seq<Proof>, old': seq<Proof>, num: nat, blocks: array2<seq<Block>>, verified: Proof -> bool) returns (v: Verdict)
    requires Heights32(new') && Heights32(old') && Lanes32(blocks)
    ensures |old'| == 0 ==> v == Accepted
    ensures |old'| > 0 && !(|old'| == |new'| == num) ==> v == Rejected
    ensures |old'| > 0 ==> (v == Accepted <==> Accepts(blocks, verified, new', old', num))
    ensures |old'| > 0 ==> (v == Accepted <==>
      && |new'| == |old'| == num
      && |set i | 0 <= i < num && Minus32(new'[i].height, old'[i].height) > 0| > num * 2 / 3
      && forall i :: 0 <= i < num ==>
          var diff := Minus32(new'[i].height, old'[i].height);
          if diff <= 0 then new'[i].height >= old'[i].height
          else
            && 1 <= new'[i].leader <= blocks.Length0 && 1 <= new'[i].k <= blocks.Length1
            && var lane := blocks[new'[i].leader - 1, new'[i].k - 1];
              if |lane| <= diff then verified(new'[i])
              else var at := Minus32(new'[i].height, lane[0].height); at < 0 || (at < |lane| && lane[at].signs == new'[i].signs))
    ensures |old'| > 0 && |old'| == |new'| == num ==>
      (v == Halted <==> exists i :: 0 <= i < num && Breaks(blocks, new'[i], old'[i]) && AllPass(blocks, verified, new', old', i))
  {
    if |old'| == 0 {
      return Accepted;
    }
    if |old'| != num || |new'| != num {
      return Rejected;
    }
    hide Gains, Passes, Breaks, Minus32;
    var count, i := 0, 0;
    while i < |new'|
      invariant 0 <= i <= |new'| && count == Gaining(new', old', i)
      invariant AllPass(blocks, verified, new', old', i)
    {
      var entry, moves := CheckEntry(new'[i], old'[i], blocks, verified);
      NotBoth(blocks, verified, new'[i], old'[i]);
      if entry != Accepted {
        return entry;
      }
      if moves {
        count := count + 1;
      }
      i := i + 1;
    }
    AcceptsExactly(blocks, verified, new', old', num);
    v := if count > num * 2 / 3 then Accepted else Rejected;
  }

  /**
   * An output is let through exactly when more than two thirds of its heights move on and none goes back, every lane that
   * moves on exists, and its signature is verified or is that of the waiting block it is looked up in.
   */
  lemma AcceptsExactly(blocks: array2<seq<Block>>, verified: Proof -> bool, new': seq<Proof>, old': seq<Proof>, num: nat)
    requires Heights32(new') && Heights32(old') && Lanes32(blocks)
    ensures Accepts(blocks, verified, new', old', num) <==>
      && |new'| == |old'| == num
      && |set i | 0 <= i < num && Minus32(new'[i].height, old'[i].height) > 0| > num * 2 / 3
      && forall i :: 0 <= i < num ==>
          var diff := Minus32(new'[i].height, old'[i].height);
          if diff <= 0 then new'[i].height >= old'[i].height
          else
            && 1 <= new'[i].leader <= blocks.Length0 && 1 <= new'[i].k <= blocks.Length1
            && var lane := blocks[new'[i].leader - 1, new'[i].k - 1];
              if |lane| <= diff then verified(new'[i])
              else var at := Minus32(new'[i].height, lane[0].height); at < 0 || (at < |lane| && lane[at].signs == new'[i].signs)
  {
    hide Minus32, Passes;
    if |new'| == |old'| == num {
      GainingIs(new', old', num);
      forall i | 0 <= i < num
        ensures Passes(blocks, verified, new'[i], old'[i]) <==>
          var diff := Minus32(new'[i].height, old'[i].height);
          if diff <= 0 then new'[i].height >= old'[i].height
          else
            && 1 <= new'[i].leader <= blocks.Length0 && 1 <= new'[i].k <= blocks.Length1
            && var lane := blocks[new'[i].leader - 1, new'[i].k - 1];
              if |lane| <= diff then verified(new'[i])
              else var at := Minus32(new'[i].height, lane[0].height); at < 0 || (at < |lane| && lane[at].signs == new'[i].signs)
      {
        PassesExactly(blocks, verified, new'[i], old'[i]);
      }
    }
  }

  /** One entry that should be verified and is not has the output rejected, when those before it are let through. */
  lemma OneUnverified(new': seq<Proof>, old': seq<Proof>, num: nat, blocks: array2<seq<Block>>, verified: Proof -> bool, i: nat)
    requires Heights32(new') && Heights32(old') && Lanes32(blocks) && |new'| == |old'| == num && i < num
    requires AllPass(blocks, verified, new', old', i) && Unverified(blocks, verified, new'[i], old'[i])
    ensures !Accepts(blocks, verified, new', old', num)
    ensures !exists k :: 0 <= k < num && Breaks(blocks, new'[k], old'[k]) && AllPass(blocks, verified, new', old', k)
  {
    hide Passes, Minus32, Breaks, Gaining;
    UnverifiedFails(blocks, verified, new'[i], old'[i]);
    forall k | 0 <= k < num && AllPass(blocks, verified, new', old', k)
      ensures !Breaks(blocks, new'[k], old'[k])
    {
      if k < i {
        NotBoth(blocks, verified, new'[k], old'[k]);
      }
    }
  }

  lemma UnverifiedFails(blocks: array2<seq<Block>>, verified: Proof -> bool, new': Proof, old': Proof)
    requires Int32(new'.height) && Int32(old'.height) && Lanes32(blocks) && Unverified(blocks, verified, new', old')
    ensures !Passes(blocks, verified, new', old') && !Breaks(blocks, new', old')
  {
  }

  /** An entry does not both pass and break. */
  lemma NotBoth(blocks: array2<seq<Block>>, verified: Proof -> bool, new': Proof, old': Proof)
    requires Int32(new'.height) && Int32(old'.height) && Lanes32(blocks)
    ensures !(Passes(blocks, verified, new', old') && Breaks(blocks, new', old'))
  {
  }

  /** The check of one entry: whether it is let through, and whether it moves on. */
  method CheckEntry(hp: Proof, old': Proof, blocks: array2<seq<Block>>, verified: Proof -> bool) returns (v: Verdict, moves: bool)
    requires Int32(hp.height) && Int32(old'.height) && Lanes32(blocks)
    ensures v == Accepted <==> Passes(blocks, verified, hp, old')
    ensures v == Halted <==> Breaks(blocks, hp, old')
    ensures v == Accepted ==> (moves <==> Minus32(hp.height, old'.height) > 0)
    ensures var diff := Minus32(hp.height, old'.height);
      && (diff <= 0 ==> v == if hp.height >= old'.height then Accepted else Rejected)
      && (diff > 0 && !(1 <= hp.leader <= blocks.Length0 && 1 <= hp.k <= blocks.Length1) ==> v == Halted)
      && (diff > 0 && 1 <= hp.leader <= blocks.Length0 && 1 <= hp.k <= blocks.Length1 ==>
            var lane := blocks[hp.leader - 1, hp.k - 1];
            if |lane| <= diff then v == if verified(hp) then Accepted else Rejected
            else
              var i := Minus32(hp.height, lane[0].height);
              v == if i < 0 then Accepted else if i >= |lane| then Halted else if lane[i].signs == hp.signs then Accepted else Rejected)
  {
    var diff := Minus32(hp.height, old'.height);
    if diff > 0 {
      if !(1 <= hp.leader <= blocks.Length0 && 1 <= hp.k <= blocks.Length1) {
        return Halted, false;
      }
      var lane := blocks[hp.leader - 1, hp.k - 1];
      if |lane| > diff {
        var target := Target(lane, hp);
        if target >= 0 {
          if target >= |lane| {
            return Halted, false;
          }
          if hp.signs != lane[target].signs {
            return Rejected, false;
          }
        }
      } else if !verified(hp) {
        return Rejected, false;
      }
      return Accepted, true;
    } else if hp.height < old'.height {
      return Rejected, false;
    }
    v, moves := Accepted, false;
  }

  /**
   * Where the first waiting block of the lane is the one after the old height, and no block is missing, the look-up
   * meets the block of the proof's height. It runs past the end only behind a waiting block below the old height.
   */
  lemma LookUpMeets(blocks: array2<seq<Block>>, new': Proof, old': Proof)
    requires -1 <= new'.height < INT31 && -1 <= old'.height < INT31 && Lanes32(blocks)
    requires 1 <= new'.leader <= blocks.Length0 && 1 <= new'.k <= blocks.Length1
    requires Gains(new', old') && LookedUp(blocks, new', old')
    requires blocks[new'.leader - 1, new'.k - 1][0].height >= -1
    ensures var lane := blocks[new'.leader - 1, new'.k - 1];
      && (Breaks(blocks, new', old') ==> lane[0].height < old'.height)
      && (Consecutive(lane, old'.height + 1) ==> 0 <= Target(lane, new') < |lane| && lane[Target(lane, new')].height == new'.height)
  {
    hide Consecutive;
    var lane := blocks[new'.leader - 1, new'.k - 1];
    assert lane[0].height >= -1;
    if Consecutive(lane, old'.height + 1) {
      ConsecutiveAt(lane, old'.height + 1, 0);
      ConsecutiveAt(lane, old'.height + 1, Target(lane, new'));
    }
  }

  lemma ConsecutiveAt(lane: seq<Block>, from: int, i: nat)
    requires Consecutive(lane, from) && i < |lane|
    ensures lane[i].height == from + i
  {
  }

  // ---------- what acceptance means ----------

  predicate Proper(hps: seq<Proof>) {
    forall i :: 0 <= i < |hps| ==> -1 <= hps[i].height < INT31
  }

  /** Heights never go back, and more than two thirds of the lanes move on. */
  predicate Advances(new': seq<Proof>, old': seq<Proof>, num: nat) {
    && |new'| == |old'| == num
    && (forall i :: 0 <= i < num ==> new'[i].height >= old'[i].height)
    && Ahead(new', old', num) > num * 2 / 3
  }

  function Ahead(new': seq<Proof>, old': seq<Proof>, m: nat): nat
    requires m <= |new'| && m <= |old'|
  {
    if m == 0 then 0 else Ahead(new', old', m - 1) + (if new'[m - 1].height > old'[m - 1].height then 1 else 0)
  }

  lemma {:induction false} AheadIs(new': seq<Proof>, old': seq<Proof>, m: nat)
    requires m <= |new'| && m <= |old'|
    ensures Ahead(new', old', m) == |set i | 0 <= i < m && new'[i].height > old'[i].height|
    decreases m
  {
    if m > 0 {
      AheadIs(new', old', m - 1);
      var before := set i | 0 <= i < m - 1 && new'[i].height > old'[i].height;
      var now := set i | 0 <= i < m && new'[i].height > old'[i].height;
      assert now == if new'[m - 1].height > old'[m - 1].height then before + {m - 1} else before;
      assert m - 1 !in before;
    }
  }

  /** To advance is: as many entries, none lower, and more than two thirds of them higher. */
  lemma AdvancesExactly(new': seq<Proof>, old': seq<Proof>, num: nat)
    ensures Advances(new', old', num) <==>
      && |new'| == |old'| == num && (forall i :: 0 <= i < num ==> new'[i].height >= old'[i].height)
      && |set i | 0 <= i < num && new'[i].height > old'[i].height| > num * 2 / 3
  {
    if |new'| == |old'| == num {
      AheadIs(new', old', num);
    }
  }

  /**
   * What the wrapped difference costs: an accepted output advances exactly when no height in it is more than 2^31 below
   * the one before it.
   */
  lemma AcceptedAdvances(new': seq<Proof>, old': seq<Proof>, num: nat, blocks: array2<seq<Block>>, verified: Proof -> bool)
    requires Heights32(new') && Heights32(old') && Lanes32(blocks) && Accepts(blocks, verified, new', old', num)
    ensures Advances(new', old', num) <==> forall i :: 0 <= i < num ==> new'[i].height - old'[i].height >= -INT31
  {
    if forall i :: 0 <= i < num ==> new'[i].height - old'[i].height >= -INT31 {
      forall i | 0 <= i < num
        ensures new'[i].height >= old'[i].height
      {
        assert Passes(blocks, verified, new'[i], old'[i]);
      }
      GainingIsAhead(new', old', num);
    }
  }

  /** After an output with heights from -1 up, an accepted one advances exactly when its heights are from -1 up too. */
  lemma ProperAdvances(new': seq<Proof>, old': seq<Proof>, num: nat, blocks: array2<seq<Block>>, verified: Proof -> bool)
    requires Proper(old') && Heights32(new') && Heights32(old') && Lanes32(blocks) && Accepts(blocks, verified, new', old', num)
    ensures Advances(new', old', num) <==> Proper(new')
  {
    AcceptedAdvances(new', old', num, blocks, verified);
    if !Proper(new') {
      var i :| 0 <= i < num && new'[i].height < -1;
      assert Passes(blocks, verified, new'[i], old'[i]);
    }
  }

  lemma {:induction false} GainingIsAhead(new': seq<Proof>, old': seq<Proof>, m: nat)
    requires Heights32(new') && Heights32(old') && m <= |old'| && m <= |new'|
    requires forall i :: 0 <= i < m ==> new'[i].height - old'[i].height >= -INT31
    ensures Gaining(new', old', m) <= Ahead(new', old', m)
    decreases m
  {
    if m > 0 {
      GainingIsAhead(new', old', m - 1);
    }
  }

  /** An output of one lane that is accepted and goes back: from the largest height to -2. */
  lemma AcceptedGoesBack(blocks: array2<seq<Block>>)
    requires blocks.Length0 == blocks.Length1 == 1 && blocks[0, 0] == []
    ensures var old', new' := [Proof(1, 1, INT31 - 1, [])], [Proof(1, 1, -2, [])];
      Lanes32(blocks) && Accepts(blocks, _ => true, new', old', 1) && !Advances(new', old', 1)
  {
    var old', new' := [Proof(1, 1, INT31 - 1, [])], [Proof(1, 1, -2, [])];
    assert Gains(new'[0], old'[0]) && Passes(blocks, _ => true, new'[0], old'[0]);
    assert Gaining(new', old', 0) == 0 && Gaining(new', old', 1) == 1;
  }

  lemma {:induction false} SomeAhead(new': seq<Proof>, old': seq<Proof>, m: nat)
    requires m <= |new'| && m <= |old'| && Ahead(new', old', m) > 0
    ensures exists i :: 0 <= i < m && new'[i].height > old'[i].height
    decreases m
  {
    if new'[m - 1].height <= old'[m - 1].height {
      SomeAhead(new', old', m - 1);
    }
  }

  // ---------- the guards of the other broadcast kinds ----------

  /** What the aggregated signature is checked against, for one entry. */
  datatype Vote = Vote(hash: seq<int>, height: int, lane: nat, members: seq<int>)

  function Votes(new': seq<Proof>, hashes: seq<seq<int>>, members: seq<seq<int>>, num: nat): seq<Vote>
    requires num <= |new'| && (forall i :: 0 <= i < num && new'[i].height >= 0 ==> i < |hashes| && i < |members|)
  {
    if num == 0 then []
    else
      Votes(new', hashes, members, num - 1)
      + (if new'[num - 1].height >= 0 then [Vote(hashes[num - 1], new'[num - 1].height, num, members[num - 1])] else [])
  }

  /** There are as many votes as entries with a block. */
  lemma {:induction false} VotesCount(new': seq<Proof>, hashes: seq<seq<int>>, members: seq<seq<int>>, num: nat)
    requires num <= |new'| && (forall i :: 0 <= i < num && new'[i].height >= 0 ==> i < |hashes| && i < |members|)
    ensures |Votes(new', hashes, members, num)| == |set j | 0 <= j < num && new'[j].height >= 0|
    decreases num
  {
    if num > 0 {
      VotesCount(new', hashes, members, num - 1);
      var before := set j | 0 <= j < num - 1 && new'[j].height >= 0;
      assert (set j | 0 <= j < num && new'[j].height >= 0) == if new'[num - 1].height >= 0 then before + {num - 1} else before;
      assert num - 1 !in before;
    }
  }

  /** Every entry with a block has its own vote, behind those of the entries before it. */
  lemma {:induction false} VoteOf(new': seq<Proof>, hashes: seq<seq<int>>, members: seq<seq<int>>, num: nat, i: nat)
    requires num <= |new'| && (forall j :: 0 <= j < num && new'[j].height >= 0 ==> j < |hashes| && j < |members|)
    requires i < num && new'[i].height >= 0
    ensures var place, votes := |set j | 0 <= j < i && new'[j].height >= 0|, Votes(new', hashes, members, num);
      place < |votes| && votes[place] == Vote(hashes[i], new'[i].height, i + 1, members[i])
    decreases num
  {
    if i == num - 1 {
      VotesCount(new', hashes, members, i);
    } else {
      VoteOf(new', hashes, members, num - 1, i);
    }
  }

  /**
   * The guard on outputs with aggregated certificates: heights are compared directly, in the first num entries. Then the
   * hashes and members of the entries that have a block are collected, and the aggregated signature is verified on them.
   */
  method CheckInputsQcagg(new': seq<Proof>, old': seq<Proof>, num: nat, hashes: seq<seq<int>>, members: seq<seq<int>>,
                          verified: seq<Vote> -> bool) returns (v: Verdict)
    ensures |old'| == 0 ==> v == Accepted
    ensures |old'| > 0 ==> (v == Accepted <==>
      && num <= |new'| && num <= |old'| && Advances(new'[..num], old'[..num], num)
      && (forall i :: 0 <= i < num && new'[i].height >= 0 ==> i < |hashes| && i < |members|)
      && verified(Votes(new', hashes, members, num)))
    ensures |old'| > 0 ==> (v == Halted <==>
      || ((num > |new'| || num > |old'|) && forall i :: 0 <= i < num && i < |new'| && i < |old'| ==> new'[i].height >= old'[i].height)
      || (num <= |new'| && num <= |old'| && Advances(new'[..num], old'[..num], num)
          && !(forall i :: 0 <= i < num && new'[i].height >= 0 ==> i < |hashes| && i < |members|)))
  {
    if |old'| == 0 {
      return Accepted;
    }
    var count, i := 0, 0;
    while i < num
      invariant 0 <= i <= num && i <= |new'| && i <= |old'| && count == Ahead(new', old', i)
      invariant forall m :: 0 <= m < i ==> new'[m].height >= old'[m].height
    {
      if i >= |new'| || i >= |old'| {
        return Halted;
      }
      if new'[i].height > old'[i].height {
        count := count + 1;
      } else if new'[i].height < old'[i].height {
        return Rejected;
      }
      i := i + 1;
    }
    AheadOfPrefix(new', old', num, num);
    if count <= num * 2 / 3 {
      return Rejected;
    }
    var votes := [];
    i := 0;
    while i < num
      invariant 0 <= i <= num && (forall m :: 0 <= m < i && new'[m].height >= 0 ==> m < |hashes| && m < |members|)
      invariant votes == Votes(new', hashes, members, i)
    {
      if new'[i].height >= 0 {
        if i >= |hashes| || i >= |members| {
          return Halted;
        }
        votes := votes + [Vote(hashes[i], new'[i].height, i + 1, members[i])];
      }
      i := i + 1;
    }
    v := if verified(votes) then Accepted else Rejected;
  }

  lemma {:induction false} AheadOfPrefix(new': seq<Proof>, old': seq<Proof>, num: nat, m: nat)
    requires m <= num <= |new'| && num <= |old'|
    ensures Ahead(new'[..num], old'[..num], m) == Ahead(new', old', m)
    decreases m
  {
    if m > 0 {
      AheadOfPrefix(new', old', num, m - 1);
    }
  }

  /** A lane has received what the proposal has for it. */
  predicate Received(heights: seq<int>, now: array2<int>, i: nat, j: nat)
    requires i < now.Length0 && j < now.Length1
    reads now
  {
    j * now.Length0 + i < |heights| && now[i, j] >= heights[j * now.Length0 + i]
  }

  /** Every lane before lane j of leader i has. */
  predicate ReceivedBefore(heights: seq<int>, now: array2<int>, i: nat, j: nat)
    reads now
  {
    forall p: nat, q: nat :: p < now.Length0 && q < now.Length1 && (p < i || (p == i && q < j)) ==> Received(heights, now, p, q)
  }

  /** The proposal has no height for a lane, and that is noticed. */
  predicate Missing(heights: seq<int>, now: array2<int>, i: nat, j: nat)
    reads now
  {
    i < now.Length0 && j < now.Length1 && j * now.Length0 + i >= |heights| && ReceivedBefore(heights, now, i, j)
  }

  /**
   * One look of the guard for broadcasts without certificates, which is repeated until it passes or is closed: a proposal
   * may not be ahead of what was received. Nothing keeps it from being behind what was committed.
   */
  method CheckInputRbc(heights: seq<int>, now: array2<int>) returns (v: Verdict)
    ensures v == Accepted <==> forall i: nat, j: nat :: i < now.Length0 && j < now.Length1 ==> Received(heights, now, i, j)
    ensures v == Halted <==> exists i: nat, j: nat :: Missing(heights, now, i, j)
  {
    hide Received;
    var n, i := now.Length0, 0;
    while i < n
      invariant 0 <= i <= n && ReceivedBefore(heights, now, i, 0)
    {
      var j := 0;
      while j < now.Length1
        invariant 0 <= j <= now.Length1 && ReceivedBefore(heights, now, i, j)
      {
        ReceivedIs(heights, now, i, j);
        if j * n + i >= |heights| {
          assert Missing(heights, now, i, j);
          return Halted;
        }
        if now[i, j] < heights[j * n + i] {
          NoEarlier(heights, now, i, j);
          return Rejected;
        }
        j := j + 1;
      }
      i := i + 1;
    }
    AllReceived(heights, now);
    v := Accepted;
  }

  lemma ReceivedIs(heights: seq<int>, now: array2<int>, i: nat, j: nat)
    requires i < now.Length0 && j < now.Length1
    ensures 0 <= j * now.Length0 + i
    ensures Received(heights, now, i, j) <==> j * now.Length0 + i < |heights| && now[i, j] >= heights[j * now.Length0 + i]
  {
  }

  /** The first lane that has not received its height decides. */
  lemma NoEarlier(heights: seq<int>, now: array2<int>, i: nat, j: nat)
    requires i < now.Length0 && j < now.Length1 && ReceivedBefore(heights, now, i, j)
    requires !Received(heights, now, i, j) && 0 <= j * now.Length0 + i < |heights|
    ensures forall p: nat, q: nat :: !Missing(heights, now, p, q)
  {
    forall p: nat, q: nat
      ensures !Missing(heights, now, p, q)
    {
      if Missing(heights, now, p, q) {
        if p < i || (p == i && q < j) {
          ReceivedIs(heights, now, p, q);
        }
      }
    }
  }

  lemma AllReceived(heights: seq<int>, now: array2<int>)
    requires ReceivedBefore(heights, now, now.Length0, 0)
    ensures forall i: nat, j: nat :: i < now.Length0 && j < now.Length1 ==> Received(heights, now, i, j)
    ensures forall i: nat, j: nat :: !Missing(heights, now, i, j)
  {
    forall i: nat, j: nat
      ensures !Missing(heights, now, i, j)
    {
      if i < now.Length0 && j < now.Length1 {
        ReceivedIs(heights, now, i, j);
      }
    }
  }
}
