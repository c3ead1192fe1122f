/** The buffer of broadcast blocks in front of the commit, and the cut that commits a prefix of every lane. */
module OrderBuffer {

  /** A block as broadcast, and the signatures that came with it. */
  datatype Block = Block(leader: nat, k: nat, height: int, timestamp: int, txcount: nat, signs: seq<bv8>)

  predicate Ascending(lane: seq<Block>) {
    forall i, j :: 0 <= i < j < |lane| ==> lane[i].height < lane[j].height
  }

  predicate Holds(lane: seq<Block>, h: int) {
    exists i :: 0 <= i < |lane| && lane[i].height == h
  }

  /** Insertion by height; a block of a height already present is dropped. */
  function Inserted(lane: seq<Block>, b: Block): seq<Block> {
    if |lane| == 0 then [b]
    else if lane[0].height == b.height then lane
    else if lane[0].height > b.height then [b] + lane
    else [lane[0]] + Inserted(lane[1..], b)
  }

  // ---------- insertion ----------

  lemma {:induction false} InsertedHolds(lane: seq<Block>, b: Block, h: int)
    ensures Holds(Inserted(lane, b), h) <==> Holds(lane, h) || h == b.height
  {
    if |lane| == 0 {
      assert Inserted(lane, b)[0] == b;
    } else if lane[0].height == b.height {
    } else if lane[0].height > b.height {
      HoldsCons(b, lane, h);
    } else {
      InsertedHolds(lane[1..], b, h);
      HoldsCons(lane[0], lane[1..], h);
      HoldsCons(lane[0], Inserted(lane[1..], b), h);
      assert lane == [lane[0]] + lane[1..];
    }
  }

  lemma HoldsCons(b: Block, lane: seq<Block>, h: int)
    ensures Holds([b] + lane, h) <==> b.height == h || Holds(lane, h)
  {
    var l := [b] + lane;
    if b.height == h {
      assert l[0].height == h;
    }
    if Holds(lane, h) {
      var i :| 0 <= i < |lane| && lane[i].height == h;
      assert l[i + 1].height == h;
    }
    if Holds(l, h) && b.height != h {
      var i :| 0 <= i < |l| && l[i].height == h;
      assert lane[i - 1].height == h;
    }
  }

  /** A lane stays strictly ascending whatever arrives. */
  lemma {:induction false} InsertedAscending(lane: seq<Block>, b: Block)
    requires Ascending(lane)
    ensures Ascending(Inserted(lane, b))
  {
    if |lane| > 0 && lane[0].height < b.height {
      InsertedAscending(lane[1..], b);
      var rest := Inserted(lane[1..], b);
      forall j | 0 <= j < |rest|
        ensures lane[0].height < rest[j].height
      {
        assert Holds(rest, rest[j].height);
        InsertedHolds(lane[1..], b, rest[j].height);
      }
    }
  }

  /** The first block of a height stays; a later one of the same height changes nothing. */
  lemma {:induction false} FirstArrivalWins(lane: seq<Block>, b: Block, e: Block)
    requires Ascending(lane)
    ensures e in lane ==> e in Inserted(lane, b)
    ensures Holds(lane, b.height) ==> Inserted(lane, b) == lane
    ensures !Holds(lane, b.height) ==> b in Inserted(lane, b) && |Inserted(lane, b)| == |lane| + 1
  {
    if |lane| == 0 {
    } else if lane[0].height == b.height {
      assert Holds(lane, b.height);
    } else if lane[0].height > b.height {
      assert !Holds(lane, b.height);
    } else {
      FirstArrivalWins(lane[1..], b, e);
      HoldsCons(lane[0], lane[1..], b.height);
      assert lane == [lane[0]] + lane[1..];
    }
  }

  /** Two blocks of different heights may arrive in either order. */
  lemma {:induction false} ArrivalOrder(lane: seq<Block>, a: Block, b: Block)
    requires a.height != b.height
    ensures Inserted(Inserted(lane, a), b) == Inserted(Inserted(lane, b), a)
  {
    if |lane| > 0 && lane[0].height < a.height && lane[0].height < b.height {
      ArrivalOrder(lane[1..], a, b);
      var ab, ba := Inserted(lane[1..], a), Inserted(lane[1..], b);
      assert ([lane[0]] + ab)[1..] == ab && ([lane[0]] + ba)[1..] == ba;
    } else if |lane| > 0 {
      TwoSides(lane, a, b);
    }
  }

  lemma TwoSides(lane: seq<Block>, a: Block, b: Block)
    requires a.height != b.height && |lane| > 0 && (lane[0].height >= a.height || lane[0].height >= b.height)
    ensures Inserted(Inserted(lane, a), b) == Inserted(Inserted(lane, b), a)
  {
  }

  /** An arrival in height order goes to the end. */
  lemma {:induction false} InsertedLast(lane: seq<Block>, b: Block)
    requires forall i :: 0 <= i < |lane| ==> lane[i].height < b.height
    ensures Inserted(lane, b) == lane + [b]
  {
    if |lane| > 0 {
      InsertedLast(lane[1..], b);
      assert lane == [lane[0]] + lane[1..];
    }
  }

  /** How far the insertion loop is: before the place of b, or past it. */
  ghost predicate Progress(lane: seq<Block>, b: Block, i: nat, tmpold: seq<Block>, flag: bool) {
    && i <= |lane|
    && (flag ==> i > 0 && lane[i - 1].height >= b.height && Inserted(lane, b) == tmpold + lane[i..])
    && (!flag ==> (forall k :: 0 <= k < i ==> lane[k].height < b.height) && tmpold == if i < |lane| then lane[..i] else lane + [b])
  }

  lemma Passing(lane: seq<Block>, b: Block, i: nat, tmpold: seq<Block>)
    requires Ascending(lane) && Progress(lane, b, i, tmpold, true) && i < |lane|
    ensures Progress(lane, b, i + 1, tmpold + [lane[i]], true) && lane[i].height > b.height
  {
  }

  lemma Placing(lane: seq<Block>, b: Block, i: nat, tmpold: seq<Block>)
    requires Progress(lane, b, i, tmpold, false) && i < |lane| && lane[i].height >= b.height
    ensures Progress(lane, b, i + 1, (if lane[i].height > b.height then tmpold + [b] else tmpold) + [lane[i]], true)
  {
    InsertedAt(lane, b, i);
    NextElement(lane, i);
    Shift(lane[..i], [b], lane[i..]);
    Shift(if lane[i].height > b.height then tmpold + [b] else tmpold, [lane[i]], lane[i + 1..]);
  }

  lemma Before(lane: seq<Block>, b: Block, i: nat, tmpold: seq<Block>)
    requires Progress(lane, b, i, tmpold, false) && i < |lane| && lane[i].height < b.height
    ensures Progress(lane, b, i + 1, tmpold + [lane[i]] + (if i == |lane| - 1 then [b] else []), false)
  {
  }

  /** The insertion loop. */
  method InsertBlock(lane: seq<Block>, b: Block) returns (tmpold: seq<Block>)
    requires Ascending(lane)
    ensures tmpold == Inserted(lane, b)
  {
    hide Progress, Ascending;
    if |lane| == 0 {
      return lane + [b];
    }
    tmpold := [];
    var flag := false;
    var i := 0;
    ProgressStart(lane, b);
    while i < |lane|
      invariant 0 <= i <= |lane| && Progress(lane, b, i, tmpold, flag)
    {
      if flag {
        Passing(lane, b, i, tmpold);
      } else if lane[i].height >= b.height {
        Placing(lane, b, i, tmpold);
      } else {
        Before(lane, b, i, tmpold);
      }
      if lane[i].height > b.height {
        if !flag {
          tmpold := tmpold + [b];
          flag := true;
        }
        tmpold := tmpold + [lane[i]];
      } else if lane[i].height == b.height {
        tmpold := tmpold + [lane[i]];
        flag := true;
      } else {
        tmpold := tmpold + [lane[i]];
        if i == |lane| - 1 {
          tmpold := tmpold + [b];
        } else {
          assert tmpold + [] == tmpold;
        }
      }
      i := i + 1;
    }
    ProgressEnd(lane, b, tmpold, flag);
  }

  lemma ProgressStart(lane: seq<Block>, b: Block)
    requires |lane| > 0
    ensures Progress(lane, b, 0, [], false)
  {
  }

  lemma ProgressEnd(lane: seq<Block>, b: Block, tmpold: seq<Block>, flag: bool)
    requires Progress(lane, b, |lane|, tmpold, flag)
    ensures tmpold == Inserted(lane, b)
  {
    if flag {
      assert tmpold + lane[|lane|..] == tmpold;
    } else {
      InsertedLast(lane, b);
    }
  }

  lemma NextElement(lane: seq<Block>, i: nat)
    requires i < |lane|
    ensures lane[i..] == [lane[i]] + lane[i + 1..] && lane[..i + 1] == lane[..i] + [lane[i]]
    ensures i == |lane| - 1 ==> lane[..i + 1] == lane
  {
  }

  lemma Shift(x: seq<Block>, y: seq<Block>, z: seq<Block>)
    ensures x + (y + z) == (x + y) + z
  {
  }

  /** Where an insertion happens: after the lower blocks. */
  lemma {:induction false} InsertedAt(lane: seq<Block>, b: Block, i: nat)
    requires i < |lane| && lane[i].height >= b.height && forall k :: 0 <= k < i ==> lane[k].height < b.height
    ensures Inserted(lane, b) == lane[..i] + (if lane[i].height == b.height then lane[i..] else [b] + lane[i..])
    decreases i
  {
    if i > 0 {
      InsertedAt(lane[1..], b, i - 1);
      assert lane[1..][..i - 1] == lane[1..i] && lane[1..][i - 1..] == lane[i..];
      assert lane[..i] == [lane[0]] + lane[1..i];
    } else {
      assert lane[0..] == lane;
    }
  }

  // ---------- the cut ----------

  /** Heights from, from + 1, from + 2, ... */
  predicate Consecutive(lane: seq<Block>, from: int) {
    forall i :: 0 <= i < |lane| ==> lane[i].height == from + i
  }

  /** In a strictly ascending lane the element k is at least k above the first. */
  lemma {:induction false} AscendingGap(lane: seq<Block>, i: nat, j: nat)
    requires Ascending(lane) && i <= j < |lane|
    ensures lane[j].height - lane[i].height >= j - i
    decreases j
  {
    if i < j {
      AscendingGap(lane, i, j - 1);
    }
  }

  /**
   * The cut only counts: it removes the first new - old blocks. It removes the blocks of heights old + 1, ..., new
   * exactly when no block at or below old is left in the lane and none of those heights is missing from it.
   */
  lemma CutIsExact(lane: seq<Block>, old': int, new': int)
    requires Ascending(lane) && old' < new' && new' - old' <= |lane|
    ensures Consecutive(lane[..new' - old'], old' + 1)
      <==> (forall i :: 0 <= i < |lane| ==> lane[i].height > old') && (forall h :: old' < h <= new' ==> Holds(lane, h))
  {
    var d := new' - old';
    if Consecutive(lane[..d], old' + 1) {
      assert lane[..d][0] == lane[0];
      forall h | old' < h <= new'
        ensures Holds(lane, h)
      {
        assert lane[..d][h - old' - 1] == lane[h - old' - 1];
      }
    }
    if (forall i :: 0 <= i < |lane| ==> lane[i].height > old') && (forall h :: old' < h <= new' ==> Holds(lane, h)) {
      forall i | 0 <= i < d
        ensures lane[..d][i].height == old' + 1 + i
      {
        HeldInPlace(lane, old', new', i);
      }
    }
  }

  lemma {:induction false} HeldInPlace(lane: seq<Block>, old': int, new': int, i: nat)
    requires Ascending(lane) && i < new' - old' <= |lane|
    requires forall k :: 0 <= k < |lane| ==> lane[k].height > old'
    requires forall h :: old' < h <= new' ==> Holds(lane, h)
    ensures lane[i].height == old' + 1 + i
  {
    AscendingGap(lane, 0, i);
    assert Holds(lane, old' + 1 + i);
    var j :| 0 <= j < |lane| && lane[j].height == old' + 1 + i;
    if i > 0 {
      HeldInPlace(lane, old', new', i - 1);
      assert j >= i;
    }
    AscendingGap(lane, i, j);
  }

  // ---------- one lane over a whole run ----------

  /** What a lane has committed, and what waits in its buffer. */
  datatype Lane = Lane(done: seq<Block>, buffer: seq<Block>)

  /** A block arrives, or an output moves the last commit by d heights and the cut follows. */
  datatype Event = Arrive(b: Block) | Cut(d: nat)

  /** The cut waits until the buffer holds as many blocks as it takes. */
  predicate Possible(l: Lane, e: Event) {
    e.Cut? ==> e.d <= |l.buffer|
  }

  function Next(l: Lane, e: Event): Lane
    requires Possible(l, e)
  {
    match e
    case Arrive(b) => l.(buffer := Inserted(l.buffer, b))
    case Cut(d) => Lane(l.done + l.buffer[..d], l.buffer[d..])
  }

  /** Committed are the heights 0, 1, ..., each once and in order; waiting are only later ones, in order. */
  predicate Exact(l: Lane) {
    && Consecutive(l.done, 0) && Ascending(l.buffer)
    && (forall i :: 0 <= i < |l.buffer| ==> l.buffer[i].height >= |l.done|)
  }

  /** Not a block of a height that is committed already; and no height missing that is cut. */
  predicate Clean(l: Lane, e: Event) {
    match e
    case Arrive(b) => b.height >= |l.done|
    case Cut(d) => forall h :: |l.done| <= h < |l.done| + d ==> Holds(l.buffer, h)
  }

  /** A step leaves an exact lane exact precisely when it is clean. */
  lemma StepExact(l: Lane, e: Event)
    requires Exact(l) && Possible(l, e)
    ensures Exact(Next(l, e)) <==> Clean(l, e)
  {
    match e
    case Arrive(b) => ArriveExact(l, b);
    case Cut(d) => CutExact(l, d);
  }

  lemma ArriveExact(l: Lane, b: Block)
    requires Exact(l)
    ensures Exact(Next(l, Arrive(b))) <==> b.height >= |l.done|
  {
    var lane := Inserted(l.buffer, b);
    InsertedAscending(l.buffer, b);
    InsertedHolds(l.buffer, b, b.height);
    if b.height >= |l.done| {
      forall i | 0 <= i < |lane|
        ensures lane[i].height >= |l.done|
      {
        assert Holds(lane, lane[i].height);
        InsertedHolds(l.buffer, b, lane[i].height);
      }
    }
  }

  lemma CutExact(l: Lane, d: nat)
    requires Exact(l) && d <= |l.buffer|
    ensures Exact(Next(l, Cut(d))) <==> Clean(l, Cut(d))
  {
    var n, cut, done := |l.done|, l.buffer[..d], l.done + l.buffer[..d];
    if d == 0 {
      assert done == l.done && l.buffer[0..] == l.buffer;
      return;
    }
    CutIsExact(l.buffer, n - 1, n - 1 + d);
    if Consecutive(done, 0) {
      forall i | 0 <= i < d
        ensures cut[i].height == n + i
      {
        assert done[n + i] == cut[i];
      }
    }
    if Consecutive(cut, n) {
      assert cut[d - 1] == l.buffer[d - 1];
      forall i | 0 <= i < |l.buffer| - d
        ensures l.buffer[d..][i].height >= n + d
      {
        AscendingGap(l.buffer, d - 1, d + i);
      }
    }
  }

  predicate Legal(es: seq<Event>)
    decreases |es|, 0
  {
    |es| == 0 || (Legal(es[..|es| - 1]) && Possible(After(es[..|es| - 1]), es[|es| - 1]))
  }

  function After(es: seq<Event>): Lane
    requires Legal(es)
    decreases |es|, 1
  {
    if |es| == 0 then Lane([], []) else Next(After(es[..|es| - 1]), es[|es| - 1])
  }

  /** The lane is exact after every event of the run. */
  predicate AlwaysExact(es: seq<Event>)
    requires Legal(es)
  {
    |es| == 0 || (AlwaysExact(es[..|es| - 1]) && Exact(After(es)))
  }

  /** Every event of the run is clean where it happens. */
  predicate AlwaysClean(es: seq<Event>)
    requires Legal(es)
  {
    |es| == 0 || (AlwaysClean(es[..|es| - 1]) && Clean(After(es[..|es| - 1]), es[|es| - 1]))
  }

  /** Over every run, whatever the order of arrival: committed and waiting blocks are exact at all times if and only if every event is clean. */
  lemma {:induction false} RunExact(es: seq<Event>)
    requires Legal(es)
    ensures AlwaysExact(es) <==> AlwaysClean(es)
    ensures AlwaysExact(es) ==> Exact(After(es))
    decreases |es|
  {
    hide Exact, Clean, Next;
    if |es| == 0 {
      EmptyExact();
    } else {
      var init := es[..|es| - 1];
      RunExact(init);
      if Exact(After(init)) {
        StepExact(After(init), es[|es| - 1]);
      }
    }
  }

  lemma EmptyExact()
    ensures Exact(Lane([], []))
  {
  }

  lemma Extended(es: seq<Event>, e: Event)
    requires Legal(es) && Possible(After(es), e)
    ensures Legal(es + [e]) && After(es + [e]) == Next(After(es), e)
  {
    assert (es + [e])[..|es|] == es;
  }

  lemma {:induction false} AlwaysAscending(es: seq<Event>)
    requires Legal(es)
    ensures Ascending(After(es).buffer)
    decreases |es|
  {
    hide Inserted;
    if |es| != 0 {
      AlwaysAscending(es[..|es| - 1]);
      if es[|es| - 1].Arrive? {
        InsertedAscending(After(es[..|es| - 1]).buffer, es[|es| - 1].b);
      }
    }
  }

  /** A cut that takes something finds no committed height in the buffer, and all the heights it is for. */
  predicate Finds(l: Lane, e: Event) {
    e.Cut? && e.d > 0 ==>
      && (forall i :: 0 <= i < |l.buffer| ==> l.buffer[i].height >= |l.done|)
      && (forall h :: |l.done| <= h < |l.done| + e.d ==> Holds(l.buffer, h))
  }

  predicate AlwaysFinds(es: seq<Event>)
    requires Legal(es)
  {
    |es| == 0 || (AlwaysFinds(es[..|es| - 1]) && Finds(After(es[..|es| - 1]), es[|es| - 1]))
  }

  /**
   * Over every run, whatever the order of arrival: the lane has committed the heights 0, 1, ... with no gap and no
   * repetition exactly when every cut found no committed height in the buffer and none of its heights missing.
   */
  lemma {:induction false} CommittedExact(es: seq<Event>)
    requires Legal(es)
    ensures Consecutive(After(es).done, 0) <==> AlwaysFinds(es)
    decreases |es|
  {
    hide Consecutive, Finds, Ascending, Inserted;
    if |es| == 0 {
      NothingCommitted();
    } else {
      var init := es[..|es| - 1];
      CommittedExact(init);
      AlwaysAscending(init);
      CommitStep(After(init), es[|es| - 1]);
    }
  }

  lemma NothingCommitted()
    ensures Consecutive([], 0)
  {
  }

  lemma CommitStep(l: Lane, e: Event)
    requires Possible(l, e) && Ascending(l.buffer)
    ensures Consecutive(Next(l, e).done, 0) <==> Consecutive(l.done, 0) && Finds(l, e)
  {
    hide Ascending;
    match e
    case Arrive(_) =>
    case Cut(d) =>
      ConsecutiveParts(l.done, l.buffer[..d]);
      if d > 0 {
        CutIsExact(l.buffer, |l.done| - 1, |l.done| - 1 + d);
      }
  }

  lemma ConsecutiveParts(done: seq<Block>, cut: seq<Block>)
    ensures Consecutive(done + cut, 0) <==> Consecutive(done, 0) && Consecutive(cut, |done|)
  {
    if Consecutive(done + cut, 0) {
      LaneTail(done, cut);
    }
  }

  /** A block that arrives again once it is committed is committed again: a legal run in which height 0 is there twice and height 1 is not. */
  lemma RepetitionSlips(a: Block, b: Block)
    requires a.height == 0 && b.height == 1
    ensures var es := [Arrive(a), Cut(1), Arrive(a), Arrive(b), Cut(1)];
      Legal(es) && After(es) == Lane([a, a], [b]) && !Consecutive(After(es).done, 0)
  {
    var e1, e2, e3 := [] + [Arrive(a)], [] + [Arrive(a)] + [Cut(1)], [] + [Arrive(a)] + [Cut(1)] + [Arrive(a)];
    Extended([], Arrive(a));
    Extended(e1, Cut(1));
    assert After(e2) == Lane([a], []);
    Extended(e2, Arrive(a));
    assert After(e3) == Lane([a], [a]);
    Extended(e3, Arrive(b));
    InsertedLast([a], b);
    assert After(e3 + [Arrive(b)]) == Lane([a], [a, b]);
    Extended(e3 + [Arrive(b)], Cut(1));
    assert [Arrive(a), Cut(1), Arrive(a), Arrive(b), Cut(1)] == e3 + [Arrive(b)] + [Cut(1)];
    assert [a] + [a, b][..1] == [a, a] && [a, b][1..] == [b];
    assert [a, a][1].height == 0;
  }

  /** A cut counts a later block for a missing one: a legal run that commits height 2 where height 1 belongs. */
  lemma GapSlips(a: Block, c: Block)
    requires a.height == 0 && c.height == 2
    ensures var es := [Arrive(a), Arrive(c), Cut(2)];
      Legal(es) && After(es) == Lane([a, c], []) && !Consecutive(After(es).done, 0)
  {
    var e1, e2 := [] + [Arrive(a)], [] + [Arrive(a)] + [Arrive(c)];
    Extended([], Arrive(a));
    Extended(e1, Arrive(c));
    InsertedLast([a], c);
    assert After(e2) == Lane([], [a, c]);
    Extended(e2, Cut(2));
    assert [Arrive(a), Arrive(c), Cut(2)] == e2 + [Cut(2)];
    assert [] + [a, c][..2] == [a, c] && [a, c][2..] == [];
    assert [a, c][1].height == 2;
  }

  /** The blocks that arrive, in the order they do. */
  function Arrivals(es: seq<Event>): seq<Block> {
    if |es| == 0 then []
    else Arrivals(es[..|es| - 1]) + match es[|es| - 1] case Arrive(b) => [b] case Cut(_) => []
  }

  /** Blocks that arrive in height order, without repetition, go through the lane unchanged: it is exact at all times. */
  lemma {:induction false} InOrderRun(es: seq<Event>)
    requires Legal(es) && Consecutive(Arrivals(es), 0)
    ensures After(es).done + After(es).buffer == Arrivals(es)
    ensures AlwaysExact(es)
    decreases |es|
  {
    hide Consecutive, Exact, Next;
    if |es| != 0 {
      var init, e := es[..|es| - 1], es[|es| - 1];
      if e.Arrive? {
        WithoutLast(Arrivals(init), e.b);
      } else {
        assert Arrivals(es) == Arrivals(init);
      }
      InOrderRun(init);
      NextInOrder(After(init), e);
      InOrderExact(After(es));
    }
  }

  lemma WithoutLast(arrived: seq<Block>, b: Block)
    requires Consecutive(arrived + [b], 0)
    ensures Consecutive(arrived, 0) && b.height == |arrived|
  {
    forall i | 0 <= i < |arrived|
      ensures arrived[i].height == i
    {
      assert (arrived + [b])[i] == arrived[i];
    }
    assert (arrived + [b])[|arrived|] == b;
  }

  lemma NextInOrder(l: Lane, e: Event)
    requires Possible(l, e) && Consecutive(l.done + l.buffer, 0)
    requires e.Arrive? ==> e.b.height == |l.done| + |l.buffer|
    ensures Next(l, e).done + Next(l, e).buffer == l.done + l.buffer + (if e.Arrive? then [e.b] else [])
  {
    match e
    case Arrive(b) =>
      LaneTail(l.done, l.buffer);
      InsertedLast(l.buffer, b);
    case Cut(d) =>
      assert (l.done + l.buffer[..d]) + l.buffer[d..] == l.done + l.buffer;
  }

  lemma InOrderExact(l: Lane)
    requires Consecutive(l.done + l.buffer, 0)
    ensures Exact(l)
  {
    LaneTail(l.done, l.buffer);
  }

  lemma LaneTail(done: seq<Block>, lane: seq<Block>)
    requires Consecutive(done + lane, 0)
    ensures Consecutive(done, 0) && Ascending(lane) && forall i :: 0 <= i < |lane| ==> lane[i].height == |done| + i
  {
    forall i | 0 <= i < |done|
      ensures done[i].height == i
    {
      assert (done + lane)[i] == done[i];
    }
    forall i | 0 <= i < |lane|
      ensures lane[i].height == |done| + i
    {
      assert (done + lane)[|done| + i] == lane[i];
    }
  }

  /** What an exact lane has committed, none missing and none twice. */
  lemma CommittedOnce(l: Lane)
    requires Exact(l)
    ensures forall h :: Holds(l.done, h) <==> 0 <= h < |l.done|
    ensures Ascending(l.done)
  {
    forall h | 0 <= h < |l.done|
      ensures Holds(l.done, h)
    {
      assert l.done[h].height == h;
    }
  }

  /** Nothing is committed or waiting that did not arrive. */
  lemma {:induction false} OnlyArrivals(es: seq<Event>, b: Block)
    requires Legal(es) && (b in After(es).done || b in After(es).buffer)
    ensures b in Arrivals(es)
    decreases |es|
  {
    var init, e := es[..|es| - 1], es[|es| - 1];
    var l := After(init);
    if e.Arrive? && b in After(es).buffer {
      InsertedElements(l.buffer, e.b, b);
    }
    if b in l.done || b in l.buffer {
      OnlyArrivals(init, b);
    }
  }

  lemma {:induction false} InsertedElements(lane: seq<Block>, b: Block, e: Block)
    requires e in Inserted(lane, b)
    ensures e in lane || e == b
  {
    if |lane| > 0 && lane[0].height < b.height && e != lane[0] {
      InsertedElements(lane[1..], b, e);
    }
  }

  function Raws(lane: seq<Block>): (r: seq<Block>)
    ensures |r| == |lane| && forall i :: 0 <= i < |r| ==> r[i] == lane[i].(signs := [])
  {
    seq(|lane|, i requires 0 <= i < |lane| => lane[i].(signs := []))
  }

  /** No two blocks of one height that differ in more than the signatures: what the broadcast promises. */
  predicate Agreeing(s: seq<Block>, t: seq<Block>) {
    forall x, y :: x in s && y in t && x.height == y.height ==> x.(signs := []) == y.(signs := [])
  }

  /** Two nodes never commit different blocks in a lane: what one has committed is a prefix of what the other has. */
  lemma SameLedger(es: seq<Event>, es': seq<Event>)
    requires Legal(es) && Legal(es') && AlwaysFinds(es) && AlwaysFinds(es') && Agreeing(Arrivals(es), Arrivals(es'))
    requires |After(es).done| <= |After(es').done|
    ensures Raws(After(es).done) <= Raws(After(es').done)
  {
    var s, t := After(es).done, After(es').done;
    CommittedExact(es);
    CommittedExact(es');
    forall i | 0 <= i < |s|
      ensures Raws(s)[i] == Raws(t)[i]
    {
      OnlyArrivals(es, s[i]);
      OnlyArrivals(es', t[i]);
    }
  }
}
