/** The order module over whole runs: arrivals, agreed outputs and cuts of all lanes together. */
module OrderState {
  import opened OrderBuffer
  import opened OrderGuards

  /** A block arrives; an agreed output sets the last commits; the cut of all lanes follows once enough blocks are there. */
  datatype Step = Arrival(block: Block) | Output(hps: seq<Proof>) | CutAll

  /** The height an output has for leader i's lane j. */
  function OutputHeight(hps: seq<Proof>, n: nat, i: nat, j: nat): int {
    if j * n + i < |hps| then hps[j * n + i].height else 0
  }

  /** The last commit of a lane after a run of n leaders */
  function CommitAt(steps: seq<Step>, n: nat, i: nat, j: nat): int {
    if |steps| == 0 then -1
    else match steps[|steps| - 1]
      case Output(hps) => OutputHeight(hps, n, i, j)
      case _ => CommitAt(steps[..|steps| - 1], n, i, j)
  }

  /** How many blocks the next cut takes from a lane. */
  function Due(steps: seq<Step>, n: nat, i: nat, j: nat): int {
    CommitAt(steps, n, i, j) + 1 - |LaneAt(steps, n, i, j).done|
  }

  /** A lane after a run. */
  function LaneAt(steps: seq<Step>, n: nat, i: nat, j: nat): Lane
    decreases |steps|, 0
  {
    if |steps| == 0 then Lane([], [])
    else
      var init := steps[..|steps| - 1];
      match steps[|steps| - 1]
      case Arrival(b) => if b.leader == i + 1 && b.k == j + 1 then Next(LaneAt(init, n, i, j), Arrive(b)) else LaneAt(init, n, i, j)
      case Output(_) => LaneAt(init, n, i, j)
      case CutAll => TakeDue(LaneAt(init, n, i, j), CommitAt(init, n, i, j) + 1)
  }

  /** The lane with the first blocks committed, up to a number of commits. */
  function TakeDue(l: Lane, commits: int): Lane {
    var d := commits - |l.done|;
    if 0 <= d <= |l.buffer| then Next(l, Cut(d)) else l
  }

  /** No cut is waiting. */
  predicate Settled(steps: seq<Step>, n: nat, k: nat) {
    forall i: nat, j: nat :: i < n && j < k ==> Due(steps, n, i, j) == 0
  }

  /** Every lane holds as many blocks as the cut takes. */
  predicate Enough(steps: seq<Step>, n: nat, k: nat) {
    forall i: nat, j: nat :: i < n && j < k ==> Plenty(steps, n, i, j)
  }

  predicate Plenty(steps: seq<Step>, n: nat, i: nat, j: nat) {
    |LaneAt(steps, n, i, j).buffer| >= Due(steps, n, i, j)
  }

  /**
   * The cut halts the node: a last commit went back (a negative slice bound), or there is nothing to cut at all (the
   * average at the end divides by the number of blocks cut).
   */
  predicate Halts(steps: seq<Step>, n: nat, k: nat) {
    || (exists i: nat, j: nat :: i < n && j < k && Due(steps, n, i, j) < 0)
    || Settled(steps, n, k)
  }

  predicate LegalRun(steps: seq<Step>, n: nat, k: nat) {
    |steps| == 0 || var init := steps[..|steps| - 1];
      && LegalRun(init, n, k)
      && match steps[|steps| - 1]
         case Arrival(b) => 1 <= b.leader <= n && 1 <= b.k <= k
         case Output(hps) => Settled(init, n, k) && |hps| >= n * k
         case CutAll => Enough(init, n, k) && !Halts(init, n, k)
  }

  lemma Appended(steps: seq<Step>, s: Step)
    ensures (steps + [s])[..|steps|] == steps && (steps + [s])[|steps|] == s && |steps + [s]| == |steps| + 1
  {
  }

  // ---------- every lane's own run ----------

  /** What a run of the module is to one lane. */
  function LaneEvents(steps: seq<Step>, n: nat, i: nat, j: nat): seq<Event> {
    if |steps| == 0 then []
    else
      var init := steps[..|steps| - 1];
      LaneEvents(init, n, i, j) + match steps[|steps| - 1]
        case Arrival(b) => if b.leader == i + 1 && b.k == j + 1 then [Arrive(b)] else []
        case Output(_) => []
        case CutAll => if Due(init, n, i, j) >= 0 then [Cut(Due(init, n, i, j))] else []
  }

  /** To every lane a run of the module is a run of the lane, whatever happens to the others. */
  lemma {:induction false} LaneRun(steps: seq<Step>, n: nat, k: nat, i: nat, j: nat)
    requires LegalRun(steps, n, k) && i < n && j < k
    ensures Legal(LaneEvents(steps, n, i, j)) && After(LaneEvents(steps, n, i, j)) == LaneAt(steps, n, i, j)
    decreases |steps|
  {
    hide Next, Settled, OutputHeight;
    if |steps| != 0 {
      var init := steps[..|steps| - 1];
      LaneRun(init, n, k, i, j);
      var es := LaneEvents(init, n, i, j);
      assert es + [] == es;
      match steps[|steps| - 1]
      case Arrival(b) => Extended(es, Arrive(b));
      case Output(_) =>
      case CutAll =>
        assert Due(init, n, i, j) >= 0;
        assert Plenty(init, n, i, j);
        Extended(es, Cut(Due(init, n, i, j)));
    }
  }

  /** After a cut every lane has committed as many blocks as its last commit says. */
  lemma CutSettles(steps: seq<Step>, n: nat, k: nat)
    requires LegalRun(steps + [CutAll], n, k)
    ensures Settled(steps + [CutAll], n, k)
  {
    hide OutputHeight;
    Appended(steps, CutAll);
    forall i: nat, j: nat | i < n && j < k
      ensures Due(steps + [CutAll], n, i, j) == 0
    {
      assert Due(steps, n, i, j) >= 0;
      assert Plenty(steps, n, i, j);
    }
  }

  /**
   * Over every run of the module: a lane has committed the heights 0, 1, ..., each once and in order, exactly when each of
   * its cuts found what it was for; and when no cut is waiting those are all the heights up to its last commit.
   */
  lemma LedgerExact(steps: seq<Step>, n: nat, k: nat, i: nat, j: nat)
    requires LegalRun(steps, n, k) && i < n && j < k
    ensures Legal(LaneEvents(steps, n, i, j))
    ensures Consecutive(LaneAt(steps, n, i, j).done, 0) <==> AlwaysFinds(LaneEvents(steps, n, i, j))
    ensures Settled(steps, n, k) && AlwaysFinds(LaneEvents(steps, n, i, j)) ==>
      forall h :: Holds(LaneAt(steps, n, i, j).done, h) <==> 0 <= h <= CommitAt(steps, n, i, j)
  {
    LaneRun(steps, n, k, i, j);
    CommittedExact(LaneEvents(steps, n, i, j));
    if Settled(steps, n, k) && AlwaysFinds(LaneEvents(steps, n, i, j)) {
      assert Due(steps, n, i, j) == 0;
      HoldsConsecutive(LaneAt(steps, n, i, j).done);
    }
  }

  lemma HoldsConsecutive(done: seq<Block>)
    requires Consecutive(done, 0)
    ensures forall h :: Holds(done, h) <==> 0 <= h < |done|
  {
    forall h | 0 <= h < |done|
      ensures Holds(done, h)
    {
      assert done[h].height == h;
    }
  }

  /** The last output of a run */
  function LastOutput(steps: seq<Step>): seq<Proof> {
    if |steps| == 0 then []
    else match steps[|steps| - 1]
      case Output(hps) => hps
      case _ => LastOutput(steps[..|steps| - 1])
  }

  /** Two nodes that took the same output and have cut it hold the same blocks, lane by lane. */
  lemma NodesAgree(steps: seq<Step>, steps': seq<Step>, n: nat, k: nat, i: nat, j: nat)
    requires LegalRun(steps, n, k) && LegalRun(steps', n, k) && i < n && j < k
    requires Settled(steps, n, k) && Settled(steps', n, k) && LastOutput(steps) == LastOutput(steps') != []
    requires Consecutive(LaneAt(steps, n, i, j).done, 0) && Consecutive(LaneAt(steps', n, i, j).done, 0)
    requires Agreeing(Arrivals(LaneEvents(steps, n, i, j)), Arrivals(LaneEvents(steps', n, i, j)))
    ensures Raws(LaneAt(steps, n, i, j).done) == Raws(LaneAt(steps', n, i, j).done)
  {
    LedgerExact(steps, n, k, i, j);
    LedgerExact(steps', n, k, i, j);
    LaneRun(steps, n, k, i, j);
    LaneRun(steps', n, k, i, j);
    LastCommit(steps, n, i, j);
    LastCommit(steps', n, i, j);
    assert Due(steps, n, i, j) == 0 && Due(steps', n, i, j) == 0;
    SameLedger(LaneEvents(steps, n, i, j), LaneEvents(steps', n, i, j));
  }

  lemma {:induction false} LastCommit(steps: seq<Step>, n: nat, i: nat, j: nat)
    requires LastOutput(steps) != []
    ensures CommitAt(steps, n, i, j) == OutputHeight(LastOutput(steps), n, i, j)
    decreases |steps|
  {
    hide OutputHeight;
    if !steps[|steps| - 1].Output? {
      LastCommit(steps[..|steps| - 1], n, i, j);
    }
  }

  // ---------- the guard and the cut ----------

  lemma DueAfterOutput(steps: seq<Step>, hps: seq<Proof>, n: nat, i: nat, j: nat)
    ensures Due(steps + [Output(hps)], n, i, j) == OutputHeight(hps, n, i, j) + 1 - |LaneAt(steps, n, i, j).done|
    ensures Due(steps + [Output(hps)], n, i, j) == OutputHeight(hps, n, i, j) - CommitAt(steps, n, i, j) + Due(steps, n, i, j)
  {
    hide OutputHeight;
    Appended(steps, Output(hps));
  }

  /** The outputs of a run, each but the first accepted against the one before it. */
  predicate Guarded(steps: seq<Step>, n: nat, k: nat) {
    |steps| == 0 || var init := steps[..|steps| - 1];
      && Guarded(init, n, k)
      && (steps[|steps| - 1].Output? ==>
        var hps := steps[|steps| - 1].hps;
        hps != [] && (LastOutput(init) != [] ==> Advances(hps, LastOutput(init), n * k)))
  }

  lemma FlatIndex(n: nat, k: nat, i: nat, j: nat)
    requires i < n && j < k
    ensures 0 <= j * n + i < n * k
  {
    assert j * n + i < (j + 1) * n <= k * n;
  }

  /** Every position of an output of n k entries is some lane's. */
  lemma LaneOf(n: nat, k: nat, m: nat) returns (i: nat, j: nat)
    requires m < n * k
    ensures i < n && j < k && j * n + i == m
  {
    i, j := m % n, m / n;
    assert m == n * (m / n) + m % n;
    if j >= k {
      Below(n, k, j);
    }
  }

  lemma Below(n: int, k: int, j: int)
    requires n >= 0 && k <= j
    ensures n * k <= n * j
  {
  }

  /** An output accepted against the one before it moves some lane on and none back: its cut does not halt the node. */
  lemma AcceptedCuts(steps: seq<Step>, hps: seq<Proof>, n: nat, k: nat)
    requires LegalRun(steps + [Output(hps)], n, k) && LastOutput(steps) != []
    requires Advances(hps, LastOutput(steps), n * k)
    ensures !Halts(steps + [Output(hps)], n, k)
  {
    hide LegalRun, Due, LastOutput, Advances, Ahead, Settled;
    var after := steps + [Output(hps)];
    SettledBefore(steps, hps, n, k);
    forall i: nat, j: nat | i < n && j < k
      ensures Due(after, n, i, j) >= 0
    {
      AcceptedDue(steps, hps, n, k, i, j);
    }
    var m := SomeGain(hps, LastOutput(steps), n * k);
    var i, j := LaneOf(n, k, m);
    AcceptedDue(steps, hps, n, k, i, j);
    NotSettled(after, n, k, i, j);
  }

  lemma NotSettled(steps: seq<Step>, n: nat, k: nat, i: nat, j: nat)
    requires i < n && j < k && Due(steps, n, i, j) != 0
    ensures !Settled(steps, n, k)
  {
  }

  lemma SomeGain(hps: seq<Proof>, prev: seq<Proof>, num: nat) returns (m: nat)
    requires Advances(hps, prev, num)
    ensures m < num == |hps| == |prev| && hps[m].height > prev[m].height
  {
    SomeAhead(hps, prev, num);
    m :| m < num && hps[m].height > prev[m].height;
  }

  lemma AcceptedDue(steps: seq<Step>, hps: seq<Proof>, n: nat, k: nat, i: nat, j: nat)
    requires Settled(steps, n, k) && LastOutput(steps) != [] && Advances(hps, LastOutput(steps), n * k) && i < n && j < k
    ensures 0 <= j * n + i < n * k == |hps| == |LastOutput(steps)|
    ensures Due(steps + [Output(hps)], n, i, j) == hps[j * n + i].height - LastOutput(steps)[j * n + i].height >= 0
  {
    hide Due, LastOutput, Ahead;
    FlatIndex(n, k, i, j);
    LastCommit(steps, n, i, j);
    DueAfterOutput(steps, hps, n, i, j);
    assert Due(steps, n, i, j) == 0;
  }

  lemma SettledBefore(steps: seq<Step>, hps: seq<Proof>, n: nat, k: nat)
    requires LegalRun(steps + [Output(hps)], n, k)
    ensures Settled(steps, n, k) && LegalRun(steps, n, k) && |hps| >= n * k
  {
    hide Settled;
    Appended(steps, Output(hps));
  }

  /** No height is below -1, and one is above. */
  predicate Fine(hps: seq<Proof>, num: nat) {
    |hps| >= num && (forall m :: 0 <= m < num ==> hps[m].height >= -1) && (exists m :: 0 <= m < num && hps[m].height >= 0)
  }

  /** A first output is cut without halting exactly when none of its heights is below -1 and one is above. */
  lemma FirstOutputCuts(steps: seq<Step>, hps: seq<Proof>, n: nat, k: nat)
    requires LegalRun(steps + [Output(hps)], n, k) && LastOutput(steps) == [] && Guarded(steps, n, k)
    ensures !Halts(steps + [Output(hps)], n, k) <==> Fine(hps, n * k)
  {
    hide LegalRun, LaneAt, CommitAt, LastOutput, Due;
    SettledBefore(steps, hps, n, k);
    forall i: nat, j: nat | i < n && j < k
      ensures 0 <= j * n + i < n * k && Due(steps + [Output(hps)], n, i, j) == hps[j * n + i].height + 1
    {
      FlatIndex(n, k, i, j);
      NoCommit(steps, n, k, i, j);
      DueAfterOutput(steps, hps, n, i, j);
      assert Due(steps, n, i, j) == 0;
    }
    forall m: nat | m < n * k
      ensures exists i: nat, j: nat :: i < n && j < k && Due(steps + [Output(hps)], n, i, j) == hps[m].height + 1
    {
      var i, j := LaneOf(n, k, m);
      assert Due(steps + [Output(hps)], n, i, j) == hps[m].height + 1;
    }
  }

  lemma {:induction false} NoCommit(steps: seq<Step>, n: nat, k: nat, i: nat, j: nat)
    requires LastOutput(steps) == [] && Guarded(steps, n, k)
    ensures CommitAt(steps, n, i, j) == -1
    decreases |steps|
  {
    if |steps| != 0 {
      NoCommit(steps[..|steps| - 1], n, k, i, j);
    }
  }

  /** The first output, which nothing checks, can halt every node that takes it. */
  lemma UncheckedOutputHalts(hps: seq<Proof>, n: nat, k: nat)
    requires |hps| >= n * k && forall m :: 0 <= m < n * k ==> hps[m].height == -1
    ensures LegalRun([Output(hps)], n, k) && Enough([Output(hps)], n, k) && Halts([Output(hps)], n, k)
  {
    assert [Output(hps)] == [] + [Output(hps)];
    Appended([], Output(hps));
    forall i: nat, j: nat | i < n && j < k
      ensures Due([Output(hps)], n, i, j) == 0
    {
      FlatIndex(n, k, i, j);
      DueAfterOutput([], hps, n, i, j);
    }
  }

  /** An output waits for its cut. */
  predicate Waiting(steps: seq<Step>) {
    |steps| > 0 && match steps[|steps| - 1]
      case Arrival(_) => Waiting(steps[..|steps| - 1])
      case Output(_) => true
      case CutAll => false
  }

  /** That is: after the last output only blocks have arrived. */
  lemma {:induction false} WaitingIs(steps: seq<Step>)
    ensures Waiting(steps) <==> exists i :: 0 <= i < |steps| && steps[i].Output? && forall j :: i < j < |steps| ==> steps[j].Arrival?
    decreases |steps|
  {
    if |steps| > 0 {
      var init, last := steps[..|steps| - 1], |steps| - 1;
      match steps[last]
      case Arrival(_) =>
        WaitingIs(init);
        if Waiting(init) {
          var i :| 0 <= i < |init| && init[i].Output? && forall j :: i < j < |init| ==> init[j].Arrival?;
          assert steps[i].Output? && forall j :: i < j < |steps| ==> steps[j].Arrival?;
        }
        if i :| 0 <= i < |steps| && steps[i].Output? && forall j :: i < j < |steps| ==> steps[j].Arrival? {
          assert init[i].Output? && forall j :: i < j < |init| ==> init[j].Arrival?;
        }
      case Output(_) => assert steps[last].Output?;
      case CutAll =>
    }
  }

  function Outputs(steps: seq<Step>): nat {
    if |steps| == 0 then 0 else Outputs(steps[..|steps| - 1]) + if steps[|steps| - 1].Output? then 1 else 0
  }

  /**
   * Over every run of the module whose outputs pass the guard, with blocks arriving in between: a cut that waits will
   * halt the node exactly when it is the first and its output has a height below -1 or none above.
   */
  lemma {:induction false} OnlyTheFirstHalts(steps: seq<Step>, n: nat, k: nat)
    requires LegalRun(steps, n, k) && Guarded(steps, n, k) && Waiting(steps)
    ensures Halts(steps, n, k) <==> Outputs(steps) == 1 && !Fine(LastOutput(steps), n * k)
    decreases |steps|
  {
    hide Halts, Fine, Advances, LaneAt, CommitAt;
    var init, s := steps[..|steps| - 1], steps[|steps| - 1];
    assert steps == init + [s];
    if s.Arrival? {
      OnlyTheFirstHalts(init, n, k);
      ArrivalKeepsDue(init, s.block, n, k);
    } else {
      AnyOutput(init);
      if LastOutput(init) == [] {
        NoneBefore(init, n, k);
        FirstOutputCuts(init, s.hps, n, k);
      } else {
        AcceptedCuts(init, s.hps, n, k);
      }
    }
  }

  lemma ArrivalKeepsDue(steps: seq<Step>, b: Block, n: nat, k: nat)
    ensures Halts(steps + [Arrival(b)], n, k) <==> Halts(steps, n, k)
  {
    hide Inserted;
    Appended(steps, Arrival(b));
    forall i: nat, j: nat | i < n && j < k
      ensures Due(steps + [Arrival(b)], n, i, j) == Due(steps, n, i, j)
    {
    }
  }

  lemma {:induction false} AnyOutput(steps: seq<Step>)
    ensures LastOutput(steps) != [] ==> Outputs(steps) >= 1
    decreases |steps|
  {
    if |steps| != 0 {
      AnyOutput(steps[..|steps| - 1]);
    }
  }

  lemma {:induction false} NoneBefore(steps: seq<Step>, n: nat, k: nat)
    requires Guarded(steps, n, k) && LastOutput(steps) == []
    ensures Outputs(steps) == 0
    decreases |steps|
  {
    if |steps| != 0 {
      NoneBefore(steps[..|steps| - 1], n, k);
    }
  }

  // ---------- outputs of the other broadcast kinds ----------

  /** Whatever let an output through: its cut halts the node exactly when a height is below the last commit, or none is above. */
  lemma OutputHalts(steps: seq<Step>, hps: seq<Proof>, n: nat, k: nat)
    requires LegalRun(steps + [Output(hps)], n, k)
    ensures Halts(steps + [Output(hps)], n, k) <==>
      || (exists i: nat, j: nat :: i < n && j < k && OutputHeight(hps, n, i, j) < CommitAt(steps, n, i, j))
      || (forall i: nat, j: nat :: i < n && j < k ==> OutputHeight(hps, n, i, j) == CommitAt(steps, n, i, j))
  {
    hide LegalRun, LaneAt, CommitAt, OutputHeight, Due;
    SettledBefore(steps, hps, n, k);
    forall i: nat, j: nat | i < n && j < k
      ensures Due(steps + [Output(hps)], n, i, j) == OutputHeight(hps, n, i, j) - CommitAt(steps, n, i, j)
    {
      DueAfterOutput(steps, hps, n, i, j);
      assert Due(steps, n, i, j) == 0;
    }
  }

  /** The highest block of a lane that has arrived, -1 before the first */
  function Mark(steps: seq<Step>, i: nat, j: nat): int {
    if |steps| == 0 then -1
    else
      var m := Mark(steps[..|steps| - 1], i, j);
      match steps[|steps| - 1]
      case Arrival(b) => if b.leader == i + 1 && b.k == j + 1 && b.height > m then b.height else m
      case _ => m
  }

  /** What the guard for broadcasts without certificates lets through at this node: heights up to those that have arrived. */
  predicate Arrived(steps: seq<Step>, hps: seq<Proof>, n: nat, k: nat) {
    |hps| >= n * k && forall i: nat, j: nat :: i < n && j < k ==> OutputHeight(hps, n, i, j) <= Mark(steps, i, j)
  }

  lemma OneMore(steps: seq<Step>, s: Step, n: nat, k: nat)
    requires LegalRun(steps, n, k)
    requires s.Output? ==> Settled(steps, n, k) && |s.hps| >= n * k
    requires s.CutAll? ==> Enough(steps, n, k) && !Halts(steps, n, k)
    requires s.Arrival? ==> 1 <= s.block.leader <= n && 1 <= s.block.k <= k
    ensures LegalRun(steps + [s], n, k)
  {
    hide Settled, Enough, Halts;
    Appended(steps, s);
  }

  /**
   * That guard does not protect the cut: in a run of one lane whose first output is cut, a second output that it lets
   * through halts the node, be it the same height again or the one before.
   */
  lemma ArrivedCanHalt(b: Block, first: Proof, second: Proof)
    requires b.leader == 1 && b.k == 1 && b.height == 0 && first.height == 0 && -1 <= second.height <= 0
    ensures var steps := [Arrival(b), Output([first]), CutAll];
      && LegalRun(steps, 1, 1) && Arrived([Arrival(b)], [first], 1, 1) && Arrived(steps, [second], 1, 1)
      && LegalRun(steps + [Output([second])], 1, 1) && Enough(steps + [Output([second])], 1, 1) && Halts(steps + [Output([second])], 1, 1)
  {
    hide LegalRun;
    var s1, s2 := [] + [Arrival(b)], [] + [Arrival(b)] + [Output([first])];
    var s3 := s2 + [CutAll];
    assert s1 == [Arrival(b)] && s3 == [Arrival(b), Output([first]), CutAll];
    ghost var lane0 := Lane([], [b]);
    Nothing();
    OneMore([], Arrival(b), 1, 1);
    Appended([], Arrival(b));
    assert LaneAt(s1, 1, 0, 0) == lane0 && CommitAt(s1, 1, 0, 0) == -1 && Mark(s1, 0, 0) == 0;
    OneMore(s1, Output([first]), 1, 1);
    Appended(s1, Output([first]));
    assert LaneAt(s2, 1, 0, 0) == lane0 && CommitAt(s2, 1, 0, 0) == 0 && Mark(s2, 0, 0) == 0 && Due(s2, 1, 0, 0) == 1;
    OneMore(s2, CutAll, 1, 1);
    Appended(s2, CutAll);
    assert LaneAt(s3, 1, 0, 0) == Lane([b], []) by {
      assert [] + [b][..1] == [b] && [b][1..] == [];
    }
    assert CommitAt(s3, 1, 0, 0) == 0 && Mark(s3, 0, 0) == 0 && Due(s3, 1, 0, 0) == 0;
    OneMore(s3, Output([second]), 1, 1);
    Appended(s3, Output([second]));
    assert Due(s3 + [Output([second])], 1, 0, 0) == second.height;
  }

  lemma Nothing()
    ensures LegalRun([], 1, 1) && LaneAt([], 1, 0, 0) == Lane([], []) && CommitAt([], 1, 0, 0) == -1 && Mark([], 0, 0) == -1
  {
  }

  // ---------- the module's state ----------

  lemma WaitingAscends(steps: seq<Step>, n: nat, k: nat, i: nat, j: nat)
    requires LegalRun(steps, n, k) && i < n && j < k
    ensures Ascending(LaneAt(steps, n, i, j).buffer)
  {
    LaneRun(steps, n, k, i, j);
    AlwaysAscending(LaneEvents(steps, n, i, j));
  }

  lemma ArrivalStep(steps: seq<Step>, b: Block, n: nat, k: nat)
    requires LegalRun(steps, n, k) && 1 <= b.leader <= n && 1 <= b.k <= k
    ensures LegalRun(steps + [Arrival(b)], n, k)
    ensures forall i: nat, j: nat :: CommitAt(steps + [Arrival(b)], n, i, j) == CommitAt(steps, n, i, j)
    ensures forall i: nat, j: nat :: (i, j) != (b.leader - 1, b.k - 1) ==> LaneAt(steps + [Arrival(b)], n, i, j) == LaneAt(steps, n, i, j)
    ensures LaneAt(steps + [Arrival(b)], n, b.leader - 1, b.k - 1).buffer == Inserted(LaneAt(steps, n, b.leader - 1, b.k - 1).buffer, b)
  {
    hide Inserted;
    Appended(steps, Arrival(b));
  }

  lemma MarkStep(steps: seq<Step>, b: Block)
    ensures forall i: nat, j: nat :: (i, j) != (b.leader - 1, b.k - 1) ==> Mark(steps + [Arrival(b)], i, j) == Mark(steps, i, j)
    ensures b.leader >= 1 && b.k >= 1 ==>
      Mark(steps + [Arrival(b)], b.leader - 1, b.k - 1) ==
        if b.height > Mark(steps, b.leader - 1, b.k - 1) then b.height else Mark(steps, b.leader - 1, b.k - 1)
  {
    Appended(steps, Arrival(b));
  }

  /** Outputs and cuts leave the height marks alone. */
  lemma MarkStays(steps: seq<Step>, s: Step)
    requires !s.Arrival?
    ensures forall i: nat, j: nat :: Mark(steps + [s], i, j) == Mark(steps, i, j)
  {
    Appended(steps, s);
  }

  lemma OutputStep(steps: seq<Step>, hps: seq<Proof>, n: nat, k: nat)
    requires LegalRun(steps, n, k) && Settled(steps, n, k) && |hps| >= n * k
    ensures LegalRun(steps + [Output(hps)], n, k)
    ensures forall i: nat, j: nat :: LaneAt(steps + [Output(hps)], n, i, j) == LaneAt(steps, n, i, j)
    ensures forall i: nat, j: nat :: CommitAt(steps + [Output(hps)], n, i, j) == OutputHeight(hps, n, i, j)
  {
    hide OutputHeight, Settled;
    Appended(steps, Output(hps));
  }

  lemma CutStep(steps: seq<Step>, n: nat, k: nat)
    requires LegalRun(steps, n, k) && Enough(steps, n, k) && !Halts(steps, n, k)
    ensures LegalRun(steps + [CutAll], n, k)
    ensures forall i: nat, j: nat :: CommitAt(steps + [CutAll], n, i, j) == CommitAt(steps, n, i, j)
    ensures forall i: nat, j: nat :: i < n && j < k ==> 0 <= Due(steps, n, i, j) <= |LaneAt(steps, n, i, j).buffer|
    ensures forall i: nat, j: nat :: i < n && j < k ==>
      LaneAt(steps + [CutAll], n, i, j).buffer == LaneAt(steps, n, i, j).buffer[Due(steps, n, i, j)..]
  {
    Appended(steps, CutAll);
    forall i: nat, j: nat | i < n && j < k
      ensures 0 <= Due(steps, n, i, j) <= |LaneAt(steps, n, i, j).buffer|
      ensures LaneAt(steps + [CutAll], n, i, j).buffer == LaneAt(steps, n, i, j).buffer[Due(steps, n, i, j)..]
    {
      assert Due(steps, n, i, j) >= 0;
      assert Plenty(steps, n, i, j);
    }
  }

  /** An output has the height of leader i's lane j in place j n + i. */
  lemma HeightAt(hps: seq<Proof>, n: nat, i: nat, j: nat)
    requires 0 <= j * n + i < |hps|
    ensures OutputHeight(hps, n, i, j) == hps[j * n + i].height
  {
  }

  lemma LastIndex(n: nat, k: nat, len: nat)
    requires n > 0 && k > 0 ==> (k - 1) * n + (n - 1) < len
    ensures len >= n * k
  {
    if n > 0 && k > 0 {
      assert (k - 1) * n + n == k * n;
    }
  }

  lemma NothingDue(steps: seq<Step>, n: nat, k: nat, i: nat, j: nat)
    requires Settled(steps, n, k) && i < n && j < k
    ensures |LaneAt(steps, n, i, j).done| == CommitAt(steps, n, i, j) + 1
  {
    assert Due(steps, n, i, j) == 0;
  }

  class OrderManager {
    const nodes: nat
    const k: nat
    var blocks: array2<seq<Block>>
    var hs: array2<int>
    var lastCommit: array2<int>
    /** What has happened so far. */
    ghost var steps: seq<Step>

    ghost predicate Shaped()
      reads this
    {
      && blocks.Length0 == hs.Length0 == lastCommit.Length0 == nodes
      && blocks.Length1 == hs.Length1 == lastCommit.Length1 == k
      && hs != lastCommit
    }

    /** The buffers, last commits and height marks are those of a legal run. */
    ghost predicate Valid()
      reads this, blocks, hs, lastCommit
    {
      && Shaped() && LegalRun(steps, nodes, k)
      && (forall i: nat, j: nat :: i < nodes && j < k ==>
            blocks[i, j] == LaneAt(steps, nodes, i, j).buffer && lastCommit[i, j] == CommitAt(steps, nodes, i, j))
      && (forall i: nat, j: nat :: i < nodes && j < k ==> hs[i, j] == Mark(steps, i, j))
    }

    constructor (n: nat, kk: nat)
      ensures nodes == n && k == kk && Valid() && steps == [] && fresh(blocks) && fresh(hs) && fresh(lastCommit)
    {
      nodes, k := n, kk;
      var b: array2<seq<Block>> := new seq<Block>[n, kk]((_, _) => []);
      var h := new int[n, kk]((_, _) => -1);
      var l := new int[n, kk]((_, _) => -1);
      blocks, hs, lastCommit := b, h, l;
      steps := [];
    }

    /** A block arrives, in any order, also while a cut is waiting. */
    method UpdateBcBlocks(b: Block)
      requires Valid() && 1 <= b.leader <= nodes && 1 <= b.k <= k
      modifies blocks, hs, this`steps
      ensures Valid() && steps == old(steps) + [Arrival(b)]
      ensures forall i: nat, j: nat :: i < nodes && j < k ==>
        hs[i, j] == if (i, j) == (b.leader - 1, b.k - 1) && b.height > old(hs[i, j]) then b.height else old(hs[i, j])
    {
      hide LegalRun, Inserted, Mark, LaneAt, CommitAt;
      var lid, sid := b.leader - 1, b.k - 1;
      if b.height > hs[lid, sid] {
        hs[lid, sid] := b.height;
      }
      WaitingAscends(steps, nodes, k, lid, sid);
      AddBcBlock(b);
      ArrivalStep(steps, b, nodes, k);
      MarkStep(steps, b);
      steps := steps + [Arrival(b)];
    }

    method AddBcBlock(b: Block)
      requires Shaped() && 1 <= b.leader <= nodes && 1 <= b.k <= k && Ascending(blocks[b.leader - 1, b.k - 1])
      modifies blocks
      ensures blocks[b.leader - 1, b.k - 1] == Inserted(old(blocks[b.leader - 1, b.k - 1]), b)
      ensures forall i: nat, j: nat :: i < nodes && j < k && (i, j) != (b.leader - 1, b.k - 1) ==> blocks[i, j] == old(blocks[i, j])
    {
      var lid, sid := b.leader - 1, b.k - 1;
      var tmp := InsertBlock(blocks[lid, sid], b);
      blocks[lid, sid] := tmp;
    }

    /**
     * An agreed output sets every lane's last commit; the old values are where the cut starts. An output with fewer
     * entries than lanes halts the node.
     */
    method TakeOutput(hps: seq<Proof>) returns (halted: bool, tmpHeights: array2<int>)
      requires Valid() && Settled(steps, nodes, k)
      modifies lastCommit, this`steps
      ensures halted <==> |hps| < nodes * k
      ensures !halted ==> Valid() && steps == old(steps) + [Output(hps)]
      ensures fresh(tmpHeights) && tmpHeights.Length0 == nodes && tmpHeights.Length1 == k
      ensures !halted ==> forall i: nat, j: nat :: i < nodes && j < k ==> tmpHeights[i, j] == |LaneAt(steps, nodes, i, j).done| - 1
      ensures !halted ==> forall i: nat, j: nat :: i < nodes && j < k ==>
        tmpHeights[i, j] == old(lastCommit[i, j]) && lastCommit[i, j] == OutputHeight(hps, nodes, i, j)
    {
      hide LegalRun, LaneAt, CommitAt, OutputHeight, Settled, Mark;
      tmpHeights := new int[nodes, k]((_, _) => 0);
      halted := TakeRows(hps, tmpHeights);
      if halted {
        return;
      }
      OutputStep(steps, hps, nodes, k);
      MarkStays(steps, Output(hps));
      forall i: nat, j: nat | i < nodes && j < k
        ensures old(lastCommit[i, j]) == |LaneAt(steps, nodes, i, j).done| - 1
      {
        NothingDue(steps, nodes, k, i, j);
      }
      steps := steps + [Output(hps)];
    }

    /** All lanes, leader by leader. */
    method TakeRows(hps: seq<Proof>, tmpHeights: array2<int>) returns (halted: bool)
      requires Shaped() && tmpHeights.Length0 == nodes && tmpHeights.Length1 == k && tmpHeights != lastCommit
      modifies lastCommit, tmpHeights
      ensures halted <==> |hps| < nodes * k
      ensures !halted ==> forall i: nat, j: nat :: i < nodes && j < k ==>
        tmpHeights[i, j] == old(lastCommit[i, j]) && lastCommit[i, j] == OutputHeight(hps, nodes, i, j)
    {
      hide OutputHeight;
      halted := false;
      var i := 0;
      while i < nodes
        invariant 0 <= i <= nodes && !halted
        invariant forall p: nat, q: nat :: p < i && q < k ==> Read(hps, p, q, tmpHeights, old(lastCommit[p, q]))
        invariant forall p: nat, q: nat :: i <= p < nodes && q < k ==> lastCommit[p, q] == old(lastCommit[p, q])
      {
        halted := TakeRow(i, hps, tmpHeights);
        if halted {
          return;
        }
        i := i + 1;
      }
      if nodes > 0 && k > 0 {
        assert Read(hps, nodes - 1, k - 1, tmpHeights, old(lastCommit[nodes - 1, k - 1]));
      }
      LastIndex(nodes, k, |hps|);
    }

    /** A lane's last commit is taken from the output, and the old one kept. */
    ghost predicate Read(hps: seq<Proof>, i: nat, j: nat, tmpHeights: array2<int>, was: int)
      requires Shaped() && tmpHeights.Length0 == nodes && tmpHeights.Length1 == k && i < nodes && j < k
      reads this, lastCommit, tmpHeights
    {
      && 0 <= j * nodes + i < |hps| && tmpHeights[i, j] == was
      && lastCommit[i, j] == OutputHeight(hps, nodes, i, j)
    }

    /** One leader's lanes. */
    method TakeRow(i: nat, hps: seq<Proof>, tmpHeights: array2<int>) returns (halted: bool)
      requires Shaped() && tmpHeights.Length0 == nodes && tmpHeights.Length1 == k && i < nodes
      requires tmpHeights != lastCommit
      modifies lastCommit, tmpHeights
      ensures halted ==> |hps| < nodes * k
      ensures !halted ==> forall q: nat :: q < k ==> Read(hps, i, q, tmpHeights, old(lastCommit[i, q]))
      ensures forall p: nat, q: nat :: p < nodes && q < k && p != i ==>
        lastCommit[p, q] == old(lastCommit[p, q]) && tmpHeights[p, q] == old(tmpHeights[p, q])
    {
      hide OutputHeight;
      halted := false;
      var j := 0;
      while j < k
        invariant 0 <= j <= k && !halted
        invariant forall q: nat :: q < j ==> Read(hps, i, q, tmpHeights, old(lastCommit[i, q]))
        invariant forall q: nat :: j <= q < k ==> lastCommit[i, q] == old(lastCommit[i, q])
        invariant forall p: nat, q: nat :: p < nodes && q < k && p != i ==>
          lastCommit[p, q] == old(lastCommit[p, q]) && tmpHeights[p, q] == old(tmpHeights[p, q])
      {
        FlatIndex(nodes, k, i, j);
        if j * nodes + i >= |hps| {
          return true;
        }
        // the test in front of this assignment compares a pointer with a struct: it always lets it pass
        tmpHeights[i, j] := lastCommit[i, j];
        lastCommit[i, j] := hps[j * nodes + i].height;
        HeightAt(hps, nodes, i, j);
        j := j + 1;
      }
    }

    /** One look at the buffer while waiting: whether every lane holds as many blocks as the cut takes. */
    method EnoughBlocks(old': array2<int>) returns (flag: bool)
      requires Valid() && Starts(old')
      ensures flag <==> Enough(steps, nodes, k)
      ensures flag <==> forall i: nat, j: nat :: i < nodes && j < k ==> |blocks[i, j]| >= lastCommit[i, j] - old'[i, j]
    {
      hide LegalRun, LaneAt, CommitAt;
      forall i: nat, j: nat | i < nodes && j < k
        ensures Plenty(steps, nodes, i, j) <==> |blocks[i, j]| >= lastCommit[i, j] - old'[i, j]
      {
        assert old'[i, j] == |LaneAt(steps, nodes, i, j).done| - 1;
      }
      flag := true;
      var i: nat := 0;
      while i < nodes
        invariant 0 <= i <= nodes
        invariant flag <==> forall p: nat, q: nat :: p < i && q < k ==> Plenty(steps, nodes, p, q)
      {
        var j: nat := 0;
        while j < k
          invariant 0 <= j <= k
          invariant flag <==> ((forall p: nat, q: nat :: p < i && q < k ==> Plenty(steps, nodes, p, q)) && (forall q: nat :: q < j ==> Plenty(steps, nodes, i, q)))
        {
          assert old'[i, j] == |LaneAt(steps, nodes, i, j).done| - 1;
          if |blocks[i, j]| < lastCommit[i, j] - old'[i, j] {
            flag := false;
            assert !Plenty(steps, nodes, i, j);
          }
          j := j + 1;
        }
        i := i + 1;
      }
    }

    /** The heights the lanes' commits have reached. */
    ghost predicate Starts(old': array2<int>)
      reads this, old'
    {
      && old'.Length0 == nodes && old'.Length1 == k
      && forall i: nat, j: nat :: i < nodes && j < k ==> old'[i, j] == |LaneAt(steps, nodes, i, j).done| - 1
    }

    /** Cut every lane, once enough blocks are there. */
    method CutBlock(old': array2<int>) returns (halted: bool)
      requires Valid() && Starts(old') && Enough(steps, nodes, k)
      modifies blocks, this`steps
      ensures halted <==> Halts(old(steps), nodes, k)
      ensures !halted ==> Valid() && steps == old(steps) + [CutAll]
      ensures halted <==>
        || (exists i: nat, j: nat :: i < nodes && j < k && lastCommit[i, j] < old'[i, j])
        || (forall i: nat, j: nat :: i < nodes && j < k ==> lastCommit[i, j] == old'[i, j])
      ensures !halted ==> forall i: nat, j: nat :: i < nodes && j < k ==>
        && 0 <= lastCommit[i, j] - old'[i, j] <= |old(blocks[i, j])|
        && blocks[i, j] == old(blocks[i, j])[lastCommit[i, j] - old'[i, j]..]
    {
      hide LegalRun, LaneAt, CommitAt;
      var count := 0;
      var i: nat := 0;
      while i < nodes
        invariant 0 <= i <= nodes && count >= 0 && steps == old(steps)
        invariant forall p: nat, q: nat :: p < i && q < k ==> IsCut(p, q, old(blocks[p, q]))
        invariant forall p: nat, q: nat :: i <= p < nodes && q < k ==> blocks[p, q] == old(blocks[p, q])
        invariant count == 0 <==> forall p: nat, q: nat :: p < i && q < k ==> Due(steps, nodes, p, q) == 0
      {
        forall q: nat | q < k
          ensures lastCommit[i, q] == CommitAt(steps, nodes, i, q) && |blocks[i, q]| >= Due(steps, nodes, i, q)
        {
          assert Plenty(steps, nodes, i, q);
        }
        var back, cut := CutRow(i, old');
        if back {
          return true;
        }
        count := count + cut;
        i := i + 1;
      }
      halted := count == 0;
      forall p: nat, q: nat | p < nodes && q < k
        ensures Due(steps, nodes, p, q) >= 0
      {
        assert IsCut(p, q, old(blocks[p, q]));
      }
      if !halted {
        CutStep(steps, nodes, k);
        MarkStays(steps, CutAll);
        forall p: nat, q: nat | p < nodes && q < k
          ensures blocks[p, q] == LaneAt(steps + [CutAll], nodes, p, q).buffer
        {
          assert IsCut(p, q, old(blocks[p, q]));
        }
        steps := steps + [CutAll];
      }
    }

    /** What was in the lane's buffer is cut. */
    ghost predicate IsCut(i: nat, j: nat, was: seq<Block>)
      requires Shaped() && i < nodes && j < k
      reads this, blocks
    {
      0 <= Due(steps, nodes, i, j) <= |was| && blocks[i, j] == was[Due(steps, nodes, i, j)..]
    }

    /** The cut of one leader's lanes. */
    method CutRow(i: nat, old': array2<int>) returns (back: bool, count: int)
      requires Shaped() && Starts(old') && i < nodes
      requires forall q: nat :: q < k ==> lastCommit[i, q] == CommitAt(steps, nodes, i, q) && |blocks[i, q]| >= Due(steps, nodes, i, q)
      modifies blocks
      ensures count >= 0 && (back <==> exists q: nat :: q < k && Due(steps, nodes, i, q) < 0)
      ensures !back ==> forall q: nat :: q < k ==> IsCut(i, q, old(blocks[i, q]))
      ensures !back ==> (count == 0 <==> forall q: nat :: q < k ==> Due(steps, nodes, i, q) == 0)
      ensures forall p: nat, q: nat :: p < nodes && q < k && p != i ==> blocks[p, q] == old(blocks[p, q])
    {
      hide LaneAt, CommitAt;
      back, count := false, 0;
      var j: nat := 0;
      while j < k
        invariant 0 <= j <= k && count >= 0
        invariant forall q: nat :: q < j ==> IsCut(i, q, old(blocks[i, q]))
        invariant forall q: nat :: j <= q < k ==> blocks[i, q] == old(blocks[i, q])
        invariant forall p: nat, q: nat :: p < nodes && q < k && p != i ==> blocks[p, q] == old(blocks[p, q])
        invariant count == 0 <==> forall q: nat :: q < j ==> Due(steps, nodes, i, q) == 0
      {
        var differ := lastCommit[i, j] - old'[i, j];
        assert differ == Due(steps, nodes, i, j);
        if differ < 0 {
          back := true;
          return;
        }
        blocks[i, j] := blocks[i, j][differ..];
        count := count + differ;
        j := j + 1;
      }
      forall q: nat | q < k
        ensures Due(steps, nodes, i, q) >= 0
      {
        assert IsCut(i, q, old(blocks[i, q]));
      }
    }
  }
}
