/** A run with two faulty nodes and right shards that comes to rest before a correct follower has anything to output. */
module RbcStranded {
  import opened RbcNode
  import opened RbcProtocol
  import opened RbcValidity
  import opened RbcTotality
  import opened RbcDelivery
  import opened RbcBytes
  import opened RbcWitness
  import opened RbcRest
  import opened Wrappers

  /** Seven nodes: a correct leader 0, correct followers 1 to 4, and faulty nodes 5 and 6. */
  ghost predicate TwoByzantine(u: Setup) {
    u.Valid() && u.c.f == 2 && u.lid == 0 && u.byz == {5, 6}
  }

  lemma TwoByzantineExists() returns (u: Setup)
    ensures TwoByzantine(u)
  {
    hide Codec.Valid;
    var c := RepetitionCodec(2);
    RepetitionValid(2);
    u := TwoByzantineOver(c, [7]);
  }

  lemma TwoByzantineOver(c: Codec, shard: Bytes) returns (u: Setup)
    requires c.Valid() && c.f == 2 && |shard| == 1 && c.codeword([shard, shard, shard, shard, shard, shard, shard])
    ensures TwoByzantine(u)
  {
    hide Codec.Valid, Payload;
    var word := [shard, shard, shard, shard, shard, shard, shard];
    var path := Path([shard, c.root(word)], 1);
    u := Setup(c, 0, {5, 6}, shard, word, [path, path, path, path, path, path, path]);
    FirstShard(word);
  }

  // ---------- a follower on its own ----------

  /** An ECHO short of every threshold is only counted. */
  lemma EchoBelow(c: Codec, s: Follower, p: nat, m: Path)
    requires m.Wellformed() && !s.halted && s.Buf(m.Root()).count + 1 < c.f + 1 && s.echocount + 1 < c.N()
    ensures EchoStep(c, s, p, m) == EchoCounted(s, p, m)
  {
  }

  /** With a candidate for the root in store, and nothing else received. */
  ghost predicate Stocked(s: Follower, root: Bytes) {
    && s == s.(halted := false, phase := WaitReady, readymap := map[], readyDone := false, readysignal := [], outputsignal := [],
               echoed := {}, echoDone := false, output := None)
    && |s.candidates| == 1 && s.candidates[0].root == root
  }

  lemma ThreeEchoes(u: Setup)
    requires TwoByzantine(u)
    ensures var a := EchoStep(u.c, FreshFollower(), 0, u.paths[0]);
      var b := EchoStep(u.c, a, 5, u.paths[5]);
      var t := EchoStep(u.c, b, 6, u.paths[6]);
      && a.Running() && !a.echoDone && b.Running() && !b.echoDone && Stocked(t, u.Root())
  {
    hide Flat, EchoStep, Rebuilt, Codec.Valid;
    var root := u.Root();
    EchoBelow(u.c, FreshFollower(), 0, u.paths[0]);
    var a := EchoStep(u.c, FreshFollower(), 0, u.paths[0]);
    EchoBelow(u.c, a, 5, u.paths[5]);
    var b := EchoStep(u.c, a, 5, u.paths[5]);
    var shards: map<nat, Bytes> := map[0 := u.word[0], 5 := u.word[5]];
    assert b.Buf(root) == EchoBuf(2, shards, false);
    assert shards.Keys == {0, 5} && |shards| == |shards.Keys|;
    InputFits(u);
    ThirdEcho(u, b);
  }

  lemma ThirdEcho(u: Setup, b: Follower)
    requires TwoByzantine(u) && |u.input| <= |Flat(u.word)|
    requires b.Buf(u.Root()) == EchoBuf(2, map[0 := u.word[0], 5 := u.word[5]], false) && b.echocount == 2
    requires b == FreshFollower().(echocount := b.echocount, echomap := b.echomap)
    ensures Stocked(EchoStep(u.c, b, 6, u.paths[6]), u.Root())
  {
    hide Flat, EchoStep, Rebuilt, Codec.Valid;
    var shards: map<nat, Bytes> := map[0 := u.word[0], 5 := u.word[5]];
    assert shards.Keys == {0, 5} && |shards| == |shards.Keys|;
    DecidingEcho(u, b, 6, u.paths[6]);
    var t := EchoStep(u.c, b, 6, u.paths[6]);
    EchoSignals(u.c, b, 6, u.paths[6]);
    var w := StepOutcome(u.c, b, 6, u.paths[6]);
    RebuiltRoot(u.c, w, t.candidates[0], u.Root(), u.paths[6].len);
  }

  lemma RebuiltRoot(c: Codec, w: seq<Bytes>, cand: Candidate, root: Bytes, len: int)
    requires Rebuilt(c, w, cand, root, len)
    ensures cand.root == root
  {
  }

  /** Two ECHO messages, its own and the leader's. */
  lemma TwoEchoes(u: Setup)
    requires TwoByzantine(u)
    ensures var s := ValStep(FreshFollower(), u.paths[4]);
      var a := EchoStep(u.c, s, 4, u.paths[4]);
      var b := EchoStep(u.c, a, 0, u.paths[0]);
      && s.Running() && !s.echoDone && a.Running() && !a.echoDone
      && b == s.(echocount := 2, echomap := b.echomap)
  {
    hide Codec.Valid, Flat, EchoStep;
    var s := ValStep(FreshFollower(), u.paths[4]);
    EchoBelow(u.c, s, 4, u.paths[4]);
    EchoBelow(u.c, EchoStep(u.c, s, 4, u.paths[4]), 0, u.paths[0]);
  }

  /** READY from the leader and the two faulty nodes makes a follower join. */
  function Joining(c: Codec, s: Follower, root: Bytes): Follower {
    ReadyStep(c, ReadyStep(c, ReadyStep(c, s, root), root), root)
  }

  lemma Joins(c: Codec, s: Follower, root: Bytes)
    requires c.f == 2 && !s.halted && s.phase == WaitReady && s.readymap == map[] && !s.readyDone && s.readysignal == [] && s.outputsignal == []
    ensures var a := ReadyStep(c, s, root);
      var b := ReadyStep(c, a, root);
      a.Running() && !a.readyDone && b.Running() && !b.readyDone
    ensures CanMove(Joining(c, s, root))
    ensures MainStep(Joining(c, s, root))
      == s.(readymap := map[root := 3], phase := WaitOutput, readied := Some(root), readyDone := false, readysignal := [])
  {
    var a := ReadyStep(c, s, root);
    var b := ReadyStep(c, a, root);
    assert a.readymap == map[root := 1] && b.readymap == map[root := 2];
    assert ReadyStep(c, b, root).readymap == map[root := 3];
  }

  /** Two more bring it to wait for a candidate. */
  lemma Waits(c: Codec, s: Follower, root: Bytes)
    requires c.f == 2 && !s.halted && s.phase == WaitOutput && s.readymap == map[root := 3] && !s.readyDone && s.outputsignal == []
    ensures var a := ReadyStep(c, s, root);
      var b := ReadyStep(c, a, root);
      && a.Running() && !a.readyDone && CanMove(b)
      && MainStep(b) == s.(readymap := map[root := 5], phase := WaitCandidate(root), readyDone := true, outputsignal := [])
  {
    var a := ReadyStep(c, s, root);
    assert a.readymap == map[root := 4];
    assert ReadyStep(c, a, root).readymap == map[root := 5];
  }

  // ---------- the run, stage by stage ----------

  /** Three messages received */
  function Heard(u: Setup): map<nat, Path>
    requires |u.paths| == 7
  {
    map[0 := u.paths[0], 5 := u.paths[5], 6 := u.paths[6]]
  }

  /** The last follower echoes; the leader counts itself, the faulty nodes and that follower, and sends READY. */
  lemma LeaderStarts(u: Setup) returns (es: seq<Event>)
    requires TwoByzantine(u)
    ensures Legal(u, es)
    ensures var s := After(u, es);
      && s.leader == FreshLeader().(echocount := 4, echoDone := true, phase := WaitOutput, readied := true)
      && s.followers[4] == ValStep(FreshFollower(), u.paths[4])
      && (forall q :: 1 <= q <= 3 ==> s.followers[q] == FreshFollower())
      && (forall q :: 1 <= q <= 4 ==> s.echoGot[q] == map[]) && (forall q :: 0 <= q <= 4 ==> s.readyGot[q] == map[])
      && s.echoGot[0] == Heard(u)[4 := u.paths[4]]
  {
    hide EchoStep, ReadyStep, MainStep, Codec.Valid, After, Legal, Flat;
    EmptyRun(u);
    es := Push(u, [], DeliverVal(4, u.paths[4]));
    es := Push(u, es, DeliverEcho(0, 0, u.paths[0]));
    es := Push(u, es, DeliverEcho(5, 0, u.paths[5]));
    es := Push(u, es, DeliverEcho(6, 0, u.paths[6]));
    es := Push(u, es, DeliverEcho(4, 0, u.paths[4]));
    es := Push(u, es, Main(0));
  }

  /** Leader and faulty nodes give a follower its candidate before its own VAL arrives. */
  lemma Stock(u: Setup, es: seq<Event>, q: nat) returns (more: seq<Event>)
    requires TwoByzantine(u) && Legal(u, es) && 1 <= q <= 3
    requires After(u, es).followers[q] == FreshFollower() && After(u, es).echoGot[q] == map[]
    ensures Legal(u, more) && SameElse(u, After(u, es), After(u, more), q) && After(u, more).readyGot == After(u, es).readyGot
    ensures Stocked(After(u, more).followers[q], u.Root()) && After(u, more).echoGot[q] == Heard(u)
  {
    hide EchoStep, ReadyStep, MainStep, ValStep, Codec.Valid, Flat, Stocked, After, Legal;
    ThreeEchoes(u);
    more := Push(u, es, DeliverEcho(0, q, u.paths[0]));
    more := Push(u, more, DeliverEcho(5, q, u.paths[5]));
    more := Push(u, more, DeliverEcho(6, q, u.paths[6]));
  }

  lemma StockLast(u: Setup, es: seq<Event>) returns (more: seq<Event>)
    requires TwoByzantine(u) && Legal(u, es)
    requires After(u, es).followers[4] == ValStep(FreshFollower(), u.paths[4]) && After(u, es).echoGot[4] == map[]
    ensures Legal(u, more) && SameElse(u, After(u, es), After(u, more), 4) && After(u, more).readyGot == After(u, es).readyGot
    ensures var t := After(u, more).followers[4];
      t == ValStep(FreshFollower(), u.paths[4]).(echocount := 2, echomap := t.echomap)
    ensures After(u, more).echoGot[4] == map[4 := u.paths[4], 0 := u.paths[0]]
  {
    hide EchoStep, ReadyStep, MainStep, Codec.Valid, Flat, After, Legal;
    TwoEchoes(u);
    more := Push(u, es, DeliverEcho(4, 4, u.paths[4]));
    more := Push(u, more, DeliverEcho(0, 4, u.paths[0]));
  }

  lemma Join3(u: Setup, es: seq<Event>, q: nat) returns (more: seq<Event>)
    requires TwoByzantine(u) && Legal(u, es) && 1 <= q <= 4 && After(u, es).leader.readied && After(u, es).readyGot[q] == map[]
    requires var s := After(u, es).followers[q];
      !s.halted && s.phase == WaitReady && s.readymap == map[] && !s.readyDone && s.readysignal == [] && s.outputsignal == []
    ensures Legal(u, more) && SameElse(u, After(u, es), After(u, more), q) && After(u, more).echoGot == After(u, es).echoGot
    ensures After(u, more).followers[q] == After(u, es).followers[q].(readymap := map[u.Root() := 3], phase := WaitOutput,
      readied := Some(u.Root()), readyDone := false, readysignal := [])
    ensures After(u, more).readyGot[q].Keys == {0, 5, 6}
  {
    hide EchoStep, ReadyStep, MainStep, ValStep, Codec.Valid, Flat, After, Legal;
    var root := u.Root();
    Joins(u.c, After(u, es).followers[q], root);
    more := Push(u, es, DeliverReady(0, q, root));
    more := Push(u, more, DeliverReady(5, q, root));
    more := Push(u, more, DeliverReady(6, q, root));
    more := Push(u, more, Main(q));
  }

  /** READY from two more followers. */
  lemma Wait2(u: Setup, es: seq<Event>, q: nat, a: nat, b: nat) returns (more: seq<Event>)
    requires TwoByzantine(u) && Legal(u, es) && 1 <= q <= 4 && 1 <= a <= 3 && 1 <= b <= 3 && a != b && a != q && b != q
    requires After(u, es).followers[a].readied == After(u, es).followers[b].readied == Some(u.Root())
    requires After(u, es).readyGot[q].Keys == {0, 5, 6}
    requires var s := After(u, es).followers[q];
      !s.halted && s.phase == WaitOutput && s.readymap == map[u.Root() := 3] && !s.readyDone && s.outputsignal == []
    ensures Legal(u, more) && SameElse(u, After(u, es), After(u, more), q) && After(u, more).echoGot == After(u, es).echoGot
    ensures After(u, more).followers[q] == After(u, es).followers[q].(readymap := map[u.Root() := 5], phase := WaitCandidate(u.Root()),
      readyDone := true, outputsignal := [])
  {
    hide EchoStep, ReadyStep, MainStep, ValStep, Codec.Valid, Flat, After, Legal;
    var root := u.Root();
    Waits(u.c, After(u, es).followers[q], root);
    more := Push(u, es, DeliverReady(a, q, root));
    more := Push(u, more, DeliverReady(b, q, root));
    more := Push(u, more, Main(q));
  }

  /** A follower that has its candidate outputs it. */
  lemma Deliver(u: Setup, es: seq<Event>, q: nat) returns (more: seq<Event>)
    requires TwoByzantine(u) && Legal(u, es) && 1 <= q <= 3
    requires var s := After(u, es).followers[q];
      !s.halted && s.phase == WaitCandidate(u.Root()) && |s.candidates| == 1 && s.candidates[0].root == u.Root()
    ensures Legal(u, more) && SameElse(u, After(u, es), After(u, more), q) && After(u, more).echoGot == After(u, es).echoGot
    ensures var s, t := After(u, es).followers[q], After(u, more).followers[q];
      t.phase == Done && t.output.Some? && t.echoed == s.echoed && t.readied == s.readied
  {
    hide EchoStep, ReadyStep, ValStep, Codec.Valid, Flat, After, Legal;
    more := Push(u, es, Main(q));
  }

  /** READY from itself and three followers lets the leader output. */
  lemma LeaderEnds(u: Setup, es: seq<Event>) returns (more: seq<Event>)
    requires TwoByzantine(u) && Legal(u, es) && After(u, es).readyGot[0] == map[]
    requires After(u, es).leader == FreshLeader().(echocount := 4, echoDone := true, phase := WaitOutput, readied := true)
    requires forall q :: 1 <= q <= 3 ==> After(u, es).followers[q].readied == Some(u.Root())
    ensures Legal(u, more) && After(u, more).followers == After(u, es).followers && After(u, more).echoGot == After(u, es).echoGot
    ensures After(u, more).leader.phase == Done && After(u, more).leader.output
  {
    hide EchoStep, ReadyStep, MainStep, ValStep, Codec.Valid, Flat, After, Legal;
    more := Push(u, es, DeliverReady(0, 0, u.Root()));
    more := Push(u, more, DeliverReady(1, 0, u.Root()));
    more := Push(u, more, DeliverReady(2, 0, u.Root()));
    more := Push(u, more, DeliverReady(3, 0, u.Root()));
    more := Push(u, more, Main(0));
  }

  // ---------- the end of the run ----------

  /** A follower that has joined with its candidate in store. */
  ghost predicate JoinedIn(u: Setup, s: System, q: nat)
    requires Sized(u, s) && q < u.N() && u.N() == |u.paths| == 7
  {
    var f := s.followers[q];
    && !f.halted && f.phase == WaitOutput && f.readymap == map[u.Root() := 3] && !f.readyDone && f.outputsignal == []
    && |f.candidates| == 1 && f.candidates[0].root == u.Root() && f.echoed == {} && f.readied == Some(u.Root())
    && s.echoGot[q] == Heard(u) && s.readyGot[q].Keys == {0, 5, 6}
  }

  ghost predicate Delivered(u: Setup, s: System, q: nat)
    requires Sized(u, s) && q < u.N() && u.N() == |u.paths| == 7
  {
    var f := s.followers[q];
    f.phase == Done && f.output.Some? && f.echoed == {} && f.readied == Some(u.Root()) && s.echoGot[q] == Heard(u)
  }

  /** The last follower waits for a candidate with two ECHO messages. */
  ghost predicate Stranded(u: Setup, s: System)
    requires Sized(u, s) && u.N() == |u.paths| == 7
  {
    var f := s.followers[4];
    && f.phase == WaitCandidate(u.Root()) && f.candidates == [] && f.readyDone && f.echoed == {u.paths[4]} && f.output == None
    && s.echoGot[4] == map[4 := u.paths[4], 0 := u.paths[0]]
  }

  lemma StockAndJoin(u: Setup, es: seq<Event>, q: nat) returns (more: seq<Event>)
    requires TwoByzantine(u) && Legal(u, es) && 1 <= q <= 3 && After(u, es).leader.readied
    requires After(u, es).followers[q] == FreshFollower() && After(u, es).echoGot[q] == map[] && After(u, es).readyGot[q] == map[]
    ensures Legal(u, more) && SameElse(u, After(u, es), After(u, more), q) && JoinedIn(u, After(u, more), q)
  {
    hide Codec.Valid, Flat, After, Legal;
    more := Stock(u, es, q);
    more := Join3(u, more, q);
  }

  lemma WaitAndDeliver(u: Setup, es: seq<Event>, q: nat, a: nat, b: nat) returns (more: seq<Event>)
    requires TwoByzantine(u) && Legal(u, es) && 1 <= q <= 3 && 1 <= a <= 3 && 1 <= b <= 3 && a != b && a != q && b != q
    requires JoinedIn(u, After(u, es), q)
    requires After(u, es).followers[a].readied == After(u, es).followers[b].readied == Some(u.Root())
    ensures Legal(u, more) && SameElse(u, After(u, es), After(u, more), q) && Delivered(u, After(u, more), q)
  {
    hide Codec.Valid, Flat, After, Legal;
    more := Wait2(u, es, q, a, b);
    more := Deliver(u, more, q);
  }

  lemma StrandLast(u: Setup, es: seq<Event>) returns (more: seq<Event>)
    requires TwoByzantine(u) && Legal(u, es) && After(u, es).leader.readied
    requires After(u, es).followers[4] == ValStep(FreshFollower(), u.paths[4]) && After(u, es).echoGot[4] == map[] && After(u, es).readyGot[4] == map[]
    requires After(u, es).followers[1].readied == After(u, es).followers[2].readied == Some(u.Root())
    ensures Legal(u, more) && SameElse(u, After(u, es), After(u, more), 4) && Stranded(u, After(u, more))
  {
    hide Codec.Valid, Flat, After, Legal;
    more := StockLast(u, es);
    more := Join3(u, more, 4);
    more := Wait2(u, more, 4, 1, 2);
  }

  lemma JoinedStays(u: Setup, s: System, t: System, q: nat, x: nat)
    requires SameElse(u, s, t, q) && x < u.N() && x != q && u.N() == |u.paths| == 7
    ensures JoinedIn(u, s, x) ==> JoinedIn(u, t, x)
    ensures Delivered(u, s, x) ==> Delivered(u, t, x)
    ensures q != 4 && Stranded(u, s) ==> Stranded(u, t)
  {
  }

  lemma HaveReadied(u: Setup, s: System, q: nat)
    requires Sized(u, s) && q < u.N() && u.N() == |u.paths| == 7 && (JoinedIn(u, s, q) || Delivered(u, s, q))
    ensures s.followers[q].readied == Some(u.Root())
  {
  }

  lemma EndsAtRest(u: Setup, s: System)
    requires TwoByzantine(u) && Sized(u, s) && s.leader.phase == Done && Stranded(u, s)
    requires Delivered(u, s, 1) && Delivered(u, s, 2) && Delivered(u, s, 3)
    ensures AtRest(u, s, u.byz)
  {
    hide Codec.Valid, Flat;
    forall e | Enabled(u, s, e)
      ensures !Pending(u, s, e, u.byz)
    {
      match e
      case DeliverVal(q, m) =>
        assert q == 4;
      case DeliverEcho(p, q, m) =>
        assert q == 4 && p != 0 && p != 4;
      case DeliverReady(p, q, root) =>
      case Main(q) =>
    }
  }

  lemma OwnEchoesAreGood(u: Setup, got: map<nat, Path>)
    requires u.Valid() && forall p :: p in got ==> p < u.N() && got[p] == u.paths[p]
    ensures GoodEchoes(u, got)
  {
    hide Flat, Codec.Valid;
    InputFits(u);
  }

  /** Everyone joins; the last follower is out of reach of a third ECHO. */
  lemma Midway(u: Setup) returns (es: seq<Event>)
    requires TwoByzantine(u)
    ensures Legal(u, es)
    ensures var s := After(u, es);
      && JoinedIn(u, s, 1) && JoinedIn(u, s, 2) && JoinedIn(u, s, 3) && Stranded(u, s)
      && s.leader == FreshLeader().(echocount := 4, echoDone := true, phase := WaitOutput, readied := true)
      && s.readyGot[0] == map[] && s.echoGot[0] == Heard(u)[4 := u.paths[4]]
  {
    hide Codec.Valid, Flat, After, Legal, ValStep, JoinedIn, Stranded, Delivered;
    es := LeaderStarts(u);
    es := StockAndJoin(u, es, 1);
    ghost var s1 := After(u, es);
    es := StockAndJoin(u, es, 2);
    ghost var s2 := After(u, es);
    es := StockAndJoin(u, es, 3);
    ghost var s3 := After(u, es);
    JoinedStays(u, s1, s2, 2, 1);
    JoinedStays(u, s2, s3, 3, 1);
    JoinedStays(u, s2, s3, 3, 2);
    HaveReadied(u, s3, 1);
    HaveReadied(u, s3, 2);
    es := StrandLast(u, es);
    JoinedStays(u, s3, After(u, es), 4, 1);
    JoinedStays(u, s3, After(u, es), 4, 2);
    JoinedStays(u, s3, After(u, es), 4, 3);
  }

  /** Three followers output. */
  lemma ThreeDeliver(u: Setup, es: seq<Event>) returns (more: seq<Event>)
    requires TwoByzantine(u) && Legal(u, es)
    requires var s := After(u, es); JoinedIn(u, s, 1) && JoinedIn(u, s, 2) && JoinedIn(u, s, 3) && Stranded(u, s)
    ensures Legal(u, more)
    ensures var s := After(u, more); Delivered(u, s, 1) && Delivered(u, s, 2) && Delivered(u, s, 3) && Stranded(u, s)
    ensures var s, t := After(u, es), After(u, more);
      t.leader == s.leader && t.readyGot[0] == s.readyGot[0] && t.echoGot[0] == s.echoGot[0]
  {
    hide Codec.Valid, Flat, After, Legal, JoinedIn, Stranded, Delivered;
    ghost var s0 := After(u, es);
    HaveReadied(u, s0, 2);
    HaveReadied(u, s0, 3);
    more := WaitAndDeliver(u, es, 1, 2, 3);
    ghost var s1 := After(u, more);
    JoinedStays(u, s0, s1, 1, 2);
    JoinedStays(u, s0, s1, 1, 3);
    HaveReadied(u, s1, 1);
    HaveReadied(u, s1, 3);
    more := WaitAndDeliver(u, more, 2, 1, 3);
    ghost var s2 := After(u, more);
    JoinedStays(u, s1, s2, 2, 1);
    JoinedStays(u, s1, s2, 2, 3);
    HaveReadied(u, s2, 1);
    HaveReadied(u, s2, 2);
    more := WaitAndDeliver(u, more, 3, 1, 2);
    JoinedStays(u, s2, After(u, more), 3, 1);
    JoinedStays(u, s2, After(u, more), 3, 2);
  }

  lemma AllOwn(u: Setup, s: System)
    requires TwoByzantine(u) && Sized(u, s) && s.echoGot[0] == Heard(u)[4 := u.paths[4]] && Stranded(u, s)
    requires Delivered(u, s, 1) && Delivered(u, s, 2) && Delivered(u, s, 3)
    ensures forall q :: q in Honest(u) ==> GoodEchoes(u, s.echoGot[q])
    ensures s.followers[4].output == None && forall q :: 1 <= q <= 3 ==> s.followers[q].output.Some?
  {
    hide Codec.Valid, Flat, GoodEchoes, LaidOut;
    forall q | q in Honest(u)
      ensures GoodEchoes(u, s.echoGot[q])
    {
      assert q in {0, 1, 2, 3, 4};
      OwnEchoesAreGood(u, s.echoGot[q]);
    }
  }

  /**
   * Two faults can strand a correct follower although leader and shards are right: in every such setting there is a run,
   * with only right ECHO messages and at rest, in which the leader and three correct followers have output and the fourth
   * waits for good, because the three were done before they echoed.
   */
  lemma TwoFaultsStrand(u: Setup) returns (es: seq<Event>)
    requires TwoByzantine(u)
    ensures Legal(u, es) && AtRest(u, After(u, es), u.byz)
    ensures forall q :: q in Honest(u) ==> GoodEchoes(u, After(u, es).echoGot[q])
    ensures var s := After(u, es);
      s.leader.output && s.followers[4].output == None && forall q :: 1 <= q <= 3 ==> s.followers[q].output.Some?
  {
    hide Codec.Valid, Flat, After, Legal, JoinedIn, Stranded, Delivered, GoodEchoes, AtRest;
    es := Midway(u);
    es := ThreeDeliver(u, es);
    ghost var s0 := After(u, es);
    HaveReadied(u, s0, 1);
    HaveReadied(u, s0, 2);
    HaveReadied(u, s0, 3);
    es := LeaderEnds(u, es);
    FollowersOnly(u, s0, After(u, es));
    EndsAtRest(u, After(u, es));
    AllOwn(u, After(u, es));
  }

  lemma FollowersOnly(u: Setup, s: System, t: System)
    requires Sized(u, s) && Sized(u, t) && t.followers == s.followers && t.echoGot == s.echoGot && u.N() == |u.paths| == 7
    requires Delivered(u, s, 1) && Delivered(u, s, 2) && Delivered(u, s, 3) && Stranded(u, s)
    ensures Delivered(u, t, 1) && Delivered(u, t, 2) && Delivered(u, t, 3) && Stranded(u, t)
  {
  }
}
