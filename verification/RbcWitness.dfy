/** Runs with one faulty node that do what the protocol should rule out: different bytes delivered, and a correct node halted. */
module RbcWitness {
  import opened RbcNode
  import opened RbcProtocol
  import opened RbcValidity
  import opened RbcTotality
  import opened RbcDelivery
  import opened Wrappers

  /** Four nodes: a correct leader 0, correct followers 1 and 2, and a faulty node 3. */
  ghost predicate OneByzantine(u: Setup) {
    u.Valid() && u.c.f == 1 && u.lid == 0 && u.byz == {3}
  }

  lemma ByzantineSetupExists() returns (u: Setup)
    ensures OneByzantine(u) && 0 < |u.input| < |Flat(u.word)|
  {
    var v := SetupExists();
    u := v.(byz := {3});
    MoreData(v.word, v.input);
  }

  lemma MoreData(word: seq<Bytes>, input: Bytes)
    requires |word| == 4 && |input| == 1 && forall i :: 0 <= i < 4 ==> |word[i]| == 1
    ensures |Flat(word)| > |input|
  {
    assert Flat(word) == word[0] + (word[1] + Flat(word[2..]));
  }

  lemma Push(u: Setup, es: seq<Event>, e: Event) returns (more: seq<Event>)
    requires u.Valid() && Legal(u, es) && Enabled(u, After(u, es), e)
    ensures Legal(u, more) && After(u, more) == Apply(u, After(u, es), e) && |more| == |es| + 1
  {
    more := es + [e];
    assert more[..|more| - 1] == es;
  }

  /** Only node q has moved. */
  ghost predicate SameElse(u: Setup, s: System, t: System, q: nat) {
    && Sized(u, s) && Sized(u, t) && t.leader == s.leader
    && (forall x :: 0 <= x < u.N() && x != q ==>
          t.followers[x] == s.followers[x] && t.echoGot[x] == s.echoGot[x] && t.readyGot[x] == s.readyGot[x])
  }

  // ---------- a follower on its own ----------

  /** It has a candidate and waits for READY. */
  ghost predicate Primed(s: Follower, cand: Candidate) {
    && !s.halted && s.phase == WaitReady && s.candidates == [cand] && s.readymap == map[] && !s.readyDone
    && s.readysignal == [] && s.outputsignal == []
  }

  /** It has sent READY after two of them. */
  ghost predicate Joined(s: Follower, cand: Candidate) {
    && !s.halted && s.phase == WaitOutput && s.candidates == [cand] && s.Readies(cand.root) == 2 && !s.readyDone
    && s.readied == Some(cand.root) && s.outputsignal == []
  }

  lemma FirstEcho(u: Setup, p: nat, m: Path)
    requires u.c.f == 1 && m.Wellformed()
    ensures EchoStep(u.c, FreshFollower(), p, m)
      == FreshFollower().(echocount := 1, echomap := map[m.Root() := EchoBuf(1, map[p := m.Shard()], false)])
  {
  }

  lemma SecondEcho(u: Setup, p: nat, p': nat, m: Path, m': Path)
    requires u.Valid() && u.c.f == 1 && p != p' && p < 4 && p' < 4 && m.Wellformed() && m'.Wellformed() && m.Root() == m'.Root() == u.Root()
    requires m.Shard() == u.word[p] && m'.Shard() == u.word[p'] && m'.len <= |Flat(u.word)|
    ensures Payload(u.word, m'.len).Some?
    ensures Primed(EchoStep(u.c, EchoStep(u.c, FreshFollower(), p, m), p', m'), Candidate(u.Root(), Payload(u.word, m'.len).value))
  {
    hide Flat, Reconstruct;
    FirstEcho(u, p, m);
    var s := EchoStep(u.c, FreshFollower(), p, m);
    var root := u.Root();
    var shards: map<nat, Bytes> := map[p := m.Shard(), p' := m'.Shard()];
    assert shards.Keys == {p, p'};
    var v := EchoCounted(s, p', m');
    assert v.Buf(root) == EchoBuf(2, shards, false);
    DecidingReconstruct(u, v, shards, m'.len);
    ReconstructRest(u.c, v, root, m'.len);
    assert EchoStep(u.c, s, p', m') == Reconstruct(u.c, v, root, m'.len);
  }

  lemma TwoReadies(c: Codec, s: Follower, cand: Candidate)
    requires c.f == 1 && Primed(s, cand)
    ensures var a := ReadyStep(c, s, cand.root);
      var b := ReadyStep(c, a, cand.root);
      a.Running() && !a.readyDone && CanMove(b) && Joined(MainStep(b), cand)
  {
  }

  lemma ThirdReady(c: Codec, s: Follower, cand: Candidate)
    requires c.f == 1 && Joined(s, cand)
    ensures var a := ReadyStep(c, s, cand.root);
      CanMove(a) && CanMove(MainStep(a)) && MainStep(MainStep(a)).output == Some(cand) && MainStep(MainStep(a)).readied == Some(cand.root)
  {
  }

  // ---------- the run, stage by stage ----------

  /** The leader's own ECHO and that of the faulty node make the leader send READY. */
  lemma LeaderReadies(u: Setup) returns (es: seq<Event>)
    requires OneByzantine(u)
    ensures Legal(u, es)
    ensures var s := After(u, es);
      s.leader.readied && forall q :: 1 <= q <= 2 ==> s.followers[q] == FreshFollower() && s.echoGot[q] == map[] && s.readyGot[q] == map[]
  {
    hide EchoStep, ReadyStep, MainStep, ValStep, Codec.Valid, After, Legal;
    es := [];
    EmptyRun(u);
    es := Push(u, es, DeliverEcho(0, 0, u.paths[0]));
    es := Push(u, es, DeliverEcho(3, 0, u.paths[0]));
    es := Push(u, es, Main(0));
  }

  lemma EmptyRun(u: Setup)
    requires u.Valid()
    ensures Legal(u, []) && After(u, []) == Init(u)
  {
  }

  /** A candidate from the leader's shard and the faulty node's, cut to the length the latter claims. */
  lemma Prime(u: Setup, es: seq<Event>, q: nat, len: int) returns (more: seq<Event>)
    requires OneByzantine(u) && Legal(u, es) && 1 <= q <= 2 && len <= |Flat(u.word)|
    requires After(u, es).followers[q] == FreshFollower() && After(u, es).echoGot[q] == map[]
    ensures Legal(u, more) && Payload(u.word, len).Some? && SameElse(u, After(u, es), After(u, more), q)
    ensures Primed(After(u, more).followers[q], Candidate(u.Root(), Payload(u.word, len).value))
    ensures After(u, more).readyGot == After(u, es).readyGot
  {
    hide EchoStep, ReadyStep, MainStep, ValStep, Codec.Valid, Flat, Primed, After, Legal;
    var m := Path([u.word[3], u.Root()], len);
    SecondEcho(u, 0, 3, u.paths[0], m);
    FirstEcho(u, 0, u.paths[0]);
    more := Push(u, es, DeliverEcho(0, q, u.paths[0]));
    more := Push(u, more, DeliverEcho(3, q, m));
  }

  /** READY from the leader and the faulty node. */
  lemma Join(u: Setup, es: seq<Event>, q: nat, cand: Candidate) returns (more: seq<Event>)
    requires OneByzantine(u) && Legal(u, es) && 1 <= q <= 2 && cand.root == u.Root()
    requires After(u, es).leader.readied && Primed(After(u, es).followers[q], cand) && After(u, es).readyGot[q] == map[]
    ensures Legal(u, more) && SameElse(u, After(u, es), After(u, more), q)
    ensures Joined(After(u, more).followers[q], cand) && After(u, more).readyGot[q].Keys == {0, 3}
  {
    hide EchoStep, ReadyStep, MainStep, ValStep, Codec.Valid, Joined, After, Legal;
    TwoReadies(u.c, After(u, es).followers[q], cand);
    more := Push(u, es, DeliverReady(0, q, cand.root));
    more := Push(u, more, DeliverReady(3, q, cand.root));
    more := Push(u, more, Main(q));
  }

  /** READY from the other correct follower. */
  lemma Output(u: Setup, es: seq<Event>, q: nat, other: nat, cand: Candidate) returns (more: seq<Event>)
    requires OneByzantine(u) && Legal(u, es) && 1 <= q <= 2 && 1 <= other <= 2 && q != other && cand.root == u.Root()
    requires Joined(After(u, es).followers[q], cand) && After(u, es).readyGot[q].Keys == {0, 3}
    requires After(u, es).followers[other].readied == Some(cand.root)
    ensures Legal(u, more) && SameElse(u, After(u, es), After(u, more), q)
    ensures After(u, more).followers[q].output == Some(cand) && After(u, more).followers[q].readied == Some(cand.root)
  {
    hide EchoStep, ReadyStep, MainStep, ValStep, Codec.Valid, After, Legal;
    ThirdReady(u.c, After(u, es).followers[q], cand);
    more := Push(u, es, DeliverReady(other, q, cand.root));
    more := Push(u, more, Main(q));
    more := Push(u, more, Main(q));
  }

  /**
   * Agreement does not extend to bytes: in every such setting whose data is longer than the input there is a run, with a
   * correct leader, in which two correct followers output different bytes for the same root.
   */
  lemma BytesDiffer(u: Setup) returns (es: seq<Event>)
    requires OneByzantine(u) && |u.input| < |Flat(u.word)|
    ensures Legal(u, es)
    ensures var f1, f2 := After(u, es).followers[1], After(u, es).followers[2];
      && f1.output.Some? && f2.output.Some? && f1.output.value.root == f2.output.value.root
      && f1.output.value.output == u.input && f2.output.value.output != u.input
  {
    hide After, Legal, Primed, Joined, Flat, Codec.Valid;
    var c1, c2 := Candidate(u.Root(), u.input), Candidate(u.Root(), Flat(u.word)[..|u.input| + 1]);
    LeaderPayload(u);
    es := LeaderReadies(u);
    es := Prime(u, es, 1, |u.input|);
    es := Prime(u, es, 2, |u.input| + 1);
    es := Join(u, es, 1, c1);
    es := Join(u, es, 2, c2);
    ReadiedOf(After(u, es).followers[2], c2);
    es := Output(u, es, 1, 2, c1);
    es := Output(u, es, 2, 1, c2);
    assert |c2.output| == |u.input| + 1;
  }

  lemma ReadiedOf(s: Follower, cand: Candidate)
    requires Joined(s, cand)
    ensures s.readied == Some(cand.root)
  {
  }

  /** One ECHO with a shard that is not the leader's halts a correct follower, although the leader is correct. */
  lemma OneShardHalts(u: Setup, bad: Bytes) returns (es: seq<Event>)
    requires OneByzantine(u) && bad != u.word[3]
    ensures Legal(u, es) && |es| == 2 && After(u, es).followers[1].halted
  {
    hide EchoStep, Codec.Valid, After, Legal, Flat;
    EmptyRun(u);
    FirstEcho(u, 0, u.paths[0]);
    var s := EchoStep(u.c, FreshFollower(), 0, u.paths[0]);
    var m := Path([bad, u.Root()], |u.input|);
    var first: map<nat, Bytes> := map[0 := u.word[0]];
    assert s.Buf(u.Root()).shards == first && first.Keys == {0};
    DecidingEcho(u, s, 3, m);
    assert !Extends(u.word, first[3 := bad]) by {
      assert first[3 := bad][3] == bad;
    }
    es := Push(u, [], DeliverEcho(0, 1, u.paths[0]));
    es := Push(u, es, DeliverEcho(3, 1, m));
  }
}
