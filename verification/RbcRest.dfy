/**
 * Delivery among faulty nodes that lie: what a run at rest has delivered when the leader is correct and the shards are right.
 * The faulty nodes may still have messages to send; the correct ones wait for nothing else.
 */
module RbcRest {
  import opened RbcNode
  import opened RbcProtocol
  import opened RbcValidity
  import opened RbcTotality
  import opened RbcDelivery
  import opened RbcBytes

  // ---------- signals are not lost ----------

  /** What a follower's counts entitle it to is on its way or has been used, unless it has halted. */
  ghost predicate Going(u: Setup, s: Follower, got: map<nat, Path>) {
    s.halted || Entitled(u.c, s, s.Buf(u.Root()).count, s.Readies(u.Root()), |got|)
  }

  /** With these counts of ECHO and READY for the leader's root, and of all ECHO messages. */
  ghost predicate Entitled(c: Codec, s: Follower, e: nat, k: nat, all: nat) {
    && (e >= 2 * c.f + 1 || k >= c.f + 1 ==> |s.readysignal| > 0 || s.phase != WaitReady)
    && (k >= 2 * c.f + 1 ==> |s.outputsignal| > 0 || s.phase.WaitCandidate? || s.phase == Done)
    && (e >= c.f + 1 ==> |s.candidates| > 0 || s.phase == Done)
    && (s.echoDone ==> e >= 2 * c.f + 1 || all == c.N())
    && (s.readyDone ==> k >= 2 * c.f + 1)
    && s.echocount == all && (s.phase == Done <==> s.output.Some?)
  }

  ghost predicate LeaderGoing(u: Setup, s: Leader, got: map<nat, Path>, ready: map<nat, Bytes>) {
    && (s.halted ==> exists p :: p in got && !got[p].Wellformed())
    && s.echocount == |EchoSenders(got, u.Root())| && s.readycount == |Senders(ready, u.Root())|
    && (s.echocount >= 2 * u.c.f || s.readycount >= u.c.f + 1 ==> s.readysignal > 0 || s.phase != WaitReady)
    && (s.readycount >= 2 * u.c.f ==> s.outputsignal > 0 || s.phase == Done)
    && (s.echoDone ==> s.echocount >= 2 * u.c.f) && (s.readyDone ==> s.readycount >= 2 * u.c.f)
    && (s.readied <==> s.phase != WaitReady) && (s.output <==> s.phase == Done) && s.phase in {WaitReady, WaitOutput, Done}
  }

  /** One ECHO, counted and not the cause of a halt. */
  lemma EchoSignals(c: Codec, s: Follower, p: nat, m: Path)
    requires c.f >= 1 && m.Wellformed() && !EchoStep(c, s, p, m).halted
    ensures var t := EchoStep(c, s, p, m);
      var k := s.Buf(m.Root()).count + 1;
      && !s.halted && SameReady(s, t) && t.echocount == s.echocount + 1
      && t.readysignal == s.readysignal + (if k == 2 * c.f + 1 then [m.Root()] else [])
      && |t.candidates| == |s.candidates| + One(k == c.f + 1)
      && (t.echoDone ==> s.echoDone || k == 2 * c.f + 1 || t.echocount == c.N())
      && (forall r :: t.Buf(r).count == s.Buf(r).count + One(r == m.Root()))
  {
    hide EchoStep, EchoCounted, Reconstruct, EchoThresholds;
    var v := EchoCounted(s, p, m);
    StepIsThresholds(c, s, p, m);
    CountedFields(s, p, m);
    CountedOutcome(s, p, m);
    EchoLeavesReady(c, s, p, m);
    ThresholdSignals(c, v, m.Root(), m.len);
  }

  lemma ThresholdSignals(c: Codec, v: Follower, root: Bytes, len: int)
    requires c.f >= 1 && root in v.echomap && !EchoThresholds(c, v, root, len).halted
    ensures var t := EchoThresholds(c, v, root, len);
      var k := v.Buf(root).count;
      && !v.halted && t.echocount == v.echocount
      && t.readysignal == v.readysignal + (if k == 2 * c.f + 1 then [root] else [])
      && |t.candidates| == |v.candidates| + One(k == c.f + 1)
      && (t.echoDone ==> v.echoDone || k == 2 * c.f + 1 || t.echocount == c.N())
      && (forall r :: t.Buf(r).count == v.Buf(r).count)
  {
    hide Reconstruct;
    if v.Buf(root).count == c.f + 1 {
      ReconstructSignals(c, v, root, len);
    }
  }

  lemma ReconstructSignals(c: Codec, v: Follower, root: Bytes, len: int)
    requires root in v.echomap
    ensures var t := Reconstruct(c, v, root, len);
      && (v.halted ==> t.halted) && t.echocount == v.echocount && t.echoDone == v.echoDone && t.readysignal == v.readysignal
      && root in t.echomap && (forall r :: t.Buf(r).count == v.Buf(r).count)
      && (!t.halted ==> |t.candidates| == |v.candidates| + 1)
  {
    hide Payload;
  }

  // ---------- preservation ----------

  lemma EchoGoing(u: Setup, s: System, p: nat, q: nat, m: Path)
    requires u.Valid() && u.c.f >= 1 && Sized(u, s) && Faithful(u, s) && u.Correct(u.lid) && u.Correct(q) && q != u.lid
    requires p < u.N() && p !in s.echoGot[q] && MayEcho(u, s, p, m) && s.followers[q].Running() && !s.followers[q].echoDone
    requires Going(u, s.followers[q], s.echoGot[q])
    ensures Going(u, EchoStep(u.c, s.followers[q], p, m), s.echoGot[q][p := m])
  {
    hide EchoStep, EchoSenders, Faithful, Setup.Valid, Setup.Root;
    var f, got := s.followers[q], s.echoGot[q][p := m];
    var t := EchoStep(u.c, f, p, m);
    FaithfulAt(u, s, q);
    KeysMore(s.echoGot[q], p, m);
    if t.halted {
    } else if m.Wellformed() {
      EchoSignals(u.c, f, p, m);
      CountsAt(f, s.echoGot[q], p, m);
      if f.Buf(m.Root()).count + 1 > u.c.f {
        ManyEchoes(u, s, q, got, m.Root());
      }
      assert t.Readies(u.Root()) == f.Readies(u.Root());
    } else {
      MalformedEcho(u.c, f, p, m);
    }
  }

  lemma ReadyGoing(u: Setup, s: System, p: nat, q: nat, root: Bytes)
    requires u.Valid() && u.c.f >= 1 && Sized(u, s) && Kept(u, s) && Faithful(u, s) && u.Correct(u.lid) && u.Correct(q) && q != u.lid
    requires p < u.N() && p !in s.readyGot[q] && MayReady(u, s, p, root) && s.followers[q].Running() && !s.followers[q].readyDone
    requires Going(u, s.followers[q], s.echoGot[q])
    ensures Going(u, ReadyStep(u.c, s.followers[q], root), s.echoGot[q])
  {
    hide Senders, Faithful, Setup.Valid, Setup.Root;
    var f, got := s.followers[q], s.readyGot[q][p := root];
    assert FollowerKept(u, s, q);
    SendersMore(s.readyGot[q], p, root, root);
    if f.Readies(root) + 1 > u.c.f {
      ManyReadies(u, s, got, root);
    }
    var t := ReadyStep(u.c, f, root);
    assert t.Buf(u.Root()) == f.Buf(u.Root());
    assert t.Readies(u.Root()) == f.Readies(u.Root()) + One(root == u.Root());
  }

  lemma MainEntitled(c: Codec, s: Follower, e: nat, k: nat, all: nat)
    requires Entitled(c, s, e, k, all) && CanMove(s) && !MainStep(s).halted
    ensures Entitled(c, MainStep(s), e, k, all)
  {
  }

  lemma MainGoing(u: Setup, s: Follower, got: map<nat, Path>)
    requires Going(u, s, got) && CanMove(s)
    ensures Going(u, MainStep(s), got)
  {
    hide Entitled, MainStep, Setup.Root;
    MainKeepsCandidates(s);
    MainKeepsReadies(s);
    CountsKept(s, MainStep(s), u.Root());
    if !MainStep(s).halted {
      MainEntitled(u.c, s, s.Buf(u.Root()).count, s.Readies(u.Root()), |got|);
    }
  }

  lemma MainKeepsReadies(s: Follower)
    requires CanMove(s)
    ensures MainStep(s).readymap == s.readymap && !s.halted
  {
  }

  lemma CountsKept(s: Follower, t: Follower, root: Bytes)
    requires t.echomap == s.echomap && t.readymap == s.readymap
    ensures t.Buf(root) == s.Buf(root) && t.Readies(root) == s.Readies(root)
  {
  }

  lemma ValGoing(u: Setup, s: Follower, m: Path, got: map<nat, Path>)
    requires Going(u, s, got)
    ensures Going(u, ValStep(s, m), got)
  {
    hide Setup.Root;
    CountsKept(s, ValStep(s, m), u.Root());
  }

  lemma LeaderEchoGoing(u: Setup, s: Leader, got: map<nat, Path>, ready: map<nat, Bytes>, p: nat, m: Path)
    requires LeaderGoing(u, s, got, ready) && s.Running() && !s.echoDone && p !in got
    ensures LeaderGoing(u, LeaderEcho(u.c, s, u.Root(), m), got[p := m], ready)
  {
    hide EchoSenders, Senders, Setup.Root;
    EchoSendersMore(got, p, m, u.Root());
    assert got[p := m][p] == m;
  }

  lemma LeaderReadyGoing(u: Setup, s: Leader, got: map<nat, Path>, ready: map<nat, Bytes>, p: nat, root: Bytes)
    requires LeaderGoing(u, s, got, ready) && s.Running() && !s.readyDone && p !in ready
    ensures LeaderGoing(u, LeaderReady(u.c, s, u.Root(), root), got, ready[p := root])
  {
    hide EchoSenders, Senders, Setup.Root;
    SendersMore(ready, p, root, u.Root());
  }

  ghost predicate AllGoing(u: Setup, s: System)
    requires Sized(u, s) && u.lid < u.N()
  {
    && LeaderGoing(u, s.leader, s.echoGot[u.lid], s.readyGot[u.lid])
    && (forall q: nat :: u.Correct(q) && q != u.lid ==> Going(u, s.followers[q], s.echoGot[q]))
  }

  lemma FollowerGoingStep(u: Setup, s: System, e: Event, q: nat)
    requires u.Valid() && u.c.f >= 1 && Sized(u, s) && Kept(u, s) && Faithful(u, s) && AllGoing(u, s) && u.Correct(u.lid) && Enabled(u, s, e)
    requires u.Correct(q) && q != u.lid
    ensures Going(u, Apply(u, s, e).followers[q], Apply(u, s, e).echoGot[q])
  {
    hide EchoStep, ReadyStep, MainStep, ValStep, Kept, Faithful, Going, LeaderGoing, Codec.Valid;
    match e
    case DeliverVal(q', m) =>
      if q' == q {
        ValGoing(u, s.followers[q], m, s.echoGot[q]);
      }
    case DeliverEcho(p, q', m) =>
      if q' == q {
        EchoGoing(u, s, p, q, m);
      }
    case DeliverReady(p, q', root) =>
      if q' == q {
        ReadyGoing(u, s, p, q, root);
      }
    case Main(q') =>
      if q' == q {
        MainGoing(u, s.followers[q], s.echoGot[q]);
      }
  }

  lemma LeaderGoingStep(u: Setup, s: System, e: Event)
    requires u.Valid() && Sized(u, s) && AllGoing(u, s) && u.Correct(u.lid) && Enabled(u, s, e)
    ensures var t := Apply(u, s, e); LeaderGoing(u, t.leader, t.echoGot[u.lid], t.readyGot[u.lid])
  {
    hide EchoStep, ReadyStep, MainStep, ValStep, LeaderEcho, LeaderReady, LeaderMain, Going, LeaderGoing, Codec.Valid;
    var f, eg, rg := s.leader, s.echoGot[u.lid], s.readyGot[u.lid];
    match e
    case DeliverVal(_, _) =>
    case DeliverEcho(p, q, m) =>
      if q == u.lid {
        LeaderEchoGoing(u, f, eg, rg, p, m);
      }
    case DeliverReady(p, q, root) =>
      if q == u.lid {
        LeaderReadyGoing(u, f, eg, rg, p, root);
      }
    case Main(q) =>
      if q == u.lid {
        LeaderMainGoing(u, f, eg, rg);
      }
  }

  lemma LeaderMainGoing(u: Setup, s: Leader, got: map<nat, Path>, ready: map<nat, Bytes>)
    requires LeaderGoing(u, s, got, ready) && LeaderCanMove(s)
    ensures LeaderGoing(u, LeaderMain(s), got, ready)
  {
    hide EchoSenders, Senders, Setup.Root;
  }

  lemma InitGoing(u: Setup)
    requires u.Valid() && u.c.f >= 1
    ensures AllGoing(u, Init(u))
  {
    var none: map<nat, Path>, empty: map<nat, Bytes> := map[], map[];
    assert EchoSenders(none, u.Root()) == {} && Senders(empty, u.Root()) == {};
  }

  lemma {:induction false} RunGoing(u: Setup, es: seq<Event>)
    requires u.Valid() && u.c.f >= 1 && Legal(u, es) && u.Correct(u.lid)
    ensures AllGoing(u, After(u, es))
    decreases |es|
  {
    hide Kept, Faithful, Going, LeaderGoing, Setup.Valid;
    if |es| == 0 {
      InitGoing(u);
    } else {
      var init, e := es[..|es| - 1], es[|es| - 1];
      RunGoing(u, init);
      RunFaithful(u, init);
      LeaderGoingStep(u, After(u, init), e);
      forall q: nat | u.Correct(q) && q != u.lid
        ensures Going(u, After(u, es).followers[q], After(u, es).echoGot[q])
      {
        FollowerGoingStep(u, After(u, init), e, q);
      }
    }
  }

  // ---------- at rest ----------

  /** The correct nodes */
  function Honest(u: Setup): set<nat> {
    Nodes(u.N()) - u.byz
  }

  lemma HonestCount(u: Setup, a: set<nat>)
    requires u.Valid() && a <= Nodes(u.N())
    ensures |Honest(u)| >= 2 * u.c.f + 1
    ensures |a| >= 2 * u.c.f + 1 ==> |a * Honest(u)| >= u.c.f + 1
  {
    assert Nodes(u.N()) == Honest(u) + Nodes(u.N()) * u.byz;
    SubsetCount(Nodes(u.N()) * u.byz, u.byz);
    assert a == a * Honest(u) + a * u.byz;
    SubsetCount(a * u.byz, u.byz);
  }

  /** Nothing is left to happen among the correct nodes, and what they received was in order. */
  ghost predicate RestOf(u: Setup, s: System) {
    && u.Valid() && u.c.f >= 1 && u.Correct(u.lid) && Sized(u, s) && Kept(u, s) && Faithful(u, s) && AllGoing(u, s) && AliveRun(u, s)
    && AtRest(u, s, u.byz) && forall q :: q in Honest(u) ==> GoodEchoes(u, s.echoGot[q])
  }

  predicate HasEchoed(u: Setup, s: System, p: nat) {
    Sized(u, s) && u.lid < u.N() == |u.paths| && p < u.N() && MayEcho(u, s, p, u.paths[p])
  }

  lemma NotHalted(u: Setup, s: System, q: nat)
    requires RestOf(u, s) && u.Correct(q)
    ensures if q == u.lid then !s.leader.halted else !s.followers[q].halted
  {
    hide Kept, Faithful, Going, AtRest, Setup.Valid;
    assert q in Honest(u);
    if q != u.lid {
      assert Alive(u, s.followers[q], s.echoGot[q]);
    }
  }

  /** Main threads at rest have nothing to receive. */
  lemma Still(u: Setup, s: System, q: nat)
    requires RestOf(u, s) && u.Correct(q)
    ensures if q == u.lid then !LeaderCanMove(s.leader) else !CanMove(s.followers[q]) && Going(u, s.followers[q], s.echoGot[q])
  {
    hide Kept, Faithful, Going, LeaderGoing, AliveRun, GoodEchoes, LeaderCanMove, CanMove;
    Idle(u, s, u.byz, Main(q));
  }

  /** A correct node that may echo has been heard wherever a handler still listens. */
  lemma HeardEcho(u: Setup, s: System, p: nat, q: nat)
    requires RestOf(u, s) && u.Correct(p) && u.Correct(q) && HasEchoed(u, s, p)
    requires if q == u.lid then s.leader.Running() && !s.leader.echoDone else s.followers[q].Running() && !s.followers[q].echoDone
    ensures p in s.echoGot[q]
  {
    hide Kept, Faithful, AllGoing, AliveRun, GoodEchoes;
    Idle(u, s, u.byz, DeliverEcho(p, q, u.paths[p]));
  }

  lemma HeardReady(u: Setup, s: System, p: nat, q: nat)
    requires RestOf(u, s) && u.Correct(p) && u.Correct(q) && MayReady(u, s, p, u.Root())
    requires if q == u.lid then s.leader.Running() && !s.leader.readyDone else s.followers[q].Running() && !s.followers[q].readyDone
    ensures p in s.readyGot[q]
  {
    hide Kept, Faithful, AllGoing, AliveRun, GoodEchoes;
    Idle(u, s, u.byz, DeliverReady(p, q, u.Root()));
  }

  /** What a correct node is heard to say is for the leader's root. */
  lemma HonestEcho(u: Setup, s: System, p: nat, q: nat)
    requires RestOf(u, s) && u.Correct(p) && u.Correct(q) && p in s.echoGot[q]
    ensures p in EchoSenders(s.echoGot[q], u.Root())
  {
    hide Kept, AllGoing, AliveRun, GoodEchoes, AtRest, FollowerFaithful;
    CorrectEcho(u, s, p, s.echoGot[q][p]);
  }

  lemma HonestReady(u: Setup, s: System, p: nat, q: nat)
    requires RestOf(u, s) && u.Correct(p) && u.Correct(q) && p in s.readyGot[q]
    ensures p in Senders(s.readyGot[q], u.Root()) && MayReady(u, s, p, u.Root())
  {
    hide Faithful, AllGoing, AliveRun, GoodEchoes, AtRest;
    assert MayReady(u, s, p, s.readyGot[q][p]);
    if p != u.lid {
      FaithfulAt(u, s, p);
      LoyalAt(u, s, p);
    }
  }

  /** Keys of messages received are nodes. */
  lemma HeardNodes(u: Setup, s: System, q: nat)
    requires RestOf(u, s) && u.Correct(q)
    ensures s.echoGot[q].Keys <= Nodes(u.N()) && s.readyGot[q].Keys <= Nodes(u.N())
    ensures |s.echoGot[q]| == u.N() ==> s.echoGot[q].Keys == Nodes(u.N())
  {
    hide FollowerFaithful, FollowerKept, AllGoing, AliveRun, GoodEchoes, AtRest, Setup.Valid;
    MapSize(s.echoGot[q]);
    if |s.echoGot[q]| == u.N() {
      SameSize(s.echoGot[q].Keys, Nodes(u.N()));
    }
  }

  lemma SameSize(a: set<nat>, b: set<nat>)
    requires a <= b && |a| == |b|
    ensures a == b
  {
    assert b == a + (b - a);
  }

  /** Every correct node that has echoed is counted by a correct follower that is not done, unless the quorum was full before. */
  lemma FollowerCounts(u: Setup, s: System, q: nat, some: set<nat>)
    requires RestOf(u, s) && u.Correct(q) && q != u.lid && s.followers[q].phase != Done && some <= Honest(u)
    requires forall p :: p in some ==> HasEchoed(u, s, p)
    ensures var e := s.followers[q].Buf(u.Root()).count; e >= 2 * u.c.f + 1 || e >= |some|
  {
    hide Kept, Faithful, AliveRun, GoodEchoes, AtRest, EchoSenders, HasEchoed, Setup.Valid;
    NotHalted(u, s, q);
    Still(u, s, q);
    FaithfulAt(u, s, q);
    HeardNodes(u, s, q);
    var f := s.followers[q];
    if f.Buf(u.Root()).count < 2 * u.c.f + 1 {
      forall p | p in some
        ensures p in EchoSenders(s.echoGot[q], u.Root())
      {
        if !f.echoDone {
          HeardEcho(u, s, p, q);
        }
        HonestEcho(u, s, p, q);
      }
      SubsetCount(some, EchoSenders(s.echoGot[q], u.Root()));
      CountOf(f, s.echoGot[q], u.Root());
    }
  }

  lemma CountOf(s: Follower, got: map<nat, Path>, root: Bytes)
    requires EchoCounts(s, got)
    ensures s.Buf(root).count == |EchoSenders(got, root)|
  {
  }

  // ---------- READY among the correct nodes ----------

  /** A correct node at rest whose counts entitle it to READY has sent it. */
  lemma FollowerReadied(u: Setup, s: System, q: nat)
    requires RestOf(u, s) && u.Correct(q) && q != u.lid
    requires s.followers[q].Buf(u.Root()).count >= 2 * u.c.f + 1 || s.followers[q].Readies(u.Root()) >= u.c.f + 1 || s.followers[q].phase != WaitReady
    ensures MayReady(u, s, q, u.Root()) && s.followers[q].phase != WaitReady
  {
    hide AliveRun, GoodEchoes, AtRest, Codec.Valid;
    NotHalted(u, s, q);
    Still(u, s, q);
    FaithfulAt(u, s, q);
    LoyalAt(u, s, q);
    assert FollowerKept(u, s, q);
  }

  lemma LeaderReadied(u: Setup, s: System)
    requires RestOf(u, s)
    requires s.leader.echocount >= 2 * u.c.f || s.leader.readycount >= u.c.f + 1 || s.leader.phase != WaitReady
    ensures MayReady(u, s, u.lid, u.Root())
  {
    hide Kept, Faithful, AliveRun, GoodEchoes, AtRest;
    NotHalted(u, s, u.lid);
    Still(u, s, u.lid);
  }

  /** If every correct node has echoed, every correct node has sent READY. */
  lemma ReadyAfterEchoes(u: Setup, s: System, q: nat)
    requires RestOf(u, s) && u.Correct(q) && forall p :: p in Honest(u) ==> HasEchoed(u, s, p)
    ensures MayReady(u, s, q, u.Root())
  {
    hide Kept, Faithful, Going, LeaderGoing, AliveRun, GoodEchoes, AtRest, HasEchoed, Setup.Valid;
    HonestCount(u, {});
    if q != u.lid {
      if s.followers[q].phase != Done {
        FollowerCounts(u, s, q, Honest(u));
      }
      FollowerReadied(u, s, q);
    } else {
      LeaderHears(u, s);
      LeaderReadied(u, s);
    }
  }

  lemma LeaderHears(u: Setup, s: System)
    requires RestOf(u, s) && forall p :: p in Honest(u) ==> HasEchoed(u, s, p)
    ensures s.leader.echocount >= 2 * u.c.f || s.leader.phase == Done
  {
    hide Kept, Faithful, AliveRun, GoodEchoes, AtRest, EchoSenders, Senders, HasEchoed;
    NotHalted(u, s, u.lid);
    HonestCount(u, {});
    if s.leader.phase != Done && !s.leader.echoDone {
      forall p | p in Honest(u)
        ensures p in EchoSenders(s.echoGot[u.lid], u.Root())
      {
        HeardEcho(u, s, p, u.lid);
        HonestEcho(u, s, p, u.lid);
      }
      SubsetCount(Honest(u), EchoSenders(s.echoGot[u.lid], u.Root()));
    }
  }

  /** READY from f + 1 correct nodes makes every correct node join. */
  lemma ReadyAfterReadies(u: Setup, s: System, q: nat, some: set<nat>)
    requires RestOf(u, s) && u.Correct(q) && some <= Honest(u) && |some| >= u.c.f + 1
    requires forall p :: p in some ==> MayReady(u, s, p, u.Root())
    ensures MayReady(u, s, q, u.Root())
  {
    hide Faithful, Kept, Going, LeaderGoing, AliveRun, GoodEchoes, AtRest, Setup.Valid;
    if q != u.lid {
      if s.followers[q].phase != Done {
        FollowerReadies(u, s, q, some);
      }
      FollowerReadied(u, s, q);
    } else {
      LeaderReadies(u, s, some);
    }
  }

  lemma FollowerReadies(u: Setup, s: System, q: nat, some: set<nat>)
    requires RestOf(u, s) && u.Correct(q) && q != u.lid && s.followers[q].phase != Done && some <= Honest(u)
    requires forall p :: p in some ==> MayReady(u, s, p, u.Root())
    ensures var k := s.followers[q].Readies(u.Root()); k >= 2 * u.c.f + 1 || k >= |some|
  {
    hide Faithful, AliveRun, GoodEchoes, AtRest, Senders, Setup.Valid, MayReady;
    NotHalted(u, s, q);
    Still(u, s, q);
    var f := s.followers[q];
    if !f.readyDone {
      forall p | p in some
        ensures p in Senders(s.readyGot[q], u.Root())
      {
        HeardReady(u, s, p, q);
        HonestReady(u, s, p, q);
      }
      SubsetCount(some, Senders(s.readyGot[q], u.Root()));
      assert FollowerKept(u, s, q);
    }
  }

  lemma LeaderReadies(u: Setup, s: System, some: set<nat>)
    requires RestOf(u, s) && some <= Honest(u) && |some| >= u.c.f + 1
    requires forall p :: p in some ==> MayReady(u, s, p, u.Root())
    ensures s.leader.phase == Done || s.leader.readycount >= 2 * u.c.f || s.leader.readycount >= |some|
    ensures MayReady(u, s, u.lid, u.Root())
  {
    hide Kept, Faithful, AliveRun, GoodEchoes, AtRest, EchoSenders, Senders;
    NotHalted(u, s, u.lid);
    Still(u, s, u.lid);
    if s.leader.phase != Done && !s.leader.readyDone {
      forall p | p in some
        ensures p in Senders(s.readyGot[u.lid], u.Root())
      {
        HeardReady(u, s, p, u.lid);
        HonestReady(u, s, p, u.lid);
      }
      SubsetCount(some, Senders(s.readyGot[u.lid], u.Root()));
    }
  }

  /** A follower that is done has READY from f + 1 correct nodes behind it. */
  lemma DoneBehind(u: Setup, s: System, x: nat) returns (some: set<nat>)
    requires RestOf(u, s) && u.Correct(x) && x != u.lid && s.followers[x].phase == Done
    ensures some <= Honest(u) && |some| >= u.c.f + 1 && forall p :: p in some ==> MayReady(u, s, p, u.Root())
  {
    hide AliveRun, GoodEchoes, AtRest, Senders, MayReady, Setup.Valid, EchoCounts;
    NotHalted(u, s, x);
    Still(u, s, x);
    FaithfulAt(u, s, x);
    HeardNodes(u, s, x);
    assert FollowerKept(u, s, x);
    var all := Senders(s.readyGot[x], u.Root());
    SendersKeys(s.readyGot[x], u.Root());
    HonestCount(u, all);
    some := all * Honest(u);
    forall p | p in some
      ensures MayReady(u, s, p, u.Root())
    {
      HonestReady(u, s, p, x);
    }
  }

  lemma SendersKeys(got: map<nat, Bytes>, root: Bytes)
    ensures Senders(got, root) <= got.Keys
  {
  }

  /** At rest every correct node has sent READY: either all have echoed, or one that has not is done. */
  lemma AllReadied(u: Setup, s: System)
    requires RestOf(u, s)
    ensures forall q :: q in Honest(u) ==> MayReady(u, s, q, u.Root())
  {
    hide Kept, Faithful, Going, LeaderGoing, AliveRun, GoodEchoes, AtRest, MayReady, HasEchoed, Setup.Valid;
    if forall p :: p in Honest(u) ==> HasEchoed(u, s, p) {
      forall q | q in Honest(u)
        ensures MayReady(u, s, q, u.Root())
      {
        ReadyAfterEchoes(u, s, q);
      }
    } else {
      var x: nat :| x in Honest(u) && !HasEchoed(u, s, x);
      SilentDone(u, s, x);
      var some := DoneBehind(u, s, x);
      forall q | q in Honest(u)
        ensures MayReady(u, s, q, u.Root())
      {
        ReadyAfterReadies(u, s, q, some);
      }
    }
  }

  lemma SilentDone(u: Setup, s: System, x: nat)
    requires RestOf(u, s) && u.Correct(x) && !HasEchoed(u, s, x)
    ensures x != u.lid && s.followers[x].phase == Done
  {
    hide Kept, Faithful, AllGoing, AliveRun, GoodEchoes;
    NotHalted(u, s, x);
    if x != u.lid && s.followers[x].Running() {
      Idle(u, s, u.byz, DeliverVal(x, u.paths[x]));
    }
  }

  // ---------- what is delivered ----------

  /** With a candidate in store, a correct follower at rest is done. */
  lemma CandidateDone(u: Setup, s: System, q: nat)
    requires RestOf(u, s) && u.Correct(q) && q != u.lid && s.followers[q].Buf(u.Root()).count >= u.c.f + 1
    ensures s.followers[q].phase == Done && s.followers[q].output.Some?
  {
    hide Kept, Faithful, AliveRun, GoodEchoes, AtRest, MayReady, Setup.Valid;
    NotHalted(u, s, q);
    Still(u, s, q);
    AllReadied(u, s);
    HonestCount(u, {});
    if s.followers[q].phase != Done {
      FollowerReadies(u, s, q, Honest(u));
    }
  }

  lemma RestReached(u: Setup, es: seq<Event>)
    requires u.Valid() && u.c.f >= 1 && u.Correct(u.lid) && Legal(u, es) && AtRest(u, After(u, es), u.byz)
    requires forall q :: q in Honest(u) ==> GoodEchoes(u, After(u, es).echoGot[q])
    ensures RestOf(u, After(u, es))
  {
    hide Kept, Faithful, AllGoing, AliveRun, GoodEchoes, AtRest;
    RunFaithful(u, es);
    RunGoing(u, es);
    RunAlive(u, es);
  }

  /**
   * With a correct leader and at most f arbitrary nodes, when a run has come to rest and the shards and lengths received
   * were in order: the leader has output, and a correct follower has output the beginning of the data, all of the input if
   * the lengths it received were right, if and only if it has received f + 1 ECHO messages for the leader's root.
   */
  lemma RestExactly(u: Setup, es: seq<Event>, q: nat)
    requires u.Valid() && u.c.f >= 1 && u.Correct(u.lid) && Legal(u, es) && AtRest(u, After(u, es), u.byz)
    requires forall x :: x in Honest(u) ==> GoodEchoes(u, After(u, es).echoGot[x])
    requires u.Correct(q) && q != u.lid
    ensures var s := After(u, es);
      && s.leader.output
      && (s.followers[q].output.Some? <==> |EchoSenders(s.echoGot[q], u.Root())| >= u.c.f + 1)
      && (s.followers[q].output.Some? ==> FromLeader(u, s.followers[q].output.value))
      && (s.followers[q].output.Some? && LengthsRight(u, s.echoGot[q]) ==> s.followers[q].output.value.output == u.input)
  {
    hide Kept, Going, LeaderGoing, AliveRun, GoodEchoes, AtRest, EchoSenders, FromLeader, LengthsRight, Setup.Valid;
    RestReached(u, es);
    var s := After(u, es);
    LeaderOutputs(u, s);
    FaithfulAt(u, s, q);
    CountOf(s.followers[q], s.echoGot[q], u.Root());
    if s.followers[q].Buf(u.Root()).count >= u.c.f + 1 {
      CandidateDone(u, s, q);
    }
    if s.followers[q].output.Some? {
      RunDecided(u, es, q);
      OutputRoot(u, s.followers[q]);
    }
  }

  lemma OutputRoot(u: Setup, s: Follower)
    ensures s.output.Some? && FromLeader(u, s.output.value) ==> s.output.value.root == u.Root()
  {
  }

  lemma LeaderOutputs(u: Setup, s: System)
    requires RestOf(u, s)
    ensures s.leader.output
  {
    hide Kept, Faithful, AliveRun, GoodEchoes, AtRest, EchoSenders, Senders, Setup.Valid;
    NotHalted(u, s, u.lid);
    Still(u, s, u.lid);
    AllReadied(u, s);
    HonestCount(u, {});
    LeaderReadies(u, s, Honest(u));
    assert MayReady(u, s, u.lid, u.Root());
  }

  /** So everyone has output if f + 1 correct nodes have sent their ECHO. */
  lemma EnoughEchoes(u: Setup, es: seq<Event>, q: nat, some: set<nat>)
    requires u.Valid() && u.c.f >= 1 && u.Correct(u.lid) && Legal(u, es) && AtRest(u, After(u, es), u.byz)
    requires forall x :: x in Honest(u) ==> GoodEchoes(u, After(u, es).echoGot[x])
    requires u.Correct(q) && q != u.lid && some <= Honest(u) && |some| >= u.c.f + 1
    requires forall p :: p in some ==> HasEchoed(u, After(u, es), p)
    ensures After(u, es).followers[q].output.Some?
  {
    hide Kept, Faithful, Going, LeaderGoing, AliveRun, GoodEchoes, AtRest, HasEchoed, Setup.Valid;
    RestReached(u, es);
    var s := After(u, es);
    if s.followers[q].phase != Done {
      FollowerCounts(u, s, q, some);
      CandidateDone(u, s, q);
    }
    DoneHasOutput(u, s, q);
  }

  lemma DoneHasOutput(u: Setup, s: System, q: nat)
    requires RestOf(u, s) && u.Correct(q) && q != u.lid && s.followers[q].phase == Done
    ensures s.followers[q].output.Some?
  {
    hide Kept, Faithful, AliveRun, GoodEchoes, AtRest;
    NotHalted(u, s, q);
    Still(u, s, q);
  }

  /** One fault is always tolerated: a follower that is not done has sent its own ECHO, and the leader has. */
  lemma OneFaultDelivers(u: Setup, es: seq<Event>, q: nat)
    requires u.Valid() && u.c.f == 1 && u.Correct(u.lid) && Legal(u, es) && AtRest(u, After(u, es), u.byz)
    requires forall x :: x in Honest(u) ==> GoodEchoes(u, After(u, es).echoGot[x])
    requires u.Correct(q) && q != u.lid
    ensures After(u, es).followers[q].output.Some?
  {
    hide Kept, Faithful, Going, LeaderGoing, AliveRun, GoodEchoes, AtRest, Setup.Valid;
    RestReached(u, es);
    var s := After(u, es);
    if s.followers[q].phase == Done {
      DoneHasOutput(u, s, q);
    } else {
      if !HasEchoed(u, s, q) {
        SilentDone(u, s, q);
      }
      assert HasEchoed(u, s, u.lid);
      EnoughEchoes(u, es, q, {u.lid, q});
    }
  }
}
