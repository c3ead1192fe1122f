/** When faulty nodes only crash, a broadcast that has come to rest has delivered the leader's input to every correct node. */
module RbcTotality {
  import opened RbcNode
  import opened RbcProtocol
  import opened RbcValidity

  function One(b: bool): nat {
    if b then 1 else 0
  }

  /** Signals sent and signals consumed balance on each of the follower's channels. */
  ghost predicate Balanced(u: Setup, s: Follower) {
    var e, k := s.Buf(u.Root()).count, s.Readies(u.Root());
    && |s.readysignal| + One(s.phase != WaitReady) == One(e >= 2 * u.c.f + 1) + One(k >= u.c.f + 1)
    && |s.outputsignal| + One(s.phase.WaitCandidate? || s.phase == Done) == One(k >= 2 * u.c.f + 1)
    && |s.candidates| + One(s.phase == Done) == One(e >= u.c.f + 1)
    && (s.echoDone <==> e >= 2 * u.c.f + 1) && e <= 2 * u.c.f + 1
    && (s.readyDone <==> k >= 2 * u.c.f + 1) && k <= 2 * u.c.f + 1
  }

  /** Nothing a follower of a crash-only run meets makes it panic. */
  ghost predicate Healthy(u: Setup, s: Follower) {
    && !s.halted
    && (forall i :: 0 <= i < |s.outputsignal| ==> s.outputsignal[i] == u.Root())
    && (forall i :: 0 <= i < |s.candidates| ==> s.candidates[i].root == u.Root())
    && (s.phase.WaitCandidate? ==> s.phase.root == u.Root())
    && (s.output.Some? <==> s.phase == Done)
  }

  /** The shards collected are the leader's, until they are complete. */
  ghost predicate Collected(u: Setup, s: Follower, got: map<nat, Path>) {
    var b := s.Buf(u.Root());
    && b.count == |got| == s.echocount
    && (b.count <= u.c.f ==> b.shards.Keys == got.Keys && Extends(u.word, b.shards))
    && (b.count > u.c.f ==> b.rootValid)
    && (b.count > 0 ==> u.Root() in s.echomap)
  }

  ghost predicate FollowerSound(u: Setup, s: Follower, got: map<nat, Path>, ready: map<nat, Bytes>) {
    Balanced(u, s) && Healthy(u, s) && Collected(u, s, got) && s.Readies(u.Root()) == |ready|
  }

  ghost predicate LeaderSound(u: Setup, s: Leader, got: map<nat, Path>, ready: map<nat, Bytes>) {
    && !s.halted && s.echocount == |got| && s.readycount == |ready|
    && s.readysignal + One(s.phase != WaitReady) == One(s.echocount >= 2 * u.c.f) + One(s.readycount >= u.c.f + 1)
    && s.outputsignal + One(s.phase == Done) == One(s.readycount >= 2 * u.c.f)
    && (s.echoDone <==> s.echocount >= 2 * u.c.f) && (s.readyDone <==> s.readycount >= 2 * u.c.f)
    && (s.readied <==> s.phase != WaitReady) && (s.output <==> s.phase == Done)
    && s.phase in {WaitReady, WaitOutput, Done}
  }

  predicate Readying(s: Follower) {
    s.phase != WaitReady || |s.readysignal| > 0
  }

  /** Whoever is on the way to READY, some follower has seen 2 f + 1 ECHO messages. */
  ghost predicate EchoQuorum(u: Setup, s: System)
    requires Sized(u, s)
  {
    (exists x: nat :: x < u.N() && x != u.lid && Readying(s.followers[x]))
      ==> (exists y: nat :: y < u.N() && y != u.lid && |s.echoGot[y]| >= 2 * u.c.f + 1)
  }

  ghost predicate Sound(u: Setup, s: System)
    requires Sized(u, s)
  {
    && u.lid < u.N() && LeaderSound(u, s.leader, s.echoGot[u.lid], s.readyGot[u.lid])
    && (forall q: nat :: q < u.N() && q != u.lid ==> FollowerSound(u, s.followers[q], s.echoGot[q], s.readyGot[q]))
    && EchoQuorum(u, s)
  }

  ghost predicate CrashOnly(u: Setup) {
    u.Valid() && u.byz == {} && u.c.f >= 1
  }

  lemma InitSound(u: Setup)
    requires CrashOnly(u)
    ensures Sound(u, Init(u))
  {
    var b := FreshFollower().Buf(u.Root());
    var none: map<nat, Path> := map[];
    assert b.shards.Keys == none.Keys;
  }

  // ---------- one ECHO ----------

  lemma KeysMore<V>(got: map<nat, V>, p: nat, v: V)
    requires p !in got
    ensures |got[p := v]| == |got| + 1 && got[p := v].Keys == got.Keys + {p}
  {
    assert got[p := v].Keys == got.Keys + {p};
    assert |got[p := v]| == |got[p := v].Keys| && |got| == |got.Keys|;
  }

  lemma MapSize<V>(got: map<nat, V>)
    ensures |got| == |got.Keys|
  {
  }

  lemma EchoSound(u: Setup, s: Follower, got: map<nat, Path>, ready: map<nat, Bytes>, p: nat)
    requires CrashOnly(u) && FollowerSound(u, s, got, ready) && s.Running() && !s.echoDone && p < u.N() && p !in got
    ensures FollowerSound(u, EchoStep(u.c, s, p, u.paths[p]), got[p := u.paths[p]], ready)
    ensures Readying(EchoStep(u.c, s, p, u.paths[p])) ==> Readying(s) || |got| + 1 >= 2 * u.c.f + 1
  {
    hide EchoThresholds, EchoCounted, Flat, Payload, Counted;
    var m, root := u.paths[p], u.Root();
    var v := EchoCounted(s, p, m);
    KeysMore(got, p, m);
    CountedOne(u, s, p, got, ready);
    CountedFields(s, p, m);
    var t := EchoThresholds(u.c, v, root, m.len);
    if |got| + 1 == u.c.f + 1 {
      AtCandidate(u, v, got[p := m], ready);
    } else if |got| + 1 == 2 * u.c.f + 1 {
      AtReady(u, v, got[p := m], ready);
    } else {
      AtOther(u, v, got[p := m], ready);
    }
  }

  /** After counting, everything is as before but for the count and, below f + 1, the new shard. */
  ghost predicate Counted(u: Setup, v: Follower, got: map<nat, Path>, ready: map<nat, Bytes>) {
    var b, e, k := v.Buf(u.Root()), |got| - 1, v.Readies(u.Root());
    && |got| >= 1 && u.Root() in v.echomap && b.count == |got| == v.echocount
    && |v.readysignal| + One(v.phase != WaitReady) == One(e >= 2 * u.c.f + 1) + One(k >= u.c.f + 1)
    && |v.outputsignal| + One(v.phase.WaitCandidate? || v.phase == Done) == One(k >= 2 * u.c.f + 1)
    && |v.candidates| + One(v.phase == Done) == One(e >= u.c.f + 1)
    && !v.echoDone && e < 2 * u.c.f + 1 && v.phase != Done
    && (v.readyDone <==> k >= 2 * u.c.f + 1) && k <= 2 * u.c.f + 1
    && Healthy(u, v) && k == |ready|
    && (b.count <= u.c.f + 1 ==> b.shards.Keys == got.Keys && Extends(u.word, b.shards))
    && (e > u.c.f ==> b.rootValid)
  }

  lemma CountedFields(s: Follower, p: nat, m: Path)
    requires m.Wellformed()
    ensures var v := EchoCounted(s, p, m);
      && SameReady(s, v) && v.readysignal == s.readysignal && v.candidates == s.candidates && v.halted == s.halted
      && v.echoDone == s.echoDone && v.echocount == s.echocount + 1 && m.Root() in v.echomap
      && v.Buf(m.Root()) == EchoBuf(s.Buf(m.Root()).count + 1, s.Buf(m.Root()).shards[p := m.Shard()], s.Buf(m.Root()).rootValid)
  {
  }

  lemma CountedOne(u: Setup, s: Follower, p: nat, got: map<nat, Path>, ready: map<nat, Bytes>)
    requires CrashOnly(u) && p < u.N() && FollowerSound(u, s, got, ready) && s.Running() && !s.echoDone && p !in got
    ensures Counted(u, EchoCounted(s, p, u.paths[p]), got[p := u.paths[p]], ready)
  {
    hide EchoCounted, Healthy, LaidOut, Codec.Valid;
    var m, root := u.paths[p], u.Root();
    var v := EchoCounted(s, p, m);
    KeysMore(got, p, m);
    CountedFields(s, p, m);
    CountedShards(u.word, s.Buf(root).shards, got, p, m);
    assert v.Readies(root) == s.Readies(root);
    HealthySame(u, s, v);
  }

  lemma HealthySame(u: Setup, s: Follower, v: Follower)
    requires Healthy(u, s) && SameReady(s, v) && v.candidates == s.candidates && v.halted == s.halted
    ensures Healthy(u, v)
  {
  }

  lemma CountedShards(w: seq<Bytes>, shards: map<nat, Bytes>, got: map<nat, Path>, p: nat, m: Path)
    requires p !in got && p < |w| && m.Wellformed() && m.Shard() == w[p]
    ensures shards.Keys == got.Keys && Extends(w, shards) ==>
      shards[p := m.Shard()].Keys == got[p := m].Keys && Extends(w, shards[p := m.Shard()])
  {
    if shards.Keys == got.Keys && Extends(w, shards) {
      assert shards[p := m.Shard()].Keys == shards.Keys + {p};
      assert got[p := m].Keys == got.Keys + {p};
    }
  }

  lemma AtCandidate(u: Setup, v: Follower, got: map<nat, Path>, ready: map<nat, Bytes>)
    requires CrashOnly(u) && Counted(u, v, got, ready) && |got| == u.c.f + 1
    ensures var t := EchoThresholds(u.c, v, u.Root(), |u.input|);
      FollowerSound(u, t, got, ready) && t.readysignal == v.readysignal && t.phase == v.phase
  {
    hide Reconstruct, Payload, Flat, LaidOut, Codec.Valid;
    var shards := v.Buf(u.Root()).shards;
    MapSize(shards);
    MapSize(got);
    InputFits(u);
    DecidingReconstruct(u, v, shards, |u.input|);
    var t := Reconstruct(u.c, v, u.Root(), |u.input|);
    ReconstructRest(u.c, v, u.Root(), |u.input|);
    assert EchoThresholds(u.c, v, u.Root(), |u.input|) == t;
    assert t.Readies(u.Root()) == v.Readies(u.Root());
  }

  lemma InputFits(u: Setup)
    requires u.Valid()
    ensures |u.input| <= |Flat(u.word)|
  {
    hide LaidOut;
    LeaderPayload(u);
  }

  lemma ReconstructRest(c: Codec, s: Follower, root: Bytes, len: int)
    requires root in s.echomap
    ensures var t := Reconstruct(c, s, root, len);
      SameReady(s, t) && t.readysignal == s.readysignal && t.echoDone == s.echoDone && t.echocount == s.echocount && root in t.echomap
  {
    hide Payload;
  }

  lemma AtReady(u: Setup, v: Follower, got: map<nat, Path>, ready: map<nat, Bytes>)
    requires CrashOnly(u) && Counted(u, v, got, ready) && |got| == 2 * u.c.f + 1
    ensures FollowerSound(u, EchoThresholds(u.c, v, u.Root(), |u.input|), got, ready)
  {
    hide Reconstruct;
    var t := EchoThresholds(u.c, v, u.Root(), |u.input|);
    assert t == v.(readysignal := v.readysignal + [u.Root()], echoDone := true);
    assert t.Readies(u.Root()) == v.Readies(u.Root()) && t.Buf(u.Root()) == v.Buf(u.Root());
  }

  lemma AtOther(u: Setup, v: Follower, got: map<nat, Path>, ready: map<nat, Bytes>)
    requires CrashOnly(u) && Counted(u, v, got, ready) && |got| != u.c.f + 1 && |got| != 2 * u.c.f + 1
    ensures var t := EchoThresholds(u.c, v, u.Root(), |u.input|);
      FollowerSound(u, t, got, ready) && t.readysignal == v.readysignal && t.phase == v.phase
  {
    hide Reconstruct;
    assert EchoThresholds(u.c, v, u.Root(), |u.input|) == v;
  }

  // ---------- one READY, one move of the main thread ----------

  lemma ReadySound(u: Setup, s: Follower, got: map<nat, Path>, ready: map<nat, Bytes>, p: nat)
    requires CrashOnly(u) && FollowerSound(u, s, got, ready) && s.Running() && !s.readyDone && p !in ready
    ensures FollowerSound(u, ReadyStep(u.c, s, u.Root()), got, ready[p := u.Root()])
    ensures Readying(ReadyStep(u.c, s, u.Root())) ==> Readying(s) || |ready| + 1 == u.c.f + 1
  {
    hide Setup.Valid, Extends, LaidOut, Codec.Valid;
    var t := ReadyStep(u.c, s, u.Root());
    KeysMore(ready, p, u.Root());
    assert t.Buf(u.Root()) == s.Buf(u.Root()) && t.Readies(u.Root()) == s.Readies(u.Root()) + 1;
  }

  lemma MainSound(u: Setup, s: Follower, got: map<nat, Path>, ready: map<nat, Bytes>)
    requires CrashOnly(u) && FollowerSound(u, s, got, ready) && CanMove(s)
    ensures FollowerSound(u, MainStep(s), got, ready) && Readying(s)
  {
    hide Setup.Valid, Collected;
    var t := MainStep(s);
    assert t.Readies(u.Root()) == s.Readies(u.Root()) && t.Buf(u.Root()) == s.Buf(u.Root());
    MainHealthy(u, s);
    assert t.echomap == s.echomap && t.echocount == s.echocount;
    CollectedSame(u, s, t, got);
  }

  lemma MainHealthy(u: Setup, s: Follower)
    requires Healthy(u, s) && CanMove(s)
    ensures Healthy(u, MainStep(s))
  {
    var t := MainStep(s);
    match s.phase
    case WaitReady =>
    case WaitOutput =>
      assert forall i :: 0 <= i < |t.outputsignal| ==> t.outputsignal[i] == s.outputsignal[i + 1];
    case WaitCandidate(_) =>
      assert forall i :: 0 <= i < |t.candidates| ==> t.candidates[i] == s.candidates[i + 1];
  }

  lemma CollectedSame(u: Setup, s: Follower, t: Follower, got: map<nat, Path>)
    requires Collected(u, s, got) && t.echomap == s.echomap && t.echocount == s.echocount
    ensures Collected(u, t, got)
  {
    assert t.Buf(u.Root()) == s.Buf(u.Root());
  }

  lemma LeaderEchoSound(u: Setup, s: Leader, got: map<nat, Path>, ready: map<nat, Bytes>, p: nat)
    requires CrashOnly(u) && LeaderSound(u, s, got, ready) && s.Running() && !s.echoDone && p !in got && p < u.N()
    ensures LeaderSound(u, LeaderEcho(u.c, s, u.Root(), u.paths[p]), got[p := u.paths[p]], ready)
  {
    KeysMore(got, p, u.paths[p]);
  }

  lemma LeaderReadySound(u: Setup, s: Leader, got: map<nat, Path>, ready: map<nat, Bytes>, p: nat)
    requires CrashOnly(u) && LeaderSound(u, s, got, ready) && s.Running() && !s.readyDone && p !in ready
    ensures LeaderSound(u, LeaderReady(u.c, s, u.Root(), u.Root()), got, ready[p := u.Root()])
  {
    KeysMore(ready, p, u.Root());
  }

  // ---------- every step ----------

  /** In a crash-only run, every ECHO and READY that may be delivered is the leader's. */
  lemma OnlyLeaders(u: Setup, s: System, p: nat)
    requires CrashOnly(u) && Sized(u, s) && Kept(u, s) && Faithful(u, s) && p < u.N()
    ensures forall m :: MayEcho(u, s, p, m) ==> m == u.paths[p]
    ensures forall r :: MayReady(u, s, p, r) ==> r == u.Root()
  {
    hide Faithful, Kept, FollowerFaithful;
    assert u.Correct(p) && u.Correct(u.lid);
    forall m | MayEcho(u, s, p, m)
      ensures m == u.paths[p]
    {
      CorrectEcho(u, s, p, m);
    }
    if p != u.lid {
      FaithfulAt(u, s, p);
      LoyalAt(u, s, p);
    }
  }

  lemma LoyalAt(u: Setup, s: System, p: nat)
    requires Sized(u, s) && p < u.N() == |u.paths| && FollowerFaithful(u, s, p)
    ensures Loyal(u, s.followers[p])
  {
  }

  lemma FollowerSoundStep(u: Setup, s: System, e: Event, q: nat)
    requires CrashOnly(u) && Sized(u, s) && Kept(u, s) && Faithful(u, s) && Sound(u, s) && Enabled(u, s, e) && q < u.N() && q != u.lid
    ensures var t := Apply(u, s, e);
      FollowerSound(u, t.followers[q], t.echoGot[q], t.readyGot[q])
  {
    hide EchoStep, ReadyStep, MainStep, FollowerSound, Kept, Faithful, EchoQuorum, LeaderSound;
    var f, eg, rg := s.followers[q], s.echoGot[q], s.readyGot[q];
    assert FollowerSound(u, f, eg, rg);
    match e
    case DeliverVal(q', m) =>
      if q' == q {
        ValSound(u, f, m, eg, rg, q);
      }
    case DeliverEcho(p, q', m) =>
      OnlyLeaders(u, s, p);
      if q' == q {
        EchoSound(u, f, eg, rg, p);
      }
    case DeliverReady(p, q', root) =>
      OnlyLeaders(u, s, p);
      if q' == q {
        ReadySound(u, f, eg, rg, p);
      }
    case Main(q') =>
      if q' == q {
        MainSound(u, f, eg, rg);
      }
  }

  lemma ValSound(u: Setup, s: Follower, m: Path, got: map<nat, Path>, ready: map<nat, Bytes>, q: nat)
    requires CrashOnly(u) && q < u.N() && m == u.paths[q] && FollowerSound(u, s, got, ready)
    ensures FollowerSound(u, ValStep(s, m), got, ready)
  {
    var t := ValStep(s, m);
    assert t.Buf(u.Root()) == s.Buf(u.Root()) && t.Readies(u.Root()) == s.Readies(u.Root());
  }

  lemma LeaderSoundStep(u: Setup, s: System, e: Event)
    requires CrashOnly(u) && Sized(u, s) && Kept(u, s) && Faithful(u, s) && Sound(u, s) && Enabled(u, s, e)
    ensures var t := Apply(u, s, e);
      LeaderSound(u, t.leader, t.echoGot[u.lid], t.readyGot[u.lid])
  {
    hide LeaderEcho, LeaderReady, EchoStep, ReadyStep, MainStep, FollowerSound, Kept, Faithful, EchoQuorum, LeaderSound;
    var f, eg, rg := s.leader, s.echoGot[u.lid], s.readyGot[u.lid];
    match e
    case DeliverVal(_, _) =>
    case DeliverEcho(p, q, m) =>
      OnlyLeaders(u, s, p);
      if q == u.lid {
        LeaderEchoSound(u, f, eg, rg, p);
      }
    case DeliverReady(p, q, root) =>
      OnlyLeaders(u, s, p);
      if q == u.lid {
        LeaderReadySound(u, f, eg, rg, p);
      }
    case Main(q) =>
      if q == u.lid {
        LeaderMainSound(u, f, eg, rg);
      }
  }

  lemma LeaderMainSound(u: Setup, s: Leader, got: map<nat, Path>, ready: map<nat, Bytes>)
    requires LeaderSound(u, s, got, ready) && LeaderCanMove(s)
    ensures LeaderSound(u, LeaderMain(s), got, ready)
  {
  }

  /** A follower that starts towards READY either saw the ECHO quorum itself or follows one that is already under way. */
  lemma QuorumStep(u: Setup, s: System, e: Event)
    requires CrashOnly(u) && Sized(u, s) && Kept(u, s) && Faithful(u, s) && Sound(u, s) && Enabled(u, s, e)
    ensures EchoQuorum(u, Apply(u, s, e))
  {
    hide EchoStep, ReadyStep, MainStep, ValStep, FollowerSound, Kept, Faithful, LeaderSound, Readying, Codec.Valid;
    var t := Apply(u, s, e);
    assert forall q: nat :: q < u.N() ==> |t.echoGot[q]| >= |s.echoGot[q]| by {
      if e.DeliverEcho? {
        KeysMore(s.echoGot[e.q], e.p, e.echo);
      }
    }
    forall x: nat | x < u.N() && x != u.lid && Readying(t.followers[x])
      ensures exists y: nat :: y < u.N() && y != u.lid && |t.echoGot[y]| >= 2 * u.c.f + 1
    {
      QuorumAt(u, s, e, t, x);
    }
  }

  lemma QuorumAt(u: Setup, s: System, e: Event, t: System, x: nat)
    requires CrashOnly(u) && Sized(u, s) && Kept(u, s) && Faithful(u, s) && Sound(u, s) && Enabled(u, s, e) && t == Apply(u, s, e)
    requires forall q: nat :: q < u.N() ==> |t.echoGot[q]| >= |s.echoGot[q]|
    requires x < u.N() && x != u.lid && Readying(t.followers[x])
    ensures exists y: nat :: y < u.N() && y != u.lid && |t.echoGot[y]| >= 2 * u.c.f + 1
  {
    hide Apply, Kept, Faithful, FollowerSound, LeaderSound, EchoQuorum, Readying;
    if Readying(s.followers[x]) {
      WitnessKept(u, s, t);
    } else {
      NewReadying(u, s, e, x);
      if e.DeliverEcho? {
        assert |t.echoGot[x]| >= 2 * u.c.f + 1;
      } else {
        WitnessKept(u, s, t);
      }
    }
  }

  lemma WitnessKept(u: Setup, s: System, t: System)
    requires Sized(u, s) && Sized(u, t) && EchoQuorum(u, s)
    requires exists x: nat :: x < u.N() && x != u.lid && Readying(s.followers[x])
    requires forall q: nat :: q < u.N() ==> |t.echoGot[q]| >= |s.echoGot[q]|
    ensures exists y: nat :: y < u.N() && y != u.lid && |t.echoGot[y]| >= 2 * u.c.f + 1
  {
    hide Readying;
    var y: nat :| y < u.N() && y != u.lid && |s.echoGot[y]| >= 2 * u.c.f + 1;
    assert |t.echoGot[y]| >= 2 * u.c.f + 1;
  }

  lemma NewReadying(u: Setup, s: System, e: Event, x: nat)
    requires CrashOnly(u) && Sized(u, s) && Kept(u, s) && Faithful(u, s) && Sound(u, s) && Enabled(u, s, e)
    requires x < u.N() && x != u.lid && !Readying(s.followers[x]) && Readying(Apply(u, s, e).followers[x])
    ensures (e.DeliverEcho? && |Apply(u, s, e).echoGot[x]| >= 2 * u.c.f + 1)
      || (!e.DeliverEcho? && exists z: nat :: z < u.N() && z != u.lid && Readying(s.followers[z]))
  {
    hide EchoStep, ReadyStep, MainStep, ValStep, FollowerSound, Kept, Faithful, LeaderSound, EchoQuorum, Readying, Setup.Valid;
    var f, eg, rg := s.followers[x], s.echoGot[x], s.readyGot[x];
    assert FollowerSound(u, f, eg, rg);
    match e
    case DeliverVal(q, m) =>
      ValReadying(f, m);
    case DeliverEcho(p, q, m) =>
      OnlyLeaders(u, s, p);
      if q == x {
        EchoSound(u, f, eg, rg, p);
        KeysMore(eg, p, m);
      }
    case DeliverReady(p, q, root) =>
      if q == x {
        NewByReady(u, s, p, x, root);
      }
    case Main(q) =>
      if q == x {
        MainSound(u, f, eg, rg);
      }
  }

  lemma NewByReady(u: Setup, s: System, p: nat, x: nat, root: Bytes)
    requires CrashOnly(u) && Sized(u, s) && Kept(u, s) && Faithful(u, s) && Sound(u, s)
    requires x < u.N() && x != u.lid && p < u.N() && p !in s.readyGot[x] && MayReady(u, s, p, root)
    requires s.followers[x].Running() && !s.followers[x].readyDone
    requires !Readying(s.followers[x]) && Readying(ReadyStep(u.c, s.followers[x], root))
    ensures exists z: nat :: z < u.N() && z != u.lid && Readying(s.followers[z])
  {
    hide EchoStep, ReadyStep, MainStep, FollowerSound, Kept, Faithful, LeaderSound, EchoQuorum, Readying, Setup.Valid;
    var f, eg, rg := s.followers[x], s.echoGot[x], s.readyGot[x];
    assert FollowerSound(u, f, eg, rg);
    OnlyLeaders(u, s, p);
    ReadySound(u, f, eg, rg, p);
    KeysMore(rg, p, root);
    ReadyGotSent(u, s, x);
    var z := ReadyFromFollower(u, s, rg[p := root]);
    assert Readying(s.followers[z]);
  }

  lemma ReadyGotSent(u: Setup, s: System, x: nat)
    requires CrashOnly(u) && Sized(u, s) && Kept(u, s) && x < u.N()
    ensures forall p: nat :: p in s.readyGot[x] ==> p < u.N() && MayReady(u, s, p, s.readyGot[x][p])
  {
    assert u.Correct(x);
  }

  lemma ValReadying(s: Follower, m: Path)
    ensures Readying(ValStep(s, m)) == Readying(s)
  {
  }

  /** Two READY messages cannot both come from the leader. */
  lemma ReadyFromFollower(u: Setup, s: System, got: map<nat, Bytes>) returns (z: nat)
    requires CrashOnly(u) && Sized(u, s) && Kept(u, s) && |got| == u.c.f + 1
    requires forall p: nat :: p in got ==> p < u.N() && MayReady(u, s, p, got[p])
    ensures z < u.N() && z != u.lid && Readying(s.followers[z])
  {
    MapSize(got);
    if got.Keys <= {u.lid} {
      SubsetCount(got.Keys, {u.lid});
    }
    z :| z in got.Keys && z != u.lid;
    assert FollowerKept(u, s, z);
  }

  lemma StepSound(u: Setup, s: System, e: Event)
    requires CrashOnly(u) && Sized(u, s) && Kept(u, s) && Faithful(u, s) && Sound(u, s) && Enabled(u, s, e)
    ensures Sound(u, Apply(u, s, e))
  {
    hide Apply, Kept, Faithful, FollowerSound, LeaderSound, EchoQuorum;
    LeaderSoundStep(u, s, e);
    QuorumStep(u, s, e);
    var t := Apply(u, s, e);
    forall q: nat | q < u.N() && q != u.lid
      ensures FollowerSound(u, t.followers[q], t.echoGot[q], t.readyGot[q])
    {
      FollowerSoundStep(u, s, e, q);
    }
  }

  lemma {:induction false} RunSound(u: Setup, es: seq<Event>)
    requires CrashOnly(u) && Legal(u, es)
    ensures Kept(u, After(u, es)) && Faithful(u, After(u, es)) && Sound(u, After(u, es))
    decreases |es|
  {
    hide Kept, Faithful, Sound;
    assert u.Correct(u.lid);
    RunFaithful(u, es);
    if |es| == 0 {
      InitSound(u);
    } else {
      RunSound(u, es[..|es| - 1]);
      StepSound(u, After(u, es[..|es| - 1]), es[|es| - 1]);
    }
  }
}
