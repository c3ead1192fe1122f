/** The reliable broadcast as a system of nodes: every run keeps correct nodes in agreement. */
module RbcProtocol {
  import opened RbcNode
  import opened Wrappers

  /** The nodes, which of them are faulty, and what the leader broadcasts when it is correct. */
  datatype Setup = Setup(c: Codec, lid: nat, byz: set<nat>, input: Bytes, word: seq<Bytes>, paths: seq<Path>) {
    function N(): nat {
      c.N()
    }

    function Root(): Bytes {
      c.root(word)
    }

    predicate Correct(p: nat) {
      p < N() && p !in byz
    }

    ghost predicate Valid() {
      && c.Valid() && lid < N() && |byz| <= c.f
      && c.codeword(word) && LaidOut(word, input, c.f + 1)
      && |paths| == N() && |word| == N()
      && (forall i :: 0 <= i < N() ==>
            paths[i].Wellformed() && paths[i].Root() == Root() && paths[i].Shard() == word[i] && paths[i].len == |input|)
    }
  }

  /** The leader's vector stands for its input. */
  lemma LeaderPayload(u: Setup)
    requires u.Valid()
    ensures Payload(u.word, |u.input|) == Some(u.input)
  {
    hide LaidOut, Payload;
    LaidOutPayload(u.word, u.input, u.c.f + 1);
  }

  /** Every node's state, and which ECHO and READY each node has received from whom. */
  datatype System = System(leader: Leader, followers: seq<Follower>, echoGot: seq<map<nat, Path>>, readyGot: seq<map<nat, Bytes>>)

  datatype Event =
    | DeliverVal(q: nat, val: Path)
    | DeliverEcho(p: nat, q: nat, echo: Path)
    | DeliverReady(p: nat, q: nat, root: Bytes)
    | Main(q: nat)

  predicate Sized(u: Setup, s: System) {
    |s.followers| == |s.echoGot| == |s.readyGot| == u.N()
  }

  function Init(u: Setup): (s: System)
    ensures Sized(u, s)
  {
    System(FreshLeader(), seq(u.N(), _ => FreshFollower()), seq(u.N(), _ => map[]), seq(u.N(), _ => map[]))
  }

  /** A correct node's ECHO and READY are those it has sent; a faulty node may send anything. */
  predicate MayEcho(u: Setup, s: System, p: nat, m: Path)
    requires Sized(u, s) && |u.paths| == u.N() && u.lid < u.N()
  {
    p in u.byz || (p < u.N() && if p == u.lid then m == u.paths[p] else m in s.followers[p].echoed)
  }

  predicate MayReady(u: Setup, s: System, p: nat, root: Bytes)
    requires Sized(u, s)
  {
    p in u.byz || (p < u.N() && if p == u.lid then s.leader.readied && root == u.Root() else s.followers[p].readied == Some(root))
  }

  /** Each handler takes at most one ECHO and one READY from each peer, while it is running. */
  predicate Enabled(u: Setup, s: System, e: Event)
    requires Sized(u, s) && |u.paths| == u.N() && u.lid < u.N()
  {
    match e
    case DeliverVal(q, m) =>
      u.Correct(q) && q != u.lid && s.followers[q].Running() && (u.lid in u.byz || m == u.paths[q])
    case DeliverEcho(p, q, m) =>
      && p < u.N() && u.Correct(q) && p !in s.echoGot[q] && MayEcho(u, s, p, m)
      && (if q == u.lid then s.leader.Running() && !s.leader.echoDone else s.followers[q].Running() && !s.followers[q].echoDone)
    case DeliverReady(p, q, root) =>
      && p < u.N() && u.Correct(q) && p !in s.readyGot[q] && MayReady(u, s, p, root)
      && (if q == u.lid then s.leader.Running() && !s.leader.readyDone else s.followers[q].Running() && !s.followers[q].readyDone)
    case Main(q) =>
      u.Correct(q) && if q == u.lid then LeaderCanMove(s.leader) else CanMove(s.followers[q])
  }

  function Apply(u: Setup, s: System, e: Event): (t: System)
    requires Sized(u, s) && |u.paths| == u.N() && u.lid < u.N() && Enabled(u, s, e)
    ensures Sized(u, t)
  {
    match e
    case DeliverVal(q, m) =>
      s.(followers := s.followers[q := ValStep(s.followers[q], m)])
    case DeliverEcho(p, q, m) =>
      var row: map<nat, Path> := s.echoGot[q][p := m];
      var got := s.echoGot[q := row];
      if q == u.lid then s.(leader := LeaderEcho(u.c, s.leader, u.Root(), m), echoGot := got)
      else s.(followers := s.followers[q := EchoStep(u.c, s.followers[q], p, m)], echoGot := got)
    case DeliverReady(p, q, root) =>
      var row: map<nat, Bytes> := s.readyGot[q][p := root];
      var got := s.readyGot[q := row];
      if q == u.lid then s.(leader := LeaderReady(u.c, s.leader, u.Root(), root), readyGot := got)
      else s.(followers := s.followers[q := ReadyStep(u.c, s.followers[q], root)], readyGot := got)
    case Main(q) =>
      if q == u.lid then s.(leader := LeaderMain(s.leader))
      else s.(followers := s.followers[q := MainStep(s.followers[q])])
  }

  /** A run is a list of events, each enabled where it happens. */
  ghost predicate Legal(u: Setup, es: seq<Event>)
    requires u.Valid()
    decreases |es|, 0
  {
    |es| == 0 || (Legal(u, es[..|es| - 1]) && Enabled(u, After(u, es[..|es| - 1]), es[|es| - 1]))
  }

  ghost function After(u: Setup, es: seq<Event>): (s: System)
    requires u.Valid() && Legal(u, es)
    ensures Sized(u, s)
    decreases |es|, 1
  {
    if |es| == 0 then Init(u) else Apply(u, After(u, es[..|es| - 1]), es[|es| - 1])
  }

  // ---------- counting senders ----------

  function Nodes(n: nat): (s: set<nat>)
    ensures forall i: nat :: i in s <==> i < n
    ensures |s| == n
  {
    if n == 0 then {} else Nodes(n - 1) + {n - 1}
  }

  lemma SubsetCount<T>(a: set<T>, b: set<T>)
    requires a <= b
    ensures |a| <= |b|
  {
    assert b == a + (b - a);
  }

  function Senders(got: map<nat, Bytes>, root: Bytes): set<nat> {
    set p | p in got && got[p] == root
  }

  lemma SendersMore(got: map<nat, Bytes>, p: nat, root: Bytes, r: Bytes)
    requires p !in got
    ensures |Senders(got[p := root], r)| == |Senders(got, r)| + (if r == root then 1 else 0)
  {
    if r == root {
      assert Senders(got[p := root], r) == Senders(got, r) + {p};
    } else {
      assert Senders(got[p := root], r) == Senders(got, r);
    }
  }

  /** More than f senders include a correct one. */
  lemma CorrectAmong(u: Setup, a: set<nat>) returns (p: nat)
    requires u.Valid() && a <= Nodes(u.N()) && |a| > u.c.f
    ensures p in a && u.Correct(p)
  {
    if a <= u.byz {
      SubsetCount(a, u.byz);
    }
    p :| p in a && p !in u.byz;
  }

  /** Two sets of 2 f + 1 nodes share a correct one. */
  lemma QuorumsMeet(u: Setup, a: set<nat>, b: set<nat>) returns (p: nat)
    requires u.Valid() && a <= Nodes(u.N()) && b <= Nodes(u.N()) && |a| >= 2 * u.c.f + 1 && |b| >= 2 * u.c.f + 1
    ensures p in a && p in b && u.Correct(p)
  {
    SubsetCount(a + b, Nodes(u.N()));
    assert |a + b| == |a| + |b| - |a * b|;
    p := CorrectAmong(u, a * b);
  }

  // ---------- what every run keeps ----------

  ghost predicate ReadyCounts(s: Follower, got: map<nat, Bytes>) {
    forall r :: s.Readies(r) == |Senders(got, r)|
  }

  /** Roots on their way to the output have 2 f + 1 READY messages behind them. */
  ghost predicate OutputBacked(c: Codec, s: Follower) {
    && (forall i :: 0 <= i < |s.outputsignal| ==> s.Readies(s.outputsignal[i]) >= 2 * c.f + 1)
    && (s.phase.WaitCandidate? ==> s.Readies(s.phase.root) >= 2 * c.f + 1)
    && (s.output.Some? ==> s.Readies(s.output.value.root) >= 2 * c.f + 1)
    && (s.readied.Some? <==> s.phase != WaitReady)
  }

  ghost predicate FollowerKept(u: Setup, s: System, q: nat)
    requires Sized(u, s) && q < u.N()
  {
    && ReadyCounts(s.followers[q], s.readyGot[q])
    && OutputBacked(u.c, s.followers[q])
  }

  /** READY messages received are messages sent. */
  ghost predicate ReadySent(u: Setup, s: System)
    requires Sized(u, s)
  {
    && (u.Correct(u.lid) ==> (s.leader.readied <==> s.leader.phase != WaitReady))
    && (forall q: nat, p: nat :: u.Correct(q) && p in s.readyGot[q] ==> p < u.N() && MayReady(u, s, p, s.readyGot[q][p]))
  }

  ghost predicate Kept(u: Setup, s: System)
    requires Sized(u, s)
  {
    && ReadySent(u, s)
    && (forall q: nat :: u.Correct(q) && q != u.lid ==> FollowerKept(u, s, q))
  }

  lemma InitKept(u: Setup)
    requires u.Valid()
    ensures Kept(u, Init(u))
  {
    var s := Init(u);
    forall q: nat | u.Correct(q) && q != u.lid
      ensures FollowerKept(u, s, q)
    {
      forall r
        ensures FreshFollower().Readies(r) == |Senders(map[], r)|
      {
        assert Senders(map[], r) == {};
      }
    }
  }

  /** An ECHO touches nothing that READY messages and the main thread use. */
  ghost predicate SameReady(s: Follower, t: Follower) {
    && t.readymap == s.readymap && t.outputsignal == s.outputsignal && t.phase == s.phase && t.output == s.output
    && t.readied == s.readied && t.echoed == s.echoed && t.readyDone == s.readyDone
  }

  lemma ReconstructSame(c: Codec, s: Follower, root: Bytes, len: int)
    ensures SameReady(s, Reconstruct(c, s, root, len))
  {
    hide Payload;
  }

  lemma ThresholdsSame(c: Codec, s: Follower, root: Bytes, len: int)
    requires root in s.echomap
    ensures SameReady(s, EchoThresholds(c, s, root, len))
  {
    hide Reconstruct;
    ReconstructSame(c, s, root, len);
  }

  lemma EchoLeavesReady(c: Codec, s: Follower, p: nat, m: Path)
    ensures SameReady(s, EchoStep(c, s, p, m))
  {
    hide EchoThresholds;
    if m.Wellformed() {
      ThresholdsSame(c, EchoCounted(s, p, m), m.Root(), m.len);
    }
  }

  lemma MainStepKept(c: Codec, s: Follower, got: map<nat, Bytes>)
    requires ReadyCounts(s, got) && OutputBacked(c, s) && CanMove(s)
    ensures ReadyCounts(MainStep(s), got) && OutputBacked(c, MainStep(s))
  {
    MainBacked(c, s);
    CountsSame(s, MainStep(s), got);
  }

  lemma MainBacked(c: Codec, s: Follower)
    requires OutputBacked(c, s) && CanMove(s)
    ensures OutputBacked(c, MainStep(s)) && MainStep(s).readymap == s.readymap
  {
    var t := MainStep(s);
    assert forall r :: t.Readies(r) == s.Readies(r);
    if s.phase == WaitOutput {
      assert forall i :: 0 <= i < |t.outputsignal| ==> t.outputsignal[i] == s.outputsignal[i + 1];
    }
  }

  lemma CountsSame(s: Follower, t: Follower, got: map<nat, Bytes>)
    requires ReadyCounts(s, got) && t.readymap == s.readymap
    ensures ReadyCounts(t, got)
  {
  }

  lemma ReadyStepKept(c: Codec, s: Follower, got: map<nat, Bytes>, p: nat, root: Bytes)
    requires ReadyCounts(s, got) && OutputBacked(c, s) && p !in got
    ensures ReadyCounts(ReadyStep(c, s, root), got[p := root]) && OutputBacked(c, ReadyStep(c, s, root))
  {
    var t := ReadyStep(c, s, root);
    forall r
      ensures t.Readies(r) == |Senders(got[p := root], r)|
    {
      SendersMore(got, p, root, r);
    }
  }

  /** What a correct node has said READY to stays said. */
  lemma ReadyStays(u: Setup, s: System, e: Event, p: nat, root: Bytes)
    requires u.Valid() && Sized(u, s) && Kept(u, s) && Enabled(u, s, e) && MayReady(u, s, p, root)
    ensures MayReady(u, Apply(u, s, e), p, root)
  {
    hide Senders, ReadyCounts, EchoStep, Payload, LaidOut, Codec.Valid;
    if u.Correct(p) && p != u.lid {
      assert FollowerKept(u, s, p);
      match e
      case DeliverVal(q, m) =>
      case DeliverEcho(_, q, m) =>
        EchoLeavesReady(u.c, s.followers[p], e.p, m);
      case DeliverReady(_, q, r) =>
      case Main(q) =>
    }
  }

  lemma FollowerStepKept(u: Setup, s: System, e: Event, q: nat)
    requires u.Valid() && Sized(u, s) && Kept(u, s) && Enabled(u, s, e) && u.Correct(q) && q != u.lid
    ensures FollowerKept(u, Apply(u, s, e), q)
  {
    hide EchoStep, ReadyStep, MainStep, Payload, Senders, ReadyCounts, OutputBacked, LaidOut, Codec.Valid;
    var f, got := s.followers[q], s.readyGot[q];
    assert FollowerKept(u, s, q);
    match e
    case DeliverVal(_, m) =>
      SameKept(u.c, f, ValStep(f, m), got);
    case DeliverEcho(p, _, m) =>
      EchoLeavesReady(u.c, f, p, m);
      SameKept(u.c, f, EchoStep(u.c, f, p, m), got);
    case DeliverReady(p, q', root) =>
      if q' == q {
        ReadyStepKept(u.c, f, got, p, root);
      }
    case Main(q') =>
      if q' == q {
        MainStepKept(u.c, f, got);
      }
  }

  lemma SameKept(c: Codec, s: Follower, t: Follower, got: map<nat, Bytes>)
    requires ReadyCounts(s, got) && OutputBacked(c, s)
    requires t.readymap == s.readymap && t.outputsignal == s.outputsignal && t.phase == s.phase && t.output == s.output && t.readied == s.readied
    ensures ReadyCounts(t, got) && OutputBacked(c, t)
  {
  }

  lemma StepKept(u: Setup, s: System, e: Event)
    requires u.Valid() && Sized(u, s) && Kept(u, s) && Enabled(u, s, e)
    ensures Kept(u, Apply(u, s, e))
  {
    hide EchoStep, ReadyStep, MainStep, ValStep, Payload, ReadyCounts, OutputBacked;
    var t := Apply(u, s, e);
    forall q: nat | u.Correct(q) && q != u.lid
      ensures FollowerKept(u, t, q)
    {
      FollowerStepKept(u, s, e, q);
    }
    forall q: nat, p: nat | u.Correct(q) && p in t.readyGot[q]
      ensures p < u.N() && MayReady(u, t, p, t.readyGot[q][p])
    {
      ReadyStays(u, s, e, p, t.readyGot[q][p]);
    }
  }

  lemma {:induction false} RunKept(u: Setup, es: seq<Event>)
    requires u.Valid() && Legal(u, es)
    ensures Kept(u, After(u, es))
    decreases |es|
  {
    hide Kept;
    if |es| == 0 {
      InitKept(u);
    } else {
      RunKept(u, es[..|es| - 1]);
      StepKept(u, After(u, es[..|es| - 1]), es[|es| - 1]);
    }
  }

  /** Agreement: in every run, two correct followers that output do so with the same root. */
  lemma Agreement(u: Setup, es: seq<Event>, q1: nat, q2: nat)
    requires u.Valid() && Legal(u, es) && u.Correct(q1) && u.Correct(q2) && q1 != u.lid && q2 != u.lid
    requires After(u, es).followers[q1].output.Some? && After(u, es).followers[q2].output.Some?
    ensures After(u, es).followers[q1].output.value.root == After(u, es).followers[q2].output.value.root
  {
    RunKept(u, es);
    var s := After(u, es);
    var r1, r2 := s.followers[q1].output.value.root, s.followers[q2].output.value.root;
    assert FollowerKept(u, s, q1) && FollowerKept(u, s, q2);
    var a, b := Senders(s.readyGot[q1], r1), Senders(s.readyGot[q2], r2);
    var p := QuorumsMeet(u, a, b);
    assert MayReady(u, s, p, s.readyGot[q1][p]) && MayReady(u, s, p, s.readyGot[q2][p]);
  }

  // ---------- a VAL without a path ----------

  /** Only a follower that is done has output. */
  ghost predicate OutputAtEnd(u: Setup, s: System, q: nat)
    requires Sized(u, s) && q < u.N()
  {
    s.followers[q].output.Some? ==> s.followers[q].phase == Done
  }

  lemma {:induction false} RunOutputAtEnd(u: Setup, es: seq<Event>, q: nat)
    requires u.Valid() && Legal(u, es) && q < u.N()
    ensures OutputAtEnd(u, After(u, es), q)
    decreases |es|
  {
    if |es| != 0 {
      RunOutputAtEnd(u, es[..|es| - 1], q);
      StepOutputAtEnd(u, After(u, es[..|es| - 1]), es[|es| - 1], q);
    }
  }

  lemma StepOutputAtEnd(u: Setup, s: System, e: Event, q: nat)
    requires u.Valid() && Sized(u, s) && Enabled(u, s, e) && q < u.N() && OutputAtEnd(u, s, q)
    ensures OutputAtEnd(u, Apply(u, s, e), q)
  {
    hide LaidOut, Codec.Valid, Payload;
  }

  /** Nothing moves a halted follower. */
  lemma StepKeepsHalted(u: Setup, s: System, e: Event, q: nat)
    requires u.Valid() && Sized(u, s) && Enabled(u, s, e) && u.Correct(q) && q != u.lid && s.followers[q].halted
    ensures Apply(u, s, e).followers[q] == s.followers[q]
  {
    hide LaidOut, Codec.Valid, EchoStep, ReadyStep, MainStep, ValStep;
  }

  /** A VAL without a path, which a faulty leader may send, halts a follower for good, and it never outputs. */
  lemma {:induction false} PathlessVal(u: Setup, es: seq<Event>, q: nat, val: Path, more: seq<Event>)
    requires u.Valid() && |val.values| == 0 && Legal(u, es + [DeliverVal(q, val)] + more)
    ensures q < u.N() && After(u, es + [DeliverVal(q, val)] + more).followers[q].halted
    ensures After(u, es + [DeliverVal(q, val)] + more).followers[q].output.None?
    decreases |more|
  {
    hide Enabled, Apply, LaidOut, Codec.Valid;
    var run := es + [DeliverVal(q, val)] + more;
    if |more| == 0 {
      assert run[..|run| - 1] == es && run[|run| - 1] == DeliverVal(q, val);
      Receiver(u, es, q, val, more);
      RunOutputAtEnd(u, es, q);
      HaltedByVal(u, After(u, es), q, val);
    } else {
      assert run[..|run| - 1] == es + [DeliverVal(q, val)] + more[..|more| - 1] && run[|run| - 1] == more[|more| - 1];
      PathlessVal(u, es, q, val, more[..|more| - 1]);
      Receiver(u, es, q, val, more[..|more| - 1]);
      StepKeepsHalted(u, After(u, run[..|run| - 1]), run[|run| - 1], q);
    }
  }

  lemma HaltedByVal(u: Setup, s: System, q: nat, val: Path)
    requires u.Valid() && Sized(u, s) && Enabled(u, s, DeliverVal(q, val)) && |val.values| == 0 && OutputAtEnd(u, s, q)
    ensures var f := Apply(u, s, DeliverVal(q, val)).followers[q]; f.halted && f.output.None?
  {
  }

  lemma {:induction false} Receiver(u: Setup, es: seq<Event>, q: nat, val: Path, more: seq<Event>)
    requires u.Valid() && Legal(u, es + [DeliverVal(q, val)] + more)
    ensures u.Correct(q) && q != u.lid
    decreases |more|
  {
    hide LaidOut, Codec.Valid, Apply;
    var run := es + [DeliverVal(q, val)] + more;
    if |more| == 0 {
      assert run[..|run| - 1] == es && run[|run| - 1] == DeliverVal(q, val);
      assert Enabled(u, After(u, es), DeliverVal(q, val));
    } else {
      assert run[..|run| - 1] == es + [DeliverVal(q, val)] + more[..|more| - 1];
      Receiver(u, es, q, val, more[..|more| - 1]);
    }
  }

  /** A faulty leader can do this to every correct follower at the very start. */
  lemma PathlessValPossible(u: Setup, q: nat, val: Path)
    requires u.Valid() && u.lid in u.byz && u.Correct(q)
    ensures Legal(u, [DeliverVal(q, val)])
  {
    hide LaidOut, Codec.Valid, Apply;
    var es := [DeliverVal(q, val)];
    assert es[..|es| - 1] == [] && es[|es| - 1] == DeliverVal(q, val);
    assert Legal(u, []) && Enabled(u, After(u, []), DeliverVal(q, val));
  }
}
