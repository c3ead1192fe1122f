/** Totality: at rest, with a correct leader and at most f crashed nodes, every correct node has output the input. */
module RbcDelivery {
  import opened RbcNode
  import opened RbcProtocol
  import opened RbcValidity
  import opened RbcTotality
  import opened Wrappers

  /** An event that does not wait for a crashed node; a repeated VAL changes nothing. */
  ghost predicate Pending(u: Setup, s: System, e: Event, crashed: set<nat>)
    requires Sized(u, s)
  {
    match e
    case DeliverVal(q, m) => q !in crashed && q < u.N() && m !in s.followers[q].echoed
    case DeliverEcho(p, q, _) => p !in crashed && q !in crashed
    case DeliverReady(p, q, _) => p !in crashed && q !in crashed
    case Main(q) => q !in crashed
  }

  /** Nothing is left to happen among the nodes that have not crashed. */
  ghost predicate AtRest(u: Setup, s: System, crashed: set<nat>)
    requires Sized(u, s) && u.Valid()
  {
    forall e :: Enabled(u, s, e) ==> !Pending(u, s, e, crashed)
  }

  ghost predicate Crashes(u: Setup, crashed: set<nat>) {
    crashed <= Nodes(u.N()) && |crashed| <= u.c.f && u.lid !in crashed
  }

  function Live(u: Setup, crashed: set<nat>): set<nat> {
    Nodes(u.N()) - crashed
  }

  ghost function EchoLive(u: Setup, s: System, crashed: set<nat>): set<nat>
    requires Sized(u, s) && u.Valid()
  {
    set p | p in Live(u, crashed) && MayEcho(u, s, p, u.paths[p])
  }

  ghost function ReadyLive(u: Setup, s: System, crashed: set<nat>): set<nat>
    requires Sized(u, s)
  {
    set p | p in Live(u, crashed) && MayReady(u, s, p, u.Root())
  }

  ghost predicate Rest(u: Setup, s: System, crashed: set<nat>) {
    CrashOnly(u) && Sized(u, s) && Kept(u, s) && Faithful(u, s) && Sound(u, s) && Crashes(u, crashed) && AtRest(u, s, crashed)
  }

  lemma LiveCount(u: Setup, crashed: set<nat>)
    requires CrashOnly(u) && Crashes(u, crashed)
    ensures |Live(u, crashed)| >= 2 * u.c.f + 1
  {
    assert Nodes(u.N()) == Live(u, crashed) + crashed;
  }

  /** Leaving out the crashed nodes costs at most f. */
  lemma LiveAmong(u: Setup, a: set<nat>, crashed: set<nat>)
    requires CrashOnly(u) && Crashes(u, crashed) && a <= Nodes(u.N()) && |a| >= 2 * u.c.f + 1
    ensures |a * Live(u, crashed)| >= u.c.f + 1
  {
    assert a == a * Live(u, crashed) + a * crashed;
    SubsetCount(a * crashed, crashed);
  }

  lemma Idle(u: Setup, s: System, crashed: set<nat>, e: Event)
    requires Sized(u, s) && u.Valid() && AtRest(u, s, crashed)
    ensures !(Enabled(u, s, e) && Pending(u, s, e, crashed))
  {
  }

  // ---------- what rest means, event by event ----------

  lemma RestVal(u: Setup, s: System, crashed: set<nat>, q: nat)
    requires Rest(u, s, crashed) && q in Live(u, crashed) && q != u.lid && s.followers[q].Running()
    ensures MayEcho(u, s, q, u.paths[q])
  {
    hide Kept, Faithful, Sound;
    Idle(u, s, crashed, DeliverVal(q, u.paths[q]));
  }

  lemma RestEcho(u: Setup, s: System, crashed: set<nat>, q: nat)
    requires Rest(u, s, crashed) && q in Live(u, crashed)
    requires if q == u.lid then s.leader.Running() && !s.leader.echoDone else s.followers[q].Running() && !s.followers[q].echoDone
    ensures EchoLive(u, s, crashed) <= s.echoGot[q].Keys
    ensures |s.echoGot[q]| >= |EchoLive(u, s, crashed)|
  {
    hide Kept, Faithful, Sound;
    forall p | p in EchoLive(u, s, crashed)
      ensures p in s.echoGot[q]
    {
      Idle(u, s, crashed, DeliverEcho(p, q, u.paths[p]));
    }
    MapSize(s.echoGot[q]);
    SubsetCount(EchoLive(u, s, crashed), s.echoGot[q].Keys);
  }

  lemma RestReady(u: Setup, s: System, crashed: set<nat>, q: nat)
    requires Rest(u, s, crashed) && q in Live(u, crashed)
    requires if q == u.lid then s.leader.Running() && !s.leader.readyDone else s.followers[q].Running() && !s.followers[q].readyDone
    ensures |s.readyGot[q]| >= |ReadyLive(u, s, crashed)|
  {
    hide Kept, Faithful, Sound;
    forall p | p in ReadyLive(u, s, crashed)
      ensures p in s.readyGot[q]
    {
      Idle(u, s, crashed, DeliverReady(p, q, u.Root()));
    }
    MapSize(s.readyGot[q]);
    SubsetCount(ReadyLive(u, s, crashed), s.readyGot[q].Keys);
  }

  lemma RestMain(u: Setup, s: System, crashed: set<nat>, q: nat)
    requires Rest(u, s, crashed) && q in Live(u, crashed)
    ensures if q == u.lid then !LeaderCanMove(s.leader) else !CanMove(s.followers[q])
  {
    hide Kept, Faithful, Sound, LeaderCanMove, CanMove;
    Idle(u, s, crashed, Main(q));
  }

  lemma SoundAt(u: Setup, s: System, q: nat)
    requires Sized(u, s) && Sound(u, s) && q < u.N() && q != u.lid
    ensures FollowerSound(u, s.followers[q], s.echoGot[q], s.readyGot[q])
  {
  }

  // ---------- the three rounds ----------

  /** A follower that has sent READY leaves at least f + 1 live ECHO senders behind. */
  lemma EchoesAfterReady(u: Setup, s: System, crashed: set<nat>, x: nat)
    requires Rest(u, s, crashed) && x < u.N() && x != u.lid && Readying(s.followers[x])
    ensures |EchoLive(u, s, crashed)| >= u.c.f + 1
  {
    hide Kept, Faithful, Setup.Valid, Readying, AtRest, FollowerSound, LeaderSound;
    var y: nat :| y < u.N() && y != u.lid && |s.echoGot[y]| >= 2 * u.c.f + 1;
    EchoGotSent(u, s, y);
    MapSize(s.echoGot[y]);
    LiveAmong(u, s.echoGot[y].Keys, crashed);
    SubsetCount(s.echoGot[y].Keys * Live(u, crashed), EchoLive(u, s, crashed));
  }

  lemma EchoGotSent(u: Setup, s: System, y: nat)
    requires CrashOnly(u) && Sized(u, s) && Kept(u, s) && Faithful(u, s) && y < u.N()
    ensures forall p: nat :: p in s.echoGot[y] ==> p < u.N() && MayEcho(u, s, p, u.paths[p])
  {
    hide Kept;
    assert u.Correct(y);
    forall p: nat | p in s.echoGot[y]
      ensures p < u.N() && MayEcho(u, s, p, u.paths[p])
    {
      OnlyLeaders(u, s, p);
    }
  }

  /** With 2 f + 1 live ECHO senders, every live node goes on to READY. */
  lemma ReadyByEcho(u: Setup, s: System, crashed: set<nat>, q: nat)
    requires Rest(u, s, crashed) && q in Live(u, crashed) && |EchoLive(u, s, crashed)| >= 2 * u.c.f + 1
    ensures MayReady(u, s, q, u.Root())
  {
    hide Faithful, Setup.Valid, AtRest, EchoQuorum, Collected;
    RestMain(u, s, crashed, q);
    if q == u.lid {
      if s.leader.phase == WaitReady && !s.leader.echoDone {
        RestEcho(u, s, crashed, q);
      }
    } else {
      SoundAt(u, s, q);
      if s.followers[q].phase == WaitReady && !s.followers[q].echoDone {
        RestEcho(u, s, crashed, q);
        CollectedCount(u, s.followers[q], s.echoGot[q]);
      }
      ReadiedRoot(u, s, q);
    }
  }

  lemma CollectedCount(u: Setup, s: Follower, got: map<nat, Path>)
    requires Collected(u, s, got)
    ensures s.Buf(u.Root()).count == |got|
  {
  }

  /** Past its first wait, a follower has sent READY for the leader's root. */
  lemma ReadiedRoot(u: Setup, s: System, q: nat)
    requires CrashOnly(u) && Sized(u, s) && Kept(u, s) && Faithful(u, s) && q < u.N() && q != u.lid
    ensures s.followers[q].phase != WaitReady ==> MayReady(u, s, q, u.Root())
  {
    assert u.Correct(q) && u.Correct(u.lid);
    FaithfulAt(u, s, q);
    assert FollowerKept(u, s, q);
  }

  /** With f + 1 live READY senders, every live node joins them. */
  lemma ReadyByReady(u: Setup, s: System, crashed: set<nat>, q: nat)
    requires Rest(u, s, crashed) && q in Live(u, crashed) && |ReadyLive(u, s, crashed)| >= u.c.f + 1
    ensures MayReady(u, s, q, u.Root())
  {
    hide Faithful, Setup.Valid, AtRest, EchoQuorum, Collected;
    RestMain(u, s, crashed, q);
    if q == u.lid {
      if s.leader.phase == WaitReady && !s.leader.readyDone {
        RestReady(u, s, crashed, q);
      }
    } else {
      SoundAt(u, s, q);
      if s.followers[q].phase == WaitReady && !s.followers[q].readyDone {
        RestReady(u, s, crashed, q);
      }
      ReadiedRoot(u, s, q);
    }
  }

  /** A follower that is done has 2 f + 1 READY messages, f + 1 of them from live nodes. */
  lemma DoneReadies(u: Setup, s: System, crashed: set<nat>, q: nat)
    requires Rest(u, s, crashed) && q < u.N() && q != u.lid && s.followers[q].phase == Done
    ensures |ReadyLive(u, s, crashed)| >= u.c.f + 1
  {
    hide Faithful, Setup.Valid, AtRest, EchoQuorum, Collected, Healthy;
    SoundAt(u, s, q);
    ReadyGotSent(u, s, q);
    MapSize(s.readyGot[q]);
    LiveAmong(u, s.readyGot[q].Keys, crashed);
    forall p | p in s.readyGot[q].Keys * Live(u, crashed)
      ensures p in ReadyLive(u, s, crashed)
    {
      OnlyLeaders(u, s, p);
    }
    SubsetCount(s.readyGot[q].Keys * Live(u, crashed), ReadyLive(u, s, crashed));
  }

  /** At rest every live node has sent READY, and f + 1 live nodes have sent ECHO. */
  lemma EveryoneReady(u: Setup, s: System, crashed: set<nat>)
    requires Rest(u, s, crashed)
    ensures ReadyLive(u, s, crashed) == Live(u, crashed)
    ensures |EchoLive(u, s, crashed)| >= u.c.f + 1
  {
    hide Kept, Faithful, Sound, AtRest;
    LiveCount(u, crashed);
    if EchoLive(u, s, crashed) == Live(u, crashed) {
      forall q | q in Live(u, crashed)
        ensures MayReady(u, s, q, u.Root())
      {
        ReadyByEcho(u, s, crashed, q);
      }
    } else {
      var q: nat :| q in Live(u, crashed) && q !in EchoLive(u, s, crashed);
      SilentIsDone(u, s, crashed, q);
      DoneReadies(u, s, crashed, q);
      forall p | p in Live(u, crashed)
        ensures MayReady(u, s, p, u.Root())
      {
        ReadyByReady(u, s, crashed, p);
      }
      EchoesAfterReady(u, s, crashed, q);
    }
  }

  /** A live follower that never sent its ECHO must have finished first. */
  lemma SilentIsDone(u: Setup, s: System, crashed: set<nat>, q: nat)
    requires Rest(u, s, crashed) && q in Live(u, crashed) && q !in EchoLive(u, s, crashed)
    ensures q != u.lid && s.followers[q].phase == Done && Readying(s.followers[q])
  {
    hide Kept, Faithful, AtRest, EchoQuorum, LeaderSound;
    if q != u.lid {
      SoundAt(u, s, q);
      HealthyAlive(u, s.followers[q], s.echoGot[q], s.readyGot[q]);
      if s.followers[q].Running() {
        RestVal(u, s, crashed, q);
      }
    }
  }

  lemma HealthyAlive(u: Setup, s: Follower, got: map<nat, Path>, ready: map<nat, Bytes>)
    requires FollowerSound(u, s, got, ready)
    ensures !s.halted
  {
  }

  /** The last round of a follower: READY quorum, candidate, output. */
  lemma FollowerFinishes(u: Setup, s: System, crashed: set<nat>, q: nat)
    requires Rest(u, s, crashed) && q in Live(u, crashed) && q != u.lid
    ensures s.followers[q].phase == Done
  {
    hide Faithful, Setup.Valid, AtRest, EchoQuorum, LeaderSound;
    EveryoneReady(u, s, crashed);
    LiveCount(u, crashed);
    RestMain(u, s, crashed, q);
    SoundAt(u, s, q);
    var f := s.followers[q];
    if f.phase != Done {
      if !f.readyDone {
        RestReady(u, s, crashed, q);
      }
      if !f.echoDone {
        RestEcho(u, s, crashed, q);
      }
      PastReady(u, s, q);
    }
  }

  lemma PastReady(u: Setup, s: System, q: nat)
    requires CrashOnly(u) && Sized(u, s) && Kept(u, s) && q < u.N() && q != u.lid
    ensures s.followers[q].phase == WaitReady ==> !MayReady(u, s, q, u.Root())
  {
    assert u.Correct(q);
    assert FollowerKept(u, s, q);
  }

  lemma LeaderFinishes(u: Setup, s: System, crashed: set<nat>)
    requires Rest(u, s, crashed)
    ensures s.leader.output
  {
    hide Kept, Faithful, Setup.Valid, AtRest, EchoQuorum, FollowerSound;
    EveryoneReady(u, s, crashed);
    LiveCount(u, crashed);
    LeaderLive(u, crashed);
    RestMain(u, s, crashed, u.lid);
    assert u.lid in ReadyLive(u, s, crashed);
    if s.leader.phase != Done && !s.leader.readyDone {
      RestReady(u, s, crashed, u.lid);
    }
  }

  lemma LeaderLive(u: Setup, crashed: set<nat>)
    requires CrashOnly(u) && Crashes(u, crashed)
    ensures u.lid in Live(u, crashed)
  {
  }

  /**
   * Totality: if faulty nodes only crash, at most f of them and not the leader, and f is at least 1, then a run that has
   * come to rest has delivered the leader's input at every other node.
   */
  lemma Totality(u: Setup, es: seq<Event>, crashed: set<nat>, q: nat)
    requires CrashOnly(u) && Legal(u, es) && Crashes(u, crashed) && AtRest(u, After(u, es), crashed) && q in Live(u, crashed)
    ensures var s := After(u, es);
      if q == u.lid then s.leader.output
      else s.followers[q].output.Some? && s.followers[q].output.value == Candidate(u.Root(), u.input)
  {
    hide AtRest;
    var s := After(u, es);
    RunSound(u, es);
    if q == u.lid {
      LeaderFinishes(u, s, crashed);
    } else {
      FollowerFinishes(u, s, crashed, q);
      OutputIsInput(u, s, q);
    }
  }

  lemma OutputIsInput(u: Setup, s: System, q: nat)
    requires CrashOnly(u) && Sized(u, s) && Kept(u, s) && Faithful(u, s) && Sound(u, s) && q < u.N() && q != u.lid
    requires s.followers[q].phase == Done
    ensures s.followers[q].output.Some? && s.followers[q].output.value == Candidate(u.Root(), u.input)
  {
    hide Kept, LeaderSound, EchoQuorum;
    assert u.Correct(q) && u.Correct(u.lid);
    SoundAt(u, s, q);
    FaithfulAt(u, s, q);
    forall p | p in s.echoGot[q]
      ensures s.echoGot[q][p].len == |u.input|
    {
      OnlyLeaders(u, s, p);
    }
    assert LengthsRight(u, s.echoGot[q]);
  }

  // ---------- every run comes to rest ----------

  function Rank(phase: Phase): nat {
    match phase
    case WaitReady => 3
    case WaitOutput => 2
    case WaitCandidate(_) => 1
    case Done => 0
  }

  /** What node q can still do: messages it has not had, moves of its main thread, and its own ECHO. */
  function Weight(u: Setup, s: System, q: nat): nat
    requires Sized(u, s) && q < u.N() == |u.paths|
  {
    |Nodes(u.N()) - s.echoGot[q].Keys| + |Nodes(u.N()) - s.readyGot[q].Keys|
    + if q == u.lid then Rank(s.leader.phase) else Moves(s.followers[q], u.paths[q])
  }

  function Moves(s: Follower, own: Path): nat {
    if s.halted then 0 else Rank(s.phase) + if own in s.echoed then 0 else 1
  }

  function Left(u: Setup, s: System, n: nat): nat
    requires Sized(u, s) && n <= u.N() == |u.paths|
  {
    if n == 0 then 0 else Left(u, s, n - 1) + Weight(u, s, n - 1)
  }

  lemma {:induction false} LeftLess(u: Setup, s: System, t: System, q: nat, n: nat)
    requires Sized(u, s) && Sized(u, t) && n <= u.N() == |u.paths|
    requires forall x :: 0 <= x < n && x != q ==> Weight(u, t, x) == Weight(u, s, x)
    requires q < n ==> Weight(u, t, q) < Weight(u, s, q)
    ensures if q < n then Left(u, t, n) < Left(u, s, n) else Left(u, t, n) == Left(u, s, n)
    decreases n
  {
    hide Weight;
    if n > 0 {
      LeftLess(u, s, t, q, n - 1);
    }
  }

  lemma OneMoreKey<V>(all: set<nat>, got: map<nat, V>, p: nat, v: V)
    requires p in all && p !in got
    ensures |all - got[p := v].Keys| < |all - got.Keys|
  {
    assert all - got.Keys == (all - got[p := v].Keys) + {p};
  }

  /** Who takes part in an event */
  function Actor(e: Event): nat {
    match e
    case DeliverVal(q, _) => q
    case DeliverEcho(_, q, _) => q
    case DeliverReady(_, q, _) => q
    case Main(q) => q
  }

  lemma EchoMoves(c: Codec, s: Follower, p: nat, m: Path, own: Path)
    requires !s.halted
    ensures Moves(EchoStep(c, s, p, m), own) <= Moves(s, own)
  {
    hide EchoStep;
    EchoLeavesReady(c, s, p, m);
  }

  lemma ValMoves(s: Follower, own: Path)
    requires !s.halted && own.Wellformed() && own !in s.echoed
    ensures Moves(ValStep(s, own), own) < Moves(s, own)
  {
  }

  lemma MainMoves(s: Follower, own: Path)
    requires CanMove(s)
    ensures Moves(MainStep(s), own) < Moves(s, own)
  {
  }

  lemma ReadyMoves(c: Codec, s: Follower, root: Bytes, own: Path)
    ensures Moves(ReadyStep(c, s, root), own) == Moves(s, own)
  {
  }

  /** The other nodes are as they were. */
  lemma OthersKept(u: Setup, s: System, e: Event, x: nat)
    requires u.Valid() && Sized(u, s) && Enabled(u, s, e) && x < u.N() && x != Actor(e)
    ensures var t := Apply(u, s, e);
      t.echoGot[x] == s.echoGot[x] && t.readyGot[x] == s.readyGot[x] && t.followers[x] == s.followers[x] && (x == u.lid ==> t.leader == s.leader)
  {
    hide Codec.Valid, EchoStep, ReadyStep, ValStep, MainStep, LeaderEcho, LeaderReady, LeaderMain;
  }

  lemma DeliveryWeight(u: Setup, s: System, e: Event)
    requires u.Valid() && Sized(u, s) && Enabled(u, s, e) && (e.DeliverEcho? || e.DeliverReady?)
    ensures Actor(e) < u.N() && Weight(u, Apply(u, s, e), Actor(e)) < Weight(u, s, Actor(e))
  {
    hide EchoStep, ReadyStep, Codec.Valid, Nodes, Moves;
    var q := Actor(e);
    NodesAre(u.N());
    match e
    case DeliverEcho(p, _, m) =>
      OneMoreKey(Nodes(u.N()), s.echoGot[q], p, m);
      if q != u.lid {
        EchoMoves(u.c, s.followers[q], p, m, u.paths[q]);
      }
    case DeliverReady(p, _, root) =>
      OneMoreKey(Nodes(u.N()), s.readyGot[q], p, root);
      if q != u.lid {
        ReadyMoves(u.c, s.followers[q], root, u.paths[q]);
      }
  }

  lemma NodesAre(n: nat)
    ensures forall i: nat :: i in Nodes(n) <==> i < n
  {
  }

  lemma MoveWeight(u: Setup, s: System, e: Event, crashed: set<nat>)
    requires u.Valid() && u.Correct(u.lid) && Sized(u, s) && Enabled(u, s, e) && Pending(u, s, e, crashed) && (e.DeliverVal? || e.Main?)
    ensures Actor(e) < u.N() && Weight(u, Apply(u, s, e), Actor(e)) < Weight(u, s, Actor(e))
  {
    hide Codec.Valid, Nodes, Moves, ValStep, MainStep;
    var q := Actor(e);
    match e
    case DeliverVal(_, m) =>
      ValMoves(s.followers[q], u.paths[q]);
    case Main(_) =>
      if q != u.lid {
        MainMoves(s.followers[q], u.paths[q]);
      }
  }

  lemma EventProgress(u: Setup, s: System, e: Event, crashed: set<nat>)
    requires u.Valid() && u.Correct(u.lid) && Sized(u, s) && Enabled(u, s, e) && Pending(u, s, e, crashed)
    ensures Left(u, Apply(u, s, e), u.N()) < Left(u, s, u.N())
  {
    hide Codec.Valid, Apply, Enabled, Pending, Left, Moves, Nodes;
    var q, t := Actor(e), Apply(u, s, e);
    if e.DeliverEcho? || e.DeliverReady? {
      DeliveryWeight(u, s, e);
    } else {
      MoveWeight(u, s, e, crashed);
    }
    forall x | 0 <= x < u.N() && x != q
      ensures Weight(u, t, x) == Weight(u, s, x)
    {
      OthersKept(u, s, e, x);
    }
    LeftLess(u, s, t, q, u.N());
  }

  /** With a correct leader, every run can be continued to one that is at rest, whoever has crashed. */
  lemma {:induction false} ExtendsToRest(u: Setup, es: seq<Event>, crashed: set<nat>) returns (more: seq<Event>)
    requires u.Valid() && u.Correct(u.lid) && Legal(u, es)
    ensures es <= more && Legal(u, more) && AtRest(u, After(u, more), crashed)
    decreases Left(u, After(u, es), u.N())
  {
    hide Codec.Valid, Enabled, Pending, Apply, Left;
    var s := After(u, es);
    if AtRest(u, s, crashed) {
      more := es;
    } else {
      var e :| Enabled(u, s, e) && Pending(u, s, e, crashed);
      EventProgress(u, s, e, crashed);
      var next := es + [e];
      assert next[..|next| - 1] == es;
      more := ExtendsToRest(u, next, crashed);
    }
  }

  /** So delivery is always possible: every crash-only run can be continued until everyone alive has the leader's input. */
  lemma DeliveryReachable(u: Setup, es: seq<Event>, crashed: set<nat>) returns (more: seq<Event>)
    requires CrashOnly(u) && Legal(u, es) && Crashes(u, crashed)
    ensures es <= more && Legal(u, more)
    ensures var s := After(u, more);
      s.leader.output && forall q :: q in Live(u, crashed) && q != u.lid ==> s.followers[q].output == Some(Candidate(u.Root(), u.input))
  {
    more := ExtendsToRest(u, es, crashed);
    hide AtRest, Legal, After;
    LeaderLive(u, crashed);
    Totality(u, more, crashed, u.lid);
    forall q | q in Live(u, crashed) && q != u.lid
      ensures After(u, more).followers[q].output == Some(Candidate(u.Root(), u.input))
    {
      Totality(u, more, crashed, q);
    }
  }

  // ---------- without any fault tolerance ----------

  /** With f = 0 the leader waits for a count of 0 that it only compares after counting: it never outputs. */
  ghost predicate LeaderStuck(s: Leader) {
    s.outputsignal == 0 && !s.output && !s.readyDone
  }

  lemma {:induction false} LonelyLeaderNeverOutputs(u: Setup, es: seq<Event>)
    requires u.Valid() && Legal(u, es) && u.c.f == 0
    ensures LeaderStuck(After(u, es).leader)
    decreases |es|
  {
    hide EchoStep, ReadyStep, MainStep, ValStep, Setup.Valid;
    if |es| > 0 {
      LonelyLeaderNeverOutputs(u, es[..|es| - 1]);
    }
  }

  // ---------- the assumptions on the code and the root are consistent ----------

  ghost function Repeat(f: nat): map<nat, Bytes> -> Option<seq<Bytes>> {
    (m: map<nat, Bytes>) =>
      if |m| > f && (forall i :: i in m ==> i < 3 * f + 1) && (exists v: Bytes :: AllAre(m, v)) then
        var v: Bytes :| AllAre(m, v);
        Some(seq(3 * f + 1, _ => v))
      else None
  }

  predicate AllAre(m: map<nat, Bytes>, v: Bytes) {
    forall i :: i in m ==> m[i] == v
  }

  /** A length-prefixed listing determines the list. */
  function Listing(w: seq<Bytes>): Bytes {
    if |w| == 0 then [] else [|w[0]|] + w[0] + Listing(w[1..])
  }

  lemma {:induction false} ListingInjective(v: seq<Bytes>, w: seq<Bytes>)
    requires Listing(v) == Listing(w)
    ensures v == w
    decreases |v|
  {
    if |v| != 0 && |w| != 0 {
      SameParts(v, w);
      ListingInjective(v[1..], w[1..]);
      assert v == [v[0]] + v[1..] && w == [w[0]] + w[1..];
    }
  }

  lemma SameParts(v: seq<Bytes>, w: seq<Bytes>)
    requires |v| > 0 && |w| > 0 && Listing(v) == Listing(w)
    ensures v[0] == w[0] && Listing(v[1..]) == Listing(w[1..])
  {
    hide Listing;
    ListingParts(v);
    ListingParts(w);
  }

  lemma ListingParts(v: seq<Bytes>)
    requires |v| > 0
    ensures var a := Listing(v);
      && |a| >= 1 + |v[0]| && a[0] == |v[0]|
      && a[1..1 + |v[0]|] == v[0] && a[1 + |v[0]|..] == Listing(v[1..])
  {
  }

  ghost function RepetitionCodec(f: nat): Codec {
    Codec(f, Repeat(f), Listing, (w: seq<Bytes>) => |w| == 3 * f + 1 && forall i :: 0 <= i < |w| ==> w[i] == w[0])
  }

  lemma RepetitionValid(f: nat)
    ensures RepetitionCodec(f).Valid()
  {
    var c := RepetitionCodec(f);
    forall m: map<nat, Bytes>, w: seq<Bytes> | c.codeword(w) && Extends(w, m) && |m| >= f + 1
      ensures c.fill(m) == Some(w)
    {
      assert AllAre(m, w[0]);
      assert |m.Keys| == |m|;
      var k: nat :| k in m;
      var v: Bytes :| AllAre(m, v) && c.fill(m) == Some(seq(3 * f + 1, _ => v));
      assert m[k] == v == w[0];
      assert seq(3 * f + 1, _ => v) == w;
    }
    forall v: seq<Bytes>, w: seq<Bytes> | c.root(v) == c.root(w)
      ensures v == w
    {
      ListingInjective(v, w);
    }
  }

  lemma SetupExists() returns (u: Setup)
    ensures CrashOnly(u) && u.c.f == 1 && u.lid == 0 && |u.input| == 1 && |u.word| == 4 && forall i :: 0 <= i < 4 ==> |u.word[i]| == 1
  {
    var c := RepetitionCodec(1);
    RepetitionValid(1);
    u := SetupOver(c, [7]);
  }

  lemma SetupOver(c: Codec, shard: Bytes) returns (u: Setup)
    requires c.Valid() && c.f == 1 && |shard| == 1 && c.codeword([shard, shard, shard, shard])
    ensures CrashOnly(u) && u.c.f == 1 && u.lid == 0 && |u.input| == 1 && |u.word| == 4 && forall i :: 0 <= i < 4 ==> |u.word[i]| == 1
  {
    hide Codec.Valid, Payload;
    var word := [shard, shard, shard, shard];
    var path := Path([shard, c.root(word)], 1);
    u := Setup(c, 0, {}, shard, word, [path, path, path, path]);
    FirstShard(word);
  }

  lemma FirstShard(word: seq<Bytes>)
    requires |word| > 0 && |word[0]| == 1
    ensures Payload(word, 1) == Some(word[0])
  {
    assert Flat(word) == word[0] + Flat(word[1..]);
  }
}
