/** With a correct leader, correct nodes only ever follow the leader's root, whatever the faulty nodes send. */
module RbcValidity {
  import opened RbcNode
  import opened RbcProtocol
  import opened Wrappers

  function EchoSenders(got: map<nat, Path>, root: Bytes): set<nat> {
    set p | p in got && got[p].Wellformed() && got[p].Root() == root
  }

  lemma EchoSendersMore(got: map<nat, Path>, p: nat, m: Path, r: Bytes)
    requires p !in got
    ensures |EchoSenders(got[p := m], r)| == |EchoSenders(got, r)| + (if m.Wellformed() && r == m.Root() then 1 else 0)
  {
    if m.Wellformed() && r == m.Root() {
      assert EchoSenders(got[p := m], r) == EchoSenders(got, r) + {p};
    } else {
      assert EchoSenders(got[p := m], r) == EchoSenders(got, r);
    }
  }

  ghost predicate EchoCounts(s: Follower, got: map<nat, Path>) {
    forall r :: s.Buf(r).count == |EchoSenders(got, r)|
  }

  // ---------- the outcome of one ECHO ----------

  /** A candidate for the root, reconstructed from a vector with that root. */
  ghost predicate Rebuilt(c: Codec, w: seq<Bytes>, cand: Candidate, root: Bytes, len: int) {
    cand.root == root && c.root(w) == root && Payload(w, len) == Some(cand.output)
  }

  /** What one ECHO for a root does: count it, maybe add a candidate at f + 1, maybe the ready signal at 2 f + 1. */
  ghost predicate EchoOutcome(c: Codec, s: Follower, t: Follower, root: Bytes, len: int, w: seq<Bytes>) {
    && (forall r :: t.Buf(r).count == s.Buf(r).count + (if r == root then 1 else 0))
    && (t.readysignal == s.readysignal || (t.Buf(root).count == 2 * c.f + 1 && t.readysignal == s.readysignal + [root]))
    && (t.candidates == s.candidates
        || (t.Buf(root).count == c.f + 1 && |t.candidates| == |s.candidates| + 1 && t.candidates[..|s.candidates|] == s.candidates
            && Rebuilt(c, w, t.candidates[|s.candidates|], root, len)))
  }

  lemma CountedOutcome(s: Follower, from: nat, m: Path)
    requires m.Wellformed()
    ensures var t := EchoCounted(s, from, m);
      && (forall r :: t.Buf(r).count == s.Buf(r).count + (if r == m.Root() then 1 else 0))
      && t.readysignal == s.readysignal && t.candidates == s.candidates && m.Root() in t.echomap
  {
  }

  lemma ReconstructOutcome(c: Codec, s: Follower, root: Bytes, len: int) returns (w: seq<Bytes>)
    requires root in s.echomap
    ensures var t := Reconstruct(c, s, root, len);
      && (forall r :: t.Buf(r).count == s.Buf(r).count)
      && t.readysignal == s.readysignal && root in t.echomap
      && (t.candidates == s.candidates
          || (|t.candidates| == |s.candidates| + 1 && t.candidates[..|s.candidates|] == s.candidates
              && Rebuilt(c, w, t.candidates[|s.candidates|], root, len)))
  {
    hide Payload;
    var v := c.fill(s.Buf(root).shards);
    w := if v.Some? then v.value else [];
  }

  lemma ThresholdsOutcome(c: Codec, s: Follower, root: Bytes, len: int) returns (w: seq<Bytes>)
    requires root in s.echomap
    ensures var t := EchoThresholds(c, s, root, len);
      && (forall r :: t.Buf(r).count == s.Buf(r).count)
      && (t.readysignal == s.readysignal || (t.Buf(root).count == 2 * c.f + 1 && t.readysignal == s.readysignal + [root]))
      && (t.candidates == s.candidates
          || (t.Buf(root).count == c.f + 1 && |t.candidates| == |s.candidates| + 1 && t.candidates[..|s.candidates|] == s.candidates
              && Rebuilt(c, w, t.candidates[|s.candidates|], root, len)))
  {
    hide Reconstruct, Rebuilt;
    w := ReconstructOutcome(c, s, root, len);
    var t := EchoThresholds(c, s, root, len);
    var v := if s.echomap[root].count == c.f + 1 then Reconstruct(c, s, root, len) else s;
    assert t.echomap == v.echomap && t.candidates == v.candidates;
    assert forall r :: t.Buf(r) == v.Buf(r);
  }

  lemma StepOutcome(c: Codec, s: Follower, from: nat, m: Path) returns (w: seq<Bytes>)
    requires m.Wellformed()
    ensures EchoOutcome(c, s, EchoStep(c, s, from, m), m.Root(), m.len, w)
  {
    hide EchoThresholds, EchoCounted, Rebuilt;
    CountedOutcome(s, from, m);
    w := ThresholdsOutcome(c, EchoCounted(s, from, m), m.Root(), m.len);
  }

  // ---------- what every run keeps when the leader is correct ----------

  /** A candidate for the leader's root whose bytes are the beginning of the leader's data. */
  predicate FromLeader(u: Setup, cand: Candidate) {
    cand.root == u.Root() && cand.output <= Flat(u.word)
  }

  /** Every ECHO received for the leader's root carries the right length. */
  ghost predicate LengthsRight(u: Setup, got: map<nat, Path>) {
    forall p :: p in got && got[p].Wellformed() && got[p].Root() == u.Root() ==> got[p].len == |u.input|
  }

  ghost predicate Outputs(u: Setup, s: Follower, got: map<nat, Path>) {
    && (forall i :: 0 <= i < |s.candidates| ==> FromLeader(u, s.candidates[i]))
    && (s.output.Some? ==> FromLeader(u, s.output.value))
    && (LengthsRight(u, got) ==>
          && (forall i :: 0 <= i < |s.candidates| ==> s.candidates[i].output == u.input)
          && (s.output.Some? ==> s.output.value.output == u.input))
  }

  ghost predicate Loyal(u: Setup, s: Follower) {
    && (forall i :: 0 <= i < |s.readysignal| ==> s.readysignal[i] == u.Root())
    && (s.readied.Some? ==> s.readied.value == u.Root())
  }

  ghost predicate FollowerFaithful(u: Setup, s: System, q: nat)
    requires Sized(u, s) && q < u.N() == |u.paths|
  {
    var f := s.followers[q];
    && (forall m :: m in f.echoed ==> m == u.paths[q])
    && EchoCounts(f, s.echoGot[q]) && Loyal(u, f) && Outputs(u, f, s.echoGot[q])
  }

  ghost predicate EchoSent(u: Setup, s: System)
    requires Sized(u, s) && u.Valid()
  {
    forall q: nat, p: nat :: u.Correct(q) && p in s.echoGot[q] ==> p < u.N() && MayEcho(u, s, p, s.echoGot[q][p])
  }

  ghost predicate Faithful(u: Setup, s: System)
    requires Sized(u, s) && u.Valid()
  {
    && EchoSent(u, s)
    && (forall q: nat :: u.Correct(q) && q != u.lid ==> FollowerFaithful(u, s, q))
  }

  lemma InitFaithful(u: Setup)
    requires u.Valid()
    ensures Faithful(u, Init(u))
  {
    var s := Init(u);
    forall q: nat | u.Correct(q) && q != u.lid
      ensures FollowerFaithful(u, s, q)
    {
      forall r
        ensures FreshFollower().Buf(r).count == |EchoSenders(map[], r)|
      {
        assert EchoSenders(map[], r) == {};
      }
    }
  }

  /** A correct node's ECHO carries the leader's root. */
  lemma CorrectEcho(u: Setup, s: System, p: nat, m: Path)
    requires u.Valid() && Sized(u, s) && Faithful(u, s) && u.Correct(p) && u.Correct(u.lid) && MayEcho(u, s, p, m)
    ensures m == u.paths[p] && m.Wellformed() && m.Root() == u.Root() && m.len == |u.input| && m.Shard() == u.word[p]
  {
    if p != u.lid {
      assert FollowerFaithful(u, s, p);
    }
  }

  /** A root with more than f ECHO messages is the leader's. */
  lemma ManyEchoes(u: Setup, s: System, q: nat, got: map<nat, Path>, root: Bytes)
    requires u.Valid() && Sized(u, s) && Faithful(u, s) && u.Correct(u.lid)
    requires forall p :: p in got ==> p < u.N() && MayEcho(u, s, p, got[p])
    requires |EchoSenders(got, root)| > u.c.f
    ensures root == u.Root()
  {
    hide Faithful;
    var p := CorrectAmong(u, EchoSenders(got, root));
    CorrectEcho(u, s, p, got[p]);
  }

  /** So is a root with more than f READY messages. */
  lemma ManyReadies(u: Setup, s: System, got: map<nat, Bytes>, root: Bytes)
    requires u.Valid() && Sized(u, s) && Faithful(u, s) && u.Correct(u.lid)
    requires forall p :: p in got ==> p < u.N() && MayReady(u, s, p, got[p])
    requires |Senders(got, root)| > u.c.f
    ensures root == u.Root()
  {
    var p := CorrectAmong(u, Senders(got, root));
    if p != u.lid {
      assert FollowerFaithful(u, s, p);
    }
  }

  lemma RebuiltFromLeader(u: Setup, w: seq<Bytes>, cand: Candidate, len: int)
    requires u.Valid() && Rebuilt(u.c, w, cand, u.Root(), len)
    ensures FromLeader(u, cand) && (len == |u.input| ==> cand.output == u.input)
  {
    hide LaidOut;
    LeaderPayload(u);
  }

  // ---------- preservation ----------

  lemma EchoFaithful(u: Setup, s: System, p: nat, q: nat, m: Path)
    requires u.Valid() && Sized(u, s) && Faithful(u, s) && u.Correct(u.lid) && u.Correct(q) && q != u.lid
    requires p < u.N() && p !in s.echoGot[q] && MayEcho(u, s, p, m)
    ensures var t, got := EchoStep(u.c, s.followers[q], p, m), s.echoGot[q][p := m];
      EchoCounts(t, got) && Loyal(u, t) && Outputs(u, t, got)
  {
    hide EchoStep, EchoSenders, Faithful, Flat, Rebuilt;
    var f, old', got := s.followers[q], s.echoGot[q], s.echoGot[q][p := m];
    var t := EchoStep(u.c, f, p, m);
    FaithfulAt(u, s, q);
    EchoLeavesReady(u.c, f, p, m);
    if m.Wellformed() {
      var root := m.Root();
      var w := StepOutcome(u.c, f, p, m);
      CountsMore(f, t, old', p, m);
      if t.Buf(root).count >= u.c.f + 1 {
        ManyEchoes(u, s, q, got, root);
      }
      if t.candidates != f.candidates {
        RebuiltFromLeader(u, w, t.candidates[|f.candidates|], m.len);
      }
      OutputsMore(u, f, t, old', got, p, m);
    } else {
      MalformedEcho(u.c, f, p, m);
      CountsSameEcho(f, t, old', p, m);
      OutputsMalformed(u, f, t, old', p, m);
    }
  }

  lemma FaithfulAt(u: Setup, s: System, q: nat)
    requires u.Valid() && Sized(u, s) && Faithful(u, s) && u.Correct(q) && q != u.lid
    ensures FollowerFaithful(u, s, q)
    ensures forall p: nat :: p in s.echoGot[q] ==> p < u.N() && MayEcho(u, s, p, s.echoGot[q][p])
  {
  }

  lemma MalformedEcho(c: Codec, s: Follower, p: nat, m: Path)
    requires !m.Wellformed()
    ensures EchoStep(c, s, p, m) == s.(echocount := s.echocount + 1, halted := true)
  {
  }

  lemma CountsMore(s: Follower, t: Follower, got: map<nat, Path>, p: nat, m: Path)
    requires EchoCounts(s, got) && p !in got && m.Wellformed()
    requires forall r :: t.Buf(r).count == s.Buf(r).count + (if r == m.Root() then 1 else 0)
    ensures EchoCounts(t, got[p := m])
  {
    forall r
      ensures t.Buf(r).count == |EchoSenders(got[p := m], r)|
    {
      EchoSendersMore(got, p, m, r);
    }
  }

  lemma CountsSameEcho(s: Follower, t: Follower, got: map<nat, Path>, p: nat, m: Path)
    requires EchoCounts(s, got) && p !in got && !m.Wellformed() && t.echomap == s.echomap
    ensures EchoCounts(t, got[p := m])
  {
    forall r
      ensures t.Buf(r).count == |EchoSenders(got[p := m], r)|
    {
      EchoSendersMore(got, p, m, r);
    }
  }

  lemma LengthsMore(u: Setup, got: map<nat, Path>, p: nat, m: Path)
    requires p !in got && LengthsRight(u, got[p := m])
    ensures LengthsRight(u, got) && (m.Wellformed() && m.Root() == u.Root() ==> m.len == |u.input|)
  {
    var got' := got[p := m];
    assert forall k :: k in got ==> got'[k] == got[k];
    assert got'[p] == m;
  }

  lemma OutputsMore(u: Setup, s: Follower, t: Follower, got: map<nat, Path>, got': map<nat, Path>, p: nat, m: Path)
    requires Outputs(u, s, got) && p !in got && got' == got[p := m] && t.output == s.output && m.Wellformed()
    requires t.candidates == s.candidates
      || (m.Root() == u.Root() && |t.candidates| == |s.candidates| + 1 && t.candidates[..|s.candidates|] == s.candidates
          && FromLeader(u, t.candidates[|s.candidates|]) && (m.len == |u.input| ==> t.candidates[|s.candidates|].output == u.input))
    ensures Outputs(u, t, got')
  {
    hide FromLeader, LengthsRight;
    if LengthsRight(u, got') {
      LengthsMore(u, got, p, m);
    }
    forall i | 0 <= i < |t.candidates|
      ensures FromLeader(u, t.candidates[i]) && (LengthsRight(u, got') ==> t.candidates[i].output == u.input)
    {
      if i < |s.candidates| {
        assert t.candidates[i] == t.candidates[..|s.candidates|][i];
      }
    }
  }

  lemma OutputsMalformed(u: Setup, s: Follower, t: Follower, got: map<nat, Path>, p: nat, m: Path)
    requires Outputs(u, s, got) && p !in got && t.output == s.output && t.candidates == s.candidates
    ensures Outputs(u, t, got[p := m])
  {
    hide FromLeader, LengthsRight;
    if LengthsRight(u, got[p := m]) {
      LengthsMore(u, got, p, m);
    }
  }

  lemma ReadyFaithful(u: Setup, s: System, p: nat, q: nat, root: Bytes)
    requires u.Valid() && Sized(u, s) && Kept(u, s) && Faithful(u, s) && u.Correct(u.lid) && u.Correct(q) && q != u.lid
    requires p < u.N() && p !in s.readyGot[q] && MayReady(u, s, p, root)
    ensures var t := ReadyStep(u.c, s.followers[q], root);
      EchoCounts(t, s.echoGot[q]) && Loyal(u, t) && Outputs(u, t, s.echoGot[q])
  {
    hide Senders, EchoSenders, Faithful, FromLeader;
    var f, got := s.followers[q], s.readyGot[q][p := root];
    FaithfulAt(u, s, q);
    assert FollowerKept(u, s, q);
    SendersMore(s.readyGot[q], p, root, root);
    if f.Readies(root) + 1 == u.c.f + 1 {
      ManyReadies(u, s, got, root);
    }
    var t := ReadyStep(u.c, f, root);
    assert forall r :: t.Buf(r) == f.Buf(r);
  }

  lemma MainFaithful(u: Setup, s: Follower, got: map<nat, Path>)
    requires EchoCounts(s, got) && Loyal(u, s) && Outputs(u, s, got) && CanMove(s)
    ensures EchoCounts(MainStep(s), got) && Loyal(u, MainStep(s)) && Outputs(u, MainStep(s), got)
  {
    hide EchoCounts, Loyal, Outputs;
    MainLoyal(u, s);
    MainOutputs(u, s, got);
    BufsSame(s, MainStep(s), got);
  }

  lemma BufsSame(s: Follower, t: Follower, got: map<nat, Path>)
    requires EchoCounts(s, got) && t.echomap == s.echomap
    ensures EchoCounts(t, got)
  {
  }

  lemma MainLoyal(u: Setup, s: Follower)
    requires Loyal(u, s) && CanMove(s)
    ensures Loyal(u, MainStep(s)) && MainStep(s).echomap == s.echomap
  {
    var t := MainStep(s);
    if s.phase == WaitReady {
      assert forall i :: 0 <= i < |t.readysignal| ==> t.readysignal[i] == s.readysignal[i + 1];
    }
  }

  lemma MainOutputs(u: Setup, s: Follower, got: map<nat, Path>)
    requires Outputs(u, s, got) && CanMove(s)
    ensures Outputs(u, MainStep(s), got)
  {
    hide FromLeader, LengthsRight;
    var t := MainStep(s);
    if s.phase.WaitCandidate? {
      assert t.candidates == s.candidates[1..];
      assert forall i :: 0 <= i < |t.candidates| ==> t.candidates[i] == s.candidates[i + 1];
    } else {
      assert t.candidates == s.candidates && t.output == s.output;
    }
  }

  /** What a correct node has sent as ECHO stays sent. */
  lemma EchoStays(u: Setup, s: System, e: Event, p: nat, m: Path)
    requires u.Valid() && Sized(u, s) && Enabled(u, s, e) && MayEcho(u, s, p, m)
    ensures MayEcho(u, Apply(u, s, e), p, m)
  {
    hide EchoStep;
    if u.Correct(p) && p != u.lid {
      match e
      case DeliverEcho(p', q, m') =>
        EchoLeavesReady(u.c, s.followers[p], p', m');
      case DeliverVal(_, _) =>
      case DeliverReady(_, _, _) =>
      case Main(_) =>
    }
  }

  lemma FollowerFaithfulStep(u: Setup, s: System, e: Event, q: nat)
    requires u.Valid() && Sized(u, s) && Kept(u, s) && Faithful(u, s) && u.Correct(u.lid) && Enabled(u, s, e) && u.Correct(q) && q != u.lid
    ensures FollowerFaithful(u, Apply(u, s, e), q)
  {
    hide EchoStep, ReadyStep, MainStep, Kept, Faithful, EchoCounts, Loyal, Outputs, Codec.Valid;
    FaithfulAt(u, s, q);
    var f := s.followers[q];
    match e
    case DeliverVal(q', m) =>
      if q' == q {
        ValFaithful(u, f, m, s.echoGot[q], q);
      }
    case DeliverEcho(p, q', m) =>
      if q' == q {
        EchoFaithful(u, s, p, q, m);
        EchoLeavesReady(u.c, f, p, m);
      }
    case DeliverReady(p, q', root) =>
      if q' == q {
        ReadyFaithful(u, s, p, q, root);
        ReadyLeavesEchoed(u.c, f, root);
      }
    case Main(q') =>
      if q' == q {
        MainFaithful(u, f, s.echoGot[q]);
        MainLeavesEchoed(f);
      }
  }

  lemma ReadyLeavesEchoed(c: Codec, s: Follower, root: Bytes)
    ensures ReadyStep(c, s, root).echoed == s.echoed
  {
  }

  lemma MainLeavesEchoed(s: Follower)
    requires CanMove(s)
    ensures MainStep(s).echoed == s.echoed
  {
  }

  lemma ValFaithful(u: Setup, s: Follower, m: Path, got: map<nat, Path>, q: nat)
    requires u.Valid() && q < u.N() && m == u.paths[q] && EchoCounts(s, got) && Loyal(u, s) && Outputs(u, s, got)
    requires forall k :: k in s.echoed ==> k == u.paths[q]
    ensures var t := ValStep(s, m);
      EchoCounts(t, got) && Loyal(u, t) && Outputs(u, t, got) && (forall k :: k in t.echoed ==> k == u.paths[q])
  {
    hide EchoSenders, FromLeader, LengthsRight;
    assert forall r :: ValStep(s, m).Buf(r) == s.Buf(r);
  }

  lemma StepFaithful(u: Setup, s: System, e: Event)
    requires u.Valid() && Sized(u, s) && Kept(u, s) && Faithful(u, s) && u.Correct(u.lid) && Enabled(u, s, e)
    ensures Faithful(u, Apply(u, s, e))
  {
    hide EchoStep, ReadyStep, MainStep, ValStep, Kept, EchoCounts, Loyal, Outputs;
    var t := Apply(u, s, e);
    forall q: nat | u.Correct(q) && q != u.lid
      ensures FollowerFaithful(u, t, q)
    {
      FollowerFaithfulStep(u, s, e, q);
    }
    forall q: nat, p: nat | u.Correct(q) && p in t.echoGot[q]
      ensures p < u.N() && MayEcho(u, t, p, t.echoGot[q][p])
    {
      EchoStays(u, s, e, p, t.echoGot[q][p]);
    }
  }

  lemma {:induction false} RunFaithful(u: Setup, es: seq<Event>)
    requires u.Valid() && Legal(u, es) && u.Correct(u.lid)
    ensures Kept(u, After(u, es)) && Faithful(u, After(u, es))
    decreases |es|
  {
    hide Kept, Faithful;
    RunKept(u, es);
    if |es| == 0 {
      InitFaithful(u);
    } else {
      RunFaithful(u, es[..|es| - 1]);
      StepFaithful(u, After(u, es[..|es| - 1]), es[|es| - 1]);
    }
  }

  /**
   * Validity: with a correct leader no correct follower ever sends READY for, or outputs, another root than the
   * leader's; what it outputs is the beginning of the leader's data, and all of it when the lengths it received were right.
   */
  lemma Validity(u: Setup, es: seq<Event>, q: nat)
    requires u.Valid() && Legal(u, es) && u.Correct(u.lid) && u.Correct(q) && q != u.lid
    ensures var f := After(u, es).followers[q];
      && (f.readied.Some? ==> f.readied.value == u.Root())
      && (f.output.Some? ==> f.output.value.root == u.Root() && f.output.value.output <= Flat(u.word))
      && (f.output.Some? && LengthsRight(u, After(u, es).echoGot[q]) ==> f.output.value.output == u.input)
  {
    RunFaithful(u, es);
    FaithfulAt(u, After(u, es), q);
  }

  // ---------- where the code departs from its design ----------

  /** The length that is cut for a claim; negative claims cut nothing. */
  function Cut(len: int): nat {
    if len <= 0 then 0 else len
  }

  /**
   * Paths are not checked: whatever f shards the leader's root has collected, at the ECHO that completes f + 1 the follower
   * stays alive exactly when all f + 1 are the leader's and the data is at least as long as claimed; and it then holds the
   * leader's input exactly when the claimed length is right. (With f = 0 the leader is the only node.)
   */
  lemma DecidingEcho(u: Setup, s: Follower, p: nat, m: Path)
    requires u.Valid() && u.c.f >= 1 && !s.halted && s.Buf(u.Root()).count == u.c.f == |s.Buf(u.Root()).shards|
    requires p !in s.Buf(u.Root()).shards && m.Wellformed() && m.Root() == u.Root()
    ensures var t := EchoStep(u.c, s, p, m);
      && (!t.halted <==> Extends(u.word, s.Buf(u.Root()).shards[p := m.Shard()]) && m.len <= |Flat(u.word)|)
      && (!t.halted ==> |t.candidates| == |s.candidates| + 1
                        && (t.candidates[|s.candidates|].output == u.input <==> Cut(m.len) == |u.input|))
  {
    hide Flat, LaidOut, Codec.Valid, Reconstruct, Payload;
    var root := u.Root();
    var shards: map<nat, Bytes> := s.Buf(root).shards[p := m.Shard()];
    assert shards.Keys == s.Buf(root).shards.Keys + {p};
    assert |shards| == |s.Buf(root).shards.Keys| + 1;
    var v := EchoCounted(s, p, m);
    assert v.Buf(root) == EchoBuf(u.c.f + 1, shards, s.Buf(root).rootValid);
    DecidingReconstruct(u, v, shards, m.len);
  }

  lemma DecidingReconstruct(u: Setup, s: Follower, shards: map<nat, Bytes>, len: int)
    requires u.Valid() && u.Root() in s.echomap && s.Buf(u.Root()).shards == shards && |shards| == u.c.f + 1 && !s.halted
    ensures var t := Reconstruct(u.c, s, u.Root(), len);
      && (!t.halted <==> Extends(u.word, shards) && len <= |Flat(u.word)|)
      && (!t.halted ==> t.candidates == s.candidates + [Candidate(u.Root(), Payload(u.word, len).value)]
                        && (Payload(u.word, len).value == u.input <==> Cut(len) == |u.input|))
      && t.echomap.Keys == s.echomap.Keys && (t.halted || t.echomap[u.Root()].count == s.echomap[u.Root()].count)
      && (!t.halted ==> t.echomap[u.Root()].rootValid)
  {
    hide Flat, LaidOut;
    LeaderPayload(u);
    var w := u.c.fill(shards);
    if Extends(u.word, shards) {
      assert w == Some(u.word);
    }
  }
}
