/** The bytes that are delivered: what agreement on the root gives, and what right shards and lengths add to it. */
module RbcBytes {
  import opened RbcNode
  import opened RbcProtocol
  import opened RbcValidity
  import opened RbcTotality
  import opened Wrappers

  // ---------- bytes in every run ----------

  /** A candidate was cut from a vector with its root, to the length that some ECHO received claimed. */
  ghost predicate Backed(c: Codec, cand: Candidate, got: map<nat, Path>) {
    exists w: seq<Bytes>, p: nat :: p in got && got[p].Wellformed() && got[p].Root() == cand.root && Rebuilt(c, w, cand, cand.root, got[p].len)
  }

  ghost predicate AllBacked(c: Codec, s: Follower, got: map<nat, Path>) {
    && (forall i :: 0 <= i < |s.candidates| ==> Backed(c, s.candidates[i], got))
    && (s.output.Some? ==> Backed(c, s.output.value, got))
  }

  ghost predicate BackedRun(u: Setup, s: System)
    requires Sized(u, s)
  {
    forall q: nat :: u.Correct(q) && q != u.lid ==> AllBacked(u.c, s.followers[q], s.echoGot[q])
  }

  lemma BackedMore(c: Codec, cand: Candidate, got: map<nat, Path>, p: nat, m: Path)
    requires Backed(c, cand, got) && p !in got
    ensures Backed(c, cand, got[p := m])
  {
    hide Rebuilt;
    var w: seq<Bytes>, k: nat :| k in got && got[k].Wellformed() && got[k].Root() == cand.root && Rebuilt(c, w, cand, cand.root, got[k].len);
    assert got[p := m][k] == got[k];
  }

  lemma EchoBacked(c: Codec, s: Follower, got: map<nat, Path>, p: nat, m: Path)
    requires AllBacked(c, s, got) && p !in got
    ensures AllBacked(c, EchoStep(c, s, p, m), got[p := m])
  {
    hide EchoStep, Rebuilt, Backed;
    var t, got' := EchoStep(c, s, p, m), got[p := m];
    EchoLeavesReady(c, s, p, m);
    forall cand | Backed(c, cand, got)
      ensures Backed(c, cand, got')
    {
      BackedMore(c, cand, got, p, m);
    }
    if m.Wellformed() {
      var w := StepOutcome(c, s, p, m);
      if t.candidates != s.candidates {
        var n := |s.candidates|;
        BackedNew(c, w, t.candidates[n], got', p);
        assert forall i :: 0 <= i < n ==> t.candidates[i] == t.candidates[..n][i];
      }
    } else {
      MalformedEcho(c, s, p, m);
    }
  }

  lemma BackedNew(c: Codec, w: seq<Bytes>, cand: Candidate, got: map<nat, Path>, p: nat)
    requires p in got && got[p].Wellformed() && Rebuilt(c, w, cand, got[p].Root(), got[p].len)
    ensures Backed(c, cand, got)
  {
  }

  lemma MainBackedStep(c: Codec, s: Follower, got: map<nat, Path>)
    requires AllBacked(c, s, got) && CanMove(s)
    ensures AllBacked(c, MainStep(s), got)
  {
    hide Backed;
    var t := MainStep(s);
    if s.phase.WaitCandidate? {
      assert forall i :: 0 <= i < |t.candidates| ==> t.candidates[i] == s.candidates[i + 1];
    }
  }

  lemma StepBacked(u: Setup, s: System, e: Event)
    requires u.Valid() && Sized(u, s) && BackedRun(u, s) && Enabled(u, s, e)
    ensures BackedRun(u, Apply(u, s, e))
  {
    hide EchoStep, MainStep, Backed, Codec.Valid;
    var t := Apply(u, s, e);
    forall q: nat | u.Correct(q) && q != u.lid
      ensures AllBacked(u.c, t.followers[q], t.echoGot[q])
    {
      assert AllBacked(u.c, s.followers[q], s.echoGot[q]);
      match e
      case DeliverVal(_, _) =>
      case DeliverEcho(p, q', m) =>
        if q' == q {
          EchoBacked(u.c, s.followers[q], s.echoGot[q], p, m);
        }
      case DeliverReady(_, _, _) =>
      case Main(q') =>
        if q' == q {
          MainBackedStep(u.c, s.followers[q], s.echoGot[q]);
        }
    }
  }

  lemma {:induction false} RunBacked(u: Setup, es: seq<Event>)
    requires u.Valid() && Legal(u, es)
    ensures BackedRun(u, After(u, es))
    decreases |es|
  {
    if |es| > 0 {
      hide BackedRun;
      RunBacked(u, es[..|es| - 1]);
      StepBacked(u, After(u, es[..|es| - 1]), es[|es| - 1]);
    }
  }

  /**
   * Agreement on bytes, as far as it goes: in every run, with whatever leader, one of two outputs of correct followers is a
   * beginning of the other, so that they are the same exactly when they are equally long.
   */
  lemma BytesAgreement(u: Setup, es: seq<Event>, q1: nat, q2: nat)
    requires u.Valid() && Legal(u, es) && u.Correct(q1) && u.Correct(q2) && q1 != u.lid && q2 != u.lid
    requires After(u, es).followers[q1].output.Some? && After(u, es).followers[q2].output.Some?
    ensures var o1, o2 := After(u, es).followers[q1].output.value.output, After(u, es).followers[q2].output.value.output;
      && (o1 <= o2 || o2 <= o1)
      && (o1 == o2 <==> |o1| == |o2|)
  {
    Agreement(u, es, q1, q2);
    RunBacked(u, es);
    var s := After(u, es);
    assert AllBacked(u.c, s.followers[q1], s.echoGot[q1]) && AllBacked(u.c, s.followers[q2], s.echoGot[q2]);
    TwoBacked(u, s.followers[q1].output.value, s.followers[q2].output.value, s.echoGot[q1], s.echoGot[q2]);
  }

  lemma TwoBacked(u: Setup, c1: Candidate, c2: Candidate, got1: map<nat, Path>, got2: map<nat, Path>)
    requires u.Valid() && c1.root == c2.root && Backed(u.c, c1, got1) && Backed(u.c, c2, got2)
    ensures (c1.output <= c2.output || c2.output <= c1.output) && (c1.output == c2.output <==> |c1.output| == |c2.output|)
  {
    hide Setup.Valid, Flat, Rebuilt;
    var w1: seq<Bytes>, p1: nat :| p1 in got1 && Rebuilt(u.c, w1, c1, c1.root, got1[p1].len);
    var w2: seq<Bytes>, p2: nat :| p2 in got2 && Rebuilt(u.c, w2, c2, c2.root, got2[p2].len);
    RebuiltParts(u.c, w1, c1, c1.root, got1[p1].len);
    RebuiltParts(u.c, w2, c2, c2.root, got2[p2].len);
    SameVector(u, w1, w2);
    PayloadPrefix(w1, got1[p1].len);
    PayloadPrefix(w1, got2[p2].len);
    PrefixesNest(Flat(w1), c1.output, c2.output);
  }

  lemma RebuiltParts(c: Codec, w: seq<Bytes>, cand: Candidate, root: Bytes, len: int)
    requires Rebuilt(c, w, cand, root, len)
    ensures cand.root == root && c.root(w) == root && Payload(w, len) == Some(cand.output)
  {
  }

  lemma SameVector(u: Setup, v: seq<Bytes>, w: seq<Bytes>)
    requires u.Valid() && u.c.root(v) == u.c.root(w)
    ensures v == w
  {
  }

  lemma PayloadPrefix(w: seq<Bytes>, len: int)
    requires Payload(w, len).Some?
    ensures Payload(w, len).value <= Flat(w)
  {
  }

  lemma PrefixesNest(w: Bytes, a: Bytes, b: Bytes)
    requires a <= w && b <= w
    ensures a <= b || b <= a
    ensures a == b <==> |a| == |b|
  {
    if |a| <= |b| {
      assert a == w[..|a|] == b[..|a|];
    } else {
      assert b == w[..|b|] == a[..|b|];
    }
  }

  /** If the ECHO messages two correct followers received for their root all claim one length, they output the same bytes. */
  lemma SameLengthsSameBytes(u: Setup, es: seq<Event>, q1: nat, q2: nat, len: int)
    requires u.Valid() && Legal(u, es) && u.Correct(q1) && u.Correct(q2) && q1 != u.lid && q2 != u.lid
    requires After(u, es).followers[q1].output.Some? && After(u, es).followers[q2].output.Some?
    requires var root, got1, got2 := After(u, es).followers[q1].output.value.root, After(u, es).echoGot[q1], After(u, es).echoGot[q2];
      && (forall p :: p in got1 && got1[p].Wellformed() && got1[p].Root() == root ==> got1[p].len == len)
      && (forall p :: p in got2 && got2[p].Wellformed() && got2[p].Root() == root ==> got2[p].len == len)
    ensures After(u, es).followers[q1].output == After(u, es).followers[q2].output
  {
    Agreement(u, es, q1, q2);
    RunBacked(u, es);
    var s := After(u, es);
    hide Setup.Valid, After, Legal, Flat;
    assert AllBacked(u.c, s.followers[q1], s.echoGot[q1]) && AllBacked(u.c, s.followers[q2], s.echoGot[q2]);
    BytesAgreement(u, es, q1, q2);
    ClaimedLength(u.c, s.followers[q1].output.value, s.echoGot[q1], len);
    ClaimedLength(u.c, s.followers[q2].output.value, s.echoGot[q2], len);
  }

  lemma ClaimedLength(c: Codec, cand: Candidate, got: map<nat, Path>, len: int)
    requires Backed(c, cand, got)
    requires forall p :: p in got && got[p].Wellformed() && got[p].Root() == cand.root ==> got[p].len == len
    ensures |cand.output| == if len <= 0 then 0 else len
  {
    var w: seq<Bytes>, p: nat :| p in got && got[p].Wellformed() && got[p].Root() == cand.root && Rebuilt(c, w, cand, cand.root, got[p].len);
  }

  // ---------- the length that decides ----------

  /** The lengths claimed by the ECHO messages for a root that a follower received, in the order of their arrival. */
  function Lengths(es: seq<Event>, q: nat, root: Bytes): seq<int> {
    if |es| == 0 then []
    else
      var e := es[|es| - 1];
      Lengths(es[..|es| - 1], q, root)
      + if e.DeliverEcho? && e.q == q && e.echo.Wellformed() && e.echo.Root() == root then [e.echo.len] else []
  }

  /** A candidate has the length of the ECHO that was the one after f others. */
  ghost predicate Decided(u: Setup, es: seq<Event>, q: nat, cand: Candidate) {
    |Lengths(es, q, cand.root)| > u.c.f && |cand.output| == Cut(Lengths(es, q, cand.root)[u.c.f])
  }

  ghost predicate AllDecided(u: Setup, es: seq<Event>, q: nat, s: Follower) {
    && (forall r :: s.Buf(r).count == |Lengths(es, q, r)|)
    && (forall i :: 0 <= i < |s.candidates| ==> Decided(u, es, q, s.candidates[i]))
    && (s.output.Some? ==> Decided(u, es, q, s.output.value))
  }

  lemma DecidedLater(u: Setup, es: seq<Event>, e: Event, q: nat, cand: Candidate)
    requires Decided(u, es, q, cand)
    ensures Decided(u, es + [e], q, cand)
  {
    assert (es + [e])[..|es|] == es;
  }

  lemma EchoDecided(u: Setup, es: seq<Event>, e: Event, q: nat, s: Follower)
    requires AllDecided(u, es, q, s) && e.DeliverEcho? && e.q == q
    ensures AllDecided(u, es + [e], q, EchoStep(u.c, s, e.p, e.echo))
  {
    hide EchoStep, Decided, Rebuilt, Payload;
    var t, m := EchoStep(u.c, s, e.p, e.echo), e.echo;
    assert (es + [e])[..|es|] == es;
    EchoLeavesReady(u.c, s, e.p, m);
    forall cand | Decided(u, es, q, cand)
      ensures Decided(u, es + [e], q, cand)
    {
      DecidedLater(u, es, e, q, cand);
    }
    if m.Wellformed() {
      var w := StepOutcome(u.c, s, e.p, m);
      if t.candidates != s.candidates {
        var n := |s.candidates|;
        NewDecided(u, es, e, q, w, t.candidates[n]);
        assert forall i :: 0 <= i < n ==> t.candidates[i] == t.candidates[..n][i];
      }
    } else {
      MalformedEcho(u.c, s, e.p, m);
      assert forall r :: t.Buf(r) == s.Buf(r);
    }
  }

  lemma NewDecided(u: Setup, es: seq<Event>, e: Event, q: nat, w: seq<Bytes>, cand: Candidate)
    requires e.DeliverEcho? && e.q == q && e.echo.Wellformed() && |Lengths(es, q, e.echo.Root())| == u.c.f
    requires Rebuilt(u.c, w, cand, e.echo.Root(), e.echo.len)
    ensures Decided(u, es + [e], q, cand)
  {
    assert (es + [e])[..|es|] == es;
  }

  lemma OtherDecided(u: Setup, es: seq<Event>, e: Event, q: nat, s: Follower, t: Follower)
    requires AllDecided(u, es, q, s) && !(e.DeliverEcho? && e.q == q)
    requires t.echomap == s.echomap && (forall i :: 0 <= i < |t.candidates| ==> t.candidates[i] in s.candidates)
    requires t.output == s.output || (t.output.Some? && t.output.value in s.candidates)
    ensures AllDecided(u, es + [e], q, t)
  {
    hide Decided;
    assert (es + [e])[..|es|] == es;
    forall cand | Decided(u, es, q, cand)
      ensures Decided(u, es + [e], q, cand)
    {
      DecidedLater(u, es, e, q, cand);
    }
    assert forall r :: t.Buf(r) == s.Buf(r);
  }

  lemma {:induction false} RunDecided(u: Setup, es: seq<Event>, q: nat)
    requires u.Valid() && Legal(u, es) && u.Correct(q) && q != u.lid
    ensures AllDecided(u, es, q, After(u, es).followers[q])
    decreases |es|
  {
    hide AllDecided, EchoStep, MainStep, ReadyStep, Setup.Valid;
    if |es| == 0 {
      FreshDecided(u, q);
    } else {
      var init, e := es[..|es| - 1], es[|es| - 1];
      assert es == init + [e];
      RunDecided(u, init, q);
      StepDecided(u, init, After(u, init), e, q);
    }
  }

  lemma StepDecided(u: Setup, es: seq<Event>, s: System, e: Event, q: nat)
    requires u.Valid() && Sized(u, s) && Enabled(u, s, e) && u.Correct(q) && q != u.lid && AllDecided(u, es, q, s.followers[q])
    ensures AllDecided(u, es + [e], q, Apply(u, s, e).followers[q])
  {
    hide AllDecided, EchoStep, MainStep, ReadyStep, Codec.Valid;
    var f, t := s.followers[q], Apply(u, s, e).followers[q];
    if e.DeliverEcho? && e.q == q {
      EchoDecided(u, es, e, q, f);
    } else {
      if e.Main? && e.q == q {
        MainKeepsCandidates(f);
      } else if e.DeliverReady? && e.q == q {
        ReadyKeepsCandidates(u.c, f, e.root);
      }
      OtherDecided(u, es, e, q, f, t);
    }
  }

  lemma FreshDecided(u: Setup, q: nat)
    ensures AllDecided(u, [], q, FreshFollower())
  {
  }

  lemma MainKeepsCandidates(s: Follower)
    requires CanMove(s)
    ensures var t := MainStep(s);
      && t.echomap == s.echomap && (forall i :: 0 <= i < |t.candidates| ==> t.candidates[i] in s.candidates)
      && (t.output == s.output || (t.output.Some? && t.output.value in s.candidates))
  {
  }

  lemma ReadyKeepsCandidates(c: Codec, s: Follower, root: Bytes)
    ensures var t := ReadyStep(c, s, root); t.echomap == s.echomap && t.candidates == s.candidates && t.output == s.output
  {
  }

  /**
   * Agreement on bytes, exactly: in every run, with whatever leader, two correct followers that output have received more
   * than f ECHO messages for the root, and they output the same bytes if and only if the ECHO after the first f claimed
   * the same length to both (a negative one counting as 0).
   */
  lemma SameBytesExactly(u: Setup, es: seq<Event>, q1: nat, q2: nat)
    requires u.Valid() && Legal(u, es) && u.Correct(q1) && u.Correct(q2) && q1 != u.lid && q2 != u.lid
    requires After(u, es).followers[q1].output.Some? && After(u, es).followers[q2].output.Some?
    ensures var root, f := After(u, es).followers[q1].output.value.root, u.c.f;
      && |Lengths(es, q1, root)| > f && |Lengths(es, q2, root)| > f
      && (After(u, es).followers[q1].output == After(u, es).followers[q2].output
          <==> Cut(Lengths(es, q1, root)[f]) == Cut(Lengths(es, q2, root)[f]))
  {
    Agreement(u, es, q1, q2);
    BytesAgreement(u, es, q1, q2);
    RunDecided(u, es, q1);
    RunDecided(u, es, q2);
  }

  // ---------- what right shards and lengths ensure ----------

  /** Every ECHO received has a path, and for the leader's root its sender's own shard and no more than the data's length. */
  ghost predicate GoodEchoes(u: Setup, got: map<nat, Path>) {
    forall p :: p in got ==> GoodEcho(u, p, got[p])
  }

  predicate GoodEcho(u: Setup, p: nat, m: Path) {
    && m.Wellformed()
    && (m.Root() == u.Root() ==> p < |u.word| && m.Shard() == u.word[p] && m.len <= |Flat(u.word)|)
  }

  /** The shards under the leader's root are the leader's until they are complete. */
  ghost predicate Alive(u: Setup, s: Follower, got: map<nat, Path>) {
    var b := s.Buf(u.Root());
    && !s.halted
    && (b.count <= u.c.f ==> b.shards.Keys == EchoSenders(got, u.Root()) && Extends(u.word, b.shards))
    && (b.count > u.c.f ==> b.rootValid)
  }

  ghost predicate AliveRun(u: Setup, s: System)
    requires Sized(u, s)
  {
    forall q: nat :: u.Correct(q) && q != u.lid && GoodEchoes(u, s.echoGot[q]) ==> Alive(u, s.followers[q], s.echoGot[q])
  }

  lemma GoodEchoesLess(u: Setup, got: map<nat, Path>, p: nat, m: Path)
    requires p !in got && GoodEchoes(u, got[p := m])
    ensures GoodEchoes(u, got) && GoodEcho(u, p, m)
  {
    hide GoodEcho;
    var more := got[p := m];
    assert more[p] == m;
    assert forall k :: k in got ==> k in more && more[k] == got[k];
  }

  lemma EchoAlive(u: Setup, s: System, p: nat, q: nat, m: Path)
    requires u.Valid() && Sized(u, s) && Faithful(u, s) && u.Correct(u.lid) && u.Correct(q) && q != u.lid && u.c.f >= 1
    requires p < u.N() && p !in s.echoGot[q] && MayEcho(u, s, p, m) && s.followers[q].Running() && !s.followers[q].echoDone
    requires Alive(u, s.followers[q], s.echoGot[q]) && GoodEcho(u, p, m)
    ensures Alive(u, EchoStep(u.c, s.followers[q], p, m), s.echoGot[q][p := m])
  {
    hide EchoStep, EchoSenders, Faithful, Flat, Setup.Valid, Alive;
    var f, got := s.followers[q], s.echoGot[q][p := m];
    FaithfulAt(u, s, q);
    CountsAt(f, s.echoGot[q], p, m);
    if m.Root() == u.Root() {
      OwnAlive(u, f, s.echoGot[q], p, m);
    } else {
      if |EchoSenders(got, m.Root())| > u.c.f {
        ManyEchoes(u, s, q, got, m.Root());
      }
      OtherAlive(u, f, s.echoGot[q], p, m);
    }
  }

  lemma CountsAt(s: Follower, got: map<nat, Path>, p: nat, m: Path)
    requires EchoCounts(s, got) && p !in got && m.Wellformed()
    ensures |EchoSenders(got[p := m], m.Root())| == s.Buf(m.Root()).count + 1
  {
    EchoSendersMore(got, p, m, m.Root());
  }

  /** An ECHO for another root stays among at most f. */
  lemma OtherAlive(u: Setup, s: Follower, got: map<nat, Path>, p: nat, m: Path)
    requires u.c.f >= 1 && Alive(u, s, got) && p !in got && m.Wellformed() && m.Root() != u.Root() && s.Buf(m.Root()).count < u.c.f
    ensures Alive(u, EchoStep(u.c, s, p, m), got[p := m])
  {
    hide Reconstruct, Flat, Setup.Root;
    var v := EchoCounted(s, p, m);
    assert v.Buf(u.Root()) == s.Buf(u.Root());
    assert v.Buf(m.Root()).count == s.Buf(m.Root()).count + 1;
    var t := EchoStep(u.c, s, p, m);
    assert t.Buf(u.Root()) == s.Buf(u.Root());
    assert EchoSenders(got[p := m], u.Root()) == EchoSenders(got, u.Root());
  }

  /** An ECHO for the leader's root brings the next of the leader's shards. */
  lemma OwnAlive(u: Setup, s: Follower, got: map<nat, Path>, p: nat, m: Path)
    requires u.Valid() && u.c.f >= 1 && Alive(u, s, got) && EchoCounts(s, got) && p !in got && GoodEcho(u, p, m) && m.Root() == u.Root()
    ensures Alive(u, EchoStep(u.c, s, p, m), got[p := m])
  {
    hide EchoCounted, Flat, EchoSenders, Setup.Valid, EchoStep, EchoThresholds, EchoCounts, Alive, Extends;
    var b, k := s.Buf(u.Root()), s.Buf(u.Root()).count;
    CountedFields(s, p, m);
    CountsAt(s, got, p, m);
    AliveParts(u, s, got);
    if k <= u.c.f {
      SendersOwn(got, p, m);
      ExtendsMore(u.word, b.shards, p, m.Shard());
    }
    CountedAlive(u, EchoCounted(s, p, m), got[p := m], m.len);
    StepIsThresholds(u.c, s, p, m);
  }

  lemma AliveParts(u: Setup, s: Follower, got: map<nat, Path>)
    requires Alive(u, s, got)
    ensures var b := s.Buf(u.Root());
      && !s.halted
      && (b.count <= u.c.f ==> b.shards.Keys == EchoSenders(got, u.Root()) && Extends(u.word, b.shards))
      && (b.count > u.c.f ==> b.rootValid)
  {
  }

  lemma ExtendsMore(w: seq<Bytes>, shards: map<nat, Bytes>, p: nat, shard: Bytes)
    requires Extends(w, shards) && p < |w| && shard == w[p]
    ensures Extends(w, shards[p := shard]) && shards[p := shard].Keys == shards.Keys + {p}
  {
  }

  lemma StepIsThresholds(c: Codec, s: Follower, p: nat, m: Path)
    requires m.Wellformed()
    ensures m.Root() in EchoCounted(s, p, m).echomap
    ensures EchoStep(c, s, p, m) == EchoThresholds(c, EchoCounted(s, p, m), m.Root(), m.len)
  {
  }

  lemma SendersOwn(got: map<nat, Path>, p: nat, m: Path)
    requires p !in got && m.Wellformed()
    ensures EchoSenders(got[p := m], m.Root()) == EchoSenders(got, m.Root()) + {p}
  {
  }

  /** The thresholds, once the new shard is counted. */
  lemma CountedAlive(u: Setup, v: Follower, got: map<nat, Path>, len: int)
    requires u.Valid() && u.c.f >= 1 && !v.halted && u.Root() in v.echomap && v.Buf(u.Root()).count == |EchoSenders(got, u.Root())|
    requires v.Buf(u.Root()).count <= u.c.f + 1 ==> v.Buf(u.Root()).shards.Keys == EchoSenders(got, u.Root()) && Extends(u.word, v.Buf(u.Root()).shards)
    requires v.Buf(u.Root()).count > u.c.f + 1 ==> v.Buf(u.Root()).rootValid
    requires len <= |Flat(u.word)|
    ensures Alive(u, EchoThresholds(u.c, v, u.Root(), len), got)
  {
    hide Reconstruct, Flat, EchoSenders, Setup.Root;
    var t := EchoThresholds(u.c, v, u.Root(), len);
    if v.Buf(u.Root()).count == u.c.f + 1 {
      MapSize(v.Buf(u.Root()).shards);
      ReconstructAlive(u, v, v.Buf(u.Root()).shards, len);
    }
  }

  lemma ReconstructAlive(u: Setup, s: Follower, shards: map<nat, Bytes>, len: int)
    requires u.Valid() && u.Root() in s.echomap && s.Buf(u.Root()).shards == shards && |shards| == u.c.f + 1 && !s.halted
    requires Extends(u.word, shards) && len <= |Flat(u.word)|
    ensures var t := Reconstruct(u.c, s, u.Root(), len);
      !t.halted && u.Root() in t.echomap && t.echomap[u.Root()].count == s.echomap[u.Root()].count && t.echomap[u.Root()].rootValid
  {
    hide Flat;
    assert u.c.fill(shards) == Some(u.word);
  }

  /** The main thread never meets a candidate of another root than the one it waits for. */
  lemma MainAlive(u: Setup, s: System, q: nat)
    requires u.Valid() && Sized(u, s) && Kept(u, s) && Faithful(u, s) && u.Correct(u.lid) && u.Correct(q) && q != u.lid
    requires CanMove(s.followers[q]) && Alive(u, s.followers[q], s.echoGot[q])
    ensures Alive(u, MainStep(s.followers[q]), s.echoGot[q])
  {
    hide Faithful, EchoSenders, Flat, Setup.Valid;
    var f := s.followers[q];
    FaithfulAt(u, s, q);
    assert FollowerKept(u, s, q);
    if f.phase.WaitCandidate? {
      assert |Senders(s.readyGot[q], f.phase.root)| >= 2 * u.c.f + 1;
      ManyReadies(u, s, s.readyGot[q], f.phase.root);
      assert FromLeader(u, f.candidates[0]);
    }
    var t := MainStep(f);
    assert t.Buf(u.Root()) == f.Buf(u.Root());
  }

  lemma StepAlive(u: Setup, s: System, e: Event)
    requires u.Valid() && Sized(u, s) && Kept(u, s) && Faithful(u, s) && AliveRun(u, s) && u.Correct(u.lid) && Enabled(u, s, e)
    ensures AliveRun(u, Apply(u, s, e))
  {
    hide EchoStep, ReadyStep, MainStep, ValStep, Kept, Faithful, Alive, GoodEchoes, Codec.Valid;
    var t := Apply(u, s, e);
    forall q: nat | u.Correct(q) && q != u.lid && GoodEchoes(u, t.echoGot[q])
      ensures Alive(u, t.followers[q], t.echoGot[q])
    {
      SomeFaults(u, q);
      match e
      case DeliverVal(q', m) =>
        if q' == q {
          ValAlive(u, s.followers[q], m, s.echoGot[q], q);
        }
      case DeliverEcho(p, q', m) =>
        if q' == q {
          GoodEchoesLess(u, s.echoGot[q], p, m);
          EchoAlive(u, s, p, q, m);
        }
      case DeliverReady(_, q', root) =>
        if q' == q {
          ReadyAlive(u, s.followers[q], root, s.echoGot[q]);
        }
      case Main(q') =>
        if q' == q {
          MainAlive(u, s, q);
        }
    }
  }

  lemma SomeFaults(u: Setup, q: nat)
    requires u.Valid() && u.Correct(q) && q != u.lid
    ensures u.c.f >= 1
  {
  }

  lemma ValAlive(u: Setup, s: Follower, m: Path, got: map<nat, Path>, q: nat)
    requires u.Valid() && q < u.N() && m == u.paths[q] && Alive(u, s, got)
    ensures Alive(u, ValStep(s, m), got)
  {
    assert ValStep(s, m).Buf(u.Root()) == s.Buf(u.Root());
  }

  lemma ReadyAlive(u: Setup, s: Follower, root: Bytes, got: map<nat, Path>)
    requires Alive(u, s, got)
    ensures Alive(u, ReadyStep(u.c, s, root), got)
  {
    assert ReadyStep(u.c, s, root).Buf(u.Root()) == s.Buf(u.Root());
  }

  lemma InitAlive(u: Setup)
    requires u.Valid()
    ensures AliveRun(u, Init(u))
  {
    var none: map<nat, Path>, empty: map<nat, Bytes> := map[], map[];
    assert EchoSenders(none, u.Root()) == {} == empty.Keys;
  }

  lemma {:induction false} RunAlive(u: Setup, es: seq<Event>)
    requires u.Valid() && Legal(u, es) && u.Correct(u.lid)
    ensures AliveRun(u, After(u, es))
    decreases |es|
  {
    hide AliveRun, Kept, Faithful, Setup.Valid;
    if |es| == 0 {
      InitAlive(u);
    } else {
      RunAlive(u, es[..|es| - 1]);
      RunFaithful(u, es[..|es| - 1]);
      StepAlive(u, After(u, es[..|es| - 1]), es[|es| - 1]);
    }
  }

  /**
   * With a correct leader, a correct follower never halts in a run in which every ECHO it receives has a path and, for the
   * leader's root, the shard of its sender and a length the data has.
   */
  lemma GoodEchoesKeepAlive(u: Setup, es: seq<Event>, q: nat)
    requires u.Valid() && Legal(u, es) && u.Correct(u.lid) && u.Correct(q) && q != u.lid
    requires GoodEchoes(u, After(u, es).echoGot[q])
    ensures !After(u, es).followers[q].halted
  {
    hide GoodEchoes, Kept, Faithful;
    RunAlive(u, es);
  }
}
