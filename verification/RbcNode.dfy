/** One node of the reliable broadcast: what its handlers and its main thread do with each message and signal. */
module RbcNode {
  import opened Integers
  import opened Wrappers

  type Bytes = seq<int>

  /** Erasure code and Merkle root, with f the number of faults tolerated among n = 3 f + 1 nodes. */
  datatype Codec = Codec(f: nat, fill: map<nat, Bytes> -> Option<seq<Bytes>>, root: seq<Bytes> -> Bytes, codeword: seq<Bytes> -> bool) {

    function N(): nat {
      3 * f + 1
    }

    ghost predicate Valid() {
      && (forall m: map<nat, Bytes> :: fill(m).Some? ==> codeword(fill(m).value) && Extends(fill(m).value, m))
      && (forall m: map<nat, Bytes>, w: seq<Bytes> :: codeword(w) && Extends(w, m) && |m| >= f + 1 ==> fill(m) == Some(w))
      && (forall w: seq<Bytes> :: codeword(w) ==> |w| == N() && Shards(w, |w[0]|))
      && (forall v: seq<Bytes>, w: seq<Bytes> :: root(v) == root(w) ==> v == w)
    }
  }

  /** w agrees with the shards received. */
  predicate Extends(w: seq<Bytes>, m: map<nat, Bytes>) {
    forall i :: i in m ==> i < |w| && w[i] == m[i]
  }

  /** All shards have z bytes. */
  predicate Shards(w: seq<Bytes>, z: nat) {
    forall i :: 0 <= i < |w| ==> |w[i]| == z
  }

  /** The input is cut in order into the first k shards; what is left of them is filled up in any way. */
  predicate LaidOut(w: seq<Bytes>, input: Bytes, k: nat) {
    && 0 < k <= |w| && Shards(w, |w[0]|) && |input| <= k * |w[0]|
    && var z := |w[0]|;
      forall i :: 0 <= i < |input| ==> z > 0 && 0 <= i / z < |w| && 0 <= i % z < |w[i / z]| && w[i / z][i % z] == input[i]
  }

  /** Byte i, counted through shards of z bytes, is b. */
  predicate InPlace(w: seq<Bytes>, z: nat, i: nat, b: int) {
    z > 0 && 0 <= i / z < |w| && 0 <= i % z < |w[i / z]| && w[i / z][i % z] == b
  }

  lemma ShardIndex(n: nat, z: nat, i: nat)
    requires z > 0
    ensures 0 <= i / z && 0 <= i % z < z && (i < n * z ==> i / z < n)
  {
    var q := i / z;
    assert i == z * q + i % z;
    if q < 0 {
      MulMono(q, -1, z);
    }
    if i < n * z && q >= n {
      MulMono(n, q, z);
    }
  }

  /** The first len bytes of the shards in order; None where the source panics. */
  function Payload(w: seq<Bytes>, len: int): (p: Option<Bytes>)
    ensures p.Some? ==> |p.value| == if len <= 0 then 0 else len
  {
    if len <= 0 then Some([])
    else if |Flat(w)| < len then None
    else Some(Flat(w)[..len])
  }

  function Flat(w: seq<Bytes>): Bytes {
    if |w| == 0 then [] else w[0] + Flat(w[1..])
  }

  lemma {:induction false} FlatSize(w: seq<Bytes>, z: nat)
    requires Shards(w, z)
    ensures |Flat(w)| == |w| * z
  {
    if |w| > 0 {
      FlatSize(w[1..], z);
      assert |w| * z == z + |w[1..]| * z;
    } else {
      assert |w| * z == 0;
    }
  }

  /** For shards of one size these are their bytes, one shard after the other. */
  lemma {:induction false} FlatByte(w: seq<Bytes>, z: nat, i: nat)
    requires Shards(w, z) && i < |w| * z
    ensures |Flat(w)| == |w| * z && InPlace(w, z, i, Flat(w)[i])
    decreases |w|
  {
    FlatSize(w, z);
    SomeShard(|w|, z, i);
    ShardIndex(|w|, z, i);
    if i < z {
      DivModUnique(i, z, 0, i);
    } else {
      FlatSize(w[1..], z);
      assert |w| * z == z + |w[1..]| * z;
      NextShard(i, z);
      FlatByte(w[1..], z, i - z);
    }
  }

  lemma SomeShard(n: nat, z: nat, i: nat)
    requires i < n * z
    ensures n > 0 && z > 0
  {
  }

  lemma NextShard(i: int, z: int)
    requires 0 < z <= i
    ensures (i - z) / z == i / z - 1 && (i - z) % z == i % z
  {
    assert i == z * (i / z) + i % z;
    assert i - z == (i / z - 1) * z + i % z;
    DivModUnique(i - z, z, i / z - 1, i % z);
  }

  lemma PayloadInPlace(w: seq<Bytes>, z: nat, len: int)
    requires Shards(w, z)
    ensures Payload(w, len).Some? <==> len <= |w| * z
    ensures Payload(w, len).Some? ==> var p := Payload(w, len).value;
      |p| == (if len <= 0 then 0 else len) && forall i :: 0 <= i < |p| ==> InPlace(w, z, i, p[i])
  {
    hide Shards, InPlace, Flat;
    FlatSize(w, z);
    MulMono(0, |w|, z);
    forall i | 0 <= i < len <= |w| * z
      ensures InPlace(w, z, i, Flat(w)[i])
    {
      FlatByte(w, z, i);
    }
  }

  /**
   * What a vector of shards of one size stands for: byte i is byte i % z of shard i / z, for as many as are asked for; and
   * there is nothing when more are asked for than there are.
   */
  lemma PayloadBytes(w: seq<Bytes>, z: nat, len: int)
    requires Shards(w, z)
    ensures Payload(w, len).Some? <==> len <= |w| * z
    ensures Payload(w, len).Some? ==> var p := Payload(w, len).value;
      && |p| == (if len <= 0 then 0 else len)
      && forall i :: 0 <= i < |p| ==> z > 0 && 0 <= i / z < |w| && 0 <= i % z < |w[i / z]| && p[i] == w[i / z][i % z]
  {
    hide Shards, Payload;
    PayloadInPlace(w, z, len);
    if Payload(w, len).Some? {
      var p := Payload(w, len).value;
      forall i | 0 <= i < |p|
        ensures z > 0 && 0 <= i / z < |w| && 0 <= i % z < |w[i / z]| && p[i] == w[i / z][i % z]
      {
        assert InPlace(w, z, i, p[i]);
      }
    }
  }

  /** An input that is laid out in the shards is what they stand for. */
  lemma LaidOutPayload(w: seq<Bytes>, input: Bytes, k: nat)
    requires LaidOut(w, input, k)
    ensures Payload(w, |input|) == Some(input)
  {
    hide Shards, Payload;
    var z := |w[0]|;
    MulMono(k, |w|, z);
    PayloadInPlace(w, z, |input|);
    var p := Payload(w, |input|).value;
    forall i | 0 <= i < |input|
      ensures p[i] == input[i]
    {
      assert InPlace(w, z, i, p[i]);
      assert InPlace(w, z, i, input[i]);
    }
    assert p == input;
  }

  /** VAL and ECHO messages carry a Merkle path, from the shard to the root, and the length of the input. */
  datatype Path = Path(values: seq<Bytes>, len: int) {
    predicate Wellformed() {
      |values| > 0
    }

    function Shard(): Bytes
      requires Wellformed()
    {
      values[0]
    }

    function Root(): Bytes
      requires Wellformed()
    {
      values[|values| - 1]
    }
  }

  datatype EchoBuf = EchoBuf(count: nat, shards: map<nat, Bytes>, rootValid: bool)

  datatype Candidate = Candidate(root: Bytes, output: Bytes)

  datatype Phase = WaitReady | WaitOutput | WaitCandidate(root: Bytes) | Done

  // ---------- the follower ----------

  datatype Follower = Follower(
    halted: bool,
    echoed: set<Path>,
    echomap: map<Bytes, EchoBuf>, echocount: nat, echoDone: bool,
    readymap: map<Bytes, nat>, readyDone: bool,
    readysignal: seq<Bytes>, outputsignal: seq<Bytes>, candidates: seq<Candidate>,
    phase: Phase, readied: Option<Bytes>, output: Option<Candidate>)
  {
    /** Handlers run until the main thread closes them or the node panics. */
    predicate Running() {
      !halted && phase != Done
    }

    function Buf(root: Bytes): EchoBuf {
      if root in echomap then echomap[root] else EchoBuf(0, map[], false)
    }

    function Readies(root: Bytes): nat {
      if root in readymap then readymap[root] else 0
    }
  }

  function FreshFollower(): Follower {
    Follower(false, {}, map[], 0, false, map[], false, [], [], [], WaitReady, None, None)
  }

  function ValStep(s: Follower, m: Path): Follower {
    if !m.Wellformed() then s.(halted := true) else s.(echoed := s.echoed + {m})
  }

  /** Reconstruct from the first f + 1 shards of a root, and check the root. */
  function Reconstruct(c: Codec, s: Follower, root: Bytes, len: int): (t: Follower)
    ensures t.halted || root in t.echomap
  {
    var buf := s.Buf(root);
    var w := c.fill(buf.shards);
    if w.None? || Payload(w.value, len).None? || c.root(w.value) != root then s.(halted := true)
    else s.(echomap := s.echomap[root := EchoBuf(buf.count, map i: nat | i < |w.value| :: w.value[i], true)],
            candidates := s.candidates + [Candidate(root, Payload(w.value, len).value)])
  }

  /** After counting: a candidate at f + 1, the ready signal at 2 f + 1. */
  function EchoThresholds(c: Codec, s: Follower, root: Bytes, len: int): Follower
    requires root in s.echomap
  {
    var t := if s.echomap[root].count == c.f + 1 then Reconstruct(c, s, root, len) else s;
    if t.halted then t
    else if t.echomap[root].count == 2 * c.f + 1 then
      (if t.echomap[root].rootValid then t.(readysignal := t.readysignal + [root], echoDone := true) else t.(halted := true))
    else if t.echocount == c.N() then t.(echoDone := true)
    else t
  }

  function EchoCounted(s: Follower, from: nat, m: Path): Follower
    requires m.Wellformed()
  {
    var buf := s.Buf(m.Root());
    s.(echocount := s.echocount + 1,
       echomap := s.echomap[m.Root() := EchoBuf(buf.count + 1, buf.shards[from := m.Shard()], buf.rootValid)])
  }

  lemma CountedKey(s: Follower, from: nat, m: Path)
    requires m.Wellformed()
    ensures m.Root() in EchoCounted(s, from, m).echomap && EchoCounted(s, from, m).halted == s.halted
  {
  }

  function EchoStep(c: Codec, s: Follower, from: nat, m: Path): Follower {
    if !m.Wellformed() then s.(echocount := s.echocount + 1, halted := true)
    else EchoThresholds(c, EchoCounted(s, from, m), m.Root(), m.len)
  }

  /**
   * What an ECHO does, message by message: its shard is counted for its root; the one that completes f + 1 makes a candidate
   * of the bytes the shards stand for, the one that completes 2 f + 1 the ready signal. It halts the node when the shards
   * have no vector, no such root or too few bytes, or when 2 f + 1 are complete without a candidate, or without a path.
   */
  lemma EchoEffect(c: Codec, s: Follower, from: nat, m: Path)
    requires !s.halted
    ensures var t := EchoStep(c, s, from, m); t.echocount == s.echocount + 1 && (|m.values| == 0 ==> t.halted)
    ensures |m.values| > 0 ==>
      var t, root := EchoStep(c, s, from, m), m.values[|m.values| - 1];
      var k, w := s.Buf(root).count + 1, c.fill(s.Buf(root).shards[from := m.values[0]]);
      && root in t.echomap && t.echomap[root].count == k
      && (forall r :: r != root ==> t.Buf(r) == s.Buf(r))
      && (t.halted <==> if k == c.f + 1 then w.None? || Payload(w.value, m.len).None? || c.root(w.value) != root
                        else k == 2 * c.f + 1 && !s.Buf(root).rootValid)
      && (!t.halted ==> t.candidates == s.candidates + if k == c.f + 1 then [Candidate(root, Payload(w.value, m.len).value)] else [])
      && (!t.halted ==> t.readysignal == s.readysignal + if k == 2 * c.f + 1 then [root] else [])
  {
    hide Payload;
    if |m.values| > 0 {
      var v, root := EchoCounted(s, from, m), m.values[|m.values| - 1];
      CountedKey(s, from, m);
      assert v.Buf(root) == EchoBuf(s.Buf(root).count + 1, s.Buf(root).shards[from := m.values[0]], s.Buf(root).rootValid);
      assert s.candidates + [] == s.candidates && s.readysignal + [] == s.readysignal;
    }
  }

  function ReadyStep(c: Codec, s: Follower, root: Bytes): Follower {
    var k := s.Readies(root) + 1;
    s.(readymap := s.readymap[root := k],
       readysignal := if k == c.f + 1 then s.readysignal + [root] else s.readysignal,
       outputsignal := if k == 2 * c.f + 1 then s.outputsignal + [root] else s.outputsignal,
       readyDone := k == 2 * c.f + 1)
  }

  /** The main thread has something to receive. */
  predicate CanMove(s: Follower) {
    s.Running() && match s.phase
      case WaitReady => |s.readysignal| > 0
      case WaitOutput => |s.outputsignal| > 0
      case WaitCandidate(_) => |s.candidates| > 0
      case Done => false
  }

  function MainStep(s: Follower): Follower
    requires CanMove(s)
  {
    match s.phase
    case WaitReady =>
      s.(readysignal := s.readysignal[1..], readied := Some(s.readysignal[0]), phase := WaitOutput)
    case WaitOutput =>
      s.(outputsignal := s.outputsignal[1..], phase := WaitCandidate(s.outputsignal[0]))
    case WaitCandidate(root) =>
      var cand := s.candidates[0];
      if cand.root == root then s.(candidates := s.candidates[1..], output := Some(cand), phase := Done)
      else s.(candidates := s.candidates[1..], halted := true)
  }

  /** The follower as the program keeps it, one field per variable of its threads. */
  class BroadcastFollower {
    const c: Codec
    var halted: bool
    var echoed: set<Path>
    var echomap: map<Bytes, EchoBuf>
    var echocount: nat
    var echoDone: bool
    var readymap: map<Bytes, nat>
    var readyDone: bool
    var readysignal: seq<Bytes>
    var outputsignal: seq<Bytes>
    var candidates: seq<Candidate>
    var phase: Phase
    var readied: Option<Bytes>
    var output: Option<Candidate>

    ghost function State(): Follower
      reads this
    {
      Follower(halted, echoed, echomap, echocount, echoDone, readymap, readyDone, readysignal, outputsignal, candidates, phase, readied, output)
    }

    constructor (codec: Codec)
      ensures c == codec && State() == FreshFollower()
      ensures !halted && echoed == {} && echomap == map[] && echocount == 0 && !echoDone && readymap == map[] && !readyDone
      ensures readysignal == outputsignal == [] && candidates == [] && phase == WaitReady && readied == None && output == None
    {
      c := codec;
      halted, echoed, echomap, echocount, echoDone := false, {}, map[], 0, false;
      readymap, readyDone, readysignal, outputsignal, candidates := map[], false, [], [], [];
      phase, readied, output := WaitReady, None, None;
    }

    method HandleVal(m: Path)
      requires State().Running()
      modifies this
      ensures State() == ValStep(old(State()), m)
      ensures (halted <==> |m.values| == 0) && echoed == old(echoed) + (if |m.values| == 0 then {} else {m})
    {
      if |m.values| == 0 {
        halted := true;
        return;
      }
      echoed := echoed + {m};
    }

    method HandleEcho(from: nat, m: Path)
      requires State().Running() && !echoDone
      modifies this
      ensures State() == EchoStep(c, old(State()), from, m)
    {
      hide Payload, Reconstruct, EchoCounted;
      if |m.values| == 0 {
        echocount := echocount + 1;
        halted := true;
        return;
      }
      var root := m.values[|m.values| - 1];
      CountEcho(from, m);
      CountedKey(old(State()), from, m);
      if echomap[root].count == c.f + 1 {
        TryReconstruct(root, m.len);
        if halted {
          return;
        }
      }
      if echomap[root].count == 2 * c.f + 1 {
        if echomap[root].rootValid {
          readysignal := readysignal + [root];
          echoDone := true;
        } else {
          halted := true;
        }
        return;
      }
      if echocount == c.N() {
        echoDone := true;
      }
    }

    /** Store the shard under its root. */
    method CountEcho(from: nat, m: Path)
      requires m.Wellformed()
      modifies this
      ensures State() == EchoCounted(old(State()), from, m)
      ensures var root := m.values[|m.values| - 1];
        var buf := if root in old(echomap) then old(echomap)[root] else EchoBuf(0, map[], false);
        echocount == old(echocount) + 1
        && echomap == old(echomap)[root := EchoBuf(buf.count + 1, buf.shards[from := m.values[0]], buf.rootValid)]
    {
      echocount := echocount + 1;
      var root := m.values[|m.values| - 1];
      if root in echomap {
        var buf := echomap[root];
        echomap := echomap[root := EchoBuf(buf.count + 1, buf.shards[from := m.values[0]], buf.rootValid)];
      } else {
        echomap := echomap[root := EchoBuf(1, map[from := m.values[0]], false)];
      }
    }

    method TryReconstruct(root: Bytes, len: int)
      requires root in echomap
      modifies this
      ensures State() == Reconstruct(c, old(State()), root, len)
      ensures var w := c.fill(old(echomap)[root].shards);
        && (halted <==> old(halted) || w.None? || Payload(w.value, len).None? || c.root(w.value) != root)
        && (old(halted) || halted || candidates == old(candidates) + [Candidate(root, Payload(w.value, len).value)])
    {
      hide Payload;
      var buf := echomap[root];
      var w := c.fill(buf.shards);
      if w.None? || Payload(w.value, len).None? {
        halted := true;
        return;
      }
      if c.root(w.value) == root {
        echomap := echomap[root := EchoBuf(buf.count, map i: nat | i < |w.value| :: w.value[i], true)];
        candidates := candidates + [Candidate(root, Payload(w.value, len).value)];
      } else {
        halted := true;
      }
    }

    method HandleReady(root: Bytes)
      requires State().Running() && !readyDone
      modifies this
      ensures State() == ReadyStep(c, old(State()), root)
      ensures var k := if root in old(readymap) then old(readymap)[root] + 1 else 1;
        && readymap == old(readymap)[root := k] && (readyDone <==> k == 2 * c.f + 1)
        && readysignal == old(readysignal) + (if k == c.f + 1 then [root] else [])
        && outputsignal == old(outputsignal) + (if k == 2 * c.f + 1 then [root] else [])
    {
      if root in readymap {
        readymap := readymap[root := readymap[root] + 1];
      } else {
        readymap := readymap[root := 1];
      }
      if readymap[root] == c.f + 1 {
        readysignal := readysignal + [root];
      }
      if readymap[root] == 2 * c.f + 1 {
        outputsignal := outputsignal + [root];
        readyDone := true;
      }
    }

    /** The next receive of the main thread. */
    method Advance()
      requires CanMove(State())
      modifies this
      ensures State() == MainStep(old(State()))
      ensures old(phase) == WaitReady ==> phase == WaitOutput && readied == Some(old(readysignal)[0]) && !halted
      ensures old(phase) == WaitOutput ==> phase == WaitCandidate(old(outputsignal)[0]) && !halted
      ensures old(phase).WaitCandidate? ==> var cand := old(candidates)[0];
        && (halted <==> cand.root != old(phase).root)
        && (!halted ==> output == Some(cand) && phase == Done)
    {
      match phase
      case WaitReady =>
        var readyroot := readysignal[0];
        readysignal := readysignal[1..];
        readied := Some(readyroot);
        phase := WaitOutput;
      case WaitOutput =>
        var outroot := outputsignal[0];
        outputsignal := outputsignal[1..];
        phase := WaitCandidate(outroot);
      case WaitCandidate(outroot) =>
        var cand := candidates[0];
        candidates := candidates[1..];
        if outroot == cand.root {
          output := Some(cand);
          phase := Done;
        } else {
          halted := true;
        }
    }
  }

  // ---------- the leader ----------

  datatype Leader = Leader(halted: bool, echocount: nat, echoDone: bool, readycount: nat, readyDone: bool,
                           readysignal: nat, outputsignal: nat, phase: Phase, readied: bool, output: bool)
  {
    predicate Running() {
      !halted && phase != Done
    }
  }

  function FreshLeader(): Leader {
    Leader(false, 0, false, 0, false, 0, 0, WaitReady, false, false)
  }

  function LeaderEcho(c: Codec, s: Leader, myroot: Bytes, m: Path): Leader {
    if !m.Wellformed() then s.(halted := true)
    else if m.Root() != myroot then s
    else
      var k := s.echocount + 1;
      s.(echocount := k, readysignal := if k == 2 * c.f then s.readysignal + 1 else s.readysignal, echoDone := k == 2 * c.f)
  }

  function LeaderReady(c: Codec, s: Leader, myroot: Bytes, root: Bytes): Leader {
    if root != myroot then s
    else
      var k := s.readycount + 1;
      s.(readycount := k,
         readysignal := if k == c.f + 1 then s.readysignal + 1 else s.readysignal,
         outputsignal := if k == 2 * c.f then s.outputsignal + 1 else s.outputsignal,
         readyDone := k == 2 * c.f)
  }

  predicate LeaderCanMove(s: Leader) {
    s.Running() && ((s.phase == WaitReady && s.readysignal > 0) || (s.phase == WaitOutput && s.outputsignal > 0))
  }

  function LeaderMain(s: Leader): Leader
    requires LeaderCanMove(s)
  {
    if s.phase == WaitReady then s.(readysignal := s.readysignal - 1, readied := true, phase := WaitOutput)
    else s.(outputsignal := s.outputsignal - 1, output := true, phase := Done)
  }

  class BroadcastLeader {
    const c: Codec
    const myroot: Bytes
    var halted: bool
    var echocount: nat
    var echoDone: bool
    var readycount: nat
    var readyDone: bool
    var readysignal: nat
    var outputsignal: nat
    var phase: Phase
    var readied: bool
    var output: bool

    ghost function State(): Leader
      reads this
    {
      Leader(halted, echocount, echoDone, readycount, readyDone, readysignal, outputsignal, phase, readied, output)
    }

    constructor (codec: Codec, root: Bytes)
      ensures c == codec && myroot == root && State() == FreshLeader()
      ensures !halted && echocount == readycount == readysignal == outputsignal == 0 && !echoDone && !readyDone
      ensures phase == WaitReady && !readied && !output
    {
      c, myroot := codec, root;
      halted, echocount, echoDone, readycount, readyDone := false, 0, false, 0, false;
      readysignal, outputsignal, phase, readied, output := 0, 0, WaitReady, false, false;
    }

    method HandleEcho(m: Path)
      requires State().Running() && !echoDone
      modifies this
      ensures State() == LeaderEcho(c, old(State()), myroot, m)
      ensures var own := |m.values| > 0 && m.values[|m.values| - 1] == myroot;
        && (halted <==> |m.values| == 0)
        && echocount == old(echocount) + (if own then 1 else 0)
        && readysignal == old(readysignal) + (if own && echocount == 2 * c.f then 1 else 0)
    {
      if |m.values| == 0 {
        halted := true;
        return;
      }
      // an echo message must have the leader's own root
      if m.values[|m.values| - 1] == myroot {
        echocount := echocount + 1;
        if echocount == 2 * c.f {
          readysignal := readysignal + 1;
          echoDone := true;
        }
      }
    }

    method HandleReady(root: Bytes)
      requires State().Running() && !readyDone
      modifies this
      ensures State() == LeaderReady(c, old(State()), myroot, root)
      ensures readycount == old(readycount) + (if root == myroot then 1 else 0)
      ensures readysignal == old(readysignal) + (if root == myroot && readycount == c.f + 1 then 1 else 0)
      ensures outputsignal == old(outputsignal) + (if root == myroot && readycount == 2 * c.f then 1 else 0)
    {
      if root == myroot {
        readycount := readycount + 1;
        if readycount == c.f + 1 {
          readysignal := readysignal + 1;
        }
        if readycount == 2 * c.f {
          outputsignal := outputsignal + 1;
          readyDone := true;
        }
      }
    }

    method Advance()
      requires LeaderCanMove(State())
      modifies this
      ensures State() == LeaderMain(old(State()))
      ensures if old(phase) == WaitReady then phase == WaitOutput && readied else phase == Done && output
    {
      if phase == WaitReady {
        readysignal := readysignal - 1;
        readied := true;
        phase := WaitOutput;
      } else {
        outputsignal := outputsignal - 1;
        output := true;
        phase := Done;
      }
    }
  }
}
