/** The streaming SHA-256 interface, over any compression function (section 5.1.1 of FIPS 180-4). */
module Sha256 {
  import opened BigEndian
  import opened Integers

  type State = seq<int>

  /** The compression function, the initial state and the output bytes of a state. */
  datatype Core = Core(initial: State, transform: (State, seq<int>) -> State, out: State -> seq<int>)

  /** Process whole blocks of 64 bytes in order; what is left over is ignored. */
  function Absorb(c: Core, s: State, m: seq<int>): State
    decreases |m|
  {
    if |m| < 64 then s else Absorb(c, c.transform(s, m[..64]), m[64..])
  }

  /** Processing can be split at any block boundary. */
  lemma {:induction false} AbsorbConcat(c: Core, s: State, x: seq<int>, y: seq<int>)
    requires |x| % 64 == 0
    ensures Absorb(c, s, x + y) == Absorb(c, Absorb(c, s, x), y)
    decreases |x|
  {
    if |x| == 0 {
      assert x + y == y;
    } else {
      assert |x| >= 64;
      assert (x + y)[..64] == x[..64] && (x + y)[64..] == x[64..] + y;
      AbsorbConcat(c, c.transform(s, x[..64]), x[64..], y);
    }
  }

  /** No block leaves the state as it is, and one block more is one more use of the compression function. */
  lemma AbsorbBlock(c: Core, s: State, x: seq<int>, b: seq<int>)
    requires |x| % 64 == 0 && |b| == 64
    ensures Absorb(c, s, []) == s
    ensures Absorb(c, s, x + b) == c.transform(Absorb(c, s, x), b)
  {
    AbsorbConcat(c, s, x, b);
    assert b[..64] == b && b[64..] == [];
  }

  /** The whole blocks of a message, and the rest. */
  function Whole(m: seq<int>): (w: seq<int>)
    ensures |w| % 64 == 0 && w <= m && |m| < |w| + 64
  {
    m[..|m| - |m| % 64]
  }

  function Rest(m: seq<int>): (r: seq<int>)
    ensures |r| < 64 && Whole(m) + r == m
  {
    m[|m| - |m| % 64..]
  }

  // ---------- padding ----------

  function Zeros(n: nat): (z: seq<int>)
    ensures |z| == n && forall i :: 0 <= i < n ==> z[i] == 0
  {
    seq(n, _ => 0)
  }

  /** The 64-bit big-endian number of bits. */
  function BitLength(bytes: nat): (b: seq<int>)
    ensures |b| == 8
  {
    Word((bytes / 0x2000_0000) % TWO32) + Word((bytes * 8) % TWO32)
  }

  /** Four big-endian bytes */
  function Word(x: int): (b: seq<int>)
    ensures |b| == 4
  {
    [(x / 0x100_0000) % 256, (x / 0x1_0000) % 256, (x / 0x100) % 256, x % 256]
  }

  /** Number of zero bytes: the least that makes the whole a multiple of 64. */
  function ZeroBytes(len: nat): nat {
    (119 - len % 64) % 64
  }

  lemma ZeroBytesLeast(len: nat, k: nat)
    requires (len + 1 + k + 8) % 64 == 0
    ensures (len + 1 + ZeroBytes(len) + 8) % 64 == 0 && ZeroBytes(len) <= k
  {
  }

  function Padded(m: seq<int>): seq<int> {
    m + ([0x80] + Zeros(ZeroBytes(|m|))) + BitLength(|m|)
  }

  /** The message, a byte 0x80, the fewest zero bytes that make whole blocks, and the number of bits modulo 2^64 in eight bytes. */
  lemma PaddingIsStandard(m: seq<int>)
    ensures var p := Padded(m);
      && |p| % 64 == 0 && |m| + 9 <= |p| < |m| + 9 + 64
      && m <= p && p[|m|] == 0x80
      && (forall i :: |m| < i < |p| - 8 ==> p[i] == 0)
      && Bytes(p[|p| - 8..]) && Be(p[|p| - 8..]) == 8 * |m| % TWO64
  {
    ZeroBytesLeast(|m|, ZeroBytes(|m|));
    assert Padded(m)[|Padded(m)| - 8..] == BitLength(|m|);
    BitLengthValue(|m|);
  }

  lemma BitLengthValue(n: nat)
    ensures Be(BitLength(n)) == 8 * n % TWO64
  {
    var hi, lo := (n / 0x2000_0000) % TWO32, (n * 8) % TWO32;
    LengthHalves(n);
    BeEight((hi / 0x100_0000) % 256, (hi / 0x1_0000) % 256, (hi / 0x100) % 256, hi % 256,
            (lo / 0x100_0000) % 256, (lo / 0x1_0000) % 256, (lo / 0x100) % 256, lo % 256);
    WordValue(hi);
    WordValue(lo);
  }

  lemma LengthHalves(n: nat)
    ensures 8 * n % TWO64 == (n / 0x2000_0000) % TWO32 * TWO32 + (n * 8) % TWO32
  {
    var high, low := n / 0x2000_0000, n % 0x2000_0000;
    var top, rest := high / TWO32, high % TWO32;
    assert n * 8 == high * TWO32 + 8 * low && (n * 8) % TWO32 == 8 * low;
    assert n * 8 == top * TWO64 + (rest * TWO32 + 8 * low);
  }

  lemma WordValue(x: int)
    requires 0 <= x < TWO32
    ensures (x / 0x100_0000) % 256 * 0x100_0000 + (x / 0x1_0000) % 256 * 0x1_0000 + (x / 0x100) % 256 * 0x100 + x % 256 == x
  {
    var a, b, c := x / 0x100, x / 0x1_0000, x / 0x100_0000;
    assert x == 256 * a + x % 256;
    assert a == 256 * b + a % 256;
    assert b == 256 * c + b % 256;
  }

  lemma BeEight(a: int, b: int, c: int, d: int, e: int, f: int, g: int, h: int)
    ensures Be([a, b, c, d] + [e, f, g, h])
      == (a * 0x100_0000 + b * 0x1_0000 + c * 0x100 + d) * TWO32 + e * 0x100_0000 + f * 0x1_0000 + g * 0x100 + h
  {
    assert [a, b, c, d] + [e, f, g, h] == [a, b, c, d, e, f, g, h];
    BeSnoc([a, b, c, d, e, f, g], h);
    BeSnoc([a, b, c, d, e, f], g);
    BeSnoc([a, b, c, d, e], f);
    BeSnoc([a, b, c, d], e);
    BeSnoc([a, b, c], d);
    BeSnoc([a, b], c);
    BeSnoc([a], b);
    BeSnoc([], a);
    assert [a, b, c, d, e, f, g] + [h] == [a, b, c, d, e, f, g, h] && [a, b, c, d, e, f] + [g] == [a, b, c, d, e, f, g];
    assert [a, b, c, d, e] + [f] == [a, b, c, d, e, f] && [a, b, c, d] + [e] == [a, b, c, d, e] && [a, b, c] + [d] == [a, b, c, d];
    assert [a, b] + [c] == [a, b, c] && [a] + [b] == [a, b] && [] + [a] == [a];
  }

  // ---------- the streaming state ----------

  class Hash {
    const c: Core
    var s: State
    const buf: array<int>
    var bytes: nat
    /** Everything written so far. */
    ghost var msg: seq<int>

    /** State, byte count and the live part of the buffer are determined by what was written. */
    ghost predicate Valid()
      reads this, buf
    {
      && buf.Length == 64 && bytes == |msg|
      && s == Absorb(c, c.initial, Whole(msg))
      && buf[..bytes % 64] == Rest(msg)
    }

    constructor (core: Core)
      ensures Valid() && c == core && msg == [] && fresh(buf)
    {
      c := core;
      s := core.initial;
      buf := new int[64];
      bytes := 0;
      msg := [];
    }

    /** Append data, processing every block as it fills. */
    method Write(data: seq<int>)
      requires Valid() && bytes + |data| < TWO64
      modifies this, buf
      ensures Valid() && msg == old(msg) + data
    {
      hide Absorb, Whole, Rest;
      var bufsize := bytes % 64;
      bytes := bytes + |data|;
      ghost var before := msg;
      msg := before + data;
      assert before + data[..0] == before;
      var rest;
      ghost var pos;
      rest, bufsize, pos := FillBlocks(data, bufsize, before);
      if |rest| > 0 {
        CopyIn(bufsize, rest);
      }
      LastChunk(before, data, pos, bufsize);
    }

    /** Process blocks as long as the data fills them; what is left over does not. */
    method FillBlocks(data: seq<int>, start: nat, ghost before: seq<int>) returns (rest: seq<int>, bufsize: nat, ghost pos: nat)
      requires buf.Length == 64 && start == |before| % 64
      requires s == Absorb(c, c.initial, Whole(before)) && buf[..start] == Rest(before)
      modifies this`s, buf
      ensures pos <= |data| && rest == data[pos..] && bufsize == (|before| + pos) % 64 && |rest| < 64 - bufsize
      ensures s == Absorb(c, c.initial, Whole(before + data[..pos])) && buf[..bufsize] == Rest(before + data[..pos])
    {
      hide Absorb, Whole, Rest;
      rest, bufsize, pos := data, start, 0;
      assert before + data[..0] == before;
      while |rest| >= 64 - bufsize
        invariant 0 <= bufsize < 64 && 0 <= pos <= |data| && rest == data[pos..] && bufsize == (|before| + pos) % 64
        invariant s == Absorb(c, c.initial, Whole(before + data[..pos])) && buf[..bufsize] == Rest(before + data[..pos])
        decreases |rest|
      {
        var chunk := 64 - bufsize;
        NextChunk(before, data, pos, chunk);
        FillBlock(bufsize, rest[..chunk], before + data[..pos]);
        rest := rest[chunk..];
        pos := pos + chunk;
        bufsize := 0;
      }
    }

    /** Complete the buffer with a chunk and process it. */
    method FillBlock(bufsize: nat, chunk: seq<int>, ghost before: seq<int>)
      requires buf.Length == 64 && bufsize == |before| % 64 && |chunk| == 64 - bufsize
      requires s == Absorb(c, c.initial, Whole(before)) && buf[..bufsize] == Rest(before)
      modifies this`s, buf
      ensures s == Absorb(c, c.initial, Whole(before + chunk)) && Rest(before + chunk) == []
    {
      hide Absorb, Whole, Rest;
      CopyIn(bufsize, chunk);
      assert buf[..] == buf[..64];
      BlockComplete(before, chunk);
      AbsorbBlock(c, c.initial, Whole(before), buf[..]);
      s := c.transform(s, buf[..]);
    }

    /** Copy into the buffer from a position. */
    method CopyIn(off: nat, data: seq<int>)
      requires off + |data| <= buf.Length
      modifies buf
      ensures buf[..off + |data|] == old(buf[..off]) + data
    {
      forall i | 0 <= i < |data| {
        buf[off + i] := data[i];
      }
    }

    /** Pad, append the length and read out the digest; the state words are left cleared. */
    method Finalize() returns (out: seq<int>)
      requires Valid() && bytes + 128 < TWO64
      modifies this, buf
      ensures out == c.out(Absorb(c, c.initial, Padded(old(msg))))
      ensures |s| == 8 && (forall i :: 0 <= i < 8 ==> s[i] == 0) && bytes == |Padded(old(msg))|
    {
      hide Absorb, Whole, Rest, BitLength;
      ghost var m := msg;
      var sizedesc := BitLength(bytes);
      var pad := [0x80] + Zeros(63);
      PadPrefix((119 - bytes % 64) % 64);
      Write(pad[..1 + (119 - bytes % 64) % 64]);
      Write(sizedesc);
      PaddedWhole(m);
      out := c.out(s);
      s := Zeros(8);
    }

    /** Start again, as if nothing had been written. */
    method Initialize()
      requires buf.Length == 64
      modifies this
      ensures Valid() && msg == []
    {
      s := c.initial;
      bytes := 0;
      msg := [];
    }

    /** Restart with the digest of a tag written twice. */
    method InitializeTagged(tag: seq<int>)
      requires buf.Length == 64 && |tag| + 128 < TWO64 && |c.out(Absorb(c, c.initial, Padded(tag)))| == 32
      modifies this, buf
      ensures Valid() && var digest := c.out(Absorb(c, c.initial, Padded(tag))); msg == digest + digest
    {
      Initialize();
      Write(tag);
      assert [] + tag == tag;
      var digest := Finalize();
      Initialize();
      Write(digest);
      assert [] + digest == digest;
      Write(digest);
    }
  }

  /** The block that a chunk completes. */
  lemma BlockComplete(before: seq<int>, chunk: seq<int>)
    requires |chunk| == 64 - |before| % 64
    ensures |Whole(before)| % 64 == 0 && |Rest(before) + chunk| == 64
    ensures Whole(before + chunk) == Whole(before) + (Rest(before) + chunk) && Rest(before + chunk) == []
  {
  }

  lemma NextChunk(old': seq<int>, data: seq<int>, pos: nat, chunk: nat)
    requires pos + chunk <= |data|
    ensures old' + data[..pos + chunk] == (old' + data[..pos]) + data[pos..][..chunk]
    ensures data[pos..][chunk..] == data[pos + chunk..]
    ensures |old' + data[..pos]| == |old'| + pos
  {
  }

  /** What remains stays in the buffer. */
  lemma LastChunk(old': seq<int>, data: seq<int>, pos: nat, bufsize: nat)
    requires pos <= |data| && bufsize == (|old'| + pos) % 64 && |data| - pos < 64 - bufsize
    ensures Whole(old' + data) == Whole(old' + data[..pos])
    ensures Rest(old' + data) == Rest(old' + data[..pos]) + data[pos..]
    ensures (|old'| + |data|) % 64 == bufsize + (|data| - pos)
    ensures pos == |data| ==> data[pos..] == [] && Rest(old' + data[..pos]) + data[pos..] == Rest(old' + data[..pos])
  {
    var before := old' + data[..pos];
    assert data == data[..pos] + data[pos..];
    Longer(before, data[pos..]);
    assert old' + data == before + data[pos..];
  }

  /** Bytes that complete no block add to the rest. */
  lemma Longer(before: seq<int>, more: seq<int>)
    requires |more| < 64 - |before| % 64
    ensures Whole(before + more) == Whole(before) && Rest(before + more) == Rest(before) + more
  {
    var m := before + more;
    assert |m| % 64 == |before| % 64 + |more|;
    assert |m| - |m| % 64 == |before| - |before| % 64;
  }

  lemma PadPrefix(k: nat)
    requires k <= 63
    ensures ([0x80] + Zeros(63))[..1 + k] == [0x80] + Zeros(k)
  {
  }

  lemma PaddedWhole(m: seq<int>)
    ensures Whole(Padded(m)) == Padded(m)
  {
    ZeroBytesLeast(|m|, ZeroBytes(|m|));
    assert |Padded(m)| % 64 == 0;
  }

  /** However a message is cut into chunks, writing them reaches the state of one write of the whole. */
  method WriteAll(h: Hash, chunks: seq<seq<int>>)
    requires h.Valid() && h.bytes + |Flat(chunks)| < TWO64
    modifies h, h.buf
    ensures h.Valid() && h.msg == old(h.msg) + Flat(chunks)
  {
    hide Absorb, Whole, Rest;
    var i := 0;
    assert old(h.msg) + Flat([]) == h.msg;
    assert chunks[..0] == [];
    while i < |chunks|
      invariant 0 <= i <= |chunks| && h.Valid() && h.msg == old(h.msg) + Flat(chunks[..i])
    {
      FlatSnoc(chunks[..i], chunks[i]);
      assert chunks[..i + 1] == chunks[..i] + [chunks[i]];
      FlatPrefix(chunks, i + 1);
      Append(old(h.msg), Flat(chunks[..i]), chunks[i]);
      h.Write(chunks[i]);
      i := i + 1;
    }
    assert chunks[..i] == chunks;
  }

  lemma Append(x: seq<int>, y: seq<int>, z: seq<int>)
    ensures (x + y) + z == x + (y + z)
  {
  }

  function Flat(chunks: seq<seq<int>>): seq<int> {
    if |chunks| == 0 then [] else chunks[0] + Flat(chunks[1..])
  }

  lemma {:induction false} FlatSnoc(chunks: seq<seq<int>>, x: seq<int>)
    ensures Flat(chunks + [x]) == Flat(chunks) + x
  {
    if |chunks| == 0 {
      assert (chunks + [x])[1..] == [];
    } else {
      FlatSnoc(chunks[1..], x);
      assert (chunks + [x])[1..] == chunks[1..] + [x];
    }
  }

  lemma {:induction false} FlatPrefix(chunks: seq<seq<int>>, n: nat)
    requires n <= |chunks|
    ensures |Flat(chunks[..n])| <= |Flat(chunks)|
    decreases |chunks|
  {
    if n > 0 {
      FlatPrefix(chunks[1..], n - 1);
      assert chunks[..n][1..] == chunks[1..][..n - 1];
    }
  }

  /** Two streams that were given the same bytes agree in all that matters later: state, count and live buffer. */
  lemma SameBytesSameState(h: Hash, g: Hash)
    requires h.Valid() && g.Valid() && h.c == g.c && h.msg == g.msg
    ensures h.s == g.s && h.bytes == g.bytes && h.buf[..h.bytes % 64] == g.buf[..g.bytes % 64]
  {
  }
}
