/** DER encoding and parsing of signatures (sections 8.1.3, 8.3 and 10.1 of ITU-T X.690). */
module Der {
  import opened BigEndian
  import opened Integers
  import opened Recoding

  /** The shortest big-endian bytes of a number; one byte for 0 */
  function Shortest(n: nat): (b: seq<int>)
    ensures |b| >= 1 && Bytes(b)
  {
    if n < 256 then [n] else Shortest(n / 256) + [n % 256]
  }

  lemma {:induction false} ShortestValue(n: nat)
    ensures Be(Shortest(n)) == n
    ensures n > 0 ==> Shortest(n)[0] != 0
    ensures n >= 256 ==> |Shortest(n)| >= 2
  {
    if n >= 256 {
      ShortestValue(n / 256);
      var b := Shortest(n);
      assert b[..|b| - 1] == Shortest(n / 256);
    } else {
      assert [n][..0] == [];
    }
  }

  lemma {:induction false} BeNonnegative(b: seq<int>)
    requires Bytes(b)
    ensures Be(b) >= 0
    ensures |b| > 0 && b[0] != 0 ==> Be(b) > 0
  {
    if |b| > 0 {
      BeNonnegative(b[..|b| - 1]);
      if |b| == 1 {
        assert b[..0] == [];
      }
    }
  }

  /** No leading zero: the shortest form, and the only one. */
  lemma {:induction false} ShortestUnique(b: seq<int>)
    requires Bytes(b) && |b| >= 1 && (b[0] != 0 || |b| == 1)
    ensures Be(b) >= 0 && b == Shortest(Be(b))
  {
    var n := |b| - 1;
    BeNonnegative(b);
    assert b == b[..n] + [b[n]];
    if n == 0 {
      assert b[..0] == [];
      assert Be(b) == b[0];
    } else {
      BeNonnegative(b[..n]);
      ShortestUnique(b[..n]);
      DivModSwap(Be(b), 256, Be(b[..n]), b[n]);
    }
  }

  lemma {:induction false} BeBound(b: seq<int>)
    requires Bytes(b)
    ensures Be(b) < Pow2(8 * |b|)
  {
    if |b| > 0 {
      var n := |b| - 1;
      BeBound(b[..n]);
      assert Pow2(8) == 256 by {
        assert Pow2(4) == 16;
        assert Pow2(8) == 16 * Pow2(4);
      }
      Pow2Add(8, 8 * n);
    }
  }

  lemma {:induction false} BeLower(b: seq<int>)
    requires Bytes(b) && |b| >= 1 && b[0] != 0
    ensures Be(b) >= Pow2(8 * (|b| - 1))
  {
    var n := |b| - 1;
    if n == 0 {
      assert b[..0] == [];
      assert Pow2(0) == 1;
    } else {
      BeLower(b[..n]);
      assert Pow2(8) == 256 by {
        assert Pow2(4) == 16;
        assert Pow2(8) == 16 * Pow2(4);
      }
      Pow2Add(8, 8 * (n - 1));
      assert b[..n][0] == b[0];
    }
  }

  lemma ZeroInFront(b: seq<int>)
    ensures Be([0] + b) == Be(b)
    decreases |b|
  {
    if |b| == 0 {
      assert ([0] + b)[..0] == [];
    } else {
      ZeroInFront(b[..|b| - 1]);
      assert ([0] + b)[..|b|] == [0] + b[..|b| - 1];
    }
  }

  // ---------- lengths ----------

  /** The shortest length octets: one octet below 128, else their number and the number. */
  function EncodeLen(len: nat): (e: seq<int>)
    ensures |e| >= 1
  {
    if len < 128 then [len] else [128 + |Shortest(len)|] + Shortest(len)
  }

  /** The octets from pos to end are a length; a long one does not reach past the end of the input. */
  ghost predicate LenAt(sig: seq<int>, pos: nat, len: nat, end: nat) {
    && pos < end <= |sig| && len < TWO64
    && sig[pos..end] == EncodeLen(len)
    && (len >= 128 ==> len <= |sig| - end)
  }

  /** Eight octets hold every number below 2^64. */
  lemma LenOctets(len: nat)
    requires 128 <= len < TWO64
    ensures 1 <= |Shortest(len)| <= 8
  {
    ShortestValue(len);
    var b := Shortest(len);
    if |b| > 8 {
      BeLower(b);
      Pow2Monotone(64, 8 * (|b| - 1));
      Pow2At64();
    }
  }

  /** What a length at pos looks like, octet by octet. */
  lemma LenForm(sig: seq<int>, pos: nat, len: nat, end: nat)
    requires LenAt(sig, pos, len, end)
    ensures if len < 128 then sig[pos] == len && end == pos + 1
      else var k := |Shortest(len)|;
        1 <= k <= 8 && sig[pos] == 128 + k && end == pos + 1 + k && sig[pos + 1..end] == Shortest(len) && sig[pos + 1] != 0
  {
    var e := sig[pos..end];
    assert e[0] == sig[pos];
    if len >= 128 {
      LenOctets(len);
      ShortestValue(len);
      assert e[1..] == Shortest(len) && e[1..] == sig[pos + 1..end];
    }
  }

  /** A length can be read in one way only. */
  lemma LenUnique(sig: seq<int>, pos: nat, len: nat, end: nat, len': nat, end': nat)
    requires LenAt(sig, pos, len, end) && LenAt(sig, pos, len', end')
    ensures len == len' && end == end'
  {
    LenForm(sig, pos, len, end);
    LenForm(sig, pos, len', end');
    if len >= 128 && len' >= 128 {
      ShortestValue(len);
      ShortestValue(len');
    }
  }

  method ReadLen(sig: seq<int>, sigp: nat) returns (ok: bool, len: nat, end: nat)
    requires Bytes(sig) && sigp <= |sig|
    ensures ok ==> LenAt(sig, sigp, len, end) && sigp < end <= |sig|
    ensures !ok ==> forall l: nat, e: nat :: !LenAt(sig, sigp, l, e)
  {
    hide Be, LenAt;
    ok, len, end := false, 0, sigp;
    if end >= |sig| {
      NoOctets(sig, sigp);
      return;
    }
    var b1 := sig[end];
    end := end + 1;
    if b1 < 128 {
      len := b1;
      ShortLen(sig, sigp, len);
      ok := true;
      return;
    }
    if b1 == 255 || b1 == 128 {
      NoLength(sig, sigp);
      return;
    }
    var lenleft := b1 - 128;
    if lenleft > |sig| - end {
      NoLength(sig, sigp);
      return;
    }
    if sig[end] == 0 {
      NoLength(sig, sigp);
      return;
    }
    if lenleft > 8 {
      NoLength(sig, sigp);
      return;
    }
    ghost var first, k := end, lenleft;
    EmptyBe(sig[first..first]);
    while lenleft > 0
      invariant 0 <= lenleft <= k && end == first + (k - lenleft) && 0 <= len == Be(sig[first..end])
    {
      BeSnoc(sig[first..end], sig[end]);
      assert sig[first..end + 1] == sig[first..end] + [sig[end]];
      len := len * 256 + sig[end];
      end := end + 1;
      lenleft := lenleft - 1;
    }
    LongLength(sig, sigp, k);
    ok := len <= |sig| - end && len >= 128;
  }

  lemma NoOctets(sig: seq<int>, pos: nat)
    requires pos >= |sig|
    ensures forall l: nat, e: nat :: !LenAt(sig, pos, l, e)
  {
  }

  lemma EmptyBe(b: seq<int>)
    requires b == []
    ensures Be(b) == 0
  {
  }

  /** Nothing else is a length: the first octet decides its form. */
  lemma NoLength(sig: seq<int>, pos: nat)
    requires pos < |sig| && sig[pos] >= 128
    requires sig[pos] == 255 || sig[pos] == 128 || sig[pos] - 128 > |sig| - pos - 1 || sig[pos + 1] == 0 || sig[pos] - 128 > 8
    ensures forall l: nat, e: nat :: !LenAt(sig, pos, l, e)
  {
    forall l: nat, e: nat
      ensures !LenAt(sig, pos, l, e)
    {
      if LenAt(sig, pos, l, e) {
        LenForm(sig, pos, l, e);
      }
    }
  }

  lemma LongLength(sig: seq<int>, pos: nat, k: nat)
    requires Bytes(sig) && 1 <= k <= 8 && pos + 1 + k <= |sig| && sig[pos] == 128 + k && sig[pos + 1] != 0
    ensures var len, end := Be(sig[pos + 1..pos + 1 + k]), pos + 1 + k;
      && len >= 0
      && (128 <= len <= |sig| - end ==> LenAt(sig, pos, len, end))
      && (!(128 <= len <= |sig| - end) ==> forall l: nat, e: nat :: !LenAt(sig, pos, l, e))
  {
    hide Be, Shortest, Pow2;
    var b, end := sig[pos + 1..pos + 1 + k], pos + 1 + k;
    LongValue(b);
    assert b[0] == sig[pos + 1];
    var len := Be(b);
    assert sig[pos..end] == [sig[pos]] + b;
    forall l: nat, e: nat | LenAt(sig, pos, l, e)
      ensures 128 <= len <= |sig| - end
    {
      LenForm(sig, pos, l, e);
      ShortestValue(l);
    }
  }

  lemma LongValue(b: seq<int>)
    requires Bytes(b) && 1 <= |b| <= 8 && b[0] != 0
    ensures 0 <= Be(b) < TWO64 && b == Shortest(Be(b))
  {
    hide Pow2;
    ShortestUnique(b);
    BeBound(b);
    Pow2Monotone(8 * |b|, 64);
    Pow2At64();
  }

  // ---------- integers ----------

  /** The contents octets of a DER integer: at least one, and not nine equal leading bits. */
  predicate DerInteger(c: seq<int>) {
    && |c| >= 1
    && !(c[0] == 0 && |c| > 1 && c[1] < 128)
    && !(c[0] == 255 && |c| > 1 && c[1] >= 128)
  }

  predicate InRange(c: seq<int>) {
    |c| >= 1 && c[0] < 128 && Be(c) < N
  }

  /** What the parser stores: the number, or zero when it is negative or not below N. */
  function Stored(c: seq<int>): int {
    if InRange(c) then Be(c) else 0
  }

  /** An integer from pos to end, with contents from mid. */
  ghost predicate IntAt(sig: seq<int>, pos: nat, mid: nat, end: nat) {
    && pos < mid < end <= |sig| && sig[pos] == 2
    && LenAt(sig, pos + 1, end - mid, mid)
    && DerInteger(sig[mid..end])
  }

  lemma IntUnique(sig: seq<int>, pos: nat, mid: nat, end: nat, mid': nat, end': nat)
    requires IntAt(sig, pos, mid, end) && IntAt(sig, pos, mid', end')
    ensures mid == mid' && end == end'
  {
    LenUnique(sig, pos + 1, end - mid, mid, end' - mid', mid');
  }

  /** In-range contents fit 32 octets once a leading zero is dropped. */
  lemma ContentSize(c: seq<int>)
    requires Bytes(c) && DerInteger(c) && c[0] < 128
    ensures var d := if c[0] == 0 then c[1..] else c;
      Be(d) == Be(c) && (|d| > 32 ==> Be(c) >= N)
  {
    var d := if c[0] == 0 then c[1..] else c;
    if c[0] == 0 {
      ZeroInFront(c[1..]);
      assert c == [0] + c[1..];
    }
    if |d| > 32 {
      BeLower(d);
      Pow2Monotone(256, 8 * (|d| - 1));
      Pow2At256();
    }
  }

  /** The number, right-aligned in 32 octets. */
  lemma {:induction false} Padded(z: nat, d: seq<int>)
    ensures Be(Zeros(z) + d) == Be(d)
    decreases z
  {
    if z == 0 {
      assert Zeros(0) + d == d;
    } else {
      Padded(z - 1, d);
      ZeroInFront(Zeros(z - 1) + d);
      assert Zeros(z) + d == [0] + (Zeros(z - 1) + d);
    }
  }

  method ParseInteger(sig: seq<int>, pos: nat) returns (ok: bool, r: int, end: nat, ghost mid: nat)
    requires Bytes(sig) && |sig| < TWO64 && pos <= |sig|
    ensures ok ==> IntAt(sig, pos, mid, end) && r == Stored(sig[mid..end])
    ensures !ok ==> forall m: nat, e: nat :: !IntAt(sig, pos, m, e)
  {
    hide Pow2, Be, LenAt;
    ok, r, end, mid := false, 0, pos, pos;
    if end == |sig| || sig[end] != 2 {
      return;
    }
    end := end + 1;
    var fine, rlen;
    fine, rlen, end := ReadLen(sig, end);
    if !fine {
      return;
    }
    mid := end;
    OnlyInteger(sig, pos, rlen, mid);
    if rlen == 0 || end + rlen > |sig| {
      return;
    }
    ghost var c := sig[mid..mid + rlen];
    assert c[0] == sig[end] && (rlen > 1 ==> c[1] == sig[end + 1]);
    if sig[end] == 0 && rlen > 1 && sig[end + 1] < 128 {
      return;
    }
    if sig[end] == 255 && rlen > 1 && sig[end + 1] >= 128 {
      return;
    }
    var overflow := sig[end] >= 128;
    if !overflow {
      ContentSize(c);
    }
    if rlen > 0 && sig[end] == 0 {
      // at most one leading zero octet is left
      rlen := rlen - 1;
      end := end + 1;
      assert sig[end..end + rlen] == c[1..];
    }
    ghost var d := if c[0] == 0 then c[1..] else c;
    assert sig[end..end + rlen] == d && mid + |c| == end + rlen;
    if rlen > 32 {
      overflow := true;
    }
    if !overflow {
      var ra := Zeros(32 - rlen) + sig[end..end + rlen];
      Padded(32 - rlen, sig[end..end + rlen]);
      BeNonnegative(sig[end..end + rlen]);
      r := Be(ra);
      if r >= N {
        overflow := true;
      }
    }
    if overflow {
      r := 0;
    }
    end := end + rlen;
    assert sig[mid..end] == c;
    ok := true;
  }

  /** With the length known, only one place is left for the contents. */
  lemma OnlyInteger(sig: seq<int>, pos: nat, len: nat, mid: nat)
    requires LenAt(sig, pos + 1, len, mid)
    ensures forall m: nat, e: nat :: IntAt(sig, pos, m, e) ==> m == mid && e == mid + len
  {
    forall m: nat, e: nat | IntAt(sig, pos, m, e)
      ensures m == mid && e == mid + len
    {
      LenUnique(sig, pos + 1, len, mid, e - m, m);
    }
  }

  // ---------- signatures ----------

  /** A sequence of two integers that fill the input. */
  ghost predicate SigAt(sig: seq<int>, m0: nat, m1: nat, e1: nat, m2: nat) {
    && |sig| >= 1 && sig[0] == 0x30 && m0 <= |sig| && LenAt(sig, 1, |sig| - m0, m0)
    && IntAt(sig, m0, m1, e1) && IntAt(sig, e1, m2, |sig|)
  }

  /** The input is such a sequence, and these are the numbers it stands for. */
  ghost predicate Parses(sig: seq<int>, r: int, s: int) {
    exists m0: nat, m1: nat, e1: nat, m2: nat :: SigAt(sig, m0, m1, e1, m2) && r == Stored(sig[m1..e1]) && s == Stored(sig[m2..])
  }

  method SigParse(sig: seq<int>) returns (ok: bool, r: int, s: int)
    requires Bytes(sig) && |sig| < TWO64
    ensures ok ==> Parses(sig, r, s)
    ensures !ok ==> forall r', s' :: !Parses(sig, r', s')
  {
    hide IntAt, LenAt, Stored;
    ok, r, s := false, 0, 0;
    if |sig| == 0 || sig[0] != 0x30 {
      return;
    }
    var fine, rlen, pos := ReadLen(sig, 1);
    if !fine {
      return;
    }
    ghost var m0 := pos;
    OnlyBody(sig, rlen, m0);
    if rlen != |sig| - pos {
      return;
    }
    ghost var m1, m2;
    fine, r, pos, m1 := ParseInteger(sig, pos);
    if !fine {
      return;
    }
    ghost var e1 := pos;
    OnlyFirst(sig, m0, m1, e1);
    fine, s, pos, m2 := ParseInteger(sig, pos);
    if !fine {
      return;
    }
    OnlySecond(sig, e1, m2, pos);
    if pos != |sig| {
      return;
    }
    assert sig[m2..pos] == sig[m2..];
    assert SigAt(sig, m0, m1, e1, m2);
    ok := true;
  }

  lemma OnlyBody(sig: seq<int>, len: nat, mid: nat)
    requires LenAt(sig, 1, len, mid)
    ensures mid <= |sig|
    ensures forall p0: nat, p1: nat, q1: nat, p2: nat :: SigAt(sig, p0, p1, q1, p2) ==> p0 == mid && len == |sig| - mid
  {
    forall p0: nat, p1: nat, q1: nat, p2: nat | SigAt(sig, p0, p1, q1, p2)
      ensures p0 == mid && len == |sig| - mid
    {
      LenUnique(sig, 1, len, mid, |sig| - p0, p0);
    }
  }

  lemma OnlyFirst(sig: seq<int>, m0: nat, m1: nat, e1: nat)
    requires IntAt(sig, m0, m1, e1)
    ensures e1 <= |sig|
    ensures forall p1: nat, q1: nat, p2: nat :: SigAt(sig, m0, p1, q1, p2) ==> p1 == m1 && q1 == e1
  {
    forall p1: nat, q1: nat, p2: nat | SigAt(sig, m0, p1, q1, p2)
      ensures p1 == m1 && q1 == e1
    {
      IntUnique(sig, m0, m1, e1, p1, q1);
    }
  }

  lemma OnlySecond(sig: seq<int>, e1: nat, m2: nat, end: nat)
    requires IntAt(sig, e1, m2, end)
    ensures m2 <= end <= |sig|
    ensures end != |sig| ==> forall p: nat :: !IntAt(sig, e1, p, |sig|)
  {
    forall p: nat | IntAt(sig, e1, p, |sig|)
      ensures end == |sig|
    {
      IntUnique(sig, e1, m2, end, p, |sig|);
    }
  }

  /** Nothing parses without the tags and lengths of a sequence of two integers that fill the input. */
  lemma ParsesFramed(sig: seq<int>, r: int, s: int) returns (m0: nat, m1: nat, e1: nat, m2: nat)
    requires Parses(sig, r, s)
    ensures 1 < m0 < m1 <= e1 < m2 <= |sig| && sig[0] == 0x30 && sig[m0] == 2 && sig[e1] == 2
    ensures LenAt(sig, 1, |sig| - m0, m0) && LenAt(sig, m0 + 1, e1 - m1, m1) && LenAt(sig, e1 + 1, |sig| - m2, m2)
  {
    m0, m1, e1, m2 :| SigAt(sig, m0, m1, e1, m2) && r == Stored(sig[m1..e1]) && s == Stored(sig[m2..]);
  }

  /** Octet by octet: integers whose first nine bits are equal are refused, and numbers out of range come back as 0. */
  lemma ParsesExactly(sig: seq<int>, m0: nat, m1: nat, e1: nat, m2: nat, r: int, s: int)
    requires 1 < m0 < m1 <= e1 < m2 <= |sig| && sig[0] == 0x30 && sig[m0] == 2 && sig[e1] == 2
    requires LenAt(sig, 1, |sig| - m0, m0) && LenAt(sig, m0 + 1, e1 - m1, m1) && LenAt(sig, e1 + 1, |sig| - m2, m2)
    ensures Parses(sig, r, s) <==>
      && m1 < e1 && m2 < |sig|
      && !(e1 - m1 >= 2 && ((sig[m1] == 0 && sig[m1 + 1] < 128) || (sig[m1] == 255 && sig[m1 + 1] >= 128)))
      && !(|sig| - m2 >= 2 && ((sig[m2] == 0 && sig[m2 + 1] < 128) || (sig[m2] == 255 && sig[m2 + 1] >= 128)))
      && r == (if sig[m1] < 128 && Be(sig[m1..e1]) < N then Be(sig[m1..e1]) else 0)
      && s == (if sig[m2] < 128 && Be(sig[m2..]) < N then Be(sig[m2..]) else 0)
  {
    hide Be, LenAt;
    assert sig[m2..] == sig[m2..|sig|];
    forall p0: nat, p1: nat, q1: nat, p2: nat | SigAt(sig, p0, p1, q1, p2)
      ensures p0 == m0 && p1 == m1 && q1 == e1 && p2 == m2
    {
      LenUnique(sig, 1, |sig| - m0, m0, |sig| - p0, p0);
      LenUnique(sig, m0 + 1, e1 - m1, m1, q1 - p1, p1);
      LenUnique(sig, e1 + 1, |sig| - m2, m2, |sig| - p2, p2);
    }
    assert Parses(sig, r, s) <==> SigAt(sig, m0, m1, e1, m2) && r == Stored(sig[m1..e1]) && s == Stored(sig[m2..]);
  }

  // ---------- encoding ----------

  /** The contents octets of a number from 0: the shortest ones, with a zero in front of a high bit. */
  function Content(v: nat): (c: seq<int>)
    ensures |c| >= 1 && Bytes(c)
  {
    if Shortest(v)[0] >= 128 then [0] + Shortest(v) else Shortest(v)
  }

  function EncodedInt(v: nat): seq<int> {
    [2] + EncodeLen(|Content(v)|) + Content(v)
  }

  function Encoded(r: nat, s: nat): seq<int> {
    var body := EncodedInt(r) + EncodedInt(s);
    [0x30] + EncodeLen(|body|) + body
  }

  lemma ContentFacts(v: nat)
    ensures DerInteger(Content(v)) && Content(v)[0] < 128 && Be(Content(v)) == v
    ensures v < N ==> |Content(v)| <= 33 && InRange(Content(v))
  {
    ShortestValue(v);
    ZeroInFront(Shortest(v));
    if v < N && |Shortest(v)| > 32 {
      BeLower(Shortest(v));
      Pow2Monotone(256, 8 * (|Shortest(v)| - 1));
      Pow2At256();
    }
    if v == 0 {
      assert Shortest(0) == [0];
    }
  }

  /** The contents octets of a number are determined by it. */
  lemma ContentUnique(c: seq<int>)
    requires Bytes(c) && DerInteger(c) && c[0] < 128
    ensures Be(c) >= 0 && c == Content(Be(c))
  {
    BeNonnegative(c);
    if c[0] == 0 && |c| > 1 {
      ZeroInFront(c[1..]);
      assert c == [0] + c[1..];
      ShortestUnique(c[1..]);
    } else {
      ShortestUnique(c);
    }
  }

  lemma ShortLen(sig: seq<int>, pos: nat, len: nat)
    requires pos < |sig| && len < 128 && sig[pos] == len
    ensures LenAt(sig, pos, len, pos + 1)
  {
  }

  /** An input can be taken apart in one way only. */
  lemma SigUnique(sig: seq<int>, m0: nat, m1: nat, e1: nat, m2: nat, p0: nat, p1: nat, q1: nat, p2: nat)
    requires SigAt(sig, m0, m1, e1, m2) && SigAt(sig, p0, p1, q1, p2)
    ensures m0 == p0 && m1 == p1 && e1 == q1 && m2 == p2
  {
    hide LenAt, IntAt;
    LenUnique(sig, 1, |sig| - m0, m0, |sig| - p0, p0);
    IntUnique(sig, m0, m1, e1, p1, q1);
    IntUnique(sig, e1, m2, |sig|, p2, |sig|);
  }

  lemma EncodingAt(r: nat, s: nat)
    requires r < N && s < N
    ensures var sig := Encoded(r, s);
      var m1 := 4;
      var e1 := 4 + |Content(r)|;
      && Bytes(sig) && SigAt(sig, 2, m1, e1, e1 + 2)
      && Stored(sig[m1..e1]) == r && Stored(sig[e1 + 2..]) == s
  {
    hide Content, Encoded, Be, EncodeLen;
    ContentFacts(r);
    ContentFacts(s);
    var cr, cs, sig := Content(r), Content(s), Encoded(r, s);
    EncodedForm(r, s);
    Pieces(cr, cs, 4 + |cr| + |cs|);
    ShortLen(sig, 1, 4 + |cr| + |cs|);
    ShortLen(sig, 3, |cr|);
    ShortLen(sig, 5 + |cr|, |cs|);
  }

  /** Parsing an encoding: for all r, s below N the parser returns them and nothing else. */
  lemma EncodingParses(r: nat, s: nat)
    requires r < N && s < N
    ensures Bytes(Encoded(r, s)) && forall r', s' :: Parses(Encoded(r, s), r', s') <==> r' == r && s' == s
  {
    hide Content, Encoded, Be, LenAt, Stored;
    EncodingAt(r, s);
    var sig, e1 := Encoded(r, s), 4 + |Content(r)|;
    forall r', s' | Parses(sig, r', s')
      ensures r' == r && s' == s
    {
      var m0: nat, p1: nat, q1: nat, p2: nat :| SigAt(sig, m0, p1, q1, p2) && r' == Stored(sig[p1..q1]) && s' == Stored(sig[p2..]);
      SigUnique(sig, m0, p1, q1, p2, 2, 4, e1, e1 + 2);
    }
  }

  /** Where the parts of an encoding with short lengths are. */
  lemma Pieces(cr: seq<int>, cs: seq<int>, len: int)
    requires Bytes(cr) && Bytes(cs) && |cr| < 128 && |cs| < 128 && 0 <= len < 128
    ensures var sig := [0x30, len, 2, |cr|] + cr + [2, |cs|] + cs;
      && Bytes(sig) && |sig| == 6 + |cr| + |cs|
      && sig[0] == 0x30 && sig[1] == len && sig[2] == 2 && sig[3] == |cr| && sig[4..4 + |cr|] == cr
      && sig[4 + |cr|] == 2 && sig[5 + |cr|] == |cs| && sig[6 + |cr|..] == cs && sig[6 + |cr|..|sig|] == cs
  {
  }

  lemma EncodedForm(r: nat, s: nat)
    requires |Content(r)| <= 33 && |Content(s)| <= 33
    ensures Encoded(r, s) == [0x30, 4 + |Content(r)| + |Content(s)|, 2, |Content(r)|] + Content(r) + [2, |Content(s)|] + Content(s)
  {
    hide Content;
    Layout(|Content(r)|, Content(r), |Content(s)|, Content(s), 4 + |Content(r)| + |Content(s)|);
  }

  lemma Layout(lenR: int, cr: seq<int>, lenS: int, cs: seq<int>, len: int)
    ensures [0x30] + [len] + (([2] + [lenR] + cr) + ([2] + [lenS] + cs)) == [0x30, len, 2, lenR] + cr + [2, lenS] + cs
  {
  }

  /** The parser returns two nonzero numbers for their encoding and for no other input. */
  lemma OnlyEncodingParses(sig: seq<int>, r: nat, s: nat)
    requires Bytes(sig) && 0 < r < N && 0 < s < N
    ensures Parses(sig, r, s) <==> sig == Encoded(r, s)
  {
    hide Content, Encoded, Be, LenAt;
    EncodingParses(r, s);
    if Parses(sig, r, s) {
      var m0: nat, m1: nat, e1: nat, m2: nat :| SigAt(sig, m0, m1, e1, m2) && r == Stored(sig[m1..e1]) && s == Stored(sig[m2..]);
      AcceptedIsEncoding(sig, m0, m1, e1, m2);
    }
  }

  /** Whatever the parser accepts with both numbers in range is the encoding of the two numbers it returns. */
  lemma AcceptedIsEncoding(sig: seq<int>, m0: nat, m1: nat, e1: nat, m2: nat)
    requires Bytes(sig) && SigAt(sig, m0, m1, e1, m2) && InRange(sig[m1..e1]) && InRange(sig[m2..])
    ensures var r, s := Stored(sig[m1..e1]), Stored(sig[m2..]);
      0 <= r < N && 0 <= s < N && sig == Encoded(r, s)
  {
    hide Content, Be, EncodeLen;
    var c, d := sig[m1..e1], sig[m2..];
    assert sig[m2..|sig|] == d;
    ContentUnique(c);
    ContentUnique(d);
    Reassemble(sig, m0, m1, e1, m2);
    assert |EncodedInt(Be(c)) + EncodedInt(Be(d))| == |sig| - m0;
  }

  lemma Reassemble(sig: seq<int>, m0: nat, m1: nat, e1: nat, m2: nat)
    requires 1 <= m0 < m1 <= e1 < m2 <= |sig|
    ensures sig == [sig[0]] + sig[1..m0]
      + (([sig[m0]] + sig[m0 + 1..m1] + sig[m1..e1]) + ([sig[e1]] + sig[e1 + 1..m2] + sig[m2..]))
  {
  }

  // ---------- the serializer ----------

  /** The shortest tail of 33 octets that keeps the sign. */
  method Trim(b: seq<int>) returns (c: seq<int>)
    requires |b| == 33 && Bytes(b) && b[0] == 0
    ensures Be(b) >= 0 && c == Content(Be(b)) && |c| <= 33
  {
    BeNonnegative(b);
    c := b;
    while |c| > 1 && c[0] == 0 && c[1] < 128
      invariant 1 <= |c| <= 33 && Bytes(c) && c[0] < 128 && Be(c) == Be(b)
      decreases |c|
    {
      ZeroInFront(c[1..]);
      assert c == [0] + c[1..];
      c := c[1..];
    }
    ContentUnique(c);
  }

  /** Write the encoding if it fits; its size is returned either way. */
  method SigSerialize(sig: array<int>, size: nat, r: int, s: int) returns (ok: bool, size': nat)
    requires 0 <= r < N && 0 <= s < N && size <= sig.Length
    modifies sig
    ensures size' == |Encoded(r, s)| <= 72
    ensures ok <==> size >= |Encoded(r, s)|
    ensures ok ==> sig[..size'] == Encoded(r, s) && sig[size'..] == old(sig[size'..])
    ensures !ok ==> sig[..] == old(sig[..])
  {
    hide Pow2, Content, Encoded, Be;
    var rp := Minimal(r);
    var sp := Minimal(s);
    var lenR, lenS := |rp|, |sp|;
    EncodedForm(r, s);
    size' := 6 + lenS + lenR;
    if size < size' {
      return false, size';
    }
    ghost var before := sig[..];
    sig[0], sig[1], sig[2], sig[3] := 0x30, 4 + lenS + lenR, 2, lenR;
    Copy(sig, 4, rp);
    sig[4 + lenR] := 2;
    sig[5 + lenR] := lenS;
    Copy(sig, lenR + 6, sp);
    assert sig[4..4 + lenR] == rp;
    Assembled(sig[..], 4 + lenS + lenR, rp, sp);
    assert sig[..][..size'] == sig[..size'];
    assert sig[size'..] == before[size'..];
    ok := true;
  }

  method Minimal(v: int) returns (c: seq<int>)
    requires 0 <= v < N
    ensures c == Content(v) && |c| <= 33
  {
    hide Pow2;
    Pow2At256();
    OctetsValue(v, 32);
    ZeroInFront(Octets(v, 32));
    c := Trim([0] + Octets(v, 32));
  }

  method Copy(a: array<int>, off: nat, data: seq<int>)
    requires off + |data| <= a.Length
    modifies a
    ensures a[off..off + |data|] == data
    ensures forall i :: 0 <= i < off || off + |data| <= i < a.Length ==> a[i] == old(a[i])
  {
    forall i | 0 <= i < |data| {
      a[off + i] := data[i];
    }
  }

  lemma Assembled(a: seq<int>, len: int, cr: seq<int>, cs: seq<int>)
    requires |a| >= 6 + |cr| + |cs| && a[0] == 0x30 && a[1] == len && a[2] == 2 && a[3] == |cr|
    requires a[4..4 + |cr|] == cr && a[4 + |cr|] == 2 && a[5 + |cr|] == |cs| && a[6 + |cr|..6 + |cr| + |cs|] == cs
    ensures a[..6 + |cr| + |cs|] == [0x30, len, 2, |cr|] + cr + [2, |cs|] + cs
  {
  }
}
