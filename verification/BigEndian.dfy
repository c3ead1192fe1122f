/** Big-endian byte strings. */
module BigEndian {
  import opened Integers

  predicate Byte(x: int) {
    0 <= x < 256
  }

  predicate Bytes(b: seq<int>) {
    forall i :: 0 <= i < |b| ==> Byte(b[i])
  }

  /** Big-endian value */
  function Be(b: seq<int>): int {
    if |b| == 0 then 0 else 256 * Be(b[..|b| - 1]) + b[|b| - 1]
  }

  lemma BeSnoc(b: seq<int>, x: int)
    ensures Be(b + [x]) == 256 * Be(b) + x
  {
  }

  /** The n low octets of a number */
  function Octets(v: nat, n: nat): (b: seq<int>)
    ensures |b| == n && Bytes(b)
  {
    if n == 0 then [] else Octets(v / 256, n - 1) + [v % 256]
  }

  /** Enough octets give the number back. */
  lemma {:induction false} OctetsValue(v: nat, n: nat)
    requires v < Pow2(8 * n)
    ensures Be(Octets(v, n)) == v
    decreases n
  {
    if n > 0 {
      assert Pow2(8) == 256 by {
        assert Pow2(4) == 16;
        assert Pow2(8) == 16 * Pow2(4);
      }
      Pow2Add(8, 8 * (n - 1));
      QuotientBelow(v, Pow2(8 * (n - 1)));
      OctetsValue(v / 256, n - 1);
      var b := Octets(v, n);
      assert b[..n - 1] == Octets(v / 256, n - 1);
    }
  }

  lemma QuotientBelow(v: nat, p: int)
    requires v < 256 * p
    ensures v / 256 < p
  {
  }
}
