/** Powers modulo m, two bits of the exponent at a time, each step checked by one remainder. */
module PowerChains {
  import opened Integers
  import opened Primes

  ghost predicate PowerIs(m: int, b: int, e: nat, v: int) {
    m > 0 && Cong(Power(b, e), v, m)
  }

  /** The powers for one digit of the exponent */
  lemma FirstPowers(m: int, b: int, p: int, q: int)
    requires m > 0 && (b * b) % m == p && (p * b) % m == q
    ensures PowerIs(m, b, 0, 1) && PowerIs(m, b, 1, b) && PowerIs(m, b, 2, p) && PowerIs(m, b, 3, q)
  {
    CongIntro(1, 1, m, 0);
    CongIntro(b, b, m, 0);
    assert Power(b, 1) == b * Power(b, 0);
    OneMore(m, b, 1, b, p);
    OneMore(m, b, 2, p, q);
  }

  lemma OneMore(m: int, b: int, e: nat, v: int, w: int)
    requires m > 0 && PowerIs(m, b, e, v) && (v * b) % m == w
    ensures PowerIs(m, b, e + 1, w)
  {
    hide Cong;
    CongIntro(b, b, m, 0);
    CongMul(b, b, Power(b, e), v, m);
    assert b * v == v * b;
    CongMod(v * b, m);
    CongSym(w, v * b, m);
    CongTrans(Power(b, e + 1), v * b, w, m);
  }

  /** One digit more. */
  lemma Climb(m: int, b: int, e: nat, v: int, d: nat, p: int, w: int) returns (e': nat, v': int)
    requires PowerIs(m, b, e, v) && PowerIs(m, b, d, p)
    requires (var x := v * v; x * x * p) % m == w
    ensures e' == 4 * e + d && v' == w && PowerIs(m, b, e', v')
  {
    hide Cong, Power;
    e', v' := 4 * e + d, w;
    PowerPower(b, e, 4);
    PowerCong(Power(b, e), v, 4, m);
    PowerAdd(b, e * 4, d);
    CongMul(Power(Power(b, e), 4), Power(v, 4), Power(b, d), p, m);
    FourthPower(v);
    var z := Power(v, 4) * p;
    CongMod(z, m);
    CongSym(w, z, m);
    CongTrans(Power(b, e'), z, w, m);
  }

  lemma FourthPower(v: int)
    ensures var x := v * v; Power(v, 4) == x * x
  {
    assert Power(v, 1) == v * Power(v, 0);
    assert Power(v, 2) == v * Power(v, 1);
    PowerAdd(v, 2, 2);
  }

  /** A power of a power. */
  lemma PowerOfPower(m: int, b: int, e: nat, v: int, f: nat, w: int)
    requires PowerIs(m, b, e, v) && PowerIs(m, v, f, w)
    ensures PowerIs(m, b, e * f, w)
  {
    hide Cong, Power;
    PowerPower(b, e, f);
    PowerCong(Power(b, e), v, f, m);
    CongTrans(Power(b, e * f), Power(v, f), w, m);
  }
}
