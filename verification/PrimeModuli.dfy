/**
 * The moduli of the field and of the scalars are prime. The certificates are powers modulo each prime m; every line gives
 * one power from the power before. With f a prime divisor of m - 1, or the product of two, Root is the power (m - 1) / f
 * of 2, Full its power f, which is 1, and the parts A and B are its powers by one of two factors.
 */
module PrimeModuli {
  import opened Integers
  import opened FieldMul
  import opened Recoding
  import opened PowerChains
  import opened PrimeCriteria
  import opened Primes

  // primes on the way, by their number of bits
  const P9: nat := 419
  const P11: nat := 1871
  const P15: nat := 0x4e91
  const P21B: nat := 0x1269fd
  const P21: nat := 0x18d67b
  const P27: nat := 0x669b171
  const P23: nat := 0x6e7bef
  const P39: nat := 0x4530140875
  const P95: nat := 0x5ddb9f12ef6348a3e23ba5e3
  const P109: nat := 0x10dbff26eab8198050172ee03275
  const P128: nat := 0xc03a94b2d3e64419a05cd8ccbf987069
  const P237: nat := 0x1db8260e5e3b460a46a0088fccf6a3a5936d75d89a776d4c0da4f338aafb

  lemma ByPower(m: nat, q: nat, k: nat, v: int, t: int)
    requires m > 1 && Prime(q) && m - 1 == k * q
    requires PowerIs(m, 2, k * q, 1) && PowerIs(m, 2, k, v) && (t * (v - 1)) % m == 1
    ensures q > 0 && FactorsAre(m, q)
  {
    CongIntro(t * (v - 1), 1, m, (t * (v - 1)) / m);
    assert k * q == q * k;
    OneFactor(m, q, k, v, t);
  }

  // ---------- P9 ----------

  lemma RootP9()
    ensures PowerIs(P9, 2, 22, 114)
  {
    hide PowerIs;
    var b, p, q := 2, 4, 8;
    FirstPowers(P9, b, p, q);
    var e: nat, v := 1, 2;
    e, v := Climb(P9, b, e, v, 1, b, 32);
    e, v := Climb(P9, b, e, v, 2, p, 114);
  }

  lemma FullP9()
    ensures PowerIs(P9, 114, 19, 1)
  {
    hide PowerIs;
    var b, p, q := 114, 7, 379;
    FirstPowers(P9, b, p, q);
    var e: nat, v := 1, 114;
    e, v := Climb(P9, b, e, v, 0, 1, 49);
    e, v := Climb(P9, b, e, v, 3, q, 1);
  }

  lemma P9IsPrime()
    ensures Prime(P9)
  {
    hide Prime, PowerIs, FactorsAre;
    RootP9();
    FullP9();
    PowerOfPower(P9, 2, 22, 114, 19, 1);
    TrialDivision(19, 4);
    ByPower(P9, 19, 22, 114, 89);
    CubeRootCriterion(P9, 19, 3, 1, 2);
  }

  // ---------- P11 ----------

  lemma RootP11()
    ensures PowerIs(P11, 2, 110, 9)
  {
    hide PowerIs;
    var b, p, q := 2, 4, 8;
    FirstPowers(P11, b, p, q);
    var e: nat, v := 1, 2;
    e, v := Climb(P11, b, e, v, 2, p, 64);
    e, v := Climb(P11, b, e, v, 3, q, 1543);
    e, v := Climb(P11, b, e, v, 2, p, 9);
  }

  lemma FullP11()
    ensures PowerIs(P11, 9, 17, 1)
  {
    hide PowerIs;
    var b, p, q := 9, 81, 729;
    FirstPowers(P11, b, p, q);
    var e: nat, v := 1, 9;
    e, v := Climb(P11, b, e, v, 0, 1, 948);
    e, v := Climb(P11, b, e, v, 1, b, 1);
  }

  lemma P11IsPrime()
    ensures Prime(P11)
  {
    hide Prime, PowerIs, FactorsAre;
    RootP11();
    FullP11();
    PowerOfPower(P11, 2, 110, 9, 17, 1);
    TrialDivision(17, 4);
    ByPower(P11, 17, 110, 9, 234);
    CubeRootCriterion(P11, 17, 8, 6, 6);
  }

  // ---------- P15 ----------

  lemma RootP15()
    ensures PowerIs(P15, 2, 48, 0x3add)
  {
    hide PowerIs;
    var b, p, q := 2, 4, 8;
    FirstPowers(P15, b, p, q);
    var e: nat, v := 3, 8;
    e, v := Climb(P15, b, e, v, 0, 1, 4096);
    e, v := Climb(P15, b, e, v, 0, 1, 0x3add);
  }

  lemma FullP15()
    ensures PowerIs(P15, 0x3add, 419, 1)
  {
    hide PowerIs;
    var b, p, q := 0x3add, 0x4aa0, 807;
    FirstPowers(P15, b, p, q);
    var e: nat, v := 1, 0x3add;
    e, v := Climb(P15, b, e, v, 2, p, 7633);
    e, v := Climb(P15, b, e, v, 2, p, 4439);
    e, v := Climb(P15, b, e, v, 0, 1, 4848);
    e, v := Climb(P15, b, e, v, 3, q, 1);
  }

  lemma P15IsPrime()
    ensures Prime(P15)
  {
    hide Prime, PowerIs, FactorsAre;
    RootP15();
    FullP15();
    PowerOfPower(P15, 2, 48, 0x3add, P9, 1);
    P9IsPrime();
    ByPower(P15, P9, 48, 0x3add, 0x42d7);
    Pocklington(P15, P9);
  }

  // ---------- P21B ----------

  lemma RootP21B()
    ensures PowerIs(P21B, 2, 60, 0x13270)
  {
    hide PowerIs;
    var b, p, q := 2, 4, 8;
    FirstPowers(P21B, b, p, q);
    var e: nat, v := 3, 8;
    e, v := Climb(P21B, b, e, v, 3, q, 0x8000);
    e, v := Climb(P21B, b, e, v, 0, 1, 0x13270);
  }

  lemma FullP21B()
    ensures PowerIs(P21B, 0x13270, 0x4e91, 1)
  {
    hide PowerIs;
    var b, p, q := 0x13270, 0xadec1, 0x5731f;
    FirstPowers(P21B, b, p, q);
    var e: nat, v := 1, 0x13270;
    e, v := Climb(P21B, b, e, v, 0, 1, 0x119ba0);
    e, v := Climb(P21B, b, e, v, 3, q, 0x7e83d);
    e, v := Climb(P21B, b, e, v, 2, p, 0x104f4d);
    e, v := Climb(P21B, b, e, v, 2, p, 0x53af2);
    e, v := Climb(P21B, b, e, v, 1, b, 0xc965c);
    e, v := Climb(P21B, b, e, v, 0, 1, 0xbe9d2);
    e, v := Climb(P21B, b, e, v, 1, b, 1);
  }

  lemma P21BIsPrime()
    ensures Prime(P21B)
  {
    hide Prime, PowerIs, FactorsAre;
    RootP21B();
    FullP21B();
    PowerOfPower(P21B, 2, 60, 0x13270, P15, 1);
    P15IsPrime();
    ByPower(P21B, P15, 60, 0x13270, 0xad2ef);
    Pocklington(P21B, P15);
  }

  // ---------- P21 ----------

  lemma RootP21()
    ensures PowerIs(P21, 2, 870, 0xde5cc)
  {
    hide PowerIs;
    var b, p, q := 2, 4, 8;
    FirstPowers(P21, b, p, q);
    var e: nat, v := 3, 8;
    e, v := Climb(P21, b, e, v, 1, b, 8192);
    e, v := Climb(P21, b, e, v, 2, p, 0x472a7);
    e, v := Climb(P21, b, e, v, 1, b, 0x9000e);
    e, v := Climb(P21, b, e, v, 2, p, 0xde5cc);
  }

  lemma FullP21()
    ensures PowerIs(P21, 0xde5cc, 1871, 1)
  {
    hide PowerIs;
    var b, p, q := 0xde5cc, 0x15fd1e, 0x43fdd;
    FirstPowers(P21, b, p, q);
    var e: nat, v := 1, 0xde5cc;
    e, v := Climb(P21, b, e, v, 3, q, 0x11385b);
    e, v := Climb(P21, b, e, v, 1, b, 0x2f49f);
    e, v := Climb(P21, b, e, v, 0, 1, 0x154b2c);
    e, v := Climb(P21, b, e, v, 3, q, 0x1276eb);
    e, v := Climb(P21, b, e, v, 3, q, 1);
  }

  lemma P21IsPrime()
    ensures Prime(P21)
  {
    hide Prime, PowerIs, FactorsAre;
    RootP21();
    FullP21();
    PowerOfPower(P21, 2, 870, 0xde5cc, P11, 1);
    P11IsPrime();
    ByPower(P21, P11, 870, 0xde5cc, 0x8ff8f);
    Pocklington(P21, P11);
  }

  // ---------- P27 ----------

  lemma RootP27()
    ensures PowerIs(P27, 2, 0x11170, 0x5c9625b)
  {
    hide PowerIs;
    var b, p, q := 2, 4, 8;
    FirstPowers(P27, b, p, q);
    var e: nat, v := 1, 2;
    e, v := Climb(P27, b, e, v, 0, 1, 16);
    e, v := Climb(P27, b, e, v, 1, b, 0x20000);
    e, v := Climb(P27, b, e, v, 0, 1, 0x3aa1bbf);
    e, v := Climb(P27, b, e, v, 1, b, 0x4eab5);
    e, v := Climb(P27, b, e, v, 1, b, 0x2fc36ba);
    e, v := Climb(P27, b, e, v, 3, q, 0x289a1e1);
    e, v := Climb(P27, b, e, v, 0, 1, 0x3eb3823);
    e, v := Climb(P27, b, e, v, 0, 1, 0x5c9625b);
  }

  lemma PartP27A()
    ensures PowerIs(P27, 0x5c9625b, 29, 0x19a6723)
  {
    hide PowerIs;
    var b, p, q := 0x5c9625b, 0x9ec8fc, 0x44f0c19;
    FirstPowers(P27, b, p, q);
    var e: nat, v := 1, 0x5c9625b;
    e, v := Climb(P27, b, e, v, 3, q, 0x1ecd7d3);
    e, v := Climb(P27, b, e, v, 1, b, 0x19a6723);
  }

  lemma PartP27B()
    ensures PowerIs(P27, 0x5c9625b, 53, 0x4113566)
  {
    hide PowerIs;
    var b, p, q := 0x5c9625b, 0x9ec8fc, 0x44f0c19;
    FirstPowers(P27, b, p, q);
    var e: nat, v := 3, 0x44f0c19;
    e, v := Climb(P27, b, e, v, 1, b, 0x35f64c6);
    e, v := Climb(P27, b, e, v, 1, b, 0x4113566);
  }

  lemma FullP27()
    ensures PowerIs(P27, 0x19a6723, 53, 1)
  {
    hide PowerIs;
    var b, p, q := 0x19a6723, 0x2e986ef, 0x30ee811;
    FirstPowers(P27, b, p, q);
    var e: nat, v := 3, 0x30ee811;
    e, v := Climb(P27, b, e, v, 1, b, 0x24a5d36);
    e, v := Climb(P27, b, e, v, 1, b, 1);
  }

  lemma P27IsPrime()
    ensures Prime(P27)
  {
    hide Prime, PowerIs, FactorsAre;
    RootP27();
    PartP27A();
    PowerOfPower(P27, 2, 0x11170, 0x5c9625b, 29, 0x19a6723);
    PartP27B();
    PowerOfPower(P27, 2, 0x11170, 0x5c9625b, 53, 0x4113566);
    FullP27();
    PowerOfPower(P27, 2, 0x1ef9b0, 0x19a6723, 53, 1);
    TrialDivision(53, 7);
    ByPower(P27, 53, 0x1ef9b0, 0x19a6723, 0x48349cb);
    TrialDivision(29, 5);
    ByPower(P27, 29, 0x389c30, 0x4113566, 0x5f72de4);
    BothFactors(P27, 53, 29);
    CubeRootCriterion(P27, 53 * 29, 835, 45, 834);
  }

  // ---------- P23 ----------

  lemma RootP23()
    ensures PowerIs(P23, 2, 6, 64)
  {
    hide PowerIs;
    var b, p, q := 2, 4, 8;
    FirstPowers(P23, b, p, q);
    var e: nat, v := 1, 2;
    e, v := Climb(P23, b, e, v, 2, p, 64);
  }

  lemma FullP23()
    ensures PowerIs(P23, 64, 0x1269fd, 1)
  {
    hide PowerIs;
    var b, p, q := 64, 4096, 0x40000;
    FirstPowers(P23, b, p, q);
    var e: nat, v := 1, 64;
    e, v := Climb(P23, b, e, v, 0, 1, 0x230822);
    e, v := Climb(P23, b, e, v, 2, p, 0x5417f);
    e, v := Climb(P23, b, e, v, 1, b, 0x2a557b);
    e, v := Climb(P23, b, e, v, 2, p, 0x47c241);
    e, v := Climb(P23, b, e, v, 2, p, 0x4e26c2);
    e, v := Climb(P23, b, e, v, 1, b, 0x46933c);
    e, v := Climb(P23, b, e, v, 3, q, 0x4b5b80);
    e, v := Climb(P23, b, e, v, 3, q, 0x6b3244);
    e, v := Climb(P23, b, e, v, 3, q, 0x34f3fd);
    e, v := Climb(P23, b, e, v, 1, b, 1);
  }

  lemma P23IsPrime()
    ensures Prime(P23)
  {
    hide Prime, PowerIs, FactorsAre;
    RootP23();
    FullP23();
    PowerOfPower(P23, 2, 6, 64, P21B, 1);
    P21BIsPrime();
    ByPower(P23, P21B, 6, 64, 0x57af91);
    Pocklington(P23, P21B);
  }

  // ---------- P39 ----------

  lemma RootP39()
    ensures PowerIs(P39, 2, 0x2c91c, 0x1a951d9805)
  {
    hide PowerIs;
    var b, p, q := 2, 4, 8;
    FirstPowers(P39, b, p, q);
    var e: nat, v := 2, 4;
    e, v := Climb(P39, b, e, v, 3, q, 2048);
    e, v := Climb(P39, b, e, v, 0, 1, 0xdeb620d09);
    e, v := Climb(P39, b, e, v, 2, p, 0x8dbdaff4f);
    e, v := Climb(P39, b, e, v, 1, b, 0x2a09321e0);
    e, v := Climb(P39, b, e, v, 0, 1, 0x1f8540d0aa);
    e, v := Climb(P39, b, e, v, 1, b, 0xff38c23f5);
    e, v := Climb(P39, b, e, v, 3, q, 0x36f699c9ad);
    e, v := Climb(P39, b, e, v, 0, 1, 0x1a951d9805);
  }

  lemma FullP39()
    ensures PowerIs(P39, 0x1a951d9805, 0x18d67b, 1)
  {
    hide PowerIs;
    var b, p, q := 0x1a951d9805, 0x256a46595c, 0x1a5a190b95;
    FirstPowers(P39, b, p, q);
    var e: nat, v := 1, 0x1a951d9805;
    e, v := Climb(P39, b, e, v, 2, p, 0x18a093c2ac);
    e, v := Climb(P39, b, e, v, 0, 1, 0x3ee384b57c);
    e, v := Climb(P39, b, e, v, 3, q, 0x1c26aa2163);
    e, v := Climb(P39, b, e, v, 1, b, 0xd6126bdca);
    e, v := Climb(P39, b, e, v, 1, b, 0x187a5b6e35);
    e, v := Climb(P39, b, e, v, 2, p, 0x3d3c9aa3d);
    e, v := Climb(P39, b, e, v, 1, b, 0x14114af479);
    e, v := Climb(P39, b, e, v, 3, q, 0x14317a68ed);
    e, v := Climb(P39, b, e, v, 2, p, 0xcf9dde3b7);
    e, v := Climb(P39, b, e, v, 3, q, 1);
  }

  lemma P39IsPrime()
    ensures Prime(P39)
  {
    hide Prime, PowerIs, FactorsAre;
    RootP39();
    FullP39();
    PowerOfPower(P39, 2, 0x2c91c, 0x1a951d9805, P21, 1);
    P21IsPrime();
    ByPower(P39, P21, 0x2c91c, 0x1a951d9805, 0xa48b1bca0);
    Pocklington(P39, P21);
  }

  // ---------- P95 ----------

  lemma RootP95()
    ensures PowerIs(P95, 2, 0x15b47fa125e621a, 0x33e68e5c0f4c9f74cf1864bb)
  {
    hide PowerIs;
    var b, p, q := 2, 4, 8;
    FirstPowers(P95, b, p, q);
    var e: nat, v := 1, 2;
    e, v := Climb(P95, b, e, v, 1, b, 32);
    e, v := Climb(P95, b, e, v, 1, b, 0x200000);
    e, v := Climb(P95, b, e, v, 2, p, 0x4000000000000000000000);
    e, v := Climb(P95, b, e, v, 3, q, 0x408a14d3f98c17376350ea9e);
    e, v := Climb(P95, b, e, v, 1, b, 0x38e631dda6c233e9946a47e5);
    e, v := Climb(P95, b, e, v, 0, 1, 0x41a8feaa3a9faa3b4684b0a);
    e, v := Climb(P95, b, e, v, 1, b, 0x1181e429a28d47d583370c82);
    e, v := Climb(P95, b, e, v, 3, q, 0x173dcc52d4c9dea2aef71610);
    e, v := Climb(P95, b, e, v, 3, q, 0x5d5bff96115a242cbdf3cfc6);
    e, v := Climb(P95, b, e, v, 3, q, 0x18e6395aca90de4013ff4500);
    e, v := Climb(P95, b, e, v, 2, p, 0x37dec5368547c3ae5c3b6725);
    e, v := Climb(P95, b, e, v, 2, p, 0x5914bc6fcaa07925118d348a);
    e, v := Climb(P95, b, e, v, 0, 1, 0x4bb7be5f2e995c559a2c8ce8);
    e, v := Climb(P95, b, e, v, 1, b, 0x46b90a9fedb6df6ef9276954);
    e, v := Climb(P95, b, e, v, 0, 1, 0x5ad1c3aa782b926aff25c8d2);
    e, v := Climb(P95, b, e, v, 2, p, 0x3aa0878b1039a2b3a7386e7c);
    e, v := Climb(P95, b, e, v, 1, b, 0xaf616e9719d684365bc238d);
    e, v := Climb(P95, b, e, v, 1, b, 0x7882002829fb864e8f764b4);
    e, v := Climb(P95, b, e, v, 3, q, 0x2807bcbeac37d4e053a09be8);
    e, v := Climb(P95, b, e, v, 2, p, 0x22d54fd6fee92e673ca587fa);
    e, v := Climb(P95, b, e, v, 1, b, 0x2a443d5462ddd231590beada);
    e, v := Climb(P95, b, e, v, 2, p, 0x157ccc3d91f5f166939af2bc);
    e, v := Climb(P95, b, e, v, 0, 1, 0x1f92eb014bf7fa7da257d908);
    e, v := Climb(P95, b, e, v, 2, p, 0x257722842bdea21d86de0acc);
    e, v := Climb(P95, b, e, v, 0, 1, 0x4558c9d3311bdf7e8afd203);
    e, v := Climb(P95, b, e, v, 1, b, 0x3e31c319031285ff1cc6f0bc);
    e, v := Climb(P95, b, e, v, 2, p, 0x54857ac49c9a1c3c313a941f);
    e, v := Climb(P95, b, e, v, 2, p, 0x33e68e5c0f4c9f74cf1864bb);
  }

  lemma FullP95()
    ensures PowerIs(P95, 0x33e68e5c0f4c9f74cf1864bb, 0x4530140875, 1)
  {
    hide PowerIs;
    var b, p, q := 0x33e68e5c0f4c9f74cf1864bb, 0x2d1d71a287c764d605197f73, 0x4c2e5236fa4f245958eb451b;
    FirstPowers(P95, b, p, q);
    var e: nat, v := 1, 0x33e68e5c0f4c9f74cf1864bb;
    e, v := Climb(P95, b, e, v, 0, 1, 0x474b4a42be2922d01dcf05dc);
    e, v := Climb(P95, b, e, v, 1, b, 0xecb2f4de023980932152383);
    e, v := Climb(P95, b, e, v, 1, b, 0x287636d73863fb3f6a6756e9);
    e, v := Climb(P95, b, e, v, 0, 1, 0x5491da05ea87867faaf2431e);
    e, v := Climb(P95, b, e, v, 3, q, 0x43d08ead5342c0f7a07b4d52);
    e, v := Climb(P95, b, e, v, 0, 1, 0x38b2c8601d8b8e3ead3b2c05);
    e, v := Climb(P95, b, e, v, 0, 1, 0x4aa0d90fb42c316d65de5655);
    e, v := Climb(P95, b, e, v, 0, 1, 0x17f7beab52a27a1ba4548de2);
    e, v := Climb(P95, b, e, v, 1, b, 0x323d1376af0f1f13064ebe50);
    e, v := Climb(P95, b, e, v, 1, b, 0x4edf6ff0795f62c3fdded369);
    e, v := Climb(P95, b, e, v, 0, 1, 0x46d33525f55a2185edbdf667);
    e, v := Climb(P95, b, e, v, 0, 1, 0x8236f8108e62ee467578611);
    e, v := Climb(P95, b, e, v, 0, 1, 0x44de710a6d4245e766d547c2);
    e, v := Climb(P95, b, e, v, 2, p, 0x1e2755b7a5f64483ddfb832d);
    e, v := Climb(P95, b, e, v, 0, 1, 0x10a8c96096fa17a2526e952b);
    e, v := Climb(P95, b, e, v, 1, b, 0x360fcea3ff5b7af01265c9a0);
    e, v := Climb(P95, b, e, v, 3, q, 0x31b5b059cdebe88cec9dea59);
    e, v := Climb(P95, b, e, v, 1, b, 0x565a54f5c02fe16ede46a152);
    e, v := Climb(P95, b, e, v, 1, b, 1);
  }

  lemma P95IsPrime()
    ensures Prime(P95)
  {
    hide Prime, PowerIs, FactorsAre;
    RootP95();
    FullP95();
    PowerOfPower(P95, 2, 0x15b47fa125e621a, 0x33e68e5c0f4c9f74cf1864bb, P39, 1);
    P39IsPrime();
    ByPower(P95, P39, 0x15b47fa125e621a, 0x33e68e5c0f4c9f74cf1864bb, 0x19772c4448ea2e06c03560dd);
    CubeRootCriterion(P95, P39, 0x14349f6537, 0x504f7, 0x14349f6536);
  }

  // ---------- P109 ----------

  lemma RootP109()
    ensures PowerIs(P109, 2, 0x2dfc, 0xe62d151a1de8c23e34c03a81887)
  {
    hide PowerIs;
    var b, p, q := 2, 4, 8;
    FirstPowers(P109, b, p, q);
    var e: nat, v := 2, 4;
    e, v := Climb(P109, b, e, v, 3, q, 2048);
    e, v := Climb(P109, b, e, v, 1, b, 0x200000000000);
    e, v := Climb(P109, b, e, v, 3, q, 0x4dfe1b5d0128a952b420ae890dd);
    e, v := Climb(P109, b, e, v, 3, q, 0x271e429eb34f2c4ddea6a4b7e3b);
    e, v := Climb(P109, b, e, v, 3, q, 0x44eb0698f6ed0a2f4873ffa5374);
    e, v := Climb(P109, b, e, v, 0, 1, 0xe62d151a1de8c23e34c03a81887);
  }

  lemma FullP109_1()
    ensures PowerIs(P109, 0xe62d151a1de8c23e34c03a81887, 0x1776e7c4bbd8d228f, 0xc10afe51af238e6e531f210a9ee)
  {
    hide PowerIs;
    var b, p, q := 0xe62d151a1de8c23e34c03a81887, 0xc7dfd485a518fa187eb6039217b, 0x61332353c239c5f6121c1244b46;
    FirstPowers(P109, b, p, q);
    var e: nat, v := 1, 0xe62d151a1de8c23e34c03a81887;
    e, v := Climb(P109, b, e, v, 1, b, 0xac25b5b2591b377698a687165ba);
    e, v := Climb(P109, b, e, v, 3, q, 0xa92d9a4a71ea4ba33bf800ec2a4);
    e, v := Climb(P109, b, e, v, 1, b, 0xdd5c8556a990fec7a5316a4cc9c);
    e, v := Climb(P109, b, e, v, 3, q, 0x9a2ca38c92cd3242b991aa17ed6);
    e, v := Climb(P109, b, e, v, 1, b, 0xd2a29964005c465bb42ac94e9f5);
    e, v := Climb(P109, b, e, v, 2, p, 0x7ed3d378fae620cd95f639aaa86);
    e, v := Climb(P109, b, e, v, 3, q, 0x7638c7db7ff9a42a7d8067e77ef);
    e, v := Climb(P109, b, e, v, 2, p, 0xeae82fab3b9f8ac1e964bdd6d41);
    e, v := Climb(P109, b, e, v, 1, b, 0x7d67f7ca3b5268397fdd52e93a3);
    e, v := Climb(P109, b, e, v, 3, q, 0xefcd1a224dad0aa0226c1e2b56a);
    e, v := Climb(P109, b, e, v, 3, q, 0xfd0a221121585f3246bb2a79168);
    e, v := Climb(P109, b, e, v, 0, 1, 0x2d08a81b612d8e3c26cc8adbe87);
    e, v := Climb(P109, b, e, v, 1, b, 0x738b358b2f2cdc497f892366759);
    e, v := Climb(P109, b, e, v, 0, 1, 0x5f6142d55bec77c842a03984d54);
    e, v := Climb(P109, b, e, v, 2, p, 0xd34505af9fbf14dd62f935a71e7);
    e, v := Climb(P109, b, e, v, 3, q, 0x5995af30362a1ee60837588c614);
    e, v := Climb(P109, b, e, v, 2, p, 0x6f961216f941ef675f5bc558652);
    e, v := Climb(P109, b, e, v, 3, q, 0x10275909fbf42a7869a7fedf3572);
    e, v := Climb(P109, b, e, v, 3, q, 0x9798ed866bbb42b0bfa1b2cb4f6);
    e, v := Climb(P109, b, e, v, 1, b, 0xc28a92082245ab2a9333c1617e);
    e, v := Climb(P109, b, e, v, 2, p, 0xefbc108641c489cbcca66448f24);
    e, v := Climb(P109, b, e, v, 0, 1, 0xf4ab8a899cf8e70b8cf096048fd);
    e, v := Climb(P109, b, e, v, 3, q, 0x87cdbf41f307bd8b9a531051e5a);
    e, v := Climb(P109, b, e, v, 1, b, 0x94bd4e7ec84ce8514c4a1cb8e51);
    e, v := Climb(P109, b, e, v, 0, 1, 0x78d8395d2ebad29ce0f22a560e0);
    e, v := Climb(P109, b, e, v, 2, p, 0xd60ca4c8dc6c37031a0e888a9e2);
    e, v := Climb(P109, b, e, v, 0, 1, 0xe9667f8d39af9913be6832003e0);
    e, v := Climb(P109, b, e, v, 2, p, 0xbf9491ad28b1499f8f3ae3618ec);
    e, v := Climb(P109, b, e, v, 2, p, 0x94c45a48c9127515f67efc68215);
    e, v := Climb(P109, b, e, v, 0, 1, 0x10224b47869474e997a6ff9fa000);
    e, v := Climb(P109, b, e, v, 3, q, 0xb6d7675b5266dee83386e2f978b);
    e, v := Climb(P109, b, e, v, 3, q, 0xc10afe51af238e6e531f210a9ee);
  }

  lemma FullP109_2()
    ensures PowerIs(P109, 0xe62d151a1de8c23e34c03a81887, 0x5ddb9f12ef6348a3e23ba5e3, 1)
  {
    hide PowerIs;
    FullP109_1();
    var b, p, q := 0xe62d151a1de8c23e34c03a81887, 0xc7dfd485a518fa187eb6039217b, 0x61332353c239c5f6121c1244b46;
    FirstPowers(P109, b, p, q);
    var e: nat, v := 0x1776e7c4bbd8d228f, 0xc10afe51af238e6e531f210a9ee;
    e, v := Climb(P109, b, e, v, 2, p, 0x292ba8bd4a112bf5ef74b4b5550);
    e, v := Climb(P109, b, e, v, 0, 1, 0x6428eed3a0b5effe86a3dd1fa85);
    e, v := Climb(P109, b, e, v, 2, p, 0xdcac335adddba1038f8c552c676);
    e, v := Climb(P109, b, e, v, 0, 1, 0xc23bd477a299dd74fb725032bc6);
    e, v := Climb(P109, b, e, v, 3, q, 0x336b0093f1ebc15879a4229cd06);
    e, v := Climb(P109, b, e, v, 2, p, 0xaa98578fe361781eb9fa28fff5d);
    e, v := Climb(P109, b, e, v, 3, q, 0x10a1cb1d1965b1426bdd0191fe6f);
    e, v := Climb(P109, b, e, v, 2, p, 0x10a42f5c3d985fa906e55f78c7cd);
    e, v := Climb(P109, b, e, v, 2, p, 0x27ca5bd5147aa954b35bee208b8);
    e, v := Climb(P109, b, e, v, 1, b, 0xe58ef3fd67e6fe641b5fd7a79cf);
    e, v := Climb(P109, b, e, v, 1, b, 0x56f5650aca65b98a936eba97248);
    e, v := Climb(P109, b, e, v, 3, q, 0xea1ee2adcc234352a8e9a9a24ea);
    e, v := Climb(P109, b, e, v, 2, p, 0x4fcc9c6c28826d0bfbe987ce9aa);
    e, v := Climb(P109, b, e, v, 0, 1, 0xa9bf4695140258af96aeb217099);
    e, v := Climb(P109, b, e, v, 3, q, 1);
  }

  lemma P109IsPrime()
    ensures Prime(P109)
  {
    hide Prime, PowerIs, FactorsAre;
    RootP109();
    FullP109_2();
    PowerOfPower(P109, 2, 0x2dfc, 0xe62d151a1de8c23e34c03a81887, P95, 1);
    P95IsPrime();
    ByPower(P109, P95, 0x2dfc, 0xe62d151a1de8c23e34c03a81887, 0xb628645e03e3bc891eeb6c2ac0a);
    Pocklington(P109, P95);
  }

  // ---------- P128 ----------

  lemma RootP128_1()
    ensures PowerIs(P128, 2, 0x115d26e2b6c41042a, 0x2079b8b3dc0a4d4c09c10ed6f804133e)
  {
    hide PowerIs;
    var b, p, q := 2, 4, 8;
    FirstPowers(P128, b, p, q);
    var e: nat, v := 1, 2;
    e, v := Climb(P128, b, e, v, 0, 1, 16);
    e, v := Climb(P128, b, e, v, 1, b, 0x20000);
    e, v := Climb(P128, b, e, v, 1, b, 0x200000000000000000);
    e, v := Climb(P128, b, e, v, 1, b, 0x2001141f800000);
    e, v := Climb(P128, b, e, v, 3, q, 0x8c078b1ae4ce4c5a275410401b26e310);
    e, v := Climb(P128, b, e, v, 1, b, 0x7c7a53d3dbb39f3bd89421e48e2bc91d);
    e, v := Climb(P128, b, e, v, 0, 1, 0x533bbc4d5102f7365dee86411cddf02a);
    e, v := Climb(P128, b, e, v, 2, p, 0x5681772fd96435da3979371dd385fd9);
    e, v := Climb(P128, b, e, v, 1, b, 0x628189b8391b96e7cf2677fbb77e0304);
    e, v := Climb(P128, b, e, v, 2, p, 0x43354116c642ad964bdf9e4d41921630);
    e, v := Climb(P128, b, e, v, 3, q, 0x57865e562c4c980797b4904da47b9adb);
    e, v := Climb(P128, b, e, v, 2, p, 0x9bf1c1c9b5c2f0c7102635867d1a0ecd);
    e, v := Climb(P128, b, e, v, 0, 1, 0x4f535616eba642b60dca5e024a84ddea);
    e, v := Climb(P128, b, e, v, 2, p, 0x906c1e155156e7eeaaf2c8b841a323b3);
    e, v := Climb(P128, b, e, v, 2, p, 0x5f62d734bc500acef09b9d8fd84d43e4);
    e, v := Climb(P128, b, e, v, 3, q, 0x538c5eb67a0c701bab68cff6f9c0c755);
    e, v := Climb(P128, b, e, v, 1, b, 0xa439a8ef415f70ae1167a1812c418492);
    e, v := Climb(P128, b, e, v, 2, p, 0x79739d9740cb62cceb73881e61edff0a);
    e, v := Climb(P128, b, e, v, 3, q, 0x2b4a0bc41a2de32a2d019f7150935e06);
    e, v := Climb(P128, b, e, v, 0, 1, 0xa6c0a436a3ad57bdf931aabc7a9bcbfe);
    e, v := Climb(P128, b, e, v, 1, b, 0x9c27a4f9cbb4f97b4b56c5e8f604b75e);
    e, v := Climb(P128, b, e, v, 0, 1, 0xbbbb058d98a9674b10bbe13d8158ffe2);
    e, v := Climb(P128, b, e, v, 0, 1, 0x75173c10201abe2158c22773d41fbf12);
    e, v := Climb(P128, b, e, v, 1, b, 0xa9b68877ab5aa8af39f3e21b8d318802);
    e, v := Climb(P128, b, e, v, 0, 1, 0xa811f7989a971ba672d6f3cb00289246);
    e, v := Climb(P128, b, e, v, 0, 1, 0x9d61c03fd71ec2d5f8945fa4dd569dee);
    e, v := Climb(P128, b, e, v, 1, b, 0xa0bce5ee92ec8b605d8402b5170688f3);
    e, v := Climb(P128, b, e, v, 0, 1, 0x8b412778aebc9d26655504350b99145a);
    e, v := Climb(P128, b, e, v, 0, 1, 0x12bb931df642d8b2e0fad363d000c24a);
    e, v := Climb(P128, b, e, v, 2, p, 0x610e47164e189acc31b6856d67352de0);
    e, v := Climb(P128, b, e, v, 2, p, 0xbd03bbbeec072ff82b76ef0bed1207f6);
    e, v := Climb(P128, b, e, v, 2, p, 0x2079b8b3dc0a4d4c09c10ed6f804133e);
  }

  lemma RootP128_2()
    ensures PowerIs(P128, 2, 0x45749b8adb10410aa398, 0x573843d53a2cc90995f536b1e395eec6)
  {
    hide PowerIs;
    RootP128_1();
    var b, p, q := 2, 4, 8;
    FirstPowers(P128, b, p, q);
    var e: nat, v := 0x115d26e2b6c41042a, 0x2079b8b3dc0a4d4c09c10ed6f804133e;
    e, v := Climb(P128, b, e, v, 2, p, 0xa5da2775002d99dbb07b08707a3ce0a8);
    e, v := Climb(P128, b, e, v, 0, 1, 0x2f4a331d6ddeeffbfa1a68de8c4b9837);
    e, v := Climb(P128, b, e, v, 3, q, 0xb1aace2f3b2f9a5bfe3a6feaa6c76e8c);
    e, v := Climb(P128, b, e, v, 2, p, 0xbffdcac2ceaf390a0914bae985a393b3);
    e, v := Climb(P128, b, e, v, 1, b, 0xb0a315a26267b9d64916306e4ad22e2b);
    e, v := Climb(P128, b, e, v, 2, p, 0x159f6f3a46ecf5aaa77313807b24a95);
    e, v := Climb(P128, b, e, v, 0, 1, 0x573843d53a2cc90995f536b1e395eec6);
  }

  lemma PartP128A()
    ensures PowerIs(P128, 0x573843d53a2cc90995f536b1e395eec6, 0x6e7bef, 0x3dfa0b72ac4474248036ce39d059b84f)
  {
    hide PowerIs;
    var b, p, q := 0x573843d53a2cc90995f536b1e395eec6, 0x36bab630f16c387ee43628671d8b5346, 0x677063a7f328924516baa7d4ce3f9051;
    FirstPowers(P128, b, p, q);
    var e: nat, v := 1, 0x573843d53a2cc90995f536b1e395eec6;
    e, v := Climb(P128, b, e, v, 2, p, 0x9a9238f2307f1b60a5a71c5d55725f31);
    e, v := Climb(P128, b, e, v, 3, q, 0x48d082dc61568edb82273a0eddb6bf15);
    e, v := Climb(P128, b, e, v, 2, p, 0x666239cc83644bf731eb3900c73780e2);
    e, v := Climb(P128, b, e, v, 1, b, 0xba10475e95032f297a5b6b66d12a4122);
    e, v := Climb(P128, b, e, v, 3, q, 0x64173238e54f6b18559dbe88fd490973);
    e, v := Climb(P128, b, e, v, 2, p, 0x51290e61c7c09cedb6aee23b04230839);
    e, v := Climb(P128, b, e, v, 3, q, 0x39e8b4a5e2c760b2ef3b968196c089b2);
    e, v := Climb(P128, b, e, v, 3, q, 0xad928e79db60602aa6826a12da493dbc);
    e, v := Climb(P128, b, e, v, 2, p, 0x63b84e4fc1f8f5f58305114046bfb09c);
    e, v := Climb(P128, b, e, v, 3, q, 0x851d3c6820a1bfe4e94609ed059ed25a);
    e, v := Climb(P128, b, e, v, 3, q, 0x3dfa0b72ac4474248036ce39d059b84f);
  }

  lemma PartP128B()
    ensures PowerIs(P128, 0x573843d53a2cc90995f536b1e395eec6, 0x669b171, 0x53aedf869210fdb3043e6a09b8d8a514)
  {
    hide PowerIs;
    var b, p, q := 0x573843d53a2cc90995f536b1e395eec6, 0x36bab630f16c387ee43628671d8b5346, 0x677063a7f328924516baa7d4ce3f9051;
    FirstPowers(P128, b, p, q);
    var e: nat, v := 1, 0x573843d53a2cc90995f536b1e395eec6;
    e, v := Climb(P128, b, e, v, 2, p, 0x9a9238f2307f1b60a5a71c5d55725f31);
    e, v := Climb(P128, b, e, v, 1, b, 0x4cef8c7db1a3b9c7da8f66a867ad717f);
    e, v := Climb(P128, b, e, v, 2, p, 0xbc64a7febc5c2565ceb2074229251602);
    e, v := Climb(P128, b, e, v, 2, p, 0xba46ac66bc1978caa1faf2bf1b2408d7);
    e, v := Climb(P128, b, e, v, 1, b, 0x6e983c012559d669a1cf78f197d695c0);
    e, v := Climb(P128, b, e, v, 2, p, 0x5fe43268810cb30c61dfe214a87e181d);
    e, v := Climb(P128, b, e, v, 3, q, 0x80393ec9875f91b6998eff2669956f37);
    e, v := Climb(P128, b, e, v, 0, 1, 0xbe4ef513ee7981a2705628a8c6d03ba8);
    e, v := Climb(P128, b, e, v, 1, b, 0xb7e99ff6cc062b226a0a8849af5c6555);
    e, v := Climb(P128, b, e, v, 1, b, 0x510c7d21efde18e3d1ec4ea36ebdda2);
    e, v := Climb(P128, b, e, v, 3, q, 0x58b0473f76e4327fa3f6011c91c6e016);
    e, v := Climb(P128, b, e, v, 0, 1, 0x1c561b2809941a8045a94ad4ff562794);
    e, v := Climb(P128, b, e, v, 1, b, 0x53aedf869210fdb3043e6a09b8d8a514);
  }

  lemma FullP128()
    ensures PowerIs(P128, 0x3dfa0b72ac4474248036ce39d059b84f, 0x669b171, 1)
  {
    hide PowerIs;
    var b, p, q := 0x3dfa0b72ac4474248036ce39d059b84f, 0x220a2e2b9a2f8b41d25c4697777cce1e, 0x78b5b11b59d04fb438bb8c77d4148a73;
    FirstPowers(P128, b, p, q);
    var e: nat, v := 1, 0x3dfa0b72ac4474248036ce39d059b84f;
    e, v := Climb(P128, b, e, v, 2, p, 0x47ac6d26aed2bfcdf22c139ce524ac40);
    e, v := Climb(P128, b, e, v, 1, b, 0xfe0d39777112e9d362cab033b86a3b);
    e, v := Climb(P128, b, e, v, 2, p, 0x401458b3ce46976433c7957419a96854);
    e, v := Climb(P128, b, e, v, 2, p, 0x8ac1d6448143c36fb956b098df2796c6);
    e, v := Climb(P128, b, e, v, 1, b, 0xb4973bb996649c6b8ced394fa5c685f0);
    e, v := Climb(P128, b, e, v, 2, p, 0x646220782492a908621f1e8be3fc90e1);
    e, v := Climb(P128, b, e, v, 3, q, 0xb98e924fca8046c2f52fc39fd09d5e8b);
    e, v := Climb(P128, b, e, v, 0, 1, 0x6d41dd1b5b6f4e39168ad5bbaf1f60ee);
    e, v := Climb(P128, b, e, v, 1, b, 0x2e6f0b8264d3b04127323169465de72f);
    e, v := Climb(P128, b, e, v, 1, b, 0x4dda6434c76e8f8a0829472347c5cabd);
    e, v := Climb(P128, b, e, v, 3, q, 0x57d5db6e761949b7c9ae0d92b7b7cc84);
    e, v := Climb(P128, b, e, v, 0, 1, 0x307d3023c532cfce0aabf8d3261a491e);
    e, v := Climb(P128, b, e, v, 1, b, 1);
  }

  lemma P128IsPrime()
    ensures Prime(P128)
  {
    hide Prime, PowerIs, FactorsAre;
    RootP128_2();
    PartP128A();
    PowerOfPower(P128, 2, 0x45749b8adb10410aa398, 0x573843d53a2cc90995f536b1e395eec6, P23, 0x3dfa0b72ac4474248036ce39d059b84f);
    PartP128B();
    PowerOfPower(P128, 2, 0x45749b8adb10410aa398, 0x573843d53a2cc90995f536b1e395eec6, P27, 0x53aedf869210fdb3043e6a09b8d8a514);
    FullP128();
    PowerOfPower(P128, 2, 0x1df9bab4430edf45ff20d8c2e8, 0x3dfa0b72ac4474248036ce39d059b84f, P27, 1);
    P27IsPrime();
    ByPower(P128, P27, 0x1df9bab4430edf45ff20d8c2e8, 0x3dfa0b72ac4474248036ce39d059b84f, 0xb0db0609faeea74532ac512da850b227);
    P23IsPrime();
    ByPower(P128, P23, 0x1bd689d5519e4f1dc57ba264e18, 0x53aedf869210fdb3043e6a09b8d8a514, 0x84109eda3ae1d0866772b20b1456e44d);
    BothFactors(P128, P27, P23);
    CubeRootCriterion(P128, P27 * P23, 0xeb5624e3e18f, 0x19186e77, 0xeb5624e3e18e);
  }

  // ---------- P237 ----------

  lemma RootP237_1()
    ensures PowerIs(P237, 2, 0x27941f57fb3c03718, 0x142726afbd68a740b14a112c04c44c88f1d2b0e89af64cc147cc2c2e8e8f)
  {
    hide PowerIs;
    var b, p, q := 2, 4, 8;
    FirstPowers(P237, b, p, q);
    var e: nat, v := 2, 4;
    e, v := Climb(P237, b, e, v, 1, b, 512);
    e, v := Climb(P237, b, e, v, 3, q, 0x8000000000);
    e, v := Climb(P237, b, e, v, 2, p, 0x4000000000000000000000000000000000000000);
    e, v := Climb(P237, b, e, v, 1, b, 0x200000f48001d3088000000000000000000000000000000);
    e, v := Climb(P237, b, e, v, 1, b, 0x167bcca9b875b41cb80da828a2993b28e841728223f0134ca0a04005e4f7);
    e, v := Climb(P237, b, e, v, 0, 1, 0x38ac6e53c80c8b97e78ed1ca3ab7e934c203a1a7fc1c241b63636f22a65);
    e, v := Climb(P237, b, e, v, 0, 1, 0x14eb950cea0a63b286e42e13926aba5d0e2da16189940fca8d58e4bd3aad);
    e, v := Climb(P237, b, e, v, 1, b, 0x4cdca74794b8470e6b11ee31d1d0c3b7fb4451e842921cad4c9f24a8b07);
    e, v := Climb(P237, b, e, v, 3, q, 0x251cae456e9244e3967f9e1c6f988fcb0424dc324a747ed5a90bf2a6891);
    e, v := Climb(P237, b, e, v, 3, q, 0xceb8dc4f67af60c142a1ea8b523fb53399af1323c996a668c9e5b2bd1f9);
    e, v := Climb(P237, b, e, v, 1, b, 0x1b3ef737bddb225c17afb50fb0c0129d98ccf2bdc3ad89b2f5ef03744eba);
    e, v := Climb(P237, b, e, v, 1, b, 0xebe12dddac31de8c9cca101b169f22c78d6b3f89048744eac62a2d0391d);
    e, v := Climb(P237, b, e, v, 1, b, 0x14b5dd35fb3d81de3b12bdc97a629c6da80435f42fc296049632bae9f646);
    e, v := Climb(P237, b, e, v, 3, q, 0x16de869ef8ce0b82c6d0b3d110757ed561a47202ea0d0e5fdf4bac7a74e);
    e, v := Climb(P237, b, e, v, 3, q, 0x1492104092a494dfbc1a56ab6481bdd5750b1de3ce19332e70dd03ba59cf);
    e, v := Climb(P237, b, e, v, 3, q, 0xa9372d50daeacf0a9c9d0032e768607b2379789642ac10a1445a1c619a8);
    e, v := Climb(P237, b, e, v, 2, p, 0x189c8943dfb82cba4a4faa8fb965daf65fb4dc9e545b1c8ad9bf54bb5c5f);
    e, v := Climb(P237, b, e, v, 3, q, 0x1198541f00cf80b163ad3141337fd8786bfd7d5fef8d6619d54518d5c043);
    e, v := Climb(P237, b, e, v, 0, 1, 0x1284989ff78daea43c2147757c720d8173ec7f4aaedfebc24f58fa28cf25);
    e, v := Climb(P237, b, e, v, 3, q, 0xf050c2a672b22bd6ce8afd4538c411b8e6abe2d50d4e9d087b89556682);
    e, v := Climb(P237, b, e, v, 3, q, 0x377f6f1030e71a4880e862c8e65c4c0331c8303486c8eec4211259939bd);
    e, v := Climb(P237, b, e, v, 0, 1, 0x1726e40dbe58ff42754de8874a4098304738e9c8ba78c6c8281f928ef581);
    e, v := Climb(P237, b, e, v, 0, 1, 0x18cf976bd0dddd35aec49732284699ca19df1616eb666bff22a93ef0be13);
    e, v := Climb(P237, b, e, v, 0, 1, 0x1e1da3f6e9b346ec1227d93e834739e319d79613ef91a3adf46283334b4);
    e, v := Climb(P237, b, e, v, 0, 1, 0x13bb004c7380e7fc5d7db2c478735ac5a5b438cda8899876950c3ce18f6);
    e, v := Climb(P237, b, e, v, 3, q, 0x5547961de0bed1f5921cfc9db763cceae9edf7a6fdf94440695b5882890);
    e, v := Climb(P237, b, e, v, 1, b, 0x5ede1836c0b7b1e700de24313e179f877f31ba71b6d10f5012da25ed6a7);
    e, v := Climb(P237, b, e, v, 3, q, 0xc32dea2674d10902c7cd91c0e819dbb0bc4874a9131a8b9b823101d5746);
    e, v := Climb(P237, b, e, v, 0, 1, 0x13d3f340b486bd9b2559259b5932d3b0852266dc060a7c747ff7d8a0b96e);
    e, v := Climb(P237, b, e, v, 1, b, 0x1b4779d3b2b53aa6788af9547c77009e6502555c3d1a7714a94ad03c055);
    e, v := Climb(P237, b, e, v, 2, p, 0xeca2e954c82553ad161aef9cac3ab09c92b74679ffd11c2ffb04d8b796b);
    e, v := Climb(P237, b, e, v, 0, 1, 0x142726afbd68a740b14a112c04c44c88f1d2b0e89af64cc147cc2c2e8e8f);
  }

  lemma RootP237_2()
    ensures PowerIs(P237, 2, 0x27941f57fb3c037181fc07f533ea, 0x7b08ccbe4749ceb24c5edd1bcdf1f473d4aac9b13960ce85a31117c6622)
  {
    hide PowerIs;
    RootP237_1();
    var b, p, q := 2, 4, 8;
    FirstPowers(P237, b, p, q);
    var e: nat, v := 0x27941f57fb3c03718, 0x142726afbd68a740b14a112c04c44c88f1d2b0e89af64cc147cc2c2e8e8f;
    e, v := Climb(P237, b, e, v, 0, 1, 0x8dc2aec51505445b74c2685f1b2f526ed58085562b46f3bc7216342c6d5);
    e, v := Climb(P237, b, e, v, 1, b, 0x1af3a1c2f8e1ba9ea5633a827bcb505e2fe55c9100e25b63020d4c049d6d);
    e, v := Climb(P237, b, e, v, 3, q, 0x8e167db1bcac71194e94fa7961212802b0cc8a5b35f04236fdded9e9a7e);
    e, v := Climb(P237, b, e, v, 3, q, 0x1b2df10d65c09ea7ba3880de5fd2db64358cebf1654307ad21066c47bc78);
    e, v := Climb(P237, b, e, v, 3, q, 0x11ec4c59246c56abced1d5e7d82ab7f332f50527066a36c5b17b6ddf685e);
    e, v := Climb(P237, b, e, v, 0, 1, 0xc4c70f25f8e13ab6a863f3bbc7379c28451c37cd512ce1f3d1283b5a7d7);
    e, v := Climb(P237, b, e, v, 0, 1, 0x2f5403e5641e4cc9bc0ba2f6af42d0f4e36ad9a6b892b871bde3336b2f8);
    e, v := Climb(P237, b, e, v, 0, 1, 0x1064d25a1770227a9351b74a96619b6a09bd8718ef17b6694d4006dc8b4a);
    e, v := Climb(P237, b, e, v, 1, b, 0x153cd5bd180456acea82eef76a9a6915ad9611c8ee4f8b9ba705b223a7a5);
    e, v := Climb(P237, b, e, v, 3, q, 0x1625995778fba79165601139b6c9dfd6bdcc0f35149b986e6a3ea389201e);
    e, v := Climb(P237, b, e, v, 3, q, 0x157c8e62adc5664a9de44842c0b6311a0401e36700e0802632f87de1b969);
    e, v := Climb(P237, b, e, v, 3, q, 0x154c202ad86130b2d304eab5aa034ad30f3e124dc4f59d19d6f510a16460);
    e, v := Climb(P237, b, e, v, 1, b, 0x1837309b801009129dbe25f3fdf9d90499c3be8ecf7bce8186ab60acf334);
    e, v := Climb(P237, b, e, v, 1, b, 0x9d9908baee7a1a08221be81014f7011443dba2db0082a3d09404c31357e);
    e, v := Climb(P237, b, e, v, 0, 1, 0x6cc4e9de1f9f78643e35b678af66276444281e7e9770825700668f3e688);
    e, v := Climb(P237, b, e, v, 3, q, 0x1393f69ebc0ba499bfaf60d5ca1ef3a0df62a0f08bab68a255ac69874c37);
    e, v := Climb(P237, b, e, v, 0, 1, 0x8750dfbbe46280457755cbca0aa4a7f4ee78c7559166e92b99ee605d963);
    e, v := Climb(P237, b, e, v, 3, q, 0xbef76c515919eccc148bf8b1333aaa990740943dc0ad3122edff0e0a3cb);
    e, v := Climb(P237, b, e, v, 3, q, 0x110d6bf5229a876bc0cd566b26c91b4923849532d84c3008feccc5ed18b);
    e, v := Climb(P237, b, e, v, 2, p, 0xb2b381c52d22301a83aeeea43a3b31ae9ace9237977780bc9562fcd6d49);
    e, v := Climb(P237, b, e, v, 2, p, 0x147cddf17d756fe93b61d2687da688964514062db4fdd618530012ad4687);
    e, v := Climb(P237, b, e, v, 2, p, 0x7b08ccbe4749ceb24c5edd1bcdf1f473d4aac9b13960ce85a31117c6622);
  }

  lemma FullP237_1()
    ensures PowerIs(P237, 0x7b08ccbe4749ceb24c5edd1bcdf1f473d4aac9b13960ce85a31117c6622, 0x300ea52cb4f991066, 0x19c2e1362a06fe1cf067173743bf05d74e0be12d4c2f92fd9a276e96f03d)
  {
    hide PowerIs;
    var b, p, q := 0x7b08ccbe4749ceb24c5edd1bcdf1f473d4aac9b13960ce85a31117c6622, 0xbb05379901636309a34e526d1ef5be8b5be9d24d69e825ac6150aa680d5, 0x1507822a81adcb3f784cf47f5ab7482b6ff9bab672f0d25ca10b2d4daf5e;
    FirstPowers(P237, b, p, q);
    var e: nat, v := 3, 0x1507822a81adcb3f784cf47f5ab7482b6ff9bab672f0d25ca10b2d4daf5e;
    e, v := Climb(P237, b, e, v, 0, 1, 0x10df691d2c1007e565a341dded5c5b98c365e4241475181f34e41486d4dc);
    e, v := Climb(P237, b, e, v, 0, 1, 0x14cf455dfb9b8a6251be9fe13da13932327bcc4765c15b28bfa09f313ec5);
    e, v := Climb(P237, b, e, v, 0, 1, 0x16d2016f7fb66f916be1fdc1978df5835345d54cb48f2ff9e86e1214cd4d);
    e, v := Climb(P237, b, e, v, 0, 1, 0xdb5c8ccaf13d522982aa827e7592f917ec8cc2755e58382de4ec6a8f067);
    e, v := Climb(P237, b, e, v, 3, q, 0xf0a3b7fe46fecb5f045b2414bbd212646ec2fdb4524276d439c8253a1e6);
    e, v := Climb(P237, b, e, v, 2, p, 0x148510c2f99acd10aee5e4d41044f4c353a38d26e829bfe8a650302b0048);
    e, v := Climb(P237, b, e, v, 2, p, 0xd4008209c1cf8e677fd86e2783dcd3e5b68e6c4d98bdc64f6978655b830);
    e, v := Climb(P237, b, e, v, 2, p, 0xe1ae136a2de814e24cef8e9def176b7d8d41f7c7b05d1956bf2bb25d1bc);
    e, v := Climb(P237, b, e, v, 1, b, 0x1a27400194477664aaeb1f8e55c5f8d9ae8655a4049f4878bc67ed7187ba);
    e, v := Climb(P237, b, e, v, 1, b, 0x960acca505b0dd4163630b71579c913b4d5e90a7a0550af5e7550ba3eba);
    e, v := Climb(P237, b, e, v, 0, 1, 0x9e9ceb197de7ec94228028babea91424ecd507578af6b7459f58b4ec015);
    e, v := Climb(P237, b, e, v, 2, p, 0x32002a6e7ebf5968bd4039ff6fd1eecc9d4bdb1b88bf077a4edac4b2ec8);
    e, v := Climb(P237, b, e, v, 3, q, 0x306257d2e59f321d1135b3ad5cfee65f846afb182a8ac1f7a175ab92239);
    e, v := Climb(P237, b, e, v, 0, 1, 0xaa4ddba1ddfb73eaff6d2267b5b727855de31ce1dc7b74dcb497ecc8b4a);
    e, v := Climb(P237, b, e, v, 2, p, 0xafed515e28fc7eb12b1e43cdc73b3315b5654ec8d726d5d7db202b72baf);
    e, v := Climb(P237, b, e, v, 3, q, 0x10b936e5d4bd46d353bfafb4a1f3b1848004536909ee22b809f55a1295ad);
    e, v := Climb(P237, b, e, v, 1, b, 0x949f304dff1e14630c64b506183841d22968884b7c51454f9f074d5818e);
    e, v := Climb(P237, b, e, v, 0, 1, 0x12f1a4acffcf1e94526f93f8441891be63eed9ba97ca3930892a87f74692);
    e, v := Climb(P237, b, e, v, 3, q, 0xd4efaa9b955b45a33ecb9c857604e916140766b950d3043d620015a19b3);
    e, v := Climb(P237, b, e, v, 3, q, 0x1192b33af3bea46e1cca4991872bfc6e4b7a5467c217fd4429f79bab672f);
    e, v := Climb(P237, b, e, v, 2, p, 0xcc571bf2fa4a05afc2a593b670e2eeb322cfb85d64c021e18c6ba69444f);
    e, v := Climb(P237, b, e, v, 1, b, 0xc95d63675e43913ad66ef22d8b22a547aa49f0195126662ef89231cca96);
    e, v := Climb(P237, b, e, v, 2, p, 0x1548e344de538be4289b46e4c4a4abc6fd9f7059dc2e985addaa8c0489);
    e, v := Climb(P237, b, e, v, 1, b, 0x9b402d6c0592b0a854f72b6d81d201f71a9ed15bf4dcfab1402d340f41d);
    e, v := Climb(P237, b, e, v, 0, 1, 0x4b5c7138dcea5f34d9e65b1f303942e11db83d6d2a7ee03355e10e2481f);
    e, v := Climb(P237, b, e, v, 1, b, 0xa3f2282ec27fdc570408c1779d36223b30d1f5e63b96e62b83ac93b8753);
    e, v := Climb(P237, b, e, v, 0, 1, 0x1f1e2735b9717e5ff9ef20916ef0213ddf902bc877b85a1110573e8ef17);
    e, v := Climb(P237, b, e, v, 0, 1, 0x810a1d0515b240cc70d2891a1fdad361c4b51a68de5d6252cfdf8e9dc61);
    e, v := Climb(P237, b, e, v, 1, b, 0x3e0adfe6b211e99d6cecb6457b030b6bb2926b42cd37a0445c01b89242c);
    e, v := Climb(P237, b, e, v, 2, p, 0x156c73cb642683bf6232d602d9353958a9f05d64492df31df8dbc5b6236f);
    e, v := Climb(P237, b, e, v, 1, b, 0x174b3eadae28f225e73619bc54c560611e1a0ee7462c46324b4e659cbffd);
    e, v := Climb(P237, b, e, v, 2, p, 0x19c2e1362a06fe1cf067173743bf05d74e0be12d4c2f92fd9a276e96f03d);
  }

  lemma FullP237_2()
    ensures PowerIs(P237, 0x7b08ccbe4749ceb24c5edd1bcdf1f473d4aac9b13960ce85a31117c6622, 0xc03a94b2d3e64419a05cd8ccbf987069, 1)
  {
    hide PowerIs;
    FullP237_1();
    var b, p, q := 0x7b08ccbe4749ceb24c5edd1bcdf1f473d4aac9b13960ce85a31117c6622, 0xbb05379901636309a34e526d1ef5be8b5be9d24d69e825ac6150aa680d5, 0x1507822a81adcb3f784cf47f5ab7482b6ff9bab672f0d25ca10b2d4daf5e;
    FirstPowers(P237, b, p, q);
    var e: nat, v := 0x300ea52cb4f991066, 0x19c2e1362a06fe1cf067173743bf05d74e0be12d4c2f92fd9a276e96f03d;
    e, v := Climb(P237, b, e, v, 2, p, 0xfe4ece2cef766107a2ec60f4d5e7941827fa299fa8f01cfa5b6bb1e5e7);
    e, v := Climb(P237, b, e, v, 0, 1, 0x3b6c30422b0df4f1bab5b213458f01f069cc53ff8dd975178d653b4ebe7);
    e, v := Climb(P237, b, e, v, 0, 1, 0x137166e8f03a99e1e9835ffde1e475d8dfb6c68ba5c11000f146219b6774);
    e, v := Climb(P237, b, e, v, 1, b, 0x1747a1d609cb35853be519c8a3858ffd3e3ffffec7e38d1460773af1f589);
    e, v := Climb(P237, b, e, v, 1, b, 0x1314cabb33e7734a079eaf4399a2055a4503c3e5ba2f7fa138d6e39fd8f8);
    e, v := Climb(P237, b, e, v, 3, q, 0x1193764eca9cc482e7990dbf5f0764136ec7ff294450293554a0e7558763);
    e, v := Climb(P237, b, e, v, 0, 1, 0xc0d0990983a9d7063b582c7234ad64a9afac8a84a0bf9656b408b8ccf9e);
    e, v := Climb(P237, b, e, v, 3, q, 0x44496cbb67fcb82da682701ede22a7d65328bb9321beb76d5e8e8e819d2);
    e, v := Climb(P237, b, e, v, 1, b, 0xeea3c78bd6b30aa8304079d99982c2f89d7609e025b39266bd2d47de939);
    e, v := Climb(P237, b, e, v, 2, p, 0x12a2bc0bc8da21ccb93739688bc34783bca984e02c160eee415bc47f2794);
    e, v := Climb(P237, b, e, v, 0, 1, 0x2e602ca74f75432e1b4503adcd17e83b26c72c3e6d690a77857f45de10a);
    e, v := Climb(P237, b, e, v, 3, q, 0x1b7bf7a208e220037b0a4b31475b29ce478e1239b21380bfc203b540e47b);
    e, v := Climb(P237, b, e, v, 0, 1, 0xaeac6e1cf6603b141ff8a89d4da6388728c0a9a6145235d3606c0a8e60b);
    e, v := Climb(P237, b, e, v, 3, q, 0xd62cee5c9d532ef53b6ea9d80de0f4e5fb1100228897d85e8376c774d9);
    e, v := Climb(P237, b, e, v, 0, 1, 0x16ee10354a9c26a1589be6362f3aed72b452ab28b2b81018dab7c032dfab);
    e, v := Climb(P237, b, e, v, 2, p, 0x1c8a7ce61e90925396510f3a004a4f7b7ffbe48829c8b823360c1d7d33a6);
    e, v := Climb(P237, b, e, v, 3, q, 0x11e8d65169704656218bedc5c4fee82b9b3382167ffbc9def22d0d3f9ed6);
    e, v := Climb(P237, b, e, v, 3, q, 0x5e3963bf53e7dacaee78ac6f5865ae6da2e9ace45b26651ae4e76ea3a75);
    e, v := Climb(P237, b, e, v, 3, q, 0x18e37661188b7046d7b84aea62c3a0471c6a58d62918436c3e350fd4f9ec);
    e, v := Climb(P237, b, e, v, 2, p, 0x460de613654d8540c47cbaa225d4337211d69d53a59c6ddbffffa904196);
    e, v := Climb(P237, b, e, v, 1, b, 0x23edf362cd298b54a3a345e2875c2cf046da2027ef2953a70f8cb5858ea);
    e, v := Climb(P237, b, e, v, 2, p, 0xbd10499aca5bd8b05291eb01cbd5d58a66a29e6f5bc2482996cee0f7afd);
    e, v := Climb(P237, b, e, v, 0, 1, 0x191b8ea88e33b03522e3f645bf396fba7e2ac9ae2c9026298bedc9f1b464);
    e, v := Climb(P237, b, e, v, 1, b, 0x1c2e6c13dc24ce02b301e1c5b597e626a44814c94b166463071c07eac596);
    e, v := Climb(P237, b, e, v, 3, q, 0x14600d0ca43aecf3dcbe2e5998496c7a95763f0b3caea5aeff32c0ecfcbe);
    e, v := Climb(P237, b, e, v, 0, 1, 0x1a3a8b74c4241e7221db84a3ffeb5a407323987e905f706dc28c9c28117f);
    e, v := Climb(P237, b, e, v, 0, 1, 0x2210cc68b964ba3e45cc889e3d0a0567b4cb86f93abf3d6cef69ff095f4);
    e, v := Climb(P237, b, e, v, 1, b, 0x1bb3a4d20ea75fb5aa39dd0d06d16a5e47bed7a986d635a729da651e8b17);
    e, v := Climb(P237, b, e, v, 2, p, 0xe3243b57025073c59f28780d20cee1bec8f367eaa6f8a6ff1df42addcbe);
    e, v := Climb(P237, b, e, v, 2, p, 0x17b865daa7d6434defb0c1a2cfc2967921cf3d6909859ec69566d44b4110);
    e, v := Climb(P237, b, e, v, 1, b, 1);
  }

  lemma P237IsPrime()
    ensures Prime(P237)
  {
    hide Prime, PowerIs, FactorsAre;
    RootP237_2();
    FullP237_2();
    PowerOfPower(P237, 2, 0x27941f57fb3c037181fc07f533ea, 0x7b08ccbe4749ceb24c5edd1bcdf1f473d4aac9b13960ce85a31117c6622, P128, 1);
    P128IsPrime();
    ByPower(P237, P128, 0x27941f57fb3c037181fc07f533ea, 0x7b08ccbe4749ceb24c5edd1bcdf1f473d4aac9b13960ce85a31117c6622, 0xbce1bae6645f252963752a74333138f457aaf3fbc9c842fbcd0b8d48aeb);
    Pocklington(P237, P128);
  }

  // ---------- P ----------

  lemma RootP()
    ensures PowerIs(P, 2, 0x89d2a, 0x429ec5b06c46c20546d5aabbe15bfbeedcade9791a517f619bf3f4135dc4da10)
  {
    hide PowerIs;
    var b, p, q := 2, 4, 8;
    FirstPowers(P, b, p, q);
    var e: nat, v := 2, 4;
    e, v := Climb(P, b, e, v, 0, 1, 256);
    e, v := Climb(P, b, e, v, 2, p, 0x400000000);
    e, v := Climb(P, b, e, v, 1, b, 0x20000000000000000000000000000000000);
    e, v := Climb(P, b, e, v, 3, q, 0x800003d1000748508000000000);
    e, v := Climb(P, b, e, v, 1, b, 0xcd9528344359cab2cbcfd79b40418ad6c7a6a8afac75c2062e0c1fde72f3bfab);
    e, v := Climb(P, b, e, v, 0, 1, 0xd4302425c37ab5509c06e542343db7133f12d6e69d98d97a30965f83b7589b4e);
    e, v := Climb(P, b, e, v, 2, p, 0x239c46d0895bc16078576c680e3b44fce35875baf949a6226874a896d5117ff2);
    e, v := Climb(P, b, e, v, 2, p, 0xd8daa545d1d086fbaa61d513f7936e76c6d54f53db25bcc1c77768be9f29de5f);
    e, v := Climb(P, b, e, v, 2, p, 0x429ec5b06c46c20546d5aabbe15bfbeedcade9791a517f619bf3f4135dc4da10);
  }

  lemma FullP_1()
    ensures PowerIs(P, 0x429ec5b06c46c20546d5aabbe15bfbeedcade9791a517f619bf3f4135dc4da10, 0x1db8260e5e3b460a4, 0x3371a1c2b92f5a47ba765b88d2e53d20b6b69914a6bb8b8e1af68d7cf015ebb)
  {
    hide PowerIs;
    var b, p, q := 0x429ec5b06c46c20546d5aabbe15bfbeedcade9791a517f619bf3f4135dc4da10, 0xb95f3eae68ab36afdf2f7ed976fc85e62b9a4caf02f58e1b80a405e50a9e148f, 0x582d89f9d650d72d2e0e48e60759ccb8f60e2bb2cca894096311b31b25b24a32;
    FirstPowers(P, b, p, q);
    var e: nat, v := 1, 0x429ec5b06c46c20546d5aabbe15bfbeedcade9791a517f619bf3f4135dc4da10;
    e, v := Climb(P, b, e, v, 3, q, 0x58bebeb62dd6dc118770410d5b18a1a9b1fd74e8883d528c2f63ed3e3ea64005);
    e, v := Climb(P, b, e, v, 1, b, 0x1f995bc18814dfc959ce2db0577829a044f93e62bf161833732334f43d349fe);
    e, v := Climb(P, b, e, v, 2, p, 0x3b20be619f17fe8316134b1bbe8f261880b635a7b600cdd1fb69d36a4284be40);
    e, v := Climb(P, b, e, v, 3, q, 0x90f1982ee951870fb6e7e282cebab83ea66d4c0d82b3180708935d17be293f78);
    e, v := Climb(P, b, e, v, 2, p, 0x50ae48d8f48a0c125c147c81e7b9421353a27cb346c30d998a2739ca9aabac7);
    e, v := Climb(P, b, e, v, 0, 1, 0x5daaeb1c79cf39b5639443095c93bd143333a264cfe0073e21376efe7dace1e6);
    e, v := Climb(P, b, e, v, 0, 1, 0x661ab8c1bfa829e7f542ea296a0e3a79d5e9df808c1d74c258cea15ef35d0592);
    e, v := Climb(P, b, e, v, 2, p, 0xa081ff6b22024398d4f0665d2a0ee92f08062652c56a59edab50e42648a7b48b);
    e, v := Climb(P, b, e, v, 1, b, 0xd5d79a897d8ba6c361e44f0f90041928d73c0b340e9cf9fbfc4081a32d63fa21);
    e, v := Climb(P, b, e, v, 2, p, 0xeeacbc37d29be2387cce121e5509277322b3c9eb4ccee1a0719cb840a49b1f8d);
    e, v := Climb(P, b, e, v, 0, 1, 0xc8da19190c2538d8ed9461fc9e9c0078a97412751f26a1e210d48f3125cbc390);
    e, v := Climb(P, b, e, v, 0, 1, 0x1e983bdc493206cca51bf1acd2dd905c6f2e9ec119d7185fc6a94a50f6a9ea35);
    e, v := Climb(P, b, e, v, 3, q, 0x464b637bbe7d39b0b4d6aafd692f756c49c58b9cd09c58f2ff34ec59ccc96b95);
    e, v := Climb(P, b, e, v, 2, p, 0x69dc24c79c10688cb11301242dfb31d5ff9bf492e9895a782a60797dd0efdb16);
    e, v := Climb(P, b, e, v, 1, b, 0x787b5e89e9bd7ba4a657ea959fe1be8a52592fe04d26e42917e45b0f4fd42f3a);
    e, v := Climb(P, b, e, v, 1, b, 0x14e744ede317fa30765152a4153b21cd8372a063facdb5ef77b2478b609fdd89);
    e, v := Climb(P, b, e, v, 3, q, 0xe98881af8881210fb32932374b95dde56f289d3f15775f930867def95faf7c11);
    e, v := Climb(P, b, e, v, 2, p, 0x947d7cf00e48ca73c2d274dc94009776f6c040e486e7a1e4552f94dffada417);
    e, v := Climb(P, b, e, v, 0, 1, 0x77a02f9c3aa90af69e9f69c028bddf6820bce299bfdb4c6fa45a6fa47d8ff5d0);
    e, v := Climb(P, b, e, v, 3, q, 0xc9a02d2ed463d96fb49db126d4ff311c2623ed67597c4c577f5a0593697b024d);
    e, v := Climb(P, b, e, v, 2, p, 0x1830d0be034e8a3e4f5dbd0ec484a176a381b62273bb661886e56c1e28dc876e);
    e, v := Climb(P, b, e, v, 3, q, 0x17fdcb2903fe66263eda7333b590c136a9d833d144c8e5497e98a726dc45074c);
    e, v := Climb(P, b, e, v, 1, b, 0x916b159797e025ea9c69a82fdc237b0a1000ba39eb6d84451a319d4250fa2b10);
    e, v := Climb(P, b, e, v, 0, 1, 0x33f70a3d00e4488bfd387ba4a0ec9acf97055cde748a4161883d426a8a13c339);
    e, v := Climb(P, b, e, v, 1, b, 0xf918b5e2d77523ce51b56013aee4747fcc6a879211e90e06e1000a3121651fe1);
    e, v := Climb(P, b, e, v, 2, p, 0xdbc06d912f71c9c677bb3fa6e12453c3f575ef4ee9cc36a8a21138d1ef225fbd);
    e, v := Climb(P, b, e, v, 0, 1, 0x9f43e7ca40e6792ebacef28ea595cc977652c4944e58f84086b49c56ea6cbcf4);
    e, v := Climb(P, b, e, v, 0, 1, 0x9b0060902c4d98683215effbe6cde140a133dc3232c40cf4a2d5591cdb77c2b1);
    e, v := Climb(P, b, e, v, 2, p, 0x91558fdb2fdde3d1db87a3d205195c6ab7ebf783da3af138f1b0def9069ad114);
    e, v := Climb(P, b, e, v, 2, p, 0x6707a13ec45f9557d469ca849ed74d30bf25a041041c645f09b1a49e99ccf2fe);
    e, v := Climb(P, b, e, v, 1, b, 0xa128c3e363a499bf3ee96ff265d493c4abc835c05295cd97e7858d895651801f);
    e, v := Climb(P, b, e, v, 0, 1, 0x3371a1c2b92f5a47ba765b88d2e53d20b6b69914a6bb8b8e1af68d7cf015ebb);
  }

  lemma FullP_2()
    ensures PowerIs(P, 0x429ec5b06c46c20546d5aabbe15bfbeedcade9791a517f619bf3f4135dc4da10, 0x1db8260e5e3b460a46a0088fccf6a3a59, 0xf79cd270b3949ea925d4beecf84df127239d9c8941abb3a885f0d669b90fba0b)
  {
    hide PowerIs;
    FullP_1();
    var b, p, q := 0x429ec5b06c46c20546d5aabbe15bfbeedcade9791a517f619bf3f4135dc4da10, 0xb95f3eae68ab36afdf2f7ed976fc85e62b9a4caf02f58e1b80a405e50a9e148f, 0x582d89f9d650d72d2e0e48e60759ccb8f60e2bb2cca894096311b31b25b24a32;
    FirstPowers(P, b, p, q);
    var e: nat, v := 0x1db8260e5e3b460a4, 0x3371a1c2b92f5a47ba765b88d2e53d20b6b69914a6bb8b8e1af68d7cf015ebb;
    e, v := Climb(P, b, e, v, 1, b, 0x9a22fd27f00861cef038361ca6b66d3c113ae03ea6ed5e18adb6e3ec929a4e91);
    e, v := Climb(P, b, e, v, 2, p, 0x2123718730ca083ad7fa003cf331db1f693ebf2429b027395306d8dd81aabf4f);
    e, v := Climb(P, b, e, v, 2, p, 0xc5dfa0a62d298aac51be3dc671a0ed27513d002199f3060f7fbc6c6ff48c89ac);
    e, v := Climb(P, b, e, v, 2, p, 0xac824da8c1b48cecef3342ffdf38abc0649874f9b5af1e8a92dbec032d5ba686);
    e, v := Climb(P, b, e, v, 0, 1, 0x8aa8e07347aa445800a7cdd894560d08e15d1dccf2e25637810e8f0339f79d21);
    e, v := Climb(P, b, e, v, 0, 1, 0xea42dee016ad860a18178a6bbe6fc9f1c6102eb11c9b342eaea9ca53373064d4);
    e, v := Climb(P, b, e, v, 0, 1, 0x11f07f3fdaa6024eb011c1297d3cf12158afbb292e76bd93f18b9901586d8426);
    e, v := Climb(P, b, e, v, 0, 1, 0x261f004914d56c96b9f1f596fa2451062d2886f58cd5d3c409895f67d56e7ff6);
    e, v := Climb(P, b, e, v, 2, p, 0xe730c9cdd1d6fab6d31bb0630cd06a326ca68906667d77eb3c1aab46534597d9);
    e, v := Climb(P, b, e, v, 0, 1, 0x134402c586753ee90daed7e1672ab3dcb3e8bde0c56bf2efd7853e4e21f7d096);
    e, v := Climb(P, b, e, v, 2, p, 0x731187896877938a77f359768743e342abf820daf99f6a6b985454b988b42615);
    e, v := Climb(P, b, e, v, 0, 1, 0x4423f5290605f67d606cdb2c5eb05f33e343c2b86c4417baa5121622a4beeb70);
    e, v := Climb(P, b, e, v, 3, q, 0xf22ab841007a0663baacbfe07a5c6879c7c8db52e3392752974346810fad484e);
    e, v := Climb(P, b, e, v, 3, q, 0xb220aba720718031f2b7faa2c25dcbec5bceac2ad432f1ed49f895858c8b1b1c);
    e, v := Climb(P, b, e, v, 3, q, 0xcc064a6559b4b0b7300046a1449dab629ba42f5e80e23270c19024bd70c503fc);
    e, v := Climb(P, b, e, v, 0, 1, 0x93d2c0b3c4b3dd6bd1fa15633c71f49a9844f246279562ce8e0b4c9d19b17f5b);
    e, v := Climb(P, b, e, v, 3, q, 0x2d1857a38b472aa2bd1c3deefbaad6ea187b64af5a79a0f77178eab6e13ca5ed);
    e, v := Climb(P, b, e, v, 0, 1, 0x8cf563eaa0a37e5634dbb13475c43b363e991236a80468ca59e7f8a38a3150ea);
    e, v := Climb(P, b, e, v, 3, q, 0xd095fad09d26c618b73326fd5c00310ed13000ada2e993af17726a9c65467f28);
    e, v := Climb(P, b, e, v, 3, q, 0x2780c7084cb833d4818fefd275a1b0fe9aa84ce75426a8a60cbaf3922b536f45);
    e, v := Climb(P, b, e, v, 1, b, 0x2daeaf9b1864c9f8aab210b9523b86ef11c0a7a3d847d756bb423680c1216d36);
    e, v := Climb(P, b, e, v, 2, p, 0xf51b05d65f6381f81224fba75390ecc6ff1c33041538fa3d4fe76413f25f3aa3);
    e, v := Climb(P, b, e, v, 2, p, 0x9e2682f93c819a15d6c44aa42cf3cb726a37198120a3747cdf53bc7ae57070b5);
    e, v := Climb(P, b, e, v, 2, p, 0x1e8a1740b4f4a138fa5f0b16197e502ca173b410e53e6cc2ef124f2b1df6e34a);
    e, v := Climb(P, b, e, v, 0, 1, 0x5428d730859d55bd6862842cda5737b04c4ade31278ae5e313a503163194edfc);
    e, v := Climb(P, b, e, v, 3, q, 0xd9176c5f5dcfef258bfcb186d29d788a7b0d0eb998b677ee7b4908eee375a364);
    e, v := Climb(P, b, e, v, 2, p, 0x118cfcc7f3a6b8c147e4998eaff35091a652ddf6a0146e2a08a34af6b2dc6660);
    e, v := Climb(P, b, e, v, 2, p, 0xbaa212ea299d3af31de57e632c32a96a17cfb29298dc01f3da0fb3cc2fa1aea4);
    e, v := Climb(P, b, e, v, 1, b, 0x77faf2d13a6c03b0b9a8353cd7a5030f71b5cde2294dc42764ed58a4891526aa);
    e, v := Climb(P, b, e, v, 1, b, 0x520cf0e7aaf7fd5082163238218f0a54827769dd874f61b068b745eff0f14cfa);
    e, v := Climb(P, b, e, v, 2, p, 0x9965b92df70e4220d6441cfb7fea7f00148a53f7a32e839f6687273abc4e740a);
    e, v := Climb(P, b, e, v, 1, b, 0xf79cd270b3949ea925d4beecf84df127239d9c8941abb3a885f0d669b90fba0b);
  }

  lemma FullP_3()
    ensures PowerIs(P, 0x429ec5b06c46c20546d5aabbe15bfbeedcade9791a517f619bf3f4135dc4da10, 0x1db8260e5e3b460a46a0088fccf6a3a5936d75d89a776d4c0, 0x1bfc17d326b6f0c12141376d23ec453f97cb0a02f3749e7ccd2fab380c81ab01)
  {
    hide PowerIs;
    FullP_2();
    var b, p, q := 0x429ec5b06c46c20546d5aabbe15bfbeedcade9791a517f619bf3f4135dc4da10, 0xb95f3eae68ab36afdf2f7ed976fc85e62b9a4caf02f58e1b80a405e50a9e148f, 0x582d89f9d650d72d2e0e48e60759ccb8f60e2bb2cca894096311b31b25b24a32;
    FirstPowers(P, b, p, q);
    var e: nat, v := 0x1db8260e5e3b460a46a0088fccf6a3a59, 0xf79cd270b3949ea925d4beecf84df127239d9c8941abb3a885f0d669b90fba0b;
    e, v := Climb(P, b, e, v, 0, 1, 0xd3cadde8d6913b3e0ebceca357a7b418dc73d66c47d32558c89779cb03f972c5);
    e, v := Climb(P, b, e, v, 3, q, 0x12c8f54d6c2da79b7644f8b709a700c1b3f7e845e54e18f19a59356320fd295c);
    e, v := Climb(P, b, e, v, 1, b, 0xdf729817092854b60a3832075bd45fd3d00136112ecf355795f27708dfd3c452);
    e, v := Climb(P, b, e, v, 2, p, 0x4c8300cd71f9a99f3a529299f93ef0a56e4fb08f9ccec8058ef7ff0738d2911c);
    e, v := Climb(P, b, e, v, 3, q, 0xbf7d772e1a221708a95d0b9be54568a57249d40dda31a10566ad27f92b391231);
    e, v := Climb(P, b, e, v, 1, b, 0x61bded0ee241f880a3956bba9f02839c2166ba5993ffaee16f3ef37b1806081);
    e, v := Climb(P, b, e, v, 1, b, 0xe8a43cc83d871684a03122b7740adbfa72727fd808d4719ac5390a42aa873710);
    e, v := Climb(P, b, e, v, 3, q, 0xc51a484ae7cb00f21bdd1b71ab36e70ae568a57e5b521eef8d385c74a3dc54cf);
    e, v := Climb(P, b, e, v, 1, b, 0x46c68316ad496f74ae5835f11fdbde36acb55cec7938b19a832b724d0664bc56);
    e, v := Climb(P, b, e, v, 1, b, 0xd60750cf63c4e499b4714140663fb0675d5699223ab5d65ad1e0b04698f6472c);
    e, v := Climb(P, b, e, v, 3, q, 0x5678ea3cef6cc28b3cdfb17659df972b788c382d2a30828944bea2e1b5521494);
    e, v := Climb(P, b, e, v, 1, b, 0x31aeb8ffa208d90054143d0a9ca872bef7f85e10eedc9db2f9c63976247a94fa);
    e, v := Climb(P, b, e, v, 2, p, 0x75dce8ac1e9d5e0ad0ccc2b8a2d5448690a89484a0629ddd3866ac515cbad91);
    e, v := Climb(P, b, e, v, 0, 1, 0xfae96b5783cdd98d9411c7f84e77140c27f05ef4dcbf6127d8973e58c6051d8e);
    e, v := Climb(P, b, e, v, 2, p, 0x722df21e3764dd18c9747340cb6352d1233033e9cb47bb54cd7cec12cd647a67);
    e, v := Climb(P, b, e, v, 1, b, 0x720b674b55c7457419bbfe383bee98c7924998c01f17e12ca397c7d6814850e3);
    e, v := Climb(P, b, e, v, 2, p, 0xb2f6f371b3425ca4db696530747d7729a693a36a40126ea2dbe5de623a80fcd3);
    e, v := Climb(P, b, e, v, 2, p, 0xcc690997b8cbb6f317552553783a904b1efbe819a51f96c4d05e2517fee80ab5);
    e, v := Climb(P, b, e, v, 1, b, 0xcd8fafe1fe29c1616db5972fe825c409a5529b1b8d3bbb55569d7aca8522f01f);
    e, v := Climb(P, b, e, v, 3, q, 0x618aaf839937915b4fca4db195ab6c9ca975cd6905acbcdd8c2764bdfa7f2a00);
    e, v := Climb(P, b, e, v, 1, b, 0x50624bbefefcdde7109a0f157851cd29e611abd1678678b897531bdcb978614f);
    e, v := Climb(P, b, e, v, 3, q, 0x2401f232239c837d1ae730f5bea7d0b3595ef2bc606ad561b1f34611cf61d732);
    e, v := Climb(P, b, e, v, 1, b, 0xa2ad14a6edc3d0beeb546f986e6a368c0b4b6b7e40687297ef6b82243ac24c90);
    e, v := Climb(P, b, e, v, 2, p, 0x5f6110f40597697330a6650463507ee676ceb68b14c6f54344db2f2a0d9f16b5);
    e, v := Climb(P, b, e, v, 3, q, 0x9bbac678df696d95c201e5320de9f619381700caeeb44ac7f7dacc396e82f8ea);
    e, v := Climb(P, b, e, v, 1, b, 0xc74e64789d5393dc8e2a18f054a30a6e86f9e096aaf486974af31a5bb547383);
    e, v := Climb(P, b, e, v, 1, b, 0x75cc049f3e0cd4f7240d0dcc31635084274edf5c9ff6a7b48117cebe376a7183);
    e, v := Climb(P, b, e, v, 0, 1, 0xdb45da2c181e1f81c394a5829641e8ce8824b8f5fee5c47a3fc6cd392cbd43b0);
    e, v := Climb(P, b, e, v, 3, q, 0xd989bc21a20efcc3545302785d662790c7fbf3c45950eb8bce9144237f508116);
    e, v := Climb(P, b, e, v, 0, 1, 0x1725c1c585c5915685fc263d4fd6b9995571e6b349470b8d0f412813cb5e6678);
    e, v := Climb(P, b, e, v, 0, 1, 0x13d4a150934c682832d9427c395880f5594f7e4adf461a9b39b1f89583e83b9d);
    e, v := Climb(P, b, e, v, 0, 1, 0x1bfc17d326b6f0c12141376d23ec453f97cb0a02f3749e7ccd2fab380c81ab01);
  }

  lemma FullP_4()
    ensures PowerIs(P, 0x429ec5b06c46c20546d5aabbe15bfbeedcade9791a517f619bf3f4135dc4da10, 0x1db8260e5e3b460a46a0088fccf6a3a5936d75d89a776d4c0da4f338aafb, 1)
  {
    hide PowerIs;
    FullP_3();
    var b, p, q := 0x429ec5b06c46c20546d5aabbe15bfbeedcade9791a517f619bf3f4135dc4da10, 0xb95f3eae68ab36afdf2f7ed976fc85e62b9a4caf02f58e1b80a405e50a9e148f, 0x582d89f9d650d72d2e0e48e60759ccb8f60e2bb2cca894096311b31b25b24a32;
    FirstPowers(P, b, p, q);
    var e: nat, v := 0x1db8260e5e3b460a46a0088fccf6a3a5936d75d89a776d4c0, 0x1bfc17d326b6f0c12141376d23ec453f97cb0a02f3749e7ccd2fab380c81ab01;
    e, v := Climb(P, b, e, v, 3, q, 0xfe5ecd1a7ee5e84c3338506cde6fcb10827f832eeb523beacbb40f7f3f46aa8b);
    e, v := Climb(P, b, e, v, 1, b, 0x4449e475477ce9644b4c7f43ed9900f84e19cfd81cc6a7b3b84ef9b4fbfd27b5);
    e, v := Climb(P, b, e, v, 2, p, 0x66121c3dea966c76f5ed832ae506fbdca8ad01a68df1dcc4f4d55806fc2b966d);
    e, v := Climb(P, b, e, v, 2, p, 0xd1e4b642df01255403a2e107f0bb9be76f0273873beea04ccc261ddb1eea3257);
    e, v := Climb(P, b, e, v, 1, b, 0xa7d5ee13a92d6bc69ab90cfe732cd1cc3ebd8922e3e092717a33c1a6b892d0e8);
    e, v := Climb(P, b, e, v, 0, 1, 0x3433c9751ac20557d30622ac28909481ca8b0265c3a1a6aeaad9cd9f18b82345);
    e, v := Climb(P, b, e, v, 3, q, 0x368ddffc08b27b38a69dced55a0f5a5bb470ef6d2927ef77a869ed89599a728e);
    e, v := Climb(P, b, e, v, 3, q, 0xe327ee4820910df8c20246306841099deaee4427258b700f04d184a12f646f47);
    e, v := Climb(P, b, e, v, 0, 1, 0xbfbe3e4b7888015fdf6b96d5d101b4afc537df7a0869dde6ca510b9b490564a4);
    e, v := Climb(P, b, e, v, 3, q, 0x9e2d99e1ecc9dcf53c23e8921a4687a1783fcf1044a9908fc5b9b2d9ded1dd6d);
    e, v := Climb(P, b, e, v, 0, 1, 0x1501abcf8068b5b6710800a8f85af539db73b6c12e68049b71db64ecc3907a6a);
    e, v := Climb(P, b, e, v, 3, q, 0x539d2f50bd812e1021cc2f1680bf571ba5fd11b98b94d2fbaddbd22b9277e32f);
    e, v := Climb(P, b, e, v, 2, p, 0x5578ba203ca6fa937827339de72295162c55fb74b651016b42a8a167fc97ba6b);
    e, v := Climb(P, b, e, v, 0, 1, 0x9845e77ce9553c9cdb9c82432bd4c5507557a046eb45c36cd79815a50fd7e744);
    e, v := Climb(P, b, e, v, 2, p, 0xea26b14ae5431a358d8dc27654d3dccb06327b55e24b2cd98ff00349cb60a746);
    e, v := Climb(P, b, e, v, 2, p, 0x1c77dffe9a6d7f55dda05b21b550d555c51f2d6bc4d3da2270118d21f080d96e);
    e, v := Climb(P, b, e, v, 2, p, 0x9f09e7b87074ca9c0b103a420caa49395d9fafe1348446791339616e5f2cd85b);
    e, v := Climb(P, b, e, v, 2, p, 0x42c686716bcaaba60dc5edab4b15902c2d8da27cb72c2a0b21af39fca6327710);
    e, v := Climb(P, b, e, v, 3, q, 0x5d38b8bd74bc071bd590ba3808366702323e5dc8f7691f0dcec11050b912df6);
    e, v := Climb(P, b, e, v, 3, q, 0x5276c9e6e887cc11bb22b421b69abcfa827fdc6314ae1d05af55ad83ac71d98);
    e, v := Climb(P, b, e, v, 2, p, 0x644636da27bc0b4882ec6444c2d26649e960b3380da931d3c75bc6e3e94657ad);
    e, v := Climb(P, b, e, v, 3, q, 1);
  }

  lemma PIsPrime()
    ensures Prime(P)
  {
    hide Prime, PowerIs, FactorsAre;
    RootP();
    FullP_4();
    PowerOfPower(P, 2, 0x89d2a, 0x429ec5b06c46c20546d5aabbe15bfbeedcade9791a517f619bf3f4135dc4da10, P237, 1);
    P237IsPrime();
    ByPower(P, P237, 0x89d2a, 0x429ec5b06c46c20546d5aabbe15bfbeedcade9791a517f619bf3f4135dc4da10, 0x55a50f4e5cae279e7cab8b266ff58ccd44df516a804a84c110b6adb787d46fc7);
    Pocklington(P, P237);
  }

  // ---------- N ----------

  lemma RootN_1()
    ensures PowerIs(N, 2, 0x3cbcde47b82b2fb9c, 0x3107dc79fd590a61310026c6c9826b8faadf81d02794b54d5d2abd408b1bdfe5)
  {
    hide PowerIs;
    var b, p, q := 2, 4, 8;
    FirstPowers(N, b, p, q);
    var e: nat, v := 3, 8;
    e, v := Climb(N, b, e, v, 3, q, 0x8000);
    e, v := Climb(N, b, e, v, 0, 1, 0x1000000000000000);
    e, v := Climb(N, b, e, v, 2, p, 0x4000000000000000000000000000000000000000000000000000000000000);
    e, v := Climb(N, b, e, v, 3, q, 0xd5d153d13990bd7fbc864d115cce4a41a7b60d9a395b85eee9c76297276be31b);
    e, v := Climb(N, b, e, v, 3, q, 0xbd855410dc6653a00dfe072bc74b62dfbc372207dc6d5f7439708e2e266be98a);
    e, v := Climb(N, b, e, v, 0, 1, 0x716f4cac3658603490a727d586380b4a12644d7531609f2777bc4eb78e9da925);
    e, v := Climb(N, b, e, v, 3, q, 0xa1f94a775efcaac06d44647536f01a60715f2a5fa0272b1aaf9ce90b146c3caa);
    e, v := Climb(N, b, e, v, 1, b, 0x7f78c90a982d7e76bc9d80625e550c6e0618f8fd7b21fcf69da6d5aa450cbfb0);
    e, v := Climb(N, b, e, v, 3, q, 0xa9405a012a588b0214919c7e48676e848eaa5eb301b6ea49bb9c6a5e00538b86);
    e, v := Climb(N, b, e, v, 2, p, 0x99fe9cf11e8d7c1e9487e75943d378aa826c3213d9fc12ca22e4262a3efc030c);
    e, v := Climb(N, b, e, v, 1, b, 0xab237e61ef4bd1dc133fc0348821c1f6928140cddaec89c0f5741a4bb9489623);
    e, v := Climb(N, b, e, v, 0, 1, 0xacdbb175a6cc91e1911d950baa57025bbc95181fbee5539eb7867ace3af19235);
    e, v := Climb(N, b, e, v, 1, b, 0x8dd579daa2176aca06660c6b3b0a378c63067f213dacdd523d0eb95cb67cf6c5);
    e, v := Climb(N, b, e, v, 3, q, 0xce4b2c7d69b15bdd035c97fd87f464bed9918a4e37769857b14143ab71672c80);
    e, v := Climb(N, b, e, v, 2, p, 0x1011baecde57461cc837f5fb73d91489dcf1dd0694845bee2fdc1e7c488b1289);
    e, v := Climb(N, b, e, v, 3, q, 0x6ba58177320c12379ddf0f61d2a2fe182d57cd3653c07da4a6fbfbbc9161f6ef);
    e, v := Climb(N, b, e, v, 2, p, 0xb5cc4bfc956256a8cb79798075516ecc0aa8f7d542f0b5e9a8f81e2c0a908538);
    e, v := Climb(N, b, e, v, 0, 1, 0x758cd6152a6eeebbc4164835cce1d5b741f27484b8550f4e9959a64c5c0aaf68);
    e, v := Climb(N, b, e, v, 0, 1, 0x3ef24d411f5e2172ac787f686496d82e4bd26c1da1cdbc2ba562e214ae8fdbce);
    e, v := Climb(N, b, e, v, 2, p, 0xd019212a5e52d6d2ad26db9fab3696434167e2ed768d83f298e1843f33d7cd73);
    e, v := Climb(N, b, e, v, 2, p, 0xb39d9d7034e83061b0a81a20cc17c8812649ffaa1794436745bc6839749a93b6);
    e, v := Climb(N, b, e, v, 3, q, 0xe2a701b5a1d5890a968748a5e18843065b1576739869062e37ea50b44ba5e43b);
    e, v := Climb(N, b, e, v, 0, 1, 0x45c139c390f2331a7e3187b9c833fe6fa2740a0dd6379e9af8354639a3d6e13);
    e, v := Climb(N, b, e, v, 2, p, 0x1681c8950b4251ef2c9f15cc3f33989a761ce297c0b147e0b2d709077d8ad919);
    e, v := Climb(N, b, e, v, 3, q, 0x3fbf2241ccbab5534f1dcd1a96506e7d878c3a191d10e5f8baddc5e489ef3b56);
    e, v := Climb(N, b, e, v, 3, q, 0xd2a393bce02a01a75425a4723645e4ca17ba15a029f1c586cf9639c887d50df1);
    e, v := Climb(N, b, e, v, 2, p, 0x33fd2956a4682ca6ef6fdccc0020d27a28754169577d1c69018664c484356434);
    e, v := Climb(N, b, e, v, 3, q, 0x15747ec88951380d40d293ccaed8e491227106a9d264ae4214fe05e12c845ba1);
    e, v := Climb(N, b, e, v, 2, p, 0xbb3d09139f34d38fe55e5a32e6bb9d6fd09ebc47d8cddbe6858cf5d97614362f);
    e, v := Climb(N, b, e, v, 1, b, 0x7c2b435cf88c61c783f93da9215050980c0c5dcca18fcf414f72b9464c3b97a6);
    e, v := Climb(N, b, e, v, 3, q, 0x3bec4738b056543e8ca77a5fbe32662be20f1103e315c9b3be521a5b4852a131);
    e, v := Climb(N, b, e, v, 0, 1, 0x3107dc79fd590a61310026c6c9826b8faadf81d02794b54d5d2abd408b1bdfe5);
  }

  lemma RootN_2()
    ensures PowerIs(N, 2, 0x3cbcde47b82b2fb9c1ba502317c33c4d1, 0xd22c25ba90e275318c1c82269dd7c8d9c26f42669fa20f02e9cb6024b967c6e3)
  {
    hide PowerIs;
    RootN_1();
    var b, p, q := 2, 4, 8;
    FirstPowers(N, b, p, q);
    var e: nat, v := 0x3cbcde47b82b2fb9c, 0x3107dc79fd590a61310026c6c9826b8faadf81d02794b54d5d2abd408b1bdfe5;
    e, v := Climb(N, b, e, v, 0, 1, 0xdac51bf531735da3cc8e007a44c8d51fa56f3f784ade564892779bb2cddb0514);
    e, v := Climb(N, b, e, v, 1, b, 0xe86ccbb7c7d198a8572a5da04b6e56fc73adfba7d5bfef05887336ff1cb27e0f);
    e, v := Climb(N, b, e, v, 2, p, 0x2295f1c0fcea6e6b094a72a0faeab4009852237b57b0f2b353c8e6f331d80592);
    e, v := Climb(N, b, e, v, 3, q, 0xb19da9aaa22597e39c71325a2ecc2971861d1fa8836668f393ac62026873fc6c);
    e, v := Climb(N, b, e, v, 2, p, 0x8783fbc0850591e22aa8eec6e1fef3fde4d8cf188ac9eb15f26eea00cdfe5fba);
    e, v := Climb(N, b, e, v, 2, p, 0x696be8a5d74725f124da67fa4b692deeac2ee595b6e61be3375550be27d79403);
    e, v := Climb(N, b, e, v, 1, b, 0x603b52d8a4865addad63d5caa8ad2a0feb88c8b49de766ab4626e952775b7ae7);
    e, v := Climb(N, b, e, v, 1, b, 0x45c5c85965ffce0bb4c89171c33dabb92f895bb40270c6660b867ff4d3e03ec9);
    e, v := Climb(N, b, e, v, 0, 1, 0x5be602745e39e3b9fc3f496717c6fab05e10645ea3e877cb4539edec1be2b937);
    e, v := Climb(N, b, e, v, 0, 1, 0x7d1740e8a88b110002a12ba4718fa8d3f1f959f12023308141192efd00abb029);
    e, v := Climb(N, b, e, v, 0, 1, 0xa507291a2fb67902bc2e9f1e1dbb8bf1c8115849d5a938165e0e82d6753cc840);
    e, v := Climb(N, b, e, v, 2, p, 0x75ba08f7d4401b3b10bb63ea87a7969c87d43eed57be3b6934b980ccf1a7a116);
    e, v := Climb(N, b, e, v, 0, 1, 0x535fbabde09064df70e3a2a00bab06e5c9601f8c735eabff154c2238d5667676);
    e, v := Climb(N, b, e, v, 3, q, 0x50305adffe1bfce4e7a4ee30536110ffbf8be6f391b9935e453977a85c39a8cc);
    e, v := Climb(N, b, e, v, 0, 1, 0x1eed26d4d0af2dc11214ced456d87cac9815da819042065a484bc224b74174f8);
    e, v := Climb(N, b, e, v, 1, b, 0xa84a527159811b75fae8b0a81395a90c72c25f306a868a0be30e48c86953ccd7);
    e, v := Climb(N, b, e, v, 1, b, 0x3b9afb2fd977faafe25de092fa3869e41d821c3982bafecfb8fcf39e6b9fbb6c);
    e, v := Climb(N, b, e, v, 3, q, 0x44a6df38ead8fc9fdfa5fba9218d3f16806be6b2618be7af07f79cd3ee225d26);
    e, v := Climb(N, b, e, v, 3, q, 0x5a35474cb58c82b50e83e16e29678cc352f86d58156f53d70bb5deb1185bb67);
    e, v := Climb(N, b, e, v, 0, 1, 0xd3087081de39d400b4c0ebd9ed7d80df1579f2c7f81c886fa06a011b1b156512);
    e, v := Climb(N, b, e, v, 0, 1, 0x993339f0be82d250482146be9908bcd2a9e3396f96cbe4aa0c89bf068f04c8bd);
    e, v := Climb(N, b, e, v, 3, q, 0xaa615a63e90acee4fb4fda44bd2cf1349dfe35b8192cd4e61da3085e2acc750f);
    e, v := Climb(N, b, e, v, 0, 1, 0xb7bbac49ffb13993ab1ea6418cf0c5fe624544c15d5c1c14130fd335f2c556fd);
    e, v := Climb(N, b, e, v, 3, q, 0x4c925598f6d15264e1c0a73bd7d58bc1da459629d9058d940840994fe4451719);
    e, v := Climb(N, b, e, v, 3, q, 0xcad55b094f349a9643ec1b89bb9736c6be20ac46181ac9f9b6510918c34809a2);
    e, v := Climb(N, b, e, v, 0, 1, 0x1a8853045481b4a9ad7ecca474f8ea72019cfa008681fe2c7ac1c67fca5c0ff7);
    e, v := Climb(N, b, e, v, 1, b, 0x8c49a297e68c1f59a6a53c443ded574b9f2636c7736d764db6bf69c00e50a3bb);
    e, v := Climb(N, b, e, v, 0, 1, 0x297f762184f477154273c847d29bc56e502f5ee3e0c3c5843006dc6e3d73fdf7);
    e, v := Climb(N, b, e, v, 3, q, 0xbe6b38b419fca4df536207fd5dc03e826bd7815366e7570236526a26e38c3e51);
    e, v := Climb(N, b, e, v, 1, b, 0xac3784829504d99b03081484facf83041e0d30c2db007424078893ddcf102435);
    e, v := Climb(N, b, e, v, 0, 1, 0x354b578c5d0aa7d4b967f513672ebbe4201ffbddd9e0c4931610ada79d5004a8);
    e, v := Climb(N, b, e, v, 1, b, 0xd22c25ba90e275318c1c82269dd7c8d9c26f42669fa20f02e9cb6024b967c6e3);
  }

  lemma RootN_3()
    ensures PowerIs(N, 2, 0xf2f3791ee0acbee706e9408c5f0cf13469440, 0xbf8ef18068f2b95b4ec1d89e969aaaf80d6a55b047c0187ebebfa98b6a4e7de2)
  {
    hide PowerIs;
    RootN_2();
    var b, p, q := 2, 4, 8;
    FirstPowers(N, b, p, q);
    var e: nat, v := 0x3cbcde47b82b2fb9c1ba502317c33c4d1, 0xd22c25ba90e275318c1c82269dd7c8d9c26f42669fa20f02e9cb6024b967c6e3;
    e, v := Climb(N, b, e, v, 2, p, 0xfb9238a6be1b86624aeaf607ce1ebf018fad844f6ad99219097b8c7fc9e3f85);
    e, v := Climb(N, b, e, v, 2, p, 0x415d86e318688496ea52cf345fffac80e051a6484d431b29ed50cf4156003322);
    e, v := Climb(N, b, e, v, 1, b, 0x84b68182657a4860263bb82706d0df3cf974c8ae51dc0b37086a308d53bc81e3);
    e, v := Climb(N, b, e, v, 1, b, 0xc8274e66ecc0559281c236afd82b3f6c70e078e14a86acd6ad701ea1e5986e6c);
    e, v := Climb(N, b, e, v, 0, 1, 0xe1119ac757eb775168bd9451a29142186e1fb1f5c4900891c1eadce45c1b9a5f);
    e, v := Climb(N, b, e, v, 1, b, 0x1d7b253352a5921cc987358b29d685d864ad96543a66825fc251b2f2e57421d3);
    e, v := Climb(N, b, e, v, 0, 1, 0x7db72112df3f3a5d754a39a5e3b4f27e535a3372ff2c2a109b22cc6e1c019b3c);
    e, v := Climb(N, b, e, v, 0, 1, 0xb11bdbe702e89b76ae69bf4b02f7f3c1c699fd2a7d9826fd975821cfd5fa24e);
    e, v := Climb(N, b, e, v, 0, 1, 0xbf8ef18068f2b95b4ec1d89e969aaaf80d6a55b047c0187ebebfa98b6a4e7de2);
  }

  lemma FullN_1()
    ensures PowerIs(N, 0xbf8ef18068f2b95b4ec1d89e969aaaf80d6a55b047c0187ebebfa98b6a4e7de2, 0x10dbff26eab819805, 0xe930f9ed3d35b59f9a1405513ab97c159489218f4cd458096d185140afe2345c)
  {
    hide PowerIs;
    var b, p, q := 0xbf8ef18068f2b95b4ec1d89e969aaaf80d6a55b047c0187ebebfa98b6a4e7de2, 0xf6406626a7aaa0da613ceac2c0b47229fbc1b3de31f52ecb7d4a7ac89e505685, 0xb6596e4b9c66371331d912545f351111b18adb7e0087211aea4431d2bd853ab;
    FirstPowers(N, b, p, q);
    var e: nat, v := 1, 0xbf8ef18068f2b95b4ec1d89e969aaaf80d6a55b047c0187ebebfa98b6a4e7de2;
    e, v := Climb(N, b, e, v, 0, 1, 0x5f5be6a4c6eda3053f086c765c0bfe6d44d8841319feed0dc6f29e079aefc79d);
    e, v := Climb(N, b, e, v, 0, 1, 0x7d5ccead2a66f32e351da78afcc0cb55c2e2b5583b8b7bc4d4e7b4293745ba6d);
    e, v := Climb(N, b, e, v, 3, q, 0x5f2e8e6fbd6da80aad6cc82c2f0487b61e6011e67ba2b345d818db0fa8c63664);
    e, v := Climb(N, b, e, v, 1, b, 0x84c94dc28fd457e8f9b7f21ce3a64c53172c221a98d3a9e915ccf307bdaabcd5);
    e, v := Climb(N, b, e, v, 2, p, 0x4fb799a8e6e2e2ec47ac374fc98e4cfc80f140962d48d4d10d03d364dca9cb57);
    e, v := Climb(N, b, e, v, 3, q, 0xefcf44d64dd40556304f5bd2bfdd167b370a205ddd2c2634587cc7bef39cec03);
    e, v := Climb(N, b, e, v, 3, q, 0x27439970f4dfa2ed56a81baa0da403a9e31490bbf70a05dececabfb233544d29);
    e, v := Climb(N, b, e, v, 3, q, 0x5a57aefb46b159922118970f4086a2e7716723538dde55a7545e692eaaeb09c7);
    e, v := Climb(N, b, e, v, 3, q, 0x4b8e0fc7d7fe8062116fa36260f673d65c9925c7eb8170b8aae79266a910ba21);
    e, v := Climb(N, b, e, v, 3, q, 0xb2ccf905f4bf474e2c310d4e8e52fe9cfb1d4e26932fb9e84361eee515ab50d7);
    e, v := Climb(N, b, e, v, 0, 1, 0x177576e99b26e876100a02f781a8fd316037ea9bfb41fe0b156bd2d7fe7996d1);
    e, v := Climb(N, b, e, v, 2, p, 0x2ba7e1d5770d0d60430aa0ae1a32e04aef62802b2b29c75154598c5003d5a937);
    e, v := Climb(N, b, e, v, 1, b, 0xa3decb801757507bdd15ed955caffcee60cd24bbc83d7aa8a4443147d18b86a7);
    e, v := Climb(N, b, e, v, 2, p, 0x743999da34915cb6df7e3d608916d213e8ea0a3b1e7be595c8e727a2d25c4e3c);
    e, v := Climb(N, b, e, v, 3, q, 0x487dd0de7b1e03b25704c5630ed78bc156abbebd0e77cfcf7e7546bff37636e);
    e, v := Climb(N, b, e, v, 2, p, 0x3bd4dc0b00966cda73ed072615aff02b5fc0e6d77772df2946586f64598ae418);
    e, v := Climb(N, b, e, v, 2, p, 0xbbc95cb4948e03a6df34d2c01d03667a769ab4472cdaedbf250f6949fcea2c51);
    e, v := Climb(N, b, e, v, 2, p, 0xa37350ec8d3a2cd9862dc9ff4c222e0a7ff3f8be3982ff6b635540e82f0c0e06);
    e, v := Climb(N, b, e, v, 2, p, 0xdb8a4d062ebb3b0ef6f0086565299d1fc8bc7ee0dc5abd8a7bc466ba14927da7);
    e, v := Climb(N, b, e, v, 3, q, 0x635794953d5c6fbb29b3f9d1810a64c7df77b21c5df719a83580de017934e43f);
    e, v := Climb(N, b, e, v, 2, p, 0x986f0c3d8969031eadd7513629be9ba4077dbfce9c6b799a29f32b5301d84b12);
    e, v := Climb(N, b, e, v, 0, 1, 0x1664ea7b139edacdff76ed064f1be2f4e5046e971fb0c3ca56ff64904825b3f2);
    e, v := Climb(N, b, e, v, 0, 1, 0xb11cf5ec40a06e8c1398d978895ec5eb7ae48a1ba7d6e39527d6dca6794b5ca5);
    e, v := Climb(N, b, e, v, 1, b, 0xc962f741005981782befccce0f3a5861838b5fc1fe45c7f2203e9e7685fdf5d4);
    e, v := Climb(N, b, e, v, 2, p, 0x3b4676caae08d83440313267febc9d4d4e5a3e937c6b5a3cbe4a7992338b2430);
    e, v := Climb(N, b, e, v, 1, b, 0x3ca53c62f47d302f6a12dceabd6733588a36dd77a5dc451ab2ad3d359b57a4e3);
    e, v := Climb(N, b, e, v, 2, p, 0x484d6e42c654c8ee90b40394e87ccfd54e6004d0f4a901e01d32c735187bd53c);
    e, v := Climb(N, b, e, v, 0, 1, 0xc5d2bf4e644d4e983aa042c09de2e6aeb47f3ca8caf172c72bac3c3ddf4e8e8);
    e, v := Climb(N, b, e, v, 0, 1, 0xcdc7219dae4318bb8e3df20f73f526a4de9bd6aab58940e52b2c72086082c1eb);
    e, v := Climb(N, b, e, v, 0, 1, 0x4492195a879dcbb960998fa0e83258b3bbc3df6860b9e7053d4f1ba9e150b243);
    e, v := Climb(N, b, e, v, 1, b, 0xfce4906da4bfab8050970225f40409c4fb57576642c05b74232c4e46414bb682);
    e, v := Climb(N, b, e, v, 1, b, 0xe930f9ed3d35b59f9a1405513ab97c159489218f4cd458096d185140afe2345c);
  }

  lemma FullN_2()
    ensures PowerIs(N, 0xbf8ef18068f2b95b4ec1d89e969aaaf80d6a55b047c0187ebebfa98b6a4e7de2, 0x10dbff26eab8198050172ee03275, 1)
  {
    hide PowerIs;
    FullN_1();
    var b, p, q := 0xbf8ef18068f2b95b4ec1d89e969aaaf80d6a55b047c0187ebebfa98b6a4e7de2, 0xf6406626a7aaa0da613ceac2c0b47229fbc1b3de31f52ecb7d4a7ac89e505685, 0xb6596e4b9c66371331d912545f351111b18adb7e0087211aea4431d2bd853ab;
    FirstPowers(N, b, p, q);
    var e: nat, v := 0x10dbff26eab819805, 0xe930f9ed3d35b59f9a1405513ab97c159489218f4cd458096d185140afe2345c;
    e, v := Climb(N, b, e, v, 0, 1, 0xd9c03121ce759a5dadf28faa695af483bad9aea18ab6226ad58f8f3b33a7798e);
    e, v := Climb(N, b, e, v, 0, 1, 0x6e5d585e0bf3932b26ceec453a12ac05a610eb374bf77b5b71966a3b3adcfab);
    e, v := Climb(N, b, e, v, 0, 1, 0x710b2940a35ef0bc46c714a0a4ba7a9f9e5b25bc2b725e459ac8b7abeef6b6a6);
    e, v := Climb(N, b, e, v, 1, b, 0xdf0aea03711fb46c5937d5bd5a9642c79d57293ad85ba0c2fd320fe535a8f72f);
    e, v := Climb(N, b, e, v, 1, b, 0x14a2d63300013ec07b762f906e7369de7a619473cdcb55fe0d248eeefe4d9353);
    e, v := Climb(N, b, e, v, 3, q, 0x4d86d62a6c1e38f8224047add714beebf916892a04cba9d54116c184f5cc77b7);
    e, v := Climb(N, b, e, v, 0, 1, 0xdb6f4ee61786961ef2478eaf14327437e86d8d0deb271546563714c95f5027c6);
    e, v := Climb(N, b, e, v, 2, p, 0xec8275d3693dcf795d2ced4b0aa14040d4f7a8afdcfcb443147006dd8c4e0bf4);
    e, v := Climb(N, b, e, v, 3, q, 0x7b5cc9a959b624b9691e91dd7059d2f456bf49fd618a64e05cc04514b4d4cec8);
    e, v := Climb(N, b, e, v, 2, p, 0xdd3cdf500c1aa8be3ff0a334c47a31d620e309fa0c1f172aaf77eae880c8228c);
    e, v := Climb(N, b, e, v, 3, q, 0xf32644fe7d61875f57fad7ff3da3fb8fd2578ba017af4526df61a29928950b91);
    e, v := Climb(N, b, e, v, 2, p, 0x2ea604d9b2c8a283e867736248023e4f1b49bea506f9ed93b3c3ed753dd5f16b);
    e, v := Climb(N, b, e, v, 0, 1, 0x9c79a6c7ed57499f74f1b1f4f050107dc5346512314103d9d1941420693caaf);
    e, v := Climb(N, b, e, v, 0, 1, 0x4edeae43e1cd99a24833c59243a39a44e1d53dc7f5009bd33bdbe2130c7e2c3a);
    e, v := Climb(N, b, e, v, 0, 1, 0xeb3e6f964bca35f902f290719afcad12038f5ede5f4465fd15089cae75db21bc);
    e, v := Climb(N, b, e, v, 3, q, 0xccce520302ed062bd78942c2bac975dd1f642af8720b751838cdb76c7b16e9b);
    e, v := Climb(N, b, e, v, 0, 1, 0xdd68937af036476ec720507fc726cef96769c1546a01fed2b684048be05e6e7b);
    e, v := Climb(N, b, e, v, 2, p, 0x3a10959834bf1a3ba4a164e1c8c29483cc1a2c0d3b171a1476ed369b0fe82dde);
    e, v := Climb(N, b, e, v, 1, b, 0x2b667e2ed23103e8f51cbcb39c02a509b605b05cee5292abdbd00d2b6a67439a);
    e, v := Climb(N, b, e, v, 3, q, 0xbc9b30a75b346efd1f90abe1a0e7aada689e283b5a6039d83d71d2dbbf200952);
    e, v := Climb(N, b, e, v, 1, b, 0x753918516a5a1d0983af1db27dfc270660dc3d21b73cc42b8d3239bbafa4e801);
    e, v := Climb(N, b, e, v, 1, b, 1);
  }

  lemma NIsPrime()
    ensures Prime(N)
  {
    hide Prime, PowerIs, FactorsAre;
    RootN_3();
    FullN_2();
    PowerOfPower(N, 2, 0xf2f3791ee0acbee706e9408c5f0cf13469440, 0xbf8ef18068f2b95b4ec1d89e969aaaf80d6a55b047c0187ebebfa98b6a4e7de2, P109, 1);
    P109IsPrime();
    ByPower(N, P109, 0xf2f3791ee0acbee706e9408c5f0cf13469440, 0xbf8ef18068f2b95b4ec1d89e969aaaf80d6a55b047c0187ebebfa98b6a4e7de2, 0x7e44a52d4b46b005ca417d91243e86645b66fffd04cce22537827794f1dcf541);
    CubeRootCriterion(N, P109, 0xbcf6c2f4b07d9716cc10408f02e, 0xe691388d8a, 0xbcf6c2f4b07d9716cc10408f02d);
  }
}
