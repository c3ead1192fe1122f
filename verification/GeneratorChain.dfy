/**
 * The generator, and the multiple s G + t phi(G) of it that is infinite, phi the fast endomorphism. The points on the
 * way there, each with the slope that leads to it, are written down; every line checks by remainders that it follows
 * from the one before.
 */
module GeneratorChain {
  import opened FieldMul
  import opened Points
  import opened PointsLaw
  import opened PointsSum
  import opened PointsGroup
  import opened PointsEndo
  import opened Groups

  const GX: int := 0x79be667ef9dcbbac55a06295ce870b07029bfcdb2dce28d959f2815b16f81798
  const GY: int := 0x483ada7726a3c4655da4fbfc0e1108a8fd17b448a68554199c47d08ffb10d4b8

  // the x coordinates of phi(G) and phi(phi(G)), and the opposite y
  const FX: int := 0xbcace2e99da01887ab0102b696902325872844067f15e98da7bba04400b88fcb
  const FFX: int := 0xc994b69768832bcbff5e9ab39ae8d1d3763bbf1e531bed98fe51de5ee84f50fb
  const NY: int := P - GY

  ghost function Generator(): (p: Point)
    ensures p == Aff(GX, GY, false)
  {
    GeneratorOnCurve();
    Aff(GX, GY, false)
  }

  lemma GeneratorOnCurve()
    ensures Reduced(Aff(GX, GY, false))
  {
    hide Lies, Z0;
    ZeroRemainder(GY * GY - GX * GX * GX - 7);
    LiesOnC(Aff(GX, GY, false));
  }

  /** s G + t phi(G) */
  ghost function Comb(s: int, t: int): Point {
    var g, p := PointGroup(), Generator();
    g.add(g.Mul(s, p), g.Mul(t, Endo(p)))
  }

  ghost predicate At(x: int, y: int, s: int, t: int) {
    Comb(s, t) == Aff(x, y, false)
  }

  lemma CombAdd(s: int, t: int, s': int, t': int)
    ensures Comb(s + s', t + t') == Add(Comb(s, t), Comb(s', t'))
  {
    hide Add, Negate, Endo, Reduced, Group.Mul, Group.Valid;
    PointsAreAGroup();
    var g, p := PointGroup(), Generator();
    g.MulPlus(s, s', p);
    g.MulPlus(t, t', Endo(p));
    g.Swap(g.Mul(s, p), g.Mul(t, Endo(p)), g.Mul(s', p), g.Mul(t', Endo(p)));
  }

  /** A reduced point that the line gives is a point of the curve and the sum. */
  lemma NextPoint(p: Point, q: Point, a: int, s: Aff)
    requires !p.infinity && !q.infinity && !s.infinity && 0 <= s.x < P && 0 <= s.y < P
    requires Slope(p, q, a) && Third(p, q, a, s)
    ensures Reduced(s) && Add(p, q) == s
  {
    hide Slope, Third, Lies, Z0, Add, OnC;
    PointOnC(p);
    ThirdOnCurve(p, q, a, s);
    LiesOnC(s);
    AddIs(p, q, a, s);
  }

  lemma LineByRemainders(x: int, y: int, x': int, y': int, a: int, u: int, v: int)
    requires (a * (x' - x) - (y' - y)) % P == 0
    requires (a * (y + y') - (x * x + x * x' + x' * x')) % P == 0
    requires (a * a - x - x' - u) % P == 0
    requires (a * (x - u) - y - v) % P == 0
    ensures Slope(Aff(x, y, false), Aff(x', y', false), a) && Third(Aff(x, y, false), Aff(x', y', false), a, Aff(u, v, false))
  {
    hide Z0;
    ZeroRemainder(a * (x' - x) - (y' - y));
    ZeroRemainder(a * (y + y') - (x * x + x * x' + x' * x'));
    ZeroRemainder(a * a - x - x' - u);
    ZeroRemainder(a * (x - u) - y - v);
  }

  /** (u, v) is the sum of two points: the slope a and four remainders show it. */
  lemma Plus(x: int, y: int, s: int, t: int, x': int, y': int, s': int, t': int, a: int, u: int, v: int)
    returns (u': int, v': int, i: int, j: int)
    requires At(x, y, s, t) && At(x', y', s', t') && 0 <= u < P && 0 <= v < P
    requires (a * (x' - x) - (y' - y)) % P == 0
    requires (a * (y + y') - (x * x + x * x' + x' * x')) % P == 0
    requires (a * a - x - x' - u) % P == 0
    requires (a * (x - u) - y - v) % P == 0
    ensures u' == u && v' == v && i == s + s' && j == t + t' && At(u', v', i, j)
  {
    hide Slope, Third, Z0, Add, Lies, Reduced, Comb;
    u', v', i, j := u, v, s + s', t + t';
    LineByRemainders(x, y, x', y', a, u, v);
    NextPoint(Comb(s, t), Comb(s', t'), a, Aff(u, v, false));
    CombAdd(s, t, s', t');
  }

  /** (u, v) is twice a point. */
  lemma Twice(x: int, y: int, s: int, t: int, a: int, u: int, v: int) returns (u': int, v': int, i: int, j: int)
    requires At(x, y, s, t) && 0 <= u < P && 0 <= v < P
    requires (a * (2 * y) - 3 * (x * x)) % P == 0
    requires (a * a - 2 * x - u) % P == 0
    requires (a * (x - u) - y - v) % P == 0
    ensures u' == u && v' == v && i == 2 * s && j == 2 * t && At(u', v', i, j)
  {
    hide At;
    TangentIs(x, y, a, u);
    u', v', i, j := Plus(x, y, s, t, x, y, s, t, a, u, v);
  }

  lemma TangentIs(x: int, y: int, a: int, u: int)
    ensures a * (x - x) - (y - y) == 0
    ensures a * (y + y) - (x * x + x * x + x * x) == a * (2 * y) - 3 * (x * x)
    ensures a * a - x - x - u == a * a - 2 * x - u
  {
  }

  // ---------- the images of the generator and their opposites ----------

  lemma GeneratorImages()
    ensures At(GX, GY, 1, 0) && At(FX, GY, 0, 1) && At(FFX, GY, -1, -1)
    ensures At(GX, NY, -1, 0) && At(FX, NY, 0, -1) && At(FFX, NY, 1, 1)
  {
    hide Comb, Add, Reduced, Lies, Endo, Image;
    var p := Generator();
    ImageByRemainder(GX, BETA, FX);
    ImageByRemainder(FX, BETA, FFX);
    EndoAt(p, FX);
    EndoAt(Endo(p), FFX);
    CombsOfImages();
    Opposites(GX, 1, 0);
    Opposites(FX, 0, 1);
    Opposites(FFX, -1, -1);
  }

  lemma Opposites(x: int, s: int, t: int)
    requires At(x, GY, s, t)
    ensures At(x, NY, -s, -t)
  {
    hide Add, Endo, Reduced, Lies, Group.Mul, Group.Valid;
    PointsAreAGroup();
    var g, p := PointGroup(), Generator();
    g.MulNeg(s, p);
    g.MulNeg(t, Endo(p));
    g.NegAdd(g.Mul(s, p), g.Mul(t, Endo(p)));
    OppositeY(Comb(s, t));
  }

  lemma OppositeY(p: Point)
    requires !p.infinity && p.y == GY
    ensures Negate(p) == Aff(p.x, NY, false)
  {
    hide Lies;
    ResidueIs(-p.y);
    assert (-GY) % P == NY;
  }

  lemma EndoAt(p: Point, x: int)
    requires !p.infinity && 0 <= x < P && Image(p.x, BETA, x)
    ensures Endo(p) == Aff(x, p.y, false)
  {
    hide Lies, Z0, Image, Times, Residue;
    EndoOnCurve(p);
    ImageUnique(p.x, BETA, x, Endo(p).x);
  }

  lemma ImageUnique(x: int, b: int, X: int, X': int)
    requires Image(x, b, X) && Image(x, b, X') && 0 <= X < P && 0 <= X' < P
    ensures X == X'
  {
    hide Z0, Times;
    var y := Times(b, x);
    ZeroCombine(X - X', -1, y - X, 1, y - X');
    SameReduced(X, X');
  }

  lemma ImageByRemainder(x: int, b: int, X: int)
    requires x >= 0 && (x * b - X) % P == 0
    ensures Image(x, b, X)
  {
    hide Z0, Image;
    ZeroRemainder(x * b - X);
    ImageIs(x, b, X);
  }

  lemma CombsOfImages()
    ensures var p := Generator(); Comb(1, 0) == p && Comb(0, 1) == Endo(p) && Comb(-1, -1) == Endo(Endo(p))
  {
    hide Add, Negate, Endo, Reduced, Group.Mul, Group.Valid;
    PointsAreAGroup();
    var g, p := PointGroup(), Generator();
    var q := Endo(p);
    g.MulOne(p);
    g.MulOne(q);
    g.MulZero(p);
    g.MulZero(q);
    g.Zero(p);
    g.Zero(q);
    g.MulNeg(1, p);
    g.MulNeg(1, q);
    g.NegAdd(p, q);
    EndoSum(p);
    NegateNegate(Endo(q));
  }
  lemma Chain1()
    ensures At(0xf6c4d080197ef886b4bc291a30c71fc5ef004375b28d4d5aaf8f59a5908cdd70, 0x6d7fd2455216bca9be74aba905dbebb6d922608820f92aa364014e4a8202cd4e, 388, -0x722)
  {
    hide At;
    GeneratorImages();
    var x, y, s, t := FX, NY, 0, -1;
    x, y, s, t := Twice(x, y, s, t, 0x7df05feaa87293a98919fb7954ca25dfe4cf7571715512745288cd5285cbcc89, 0xc360a6d0b34ce6df4135ee7d59f87b33d2fad8cce43837ef3e995b6ed89250e1, 0xe51e970159c23cc65c3a7be6b99315110809cd9acd992f1edc9bce55af301705);
    x, y, s, t := Twice(x, y, s, t, 0x53577aa6b6ce62c27bb968c9387620b6112ea60e4e7ea6e65b54848b0ae78dd3, 0x1b77921f0d3829075c45faf8b90e324b714c30b5ab4871275bde5b333b306100, 0xae1266c15f2baa48a9bd1df6715aebb7269851cc404201bf30168422b88c630d);
    x, y, s, t := Twice(x, y, s, t, 0x3f18b810595005f65d4c27d08b8189c91923a34ce3e6e569a9bb0de896b2313a, 0x47ab650342d401a7aa77840f29e24892b4ff77152425765703e947742446cc73, 0xa3b25758beac66b6d6c2f7d5ecd2ec4b3d1dec2945a489e84a25d3479342132b);
    x, y, s, t := Plus(x, y, s, t, FFX, NY, 1, 1, 0x7d492b02f8f15f1c8681afc23273fbf52b43889e16526017fecc2dfe390df860, 0xfde9f0a5fc339c4c9ede87499ce905cf3c83f4855630b904f12e02e421e0a94d, 0x8378eb19537d0da80ec984be76bf2085490d17368ee0ab492fd8f179e46375ca);
    x, y, s, t := Twice(x, y, s, t, 0x8ff784b17beeca1f136f0311c7e1507792c31d3f7407c394b8735682bb608742, 0x3a1c498ae2af307a8cbb4a5f301e7348b1c0e22d89aa583e376db54a920ad910, 0xf7df167a0d8604c4f13d574b3b5a8265f7e4c3cd2c36dabbd5984c797584fd41);
    x, y, s, t := Plus(x, y, s, t, GX, GY, 1, 0, 0x571aa6991ef1f6844a368b491139ed9f32024e706f71d4b58bb72cc00b11e40e, 0x8f53bc847db1b710eb32faf14f4399ca7890169c923acebb2594044479d97613, 0x20ed64663e88025e19280ec14a530b40a61626318fab8a53f6ddb2c5342248a5);
    x, y, s, t := Twice(x, y, s, t, 0x5ee7ab06eb5f43fe11dfd0bbb39c2e5139049b10f8080b768d47a86dc7a00ebd, 0xfa4c95718cb89c28c86eabc327788cfb4d351dd711b4930a57325e982b14dcf0, 0x9ab7e78b0293213b20c2fc84ddc3400f395c1752a284af750c196d2a3b7e998c);
    x, y, s, t := Twice(x, y, s, t, 0x71765de1b102793cfdafa72cb7167e92eaafafd69af307714468ebf4d6b20e6e, 0x79a7c3a91bb03600869b4491a83a4c30f58ce65b51d3497834379b87b92d72b3, 0xe8234514e23ec86adff2f1635a332183d63c8848eaf73f458a314e99784caa1a);
    x, y, s, t := Plus(x, y, s, t, FX, NY, 0, -1, 0x27cbc938cdbe25571bb5bf5207e88134845885348a0b597c1cb38770b053b188, 0x926ece93230f997bf01decea7e5d634c76c4d5aa0aea4ec8ea96f4b5efc75c26, 0x6dfb01961731d6ad74113429c099b11dea138fcb123721eece5670ce3aed0ca5);
    x, y, s, t := Twice(x, y, s, t, 0x8ebff27598fd2f1750f25937345a0564fffee9d3dcd8529f560e25e7aa0f9f4a, 0xc55ade76f1682598c571bd0699f40d94aa802a49ad8daeae9c8b6b35c1b698f8, 0xac9de2ba9d73507be709380e91681b10b64e4f2cbb20dc609b2037856600ec63);
    x, y, s, t := Twice(x, y, s, t, 0x19f9706d4d7269fa852f4181e02646f1a212c1eaaa4c8d030921751802c0612, 0x74f2b748a6f3408728ac2bebee373d4d9d4b14580e1a29277e20ba7271c2c4d2, 0x5c90620e7bec4b0b07fd2c8d3d9019641d3f3b3cb079fd0fcd3ad0905f146998);
    x, y, s, t := Twice(x, y, s, t, 0x991b34607c8b73e244fe530a1dc033342f0418bc767cffd009a69a282ffb7615, 0x35825048de788396c8177a5cc68525f2e70154eef4bbc5c5c9798d8b2a858f61, 0x15654d7911e3c658dbe141dabf6e60b657977c22c20bfedea522637d9c86095f);
    x, y, s, t := Plus(x, y, s, t, GX, GY, 1, 0, 0x68124d5088945d720c1f63d9e72097fa12b46561d92d2ea1a6bc69f57a898c6b, 0xc6dde4a050a18be76d9238f3f150e369ac76f06823cc5d69b156cc766047f674, 0x51302418e1aa536697628114fd56937676d572d5a98913c13bfbbaf6ed089b06);
    x, y, s, t := Twice(x, y, s, t, 0x354682e469f123962559679a32fed2359e10a84833aa493a58f2180b630628a6, 0x1812e06f908fe0ca29d536e5654fa68c8fc258c043e338807a34650f99c6f4b9, 0xe31736cb54668084322a634c094c33858dfe82bd885ab17881c1933ba179c8bf);
    x, y, s, t := Plus(x, y, s, t, FX, NY, 0, -1, 0x16d44bbfdb64a9ceaa262294e4eb3ac154e542706d0cfd4987cda839cb0ba4a8, 0xe0fb339d3af1c9d4117d723b3cbb91097af32f29fa7edd59e579c10fbfb79492, 0xe72b0ed96d30fa3e987df02e76512bc7256ac307f032d35e458cea9069ff677a);
    x, y, s, t := Twice(x, y, s, t, 0x6d72d1d7f12a83bf88fab1fe8ada3839c0a7213c7af72dddc6538332eea55f11, 0xf6c4d080197ef886b4bc291a30c71fc5ef004375b28d4d5aaf8f59a5908cdd70, 0x6d7fd2455216bca9be74aba905dbebb6d922608820f92aa364014e4a8202cd4e);
  }

  lemma Chain2()
    ensures At(0x6b2abea48bed3e2ae060e077cf44eabda3a90a3aecb96aa3d16b1f7a52ed7b9d, 0xd763db10406547871dad72b17a82a3a32b047c9ee8084b22919dc0e4e38802b6, 0x610da, -0x1c8870)
  {
    hide At;
    GeneratorImages();
    Chain1();
    var x, y, s, t := 0xf6c4d080197ef886b4bc291a30c71fc5ef004375b28d4d5aaf8f59a5908cdd70, 0x6d7fd2455216bca9be74aba905dbebb6d922608820f92aa364014e4a8202cd4e, 388, -0x722;
    x, y, s, t := Twice(x, y, s, t, 0xce1174750bef4e0205d08bce8ac1894592e8425a3c946c99c37d3ecf03099d60, 0x19d18ed10b948b302571227570cdf9bd4b4b597e9ddfa8b2214c0854d407c787, 0x5da2b79a2f657bbe33643f4fab01d519ac1b9b212d82e868e2295a2a94796dfb);
    x, y, s, t := Twice(x, y, s, t, 0xb889803dd1ebe0f5fc1fd1f3d10453dd13f058791842dd0af4da4993d8be9de4, 0xc2c32ec4af8e638142e31ce627ce282382801d6c0a487e07b7129e8498c0c8d0, 0x9e1debba47e2975994dca637b5c6bd833db076eeb802eb4ac03ac0cf4ce6143a);
    x, y, s, t := Plus(x, y, s, t, GX, GY, 1, 0, 0xa35f8b9ec4fc82c9536aea7d6e3559e9a0f2127cbabde9113a9afeffe47445e9, 0x3247b1ec3e42a0aa0defed595fce6ff44f4fd8e7f616c3745ac1e44da9b0c628, 0x96b4495752993d1ca49b5f16e547ac9efa0a904d50e13e574a794d6e4dad9249);
    x, y, s, t := Twice(x, y, s, t, 0xb507a0d1ba73eb7780752768f73bea68704a29893df382872e1266db50c2257c, 0x968910499deb279978f48d7f92134c3297593c0cab539f42f4ab7271989288f0, 0xcbc96df8ddadf75f968acd53850d438d569e2380a5a1b49d9ab35838a6660057);
    x, y, s, t := Plus(x, y, s, t, FFX, GY, -1, -1, 0xcf4f1b480cfb6f5896e94c9f3238670f60e72e4406c7ddd16cad75d3ab0eb040, 0xf37b9507f5ea29975916dac9bea5ec22c2a85fc7dde2866c3af3e94ece60ce93, 0x9fe65e49ccabf58382536795074aaa92cb1fe3ae4f2a775b53afc7087d80d8e2);
    x, y, s, t := Twice(x, y, s, t, 0xd1b552b951315009401e834d73e044fb764d535987d09b80e0f53ed43daac636, 0x7a33ca397d668ecd3016ac6585126622a51e30f98d1acba1fbf26380c580221b, 0x5dcf8c072038b1c06157a4f618d8ec298601d18d1719430066fadfc7dfded1f5);
    x, y, s, t := Plus(x, y, s, t, GX, GY, 1, 0, 0x37420d6e42a068b163a5d372139e07891379abdc714b0129f22702cb6390f079, 0xe8b6acb8b6fdccd6ecabc2c907b230013c4beba3dcfa6f8a699a4256c10f81cb, 0xa5ff8621e0d947006825b31ddb2867962749f6c8495cce5805790e2995c4ce48);
    x, y, s, t := Twice(x, y, s, t, 0x4f135e2aa9820e37bf093e12223542734bc65c57493200e629cff88f8f3312c2, 0x72a0f442f17a2a64cfabe8b33ab9ddda9e9b2aa08f7a7df1ca2e08c3d58500d9, 0xa378e61fe0cef24a9fc6981eafca41906a816fb0b3df862fa580e543964926c9);
    x, y, s, t := Twice(x, y, s, t, 0xf7626eb4ae45f7a839f38eac862030e30ac7b95b9e4dd62676680ea710d089ce, 0x29b5c960cd2fb53d4dcb235139921cbbb761ec5aa74850226608776510095f6c, 0x1a8797d69f7eee6d9571d5afaaea19afa6c5acc71570b65ecaf891336c299f2c);
    x, y, s, t := Plus(x, y, s, t, FFX, NY, 1, 1, 0x1d43182c126a83f641ec656ebb5a8d1c9a6e8a94450c2363d2936cc87c6a73d0, 0x9def983585296ebe5e830b27badf85765eb32e437051c9fbf73ce51107dfa425, 0x784f5697c6814fa9fd6c8f37cc982d3d215c3cd3a37718fc103a9bb131a25970);
    x, y, s, t := Twice(x, y, s, t, 0x244ef2796bf47f6e1588adcb60ab7149e91ff5458c51b06e274c6b3e94efb867, 0x37e50beef59141bc48bd38259141f6a905e8154e5655b7fde73992b8a14c3e89, 0x53e005378937b2a25fa198eeb01f132cd78595c4d2dbd6b63eaf5528913c6651);
    x, y, s, t := Plus(x, y, s, t, GX, GY, 1, 0, 0x935ab4a68777abbf1b6063dff42f8d0895c853142a7aeb18454909061f37f08f, 0xef25f4ce31d866088c6bc2bbf8707f38ebd362976d5e25ab8de9b6e7254d6489, 0xb0e6382c564bf0f09e9f3129dda72e7f1bedb2a3d8282684bd1d54b7a4c27a23);
    x, y, s, t := Twice(x, y, s, t, 0x378a2bc656efbac5175a1d1d80b528b0222324bd66dab89331fe5a7ec54fbb1a, 0x880c601b80d7f1d13c1ca7d75619bb927cf6ec5d3f5d30cea08b00c6e9fcd45c, 0xbaa05e2913451c0f5887fd6803c9a749f69b14f44bb38bdb4107273ad1418804);
    x, y, s, t := Twice(x, y, s, t, 0xee6099bcd7720fa5423c0a9f6496f42709337b5aaae4e81ff83f4fe99d94269b, 0x531c5403233ccc78e35bf673b6b477884e8199a40eb54c788a61a0afb3412c31, 0x4673dd0d753444b203d874cab2b09914742660771d2bf53e734e0460e608e0c9);
    x, y, s, t := Plus(x, y, s, t, GX, GY, 1, 0, 0x71405cdda3e4c8565e6664a0db0aeb37d0b613a72b736db3c16c51182e57b70d, 0x3d5d277aef045425504dac4438ab4a3f974d82c4e870f6e1cc71de17c579eca8, 0xf17f57547a512f575c8cd46eb9cbc2a80312b3df1c76bedc928902fd7c6203fc);
    x, y, s, t := Twice(x, y, s, t, 0x39a5ac47428d605dc9ceb54cdf3f4527e8934647218f4ba461150561801278e7, 0x6b2abea48bed3e2ae060e077cf44eabda3a90a3aecb96aa3d16b1f7a52ed7b9d, 0xd763db10406547871dad72b17a82a3a32b047c9ee8084b22919dc0e4e38802b6);
  }

  lemma Chain3()
    ensures At(0x483f1d72750d753e43a19c8b7c1b91882b2dceefbdf3c999cf68b754de524de, 0x4f4384c25498243681348474ed25e8af892eafb8b92709a1f92b27084bff7a96, 0x3086d222, -0xe4437ed6)
  {
    hide At;
    GeneratorImages();
    Chain2();
    var x, y, s, t := 0x6b2abea48bed3e2ae060e077cf44eabda3a90a3aecb96aa3d16b1f7a52ed7b9d, 0xd763db10406547871dad72b17a82a3a32b047c9ee8084b22919dc0e4e38802b6, 0x610da, -0x1c8870;
    x, y, s, t := Twice(x, y, s, t, 0x8b3b3411149e4e0c4e69b9ff0de96bfbf69eef16a86a3fcdba92e9f61f698a82, 0xc5eefca323644cf96000720df86b45eae1881eb3281e203dff11d7f01c78c81e, 0x78d899916b74b69ba49ab5e51ca753edc7092bbcb0b1356aa4ab4a714d22ff8);
    x, y, s, t := Twice(x, y, s, t, 0xdede73c0a709d3ef7123bf0361d258e1b24cb5eb3665a0d202b32d76cfffd115, 0x2bfd0c82ae7a945d55c6bf46d14717f39702e7e8ff7bc2b2ae87aaa3fc7f530d, 0xaeb909d4115479b598e2586c9b2d5464188f88452348a351e62bbad1557b8c79);
    x, y, s, t := Plus(x, y, s, t, FFX, NY, 1, 1, 0xa54ff596b5f983fd60c57b35667a60e82a5a3df3596dae324c9b961ecc8b7b7c, 0xdf99e3bad21fd75b53b02daf1310a0b4cfdb3f8332c434e851b4118e49612306, 0xb9bcb127b05b317b8d29f9013a642650da6884dd3830cbcddc2b5c8cc97f9818);
    x, y, s, t := Twice(x, y, s, t, 0xcbc976d1c2f0d7880a02b7b6ddc3701586274e91d64bcf6fe685b71971e87465, 0xb7bf93a65072078eda8b632e572f328bbe702889f4e8277a40b10d3b3a51872f, 0xc00648dd449393aff2bfa13de1d385571aa3a60126866353b0a2657ca9caa215);
    x, y, s, t := Plus(x, y, s, t, FX, NY, 0, -1, 0x502ecd49344e878240d3bec6190cc1e8fee5fc263b850923d9bc85d4b7ed10ef, 0xf281d99a6d57cb87c004c183b6acd9cfb3e7062ddf3a14457a4ea548b2293e5a, 0xea2baa2877e0ba50bf52b052181115d813da335bba235cb78f439fec832011c9);
    x, y, s, t := Twice(x, y, s, t, 0x9be59cd7f71693ee42291470a456642ffb4eeb32c15b0ef8f644d6df5e00ef5b, 0xd4afe48cc908e0142cd660745b0fc9e589078f1a8903ac7fd400bf71e74ba14c, 0xd0752b7f661d90cd82ff1e13d7d9fe9855fe263fc1634443d0417de42f953841);
    x, y, s, t := Twice(x, y, s, t, 0xf239c8842c696175bb698f4269af5fde0a3cb94efe9e70cac747b2a729bdb7f2, 0x4c2eb003ee5b041a20a08574b2a537493b078053373c50374513ac8f219db747, 0xc32c4ff39b7ce91642ac52e93a538d419760bff13f3ff522c0f09021990ef36a);
    x, y, s, t := Twice(x, y, s, t, 0x851cc9359839c33e24e1bacee7a48e9fff37991463c4def29c8ad215de2dee4f, 0x74798a89d0c8effab8137200a8859457d084a2a8433f7a18c5b17cb19730a72e, 0xd6af1de923a6d4fce61e59f4877e0a3db07dbf19de7adb22a5d55c6c49ba1829);
    x, y, s, t := Plus(x, y, s, t, FFX, NY, 1, 1, 0x2f4694009c2cd2a0e15506b5ec011fe003116cb1070a1d140427a7297ac5d074, 0xe877117c34d233f54091207651a990ca142876976bfe7c85958d24c4a5b991dd, 0xa6ddda251af7eaa0d513bccd6e63ab8401dde31b4a0f6d153c62b38f6cd80baa);
    x, y, s, t := Twice(x, y, s, t, 0xefa8199c1332a034284a07b1f781342c82da64b3140cf277242facb06b3bc254, 0x85444610b2715173b5d366e54722f15733c345364c76e39df541e4a200e4cfac, 0x18af264b91e5ec50176d263b93ff54f2f522d23a3c4d205bd406ea1e188cdd8c);
    x, y, s, t := Twice(x, y, s, t, 0x441f04825f68006cb7fef789d25b3cef3e533f235ef832893dcbaebdd717b428, 0x9f5fa574fbf5ceb935065ea6ef3be19527d9b3d70fdf4f36b0b7437e2cae6cd, 0xf2421a9a66ae844f6844d7369477a1e313e23ee00ecd60a02803b9590ab29d88);
    x, y, s, t := Plus(x, y, s, t, FX, GY, 0, 1, 0x6673c5bf10c83f9b7b8fc0e5dbf54abeaad3b974649301fd401f84e992317110, 0x61c3303a7533a96739ab966262674b93bbdfd177be7bf63928d6bb27b8d885a8, 0xe579c3539e8f8ab9b44313e7ced058fb35ac02987df005cf33b460ad896606a4);
    x, y, s, t := Twice(x, y, s, t, 0x85efe5932125ee41ea1778ebe3cfafffdffbfd6c62462ca6e0147df1a440c3be, 0xdf0cbc229488a20dc63ee1c43dd49c426aa7e89b6182d865b2f29613f75db947, 0xac03e2b372b192bafb8956c95dbbcc38e0d6ca90f172a0b1f2488831b0eebf72);
    x, y, s, t := Twice(x, y, s, t, 0x818db4d4498758d44489d4ed632e625a627f8127a47e69c016ca06aa1689d60a, 0x1326c01817800c71218ec8f5301d2812dac252e39dfc3119d69a633023dc5dfe, 0x28de31436d6c83939bb4863d6e1dc1146deae623ee867d43507568dec078b935);
    x, y, s, t := Plus(x, y, s, t, FFX, NY, 1, 1, 0x9b4543da108e008568f9dee6f3ba4124fe7919b697cc61da390bb213d13ecb7f, 0x40043d33ce75787d7902161535e35cb8b77d34ea54c366939bc3bcd9485e0a01, 0xfa8c3a423de6293650222b0f618acac66c0f8f0f4ca1066b7f36a91a02029702);
    x, y, s, t := Twice(x, y, s, t, 0x887e053b965dcb3fb7964fd8c1a396174cb62c8b3d10d6144c0c00b15cc660d5, 0x483f1d72750d753e43a19c8b7c1b91882b2dceefbdf3c999cf68b754de524de, 0x4f4384c25498243681348474ed25e8af892eafb8b92709a1f92b27084bff7a96);
  }

  lemma Chain4()
    ensures At(0xb4e42856d4f4feee136389504097a6fb36a93c56574138d1ec7d9cb6990778cb, 0xceb4f272c35e84ffeaad994428695b1f4e1b26937ae306d24df6ca2c3d1c19c, 0x18436910d3f, -0x7221bf6b008)
  {
    hide At;
    GeneratorImages();
    Chain3();
    var x, y, s, t := 0x483f1d72750d753e43a19c8b7c1b91882b2dceefbdf3c999cf68b754de524de, 0x4f4384c25498243681348474ed25e8af892eafb8b92709a1f92b27084bff7a96, 0x3086d222, -0xe4437ed6;
    x, y, s, t := Twice(x, y, s, t, 0x2d09ad7849187e5a4aa0e61a447aae346419b2d6d1fd9b991ba96605a2c9a967, 0xb00dcc2bada4856627d9c09781079d8bc6e38c67a76c289e6571007cb339de74, 0x85f5327f30ff2fc936013869a623484746d722cd5a56690840ad63e99d162d33);
    x, y, s, t := Plus(x, y, s, t, GX, NY, -1, 0, 0x5a9a973c5392594526cd9f9aa5eeacc35bd5fb2a2a0dd686edafb12615cff98a, 0x2a3385d537a36806877730930cad1332282ad2aeee05ce659936073d5d9dfb6b, 0x50cda4e219cf7081a10fef7fd2618fb0b7505212cc043241dd3ab43dc406fce4);
    x, y, s, t := Twice(x, y, s, t, 0xb675df46f5626f5ef732839f01b6f74b8bfae19a82940cf2690c544c770e66a5, 0x1370da03a8fb2882cefbb865df7ea0169186fd90352f76f5e95713dde834143b, 0xa8ea463d6a7019d6a32c82272eb207ded9cedb93e923819131a3470f13c4b3da);
    x, y, s, t := Twice(x, y, s, t, 0xeb667264018f00549d3d83ae654ad0e4896ead4d232c4d6c1987034acc95376a, 0xb94fc5e463c9ce02dd675556ea6bb01523170a16b4297852ffc6c3044737ba4, 0x383da26bf580cdf3223163db213d1afb4b57284e65a4141fbd0e1f4682fef89c);
    x, y, s, t := Plus(x, y, s, t, GX, GY, 1, 0, 0x8277dcacfa51cf6a88c0b2cd67d3322cd5cfd0b22a209bc71c356bc8599b56e7, 0xb0746ea0dd6832330c5661ed8dbbdd9e1b53646754dd806ae17df18bcf632807, 0x58114a7830ff16d378386c42d0bd513a66e6b0a0c709f946ad2c311fb8ce9531);
    x, y, s, t := Twice(x, y, s, t, 0xd7ee1b64c873f94cf3bb779539d150578e39b3fbb2fa1c1cc5ec772e05e5b083, 0x4eacc39adf3f3a900ff0a0b8868a096d85702e8cb90065f03a041238f47d204f, 0xd82e1c014db1fcf43bc209ad4b27ebfc8cc6952e6ad918b36eaf8e9b19c863e9);
    x, y, s, t := Twice(x, y, s, t, 0x2246149fafa644f173859547ac3171c331d50123f7aaafc5e24e40fe1a9e616a, 0x751e6f1a27128e503f6a9bd6f2652b106dac895b2aa8b8cb2f68b8f1b05aa28d, 0x83deb7399b50153f54357ed5e38bc73c5eede85280ef29f9e1f58c5c31b656cf);
    x, y, s, t := Plus(x, y, s, t, GX, GY, 1, 0, 0x3a7a93a690c6251f7ca7423f3b1ac08d069ea9966087092b2fe02a1db230cf1a, 0xd6f6fc5c30ce5b19dfafa79fcedd6248f0522b9931ee4cb70a7e6085b6213a39, 0x82613a780aa0cf99de9b88961bbd66c6584272177d8b6e6a3e642073e460614b);
    x, y, s, t := Twice(x, y, s, t, 0xf40ce960165038517a942b6e283da580ce0e6cb637533739eb20b36be5260275, 0xd182b706f130ccbd6c65823ba74921d7f493885f24aba293bd8190f46e982467, 0x31dce0f642816ed235ce28fd875d8a2e22a84c8615987fc4d78c5c19babc1c3);
    x, y, s, t := Twice(x, y, s, t, 0xa7b0a8aadb3ccfbced6b0ea9a45476ccd630e70a1ba4f173ba9aacfc929db481, 0xdcce86cf4abb32f6ff27f319e56ea4dc21403106754543d583d17a50475cfb47, 0x9c1c49abae7b4210d2736438bedb883242bf3157be60f6ba6eac4850c4d7bc4a);
    x, y, s, t := Twice(x, y, s, t, 0x6e445dedb7991f0863b89f2858b2a055a3d4f21e890a7208e90f6bf92ce4a8a9, 0x4055cb99ab814cf3b1b621cde1d6c63a7165845d99ba176ad7a4a8722ce48b27, 0xb251de8e4daa97d6e95ed4475efc75e9d6c92ac08f2772f5b9bc368d41d0c094);
    x, y, s, t := Plus(x, y, s, t, FX, NY, 0, -1, 0x257788dbb32fd48f74e6f7ab05b2cadb3be4445cac6020e54307a0b4488f6776, 0x858f443417f0617a01c044d0cc559b17fbb3995bf9ab51aa460ea5fb8407a754, 0x52c8dc3b16555cb4d3e47413bc71c3d100dea5ff85b832cef0fbd1656855e49b);
    x, y, s, t := Twice(x, y, s, t, 0x1a6ebf8696357d41dc8be63369f921e3778d0ee88e29879725464b329872e096, 0x30d55636a636514eedea07930172463050357e04b09ca97df8e90ba57927c94, 0xebce818d22b81071fc5bcb43056b17e8022f182cd0508a474656b79ddfade9f8);
    x, y, s, t := Twice(x, y, s, t, 0x3c00fafc5db63dc1bc821955b7ee2f1a89da32e9a4044106e079f4d8206ef379, 0xf07e4c70bbfefef208b00358f0a8e6aa3f97598189c1b0812d572422891a86c7, 0x2d10f7e2a47e6dd54e287f232ea3346c97239b508247c2317558a35bc44ed6d7);
    x, y, s, t := Twice(x, y, s, t, 0xf4e57f717ee14f0ee383daca03ecddb7ade6af42528960e7f2a5eaba4ad6c30d, 0x7270623c184e1eded1b47edd31894ff54ddd141e255130624839a48c4e6da2f6, 0xd2815015f7d9b3c01996ae2095faa2e823b3fd684969e9159d09b03a207705eb);
    x, y, s, t := Plus(x, y, s, t, GX, NY, -1, 0, 0x86c3fc221efb88ca1669d80c04cf39c06ef7c7a8403adfa26678fd89cc65a49c, 0xb4e42856d4f4feee136389504097a6fb36a93c56574138d1ec7d9cb6990778cb, 0xceb4f272c35e84ffeaad994428695b1f4e1b26937ae306d24df6ca2c3d1c19c);
  }

  lemma Chain5()
    ensures At(0xf58755aff4a9ffd82b88770fe08cc881b9cb9aa7359cf0c83788163d41ba14a9, 0xd5770619ad7e97f16a4658b70e97cc6cf8766f844efe7b58e6cb4d5a8c234bc1, 0x610da4434fa8d, -0x1c886fdac021d1)
  {
    hide At;
    GeneratorImages();
    Chain4();
    var x, y, s, t := 0xb4e42856d4f4feee136389504097a6fb36a93c56574138d1ec7d9cb6990778cb, 0xceb4f272c35e84ffeaad994428695b1f4e1b26937ae306d24df6ca2c3d1c19c, 0x18436910d3f, -0x7221bf6b008;
    x, y, s, t := Twice(x, y, s, t, 0x3f60eb93559711c65c70c81cd2c7b5d8292e131ba8440feb24f3923bfc8e50f1, 0xdd899678e23f71c86483681167a7ed18bda128615770b0c8c3a69ed41ef677d7, 0xd2ca5ecb4fc9348942fb24aacf88b40efd33fb943bab10f38590d374d6d255c7);
    x, y, s, t := Plus(x, y, s, t, FFX, GY, -1, -1, 0x6644d124fa24b980f409ee4fad890c7d27ad15f2a5334a0a1adefd85eb279c14, 0x6ea02e1e9f5578dffd6c5ba8592753cce9c656b74ab132f209dab003ce9715de, 0x78e0e5d28f80fc4ab15fc6797dc8b542f22966f63f19779e4b44c8a2039d6d39);
    x, y, s, t := Twice(x, y, s, t, 0xf139842c782e96be17748c5d64989e27723ccc678b9b991cdbcda2f7d277d12e, 0x873d00f72f55c978399452f07895f18077a68f6fa380cdddcb7d6bb094bbe94a, 0x8ba0a8e08fe8d9f7c6e569e5b40d2b4b439ed4c50c6368b940368bf94f545696);
    x, y, s, t := Twice(x, y, s, t, 0xbc11907f4b8eee95c79d2884c3d5f9b985045e60a8dc570e0ad037a64b29520, 0x45142d3c5d1a4fa844b7cb7de0e78a31e60c8025e6488ba2b3f4cfb3c32a8866, 0x9dcc50ab62f502d4c489e115c21446fbcbd065816bb28d2f1a46945e8606832b);
    x, y, s, t := Plus(x, y, s, t, FFX, NY, 1, 1, 0xdd8b574543d1788ba478b9c4bfa06f50c181cccd4d7a47551f930d0a657dfb33, 0xeba8ab16ec9588240137bf34a4a8189ae1b70d70ce041196af9053269cdc976f, 0xcd9790706e464293bff210b0fd37483d22053b6447d1294612572c3376b58c9f);
    x, y, s, t := Twice(x, y, s, t, 0xeb67cc2c15d84b6a82cdeb80b0ac7e802a8bb5d4d7ad51cfc4777ef5cc6e5074, 0x4157b629b7b3bfb30b72e7bb0e0b743e694e9caa9de299191b701d17a0e06dc1, 0xd758f65516635d4829cb8d281c88048bc4c7ea5679bff916f4bca5d3d84c2ff7);
    x, y, s, t := Plus(x, y, s, t, FX, NY, 0, -1, 0x57fe22fbc1ac24e0b52d97b58cf89b2aed226f8183f66e0b7bc11ca7118ad091, 0x4a35b04a6e478aa6de8a8db93cb8ae14ecd58de8e8be74f1a90a444f900ab6e7, 0x643b2190f05445eca4f0eb8814a9696d30f7023f250ed75fc7c12504cb38b802);
    x, y, s, t := Twice(x, y, s, t, 0x6e06da1637f92a748f9e806173aec6a9f84c719d6ae87f7ef41af1efaa97a6dc, 0xba0c0a0dae53aa649e3b9f255a62bef7b7a17a628819cf12b94494c7d1b58440, 0xeaf88fd2d0fad191d84290aec1132a4a2ab471b26594c79c188f009cf07c2f87);
    x, y, s, t := Plus(x, y, s, t, GX, GY, 1, 0, 0xaab6ddf21daf0146bfcbbde4e8772589dea4488ffa44a8fa0d71fa0c3f40020b, 0xe32cd8ff315f363781fbedf49d5c555f98469707d3cbbc05dfe34240fff53616, 0xa1d3010d6c856bffe20d709eebba73de21896ea657c54657704b30cce726f6b2);
    x, y, s, t := Twice(x, y, s, t, 0xa91fea8e56d32a2b0116e9ae72ea7743c9421c11a0d5176c026999934cd70c2f, 0x4bd031688e7fc1d0ed06dce42af6dec1e22ea8e41f537a07ca31d44c0d0caee, 0x60d9158ba471f85685d0a98ad88d4744360c1f9c32acbb6036f2f678383ebefa);
    x, y, s, t := Plus(x, y, s, t, FFX, GY, -1, -1, 0xbc9535207870397e1130dc1256e32ec69b169c0faaed95893494b3df8ba082b, 0xadbd4f25a8effe4f553ea172e5bbfc920b8024882143d2d829d79edb137bece1, 0xc2940050e35ae1635857de41931b146e29d88af3ac4c34f262ac84790fa53de7);
    x, y, s, t := Twice(x, y, s, t, 0x7846a9f56793d2737562ca80202078c8d48faadfc9ea6588f561f6010e482bad, 0xec25284c9c90dd189d4fd0296fe51a653afb48cb8b7e7472d4f851c2153675b0, 0x51ef92fd9f328bbc34d8e7740299f5a7f87ab19fde01dab47c0cf65ea2f17a49);
    x, y, s, t := Twice(x, y, s, t, 0x2fd8a5c8fc98011a7fb6c9224d502890a0897dca8b8311cfdc3cb7fdcfd7f70b, 0x989cdfad4b24e2fb0d05e3f62af91c1b6943f44c16764571312ba4b72605b985, 0x581b21febd5e103e5ebf3eaa8e1e5d695c4b03d59f0a3dcabafb07c5f490428c);
    x, y, s, t := Twice(x, y, s, t, 0x6aaf1454fb2283d40b77a659ba20eab0d007eb2ec064218d519c1745225ca70e, 0x379a989e690b1ce199d128cf2a3be67be422e6ca6e926ded8dbb658e6cc680e8, 0x1beca94ed781d9c02f4bbd650355d6b349e41b846031f6ba7fb7b4d2b5a8b4f);
    x, y, s, t := Plus(x, y, s, t, GX, NY, -1, 0, 0xbea01cfd808bcc2714397fc42a04c718766fce4fde61ff29b837430735209ccf, 0xfd1cfb5154fdc87c881fb2f4107d1d0dc9095e2ebd7181480617dda0ab4a0874, 0xfbfbccfb7603fff538a73cca9e99b576c00b3acaa03172c9672b6796d204245b);
    x, y, s, t := Twice(x, y, s, t, 0x4dccd4112243be285e7caeb12371e2a9ad34ae5ddd72a11322abf0017c3612cd, 0x8bd3917e02f01c6698e4f5c6bffe996369e15e4169f4e3656577b0fef5fc5a9a, 0xad6120f50ad87a307fac08b2e2bd4605f16c0b69e354b57a054498e4c103aa40);
    x, y, s, t := Plus(x, y, s, t, FFX, GY, -1, -1, 0x1093cea4ae6dc1eb109884a612415465234ae248da5f6dc4d42356c158b473b4, 0xf58755aff4a9ffd82b88770fe08cc881b9cb9aa7359cf0c83788163d41ba14a9, 0xd5770619ad7e97f16a4658b70e97cc6cf8766f844efe7b58e6cb4d5a8c234bc1);
  }

  lemma Chain6()
    ensures At(0x33d0959fe539d948a5c7a544d4d8508c7bc3d10282a2b322bdb5cd1194ae0ec8, 0x5878c4f55fee0a4fb5193b949fe862c3e1349a24cf9b581b6a81c45f74a51826, 0x18436910d3ea35e7, -0x7221bf6b00874414)
  {
    hide At;
    GeneratorImages();
    Chain5();
    var x, y, s, t := 0xf58755aff4a9ffd82b88770fe08cc881b9cb9aa7359cf0c83788163d41ba14a9, 0xd5770619ad7e97f16a4658b70e97cc6cf8766f844efe7b58e6cb4d5a8c234bc1, 0x610da4434fa8d, -0x1c886fdac021d1;
    x, y, s, t := Twice(x, y, s, t, 0xd513c8366364008762295dd307f50aaa9f7ed5afa189ff91df5c6d1e355bf1e8, 0xef28eebb813712d1295a7562c7961d8571786cf87eec1f44262cedfa3aad64fb, 0xcf5d89a791b64b613492f9fe857617b387f30002f02712d6fe940abb09ddf064);
    x, y, s, t := Plus(x, y, s, t, GX, GY, 1, 0, 0x4b980713102cc5f8e1347ad688ac979c162cf0468696827de23f962c346d132d, 0x3781f20931f70fea5d2ea92cabac23137b1763c464276b21d3a8d54ae1c9093e, 0x14713c377db474e102e5e9539a220c77f66bfca10052e4ab6b41d7b417de4175);
    x, y, s, t := Twice(x, y, s, t, 0xd287b9a70349d67d89cc4af865c8c0fb4dd8651f089c749d5ebba67e8146d56d, 0x9ecab66d618e079ce6a69156ed0b0730ecc101cad4201508fb234608674713e, 0x14b870895d091a8d6e85559318d86f99f559cf8e6e7b597350563140c431702e);
    x, y, s, t := Twice(x, y, s, t, 0x65ccce919d183cece2be5a23778dc16edb232ac10e0d1c1d8e3dcfe887a6d318, 0xc3f33f1d969a396142c5c9eb3618cb492c1ed573e476b71e4225d99eb59d2ea5, 0x390a22d18ff53589d9e1d79d7d5953c53839824c52d555ce3d80733fde9478e8);
    x, y, s, t := Twice(x, y, s, t, 0x6c4965aa573dcb04cb0e6c216f6752419061ab904885eb17b80744547471ffc2, 0xf1902e8ca2e597f9118768f2a40c25646e163547d427993163fe80beed57be00, 0xbc94996ddfc9824817ef377a376c57fe5d716d5158badc52a3bf387e41f8ebfa);
    x, y, s, t := Twice(x, y, s, t, 0xc181281d731e3c4a1a628450a79646dc3d39d3903734b42c81b0c45aa8854612, 0xe8f820daf181d53ce87ffc7fa996fd7c2914fcc7b0ed305d3a47be315c0fd1f1, 0x10b1cbb574506b905b5505cac77c348bdc830f08dd83f3dbc8a3a490ffb9198f);
    x, y, s, t := Plus(x, y, s, t, GX, NY, -1, 0, 0x65b844677ab975414a0928ee1921e01973dd0db63230fc1e10551d20acc1f0e9, 0xffb6789786306c0e3fa06ca6211c2190bef3caa6d632cc2fe1bc9b5947b84677, 0x224dcd22d169d0b0594d7e9c95735a6ae81f3d3d2357ba455db9fe3810ebb725);
    x, y, s, t := Twice(x, y, s, t, 0x9158e5a8869ac0e0a6c3e8f9a3892732864be732919b7046d1eb3a349d3c71d6, 0xa2c068433dbda6f1a448b6183530dd0d708002399fb67a94e1c3a23f849ded74, 0xc7eed731b0a4a9bc995dec64fad1e60bd43d088e4493a289a372086515c43ea4);
    x, y, s, t := Plus(x, y, s, t, FX, NY, 0, -1, 0x727931347ac4544ef68485938a7b45a44e8469d0966a8ce16b903b299ce24e8c, 0xa36b497191b6ab8f33f52eebce602068d38c5b0e9e1d5c377b0e878886eded25, 0xea3be3031a971f53c17e6f206924f4b1dfbfb880885b5657f3666a3b76c2da2d);
    x, y, s, t := Twice(x, y, s, t, 0x38f39a8917c7f944db90dcb60b43b2c7243c97a67c139af2ce8820e2ffc57081, 0xbb0b0114c21c70c4d20f6ab5bfa3672ac59dfd9f56d3ee1c66437f63ad6a8ccb, 0xb838126fa7f0da933055db46369dbcf9377ea514223bd6fb36fad0a669d3f211);
    x, y, s, t := Plus(x, y, s, t, GX, GY, 1, 0, 0xbcf3d797cbbf8d36229cec7e564a2fa856530366803dfde4964dd8905f09e378, 0x810c2903f96ddd95dc595db622ff2025378293b5b6ded448ea4ac2b124de2fab, 0xc1384ac1472591e0a208aebed6ebb3b7a33e13baa79598754c0f7dbedd5d0f3);
    x, y, s, t := Twice(x, y, s, t, 0x912d8429147f4d540c3337ad686404da5503ae01af4204500e93ce506c31cdff, 0x4e78ff1e2af0fc24dae04644ef439227c8ff45f75f6ce05f57a4e1813ffab190, 0xe8e871d377eaa2f13423dadec962c46e59eb1b482ad5bc35e1fd0ba688d760cd);
    x, y, s, t := Plus(x, y, s, t, FX, NY, 0, -1, 0x632d0f857ed996d7299bf9babc1c208864c39e5d9e25136efd90972f0428225e, 0x525325c0c27996100b5dab824f2b55ecd3857fe203302396b6d45d8ae5572605, 0xbf91954f4eaa0de0838531bc919e0f36db7fcc463e7ccfef93b8a604e15cc941);
    x, y, s, t := Twice(x, y, s, t, 0x6d98bcab5bc6468936136c1183e22f8ddd5f47d63ef22b30c3f38c77cd099a1e, 0x41dcfdd6de2da769a7d80d7dec2c1d6c92fa1dece137c3d4b63bca7e417c9d15, 0x6f517950f6377a67e7002efa29981b0605d2336d45ea965499d26fae81fc3542);
    x, y, s, t := Twice(x, y, s, t, 0xec37cc1f007ea2d6e752c1de5ccc9c98c0abd37a9d55cc8c1b672de97c93425e, 0x34a17e41c6adcce5aeaa68006c00f72b99228ee9f614363c6ec8d0b658524344, 0x7530d2a5547147430058e35f88c6bb0f8643b29abad7fc44196697f3fb52f1b1);
    x, y, s, t := Plus(x, y, s, t, GX, NY, -1, 0, 0x6c639eb941440a11564446e228620ced4e391f5d78e4db8ffc0d6009fc4e8078, 0x33d0959fe539d948a5c7a544d4d8508c7bc3d10282a2b322bdb5cd1194ae0ec8, 0x5878c4f55fee0a4fb5193b949fe862c3e1349a24cf9b581b6a81c45f74a51826);
  }

  lemma Chain7()
    ensures At(0xa04153c13f0b0e83b5c28dee3078a62a824edfb3eb762559a891b35187ed979, 0x6269ba051e51272434d48e54b74d5e72e6b662c8070021628717148b0a5252a6, 0x610da4434fa8d79bd1, -0x1c886fdac021d1050de)
  {
    hide At;
    GeneratorImages();
    Chain6();
    var x, y, s, t := 0x33d0959fe539d948a5c7a544d4d8508c7bc3d10282a2b322bdb5cd1194ae0ec8, 0x5878c4f55fee0a4fb5193b949fe862c3e1349a24cf9b581b6a81c45f74a51826, 0x18436910d3ea35e7, -0x7221bf6b00874414;
    x, y, s, t := Twice(x, y, s, t, 0x65d67a2ed328840d5aea116bb0f7483432d47894c656aabcd6d66202e5770625, 0x13eafde28393c8d16b2d7d0f284155f5482270bb5c700c411515612f77cc06a, 0xbd6155bcd9d28e9bc863842b2e52f8cbb10e3b988cc0b1a64f6f1a3cdb01e8e3);
    x, y, s, t := Twice(x, y, s, t, 0x60d997ef36524c9b27483484e29f8620a964b37b8da145793434383fef72ecfd, 0x788a10f4b898b02d2c8fe6781fbc040f3a54c896d8a5ba1a7a1d4784b486c93b, 0x97a24ff05fd4c12849ad870993acb08d81ce32a1f15ff1e8427467b13fecaf22);
    x, y, s, t := Twice(x, y, s, t, 0xa846bdb397b3776d0a74240948f074fbaaccc76ac548c18a1db53dac202732d1, 0xb099f2c427c6fc974a56eb4a505597b4a7bc49e120c8ea43459b3ea37ccf37aa, 0xc64e890b28b0f3d207896209dad764ec6b920ffc9e94d617537ced1da7e7f45c);
    x, y, s, t := Plus(x, y, s, t, FX, NY, 0, -1, 0xc3c028c9371298a5dbe01405f3890cd505b351b9c10b9f9e822c785a38462b5c, 0xa7015f5b6a8f87ecdde9f31fe70fe501746ebf59fe7dc338af9359a4c7409a41, 0xbd568d8ba67fe42f23bb2cc1a5b59295d1b7bea9e5caf7d6628a228cae3d4cf0);
    x, y, s, t := Twice(x, y, s, t, 0x3c0315b3fa836e27baf4a201a9ca7eabd818458398c139e171015c4a1118f276, 0x65c1c73fa39a38e704ed9de1ecc799af9a72b6d3d4ccee89ff37bf2b6a8f2823, 0xb0e0496dedbc4aa10d370bed8969fb99e977705b900551c51620642114d2af9b);
    x, y, s, t := Plus(x, y, s, t, FFX, GY, -1, -1, 0xa721ffa807957d5f9e8c0ba4c684d22f471aeac7b9415819d2b811d1e98960e1, 0x19c003f6e0efad840fecf0be0def26842e0eb0423cf0405eb23c272b764bb0a2, 0x43e40ca84ea209f945ea761f17f17afe7bbf5a3aa8b6a55a635d7b9ba52c6bfc);
    x, y, s, t := Twice(x, y, s, t, 0x980c018fb6a415947f1833c45e158397352e24bdb3db18ccfbcb70f519c5aa95, 0x56093cab70dfb8116980be92bf328698ad616acefc452b05f4667412ac4adf5e, 0x59c6088f7d1cb86275a93b35e9ce0ae60ecc3da8aacf569f4cd4e38a2aa04bf8);
    x, y, s, t := Plus(x, y, s, t, FX, NY, 0, -1, 0x80786e5e0b7b96b0f4634df6d29d2ed6c6ccd4217804cf7ed66b0d7a603d5cf2, 0x7992ca8ae67131a4a5479acab61b310d08e7a588171034e703c4ef1640dab983, 0x1936404f0a0395b02c9c90adeb45a3f0a25f8e805ca74c797137039c918b5652);
    x, y, s, t := Twice(x, y, s, t, 0x82dcb07bf2350ad3168cab131b3a09ecc91ea54b0aee5651fdf0ae100c75af6f, 0xc124b87301fea65327d4f83a511c443188497f35b0d84b01a0eccb1ba2fe54bf, 0xa97e1002c8ea98d4a3a18e2fbebc61d95d8cda899a348edaeefeec8e3057520d);
    x, y, s, t := Plus(x, y, s, t, GX, GY, 1, 0, 0x13aaefad3bcd59e6cb1d5edf6b5da9e31231bd99d919dee84a727375ed23334d, 0x4f05bb4fc674ae74f14bf1cb39a9e00aeb5a7676a9a0c4cdf529835ac76d2a9d, 0xf07d3461cdb2b49f05f9afa400f5e787a123f5e6bdc30b5cf0a8b1e0d56a519a);
    x, y, s, t := Twice(x, y, s, t, 0x84dfb03cb5be3bd2913b8106643b7ee3ab51bd7f8a21182781a57159c970c023, 0x9c737135ddc665fa12cbbdd7bc6df7fb58eedf9946742fe818db1183c9dfb521, 0xca74710f9f9df71a4c1c922259a94db0ace6663916189c9c820dd49f74e77158);
    x, y, s, t := Twice(x, y, s, t, 0x43d8b8cf1fead3a067b359de96b454cd11b5924e434a4624c7e2f5b52da126b9, 0xe68be2b364f15a2e95ae195f40139cb0144e73322a41d9110bda0f0a2fbf8f7d, 0xf80745a302c5afcd001a6c5b4ed9766885f9646fca6def55bb861eaa368dc472);
    x, y, s, t := Twice(x, y, s, t, 0xba21d74e9b8d0e479f98ba986439f0a0025d221478b58713b0be97490eccd1f6, 0x8486eaeeafee82dcc529afbd090377994df9e1b02efe4691551e724dc6d1c21f, 0xdd86a487dfef3b61c0e757e11a4281d20df5f3495dfc69b9668601d6aeecd1a9);
    x, y, s, t := Plus(x, y, s, t, FX, GY, 0, 1, 0x273b781dc4357e8abb964676798e419ac4ff69b5fe4037369200e54b5043db92, 0xf38411fd88b0aa968ef62668299c0b7a511528a1183d71d08cde1595a778856d, 0x545627f0206471afc3fb1ba59e24a414d597815d110653aa131b7f80fd206b81);
    x, y, s, t := Twice(x, y, s, t, 0x9c30f8ad085280be3f73273b4cc430fec76edc256428f67764aac7c7785579ce, 0x9652ee465460de09f9504ba015a44987331130e08b08b4d7cde9dbe0476c177a, 0x15dcfa288a28be4279b152ebbc351221d2468686942da349eac05d1ba8c7b56d);
    x, y, s, t := Plus(x, y, s, t, GX, GY, 1, 0, 0xb4d24a364dc37610c79c2eb8b61e0bbbb8ade28f314d8e624435152378b848d, 0xa04153c13f0b0e83b5c28dee3078a62a824edfb3eb762559a891b35187ed979, 0x6269ba051e51272434d48e54b74d5e72e6b662c8070021628717148b0a5252a6);
  }

  lemma Chain8()
    ensures At(0xb40de0803bbb393961b10587bbbbf87373008cd8f20a2040be728cd9c0666291, 0xd473f4c8316470b9ff68ddfca780a6b16c2762ccd967afa7abad6f5fccc0d90, 0x3086d221a7d46bcde86c9, -0xe4437ed6010e88286f548)
  {
    hide At;
    GeneratorImages();
    Chain7();
    var x, y, s, t := 0xa04153c13f0b0e83b5c28dee3078a62a824edfb3eb762559a891b35187ed979, 0x6269ba051e51272434d48e54b74d5e72e6b662c8070021628717148b0a5252a6, 0x610da4434fa8d79bd1, -0x1c886fdac021d1050de;
    x, y, s, t := Twice(x, y, s, t, 0x820bf89c39e67b3d8ac73099c0d9ef5ddeb5e8f2700c311c78b4a9c25f8a8a36, 0xaef4bf44590cf135f9395fd7fef65bb197f3292e3a816a74c9d7e02cfae3d9c5, 0x6b12f81fde05c9767aa20d6e730ab3d195e3b6c76a8ca6a4da366ea709312429);
    x, y, s, t := Plus(x, y, s, t, FX, NY, 0, -1, 0xcf24337100bce2ea4f51eab47325cd95bf80e4acc792031ff5ff9c19bc127835, 0x3a0de639e3a9adbf3c8637b6ee8f994f0831767a4916d97ec4acd56d25a1860d, 0xff2045db4c1d8bbd30f0e676ba2f1e493bd6887c73ec917253cd5b68303ced1f);
    x, y, s, t := Twice(x, y, s, t, 0x8a94f315995f2cbd31d575ec9d02eca1fd418dccbbd0f21b6bf857f0912e0050, 0xdbfebd1c2ed2f891df6c6d7356fb30183fe90af5b4664d15fb4bb08ec26f0fe3, 0x4ea697ac746ba4e4cd121bc0bd0143b647d72276abe1d7eebc66ec5bd6e94384);
    x, y, s, t := Twice(x, y, s, t, 0x666b93ed05c3f198bf1cfd8921e354b9bec62b1912aba11ddc34f86cdf29d9ad, 0xcead51f15ffe9602d2f407dd1fe4ade0de4a94fb34f65defac0e6660ad5f9ad3, 0xbeb3f718ba98c83fd16cb7aa078584588995a679c6bd56034b536d6c9b154075);
    x, y, s, t := Plus(x, y, s, t, FFX, GY, -1, -1, 0xa9d91649f24c88501905ed1e63c6c07c6dd02e0bcbf2eaaae6cff6a30dd1658d, 0x55dbe4bec4736ea33d74c37926c19a94c4ba4d610886e90635bf9dcdb8cac17d, 0xe99bc72315c28e466898d708061dcc5eddc52056769388547ef39a7eaec8a2e0);
    x, y, s, t := Twice(x, y, s, t, 0xc6351a3bc523646932b0a6467182c2bfa50ae59909317c924be00764f8356753, 0x93743bbfd6d478f2e9cf46476cdd963202d6e5c64f0f76ebb9bfd6b1b1102793, 0x2c1beda3929b3698c3963c0a0c5724d18a9647643f0008d7759fe19434c867c3);
    x, y, s, t := Twice(x, y, s, t, 0xbea0f4990900e13f945e7c6a72175e501bb3e3c5add8a07f63e4f48d2f231f16, 0x2ca32e9b6bddbb379f933d95e926f7bb7b31515b309fc641bb9b753c87a1a726, 0x4ccbd1b7a517009367725f05592d07d5d8fb1b8c1bdd95cd154bf167d903bb99);
    x, y, s, t := Plus(x, y, s, t, FFX, GY, -1, -1, 0x4c23052a288ec01d0d1a17bcab6987fd49294dfa6d6781e6e5aeddac9e43514c, 0xe996dad643363b839b4d2087c10e0a4a9f90d95eafa5ee3c59118542f602634c, 0xe62a5cff9382f1d9fe84dde9b8fd378e0086030df0694e0a3dbc0c087557d6be);
    x, y, s, t := Twice(x, y, s, t, 0xdce9e59be00a075d7aef8d297f2c02e93250af6c9de0b35117f3b8fda00cf4ce, 0x420754864897168f68f1aeab6e951b134ebfce6d92f73e1c6cd044be92435fa5, 0x2d41d28c578f5007e4dad0499d9d283d5bb09c83d2154de956c589e387413896);
    x, y, s, t := Twice(x, y, s, t, 0x77055e37b81b66ae5b6beb95ce3b7bedf278253a5ae19f4a561862dc4da890e9, 0x2098d03c60aff93ef3cb90c6aec936f50e51f786e7abbcc4055975b754ded5cf, 0xd648064e723df11fcc79d40ff341234fc7ff4c9ef852d3ee67fce872087c575a);
    x, y, s, t := Plus(x, y, s, t, GX, GY, 1, 0, 0xf47a60e9c765916d120efbdba8cbbc6f55b4363897e5bfc59413ea764c41a155, 0x8f4017ab0092b89431ba994f5b356229e5133eb7f9bb93894b897e04a869bea1, 0x8580d4102c5d1e26924982465dba8319c8dc5fe664f82a3a79a3678de3f2afa9);
    x, y, s, t := Twice(x, y, s, t, 0xbe39dc4118e1b8ace4223f3ad79fa7ab3b60caf83b22ecd4a9633e26b6cc1979, 0x95ab384fc4246b01457f3a6dcc0789c13c95a1ac7f1675a90749141a57127686, 0xeba722c1c7eb2a92749c667d6ec897be07713438466fbe2fe89b5acecd382690);
    x, y, s, t := Plus(x, y, s, t, FFX, GY, -1, -1, 0x1caa6b10ad9f24f42cb3f3faa381b5bc952568aef4a1c79c4d280ab6d9368387, 0x1881ef866046cfbc720d1236288b9deddcba5a6722636e7829604240742c653, 0x2406d569b8185eec41a87fba2f0a60215b2bcce68de4049e05f23831be957cc3);
    x, y, s, t := Twice(x, y, s, t, 0x946060032ce92eafa3cfb69fc84c570252ea304082a25aee30e12a112ccb65a6, 0x86e6ba2d452949f57940fb5cd86c9e1fbf953bb5ba1985899a30581a22c7ae0f, 0x1a71661f07e7765fad00a5c9e4119da0e59a3fe8d668be039405bea59f3a777e);
    x, y, s, t := Twice(x, y, s, t, 0x2342c5a0249fca53bffebea094027c9a0e68630e8a50d563bd7f231c89edc983, 0x2650232e3c09ecae2bcdd30b6cd2d6cee2f4cf9a3488c3e63ea634c3539c7b6, 0x6b31ef4dd1be322ff30433157cc671d1c0802c63d1feb27a9bca83547406c68a);
    x, y, s, t := Twice(x, y, s, t, 0xda467db292dd5b30c9fee1de3802abedf02c4890a0209c81e4add4ed983cf8bc, 0x8a1d8d2b2d0b0d671b3d5313baff47ff38c7bde4d7f9562cced7aa3233e61cb8, 0x9a1f214e91015be3ccb776758f1caa09bacb03f2ab657823f947ed2ca93bbda2);
    x, y, s, t := Plus(x, y, s, t, GX, GY, 1, 0, 0xef98f5455abc6cb043f4d655a31e77a7823e30d3c1e4308a47b238419e4d2cdb, 0xb40de0803bbb393961b10587bbbbf87373008cd8f20a2040be728cd9c0666291, 0xd473f4c8316470b9ff68ddfca780a6b16c2762ccd967afa7abad6f5fccc0d90);
  }

  lemma Chain9()
    ensures At(0x589803c3d0254a43f0f78e18070f9679bc71ddee41d174a8336e02e236b5c1c1, 0xcbb7268717a97c9260850b844708d826fd88d54c10d9b5e57cad8e496e70f582, 0x18436910d3ea35e6f4364872, -0x7221bf6b0087441437aa3fd4)
  {
    hide At;
    GeneratorImages();
    Chain8();
    var x, y, s, t := 0xb40de0803bbb393961b10587bbbbf87373008cd8f20a2040be728cd9c0666291, 0xd473f4c8316470b9ff68ddfca780a6b16c2762ccd967afa7abad6f5fccc0d90, 0x3086d221a7d46bcde86c9, -0xe4437ed6010e88286f548;
    x, y, s, t := Twice(x, y, s, t, 0x9b334234077236f3326d66f159e793d736cc24b2953711b5db90932357185812, 0xa172dfe11abd3bf17edd0e726c45120a79823fa950d65ab6355cc49aea889160, 0x523409e654fce53d1c68e3ce33517250234fe911611ea8a1897e4239e1a19e09);
    x, y, s, t := Twice(x, y, s, t, 0x3020f4e0e0940515aa3f812ca6071fdaa2edb08ae3b5d72ee80e06deabc3af54, 0xe5202f6f36192e9fd9be64de34f6da8839620461ca6bda6e05627ee1324d8c41, 0x2913babbcc950ed2ed1db5c3be64ca019d64443a704a499bea0c5567a8aa020);
    x, y, s, t := Twice(x, y, s, t, 0x2c16bec4bc766c496b536932de7731fb9eab4dbc6eb9c9cc32dc11df601b07ff, 0x1df888637a22bf4bcc7de4b60e99d3f85b92326af8f79a6d536fea6836f8dc07, 0x16cf2ae0dec78bb79c416e4d937cb20dd2c19a0c90471c80ec97dd6340d1da05);
    x, y, s, t := Twice(x, y, s, t, 0xa93da560f1cee0ffc157139c9b1b2c4559e5a54ab8ff90ad3c2b083ade039058, 0x2484c4ecec1b65a17e6dad196f5d1dc5d9484bcdffa81ff3d7c082fb67a2bcb1, 0x50216c534a28dc352fca034a0b7c64dda06ef349792fbe458895d45e20b5c957);
    x, y, s, t := Plus(x, y, s, t, FFX, NY, 1, 1, 0xa97f11921ab9cc3d5a6d3b03ee59ffb4d7059f537addb0b4eb78121fa57463c3, 0x8e94d41f784635797ba2b9fcc7e58d21e30f1ed7e1966e7bdf6ad0da4db1b3ad, 0x4aa723edb09d38850f696a97c0658f660ec55116189c08a4eec7b2254fafe724);
    x, y, s, t := Twice(x, y, s, t, 0xc69827a65f9d2e7ab5cf880811f77ed4caff25997d79ea59106ccea94da39895, 0xaa943fbb66fac02085ae0e5a6929adf24f33e0ec52f49c52ce25d70118c053f5, 0x11a3cdeac25d4fc03e97db5878561ab6539ce16dfc4b9d8899adc104ac88f193);
    x, y, s, t := Plus(x, y, s, t, FX, NY, 0, -1, 0x79adba3ffe3ac7ff77f2821bc61ddcb4009a7061d5aef4cdf12408fdc4ef1ac8, 0xec2b6500639bf10835ca3daae320b24474e11ac991d2ddad06f8b67bc50ad86c, 0xbcacf5544f90c80e45a6aed58193a3e9ddf5bbbed4857cb0071a315deccafaca);
    x, y, s, t := Twice(x, y, s, t, 0x7004b97e8a5c49112b1497875fd084fd78e75ffa947f125314bd5f50b8896123, 0x7776fe29f77b37b8e2b113878e23a6105b4d9379610a70cdbdd9b7e550afa319, 0x68f448e234506440d13fa8b3e76e12a84cf727d7694c9c1514d6b0522a7ba2b);
    x, y, s, t := Twice(x, y, s, t, 0x89638d4e16b874d2dbcd85554048c2cf36f6c1591e60371bd0a2a6fec5b10ec2, 0xf99bfa3ba93dcf21191083e193329b97c30adeae9e09ecb48b58c44b0dbca2cb, 0x38ee26c4e72cddf5ee0bfd31f16a4240582f36849ce70f6a52bdbd85ec172316);
    x, y, s, t := Plus(x, y, s, t, FFX, GY, -1, -1, 0xca34679b6fe34e62b9eb90f27d3591e2890656de367ca0d1b7a83b443237c575, 0x336d03087f8a360547244fd43a4402b0ce3c1a2a4451bb73940d042b4550b8a8, 0x1b0e9d699e6dccd75cfe6b0a9f3f2606028b048b05bc3e61a357371618ec9727);
    x, y, s, t := Twice(x, y, s, t, 0xc0f2a410ffc5d6addac236ab0bcb740f0260e7a279397041b104ffb576ac52c8, 0x1ec741c9e31a25d2c2f745c4c3f7ed7adbfea648bfb2ce7b830488f7aa096d2e, 0x1a99a451df8aa57cadfb9aef72784d5195e4ca76f9a8bff7dfea208a0025e9e1);
    x, y, s, t := Twice(x, y, s, t, 0x51b4963113fe18798a9a7714323822f5a6f8bf5d71c7ada94f22d63a169589ab, 0xdb4f7b090a48815edf632837c08412ccc22bf55fdbd8034896c42c02ed4cdc7b, 0x972b27fe02350e8718e72492d235ac2aa49b3743033f866c8224e236049cf026);
    x, y, s, t := Plus(x, y, s, t, FX, NY, 0, -1, 0xad28c18f91e0a256a428c714f1447066d39b7579aa02d8e407402ea39324a495, 0xb93209738435d5abc2297aae654676d0f7e2a63da7949be3310f1545269a9ab8, 0x478eefdedc057a1b298c15bb76a7dd1ba44933dee98bb6c7f0f131139b236d90);
    x, y, s, t := Twice(x, y, s, t, 0x15a382392c54288bde390f6bb1b9d3cc230ebd9b517ca11db85dc4436ba7528, 0x9f80ff0c05670656c6aeb9bd754a2e6ffb7b8b160e019644d3b3e7ac6d695fb3, 0x920f35d8122b75636641321dbfbe61664b7246a6abfbcce3e5d742ec31ae455f);
    x, y, s, t := Plus(x, y, s, t, GX, GY, 1, 0, 0x9bbdfe8c70d2b81ae629b7dccb2b3a2bc9ba332d58d82497988c0bb2322c52ec, 0x957b2e8cabdfffea0bf507c5a5511b5644f2adec49aa12e9750f97e4e0447e72, 0x75292540a0172ed2fac8be13226fdd7801b9d57cce628d969a16277f47f9ff5);
    x, y, s, t := Twice(x, y, s, t, 0x57032455b206ac299befa9834414fd3b4c69366ea2283197ed36b72a23236d0d, 0x589803c3d0254a43f0f78e18070f9679bc71ddee41d174a8336e02e236b5c1c1, 0xcbb7268717a97c9260850b844708d826fd88d54c10d9b5e57cad8e496e70f582);
  }

  lemma Chain10()
    ensures At(0xe39e8c7d7b1cc31cd1eb02422a067334ed595aab01fbac759fae923378958c26, 0xd9cbb5d7d2063dd395d6d3a1cadcbda680d49ef3a8a275bff44ad03df809f1a8, 0x3086d221a7d46bcde86c90e493, -0xe4437ed6010e88286f547fa90a)
  {
    hide At;
    GeneratorImages();
    Chain9();
    var x, y, s, t := 0x589803c3d0254a43f0f78e18070f9679bc71ddee41d174a8336e02e236b5c1c1, 0xcbb7268717a97c9260850b844708d826fd88d54c10d9b5e57cad8e496e70f582, 0x18436910d3ea35e6f4364872, -0x7221bf6b0087441437aa3fd4;
    x, y, s, t := Twice(x, y, s, t, 0xcf133c57edcd5a1872542f16b159c59f72b4d7e9194c3effb7ea3b0ea41252a1, 0x499ac2fe28550b3bc3c234518f48a0903ee20d79c9963af35c07388d68e71381, 0x344028a230d3339a916549923596072243d8b300e2c38d14e0ecdbdc195a70d2);
    x, y, s, t := Plus(x, y, s, t, FX, NY, 0, -1, 0x19f25a3697c3189393e2d467f9de682b1883611025d4ed5cdf1f14e83ffbfc59, 0x823e6ddec25cd6aa73a7096ec8df690e8009cc32431bdd6e8b137ae3b5095124, 0x7a5806f3f12bed979654078f7381bb561d5557d207baf9e459fa160c3cce9784);
    x, y, s, t := Twice(x, y, s, t, 0x4bf5fb2356268b3b10b8d518158efeb7982d36d68baf2a20ab93533bf858a1c, 0x35c491f93f4a8799be96d91e3f88b72385720779664dbb84b31450fff8fbcafa, 0xc29f059c03a864b439155e5ce8a7ac242840ab7f72d444d256c709c4ce0918cf);
    x, y, s, t := Plus(x, y, s, t, GX, GY, 1, 0, 0x9ba47a6231d3762c41df24cea7eec4ba4ab0e306eb1a43783ea697a475699a2f, 0x6fc000fe55ba9d6c19f591705b3262baa7159a1654b3ed4be75d76384b2bdc9d, 0x9bb1ca70dd380e563a0b6cb93de6c8b3d0c617f3899526960ba2114d67e30ede);
    x, y, s, t := Twice(x, y, s, t, 0x8a04968e57a999cb5982a6b33922ade2410580a4576e4fdc128cb13e5cdde3c9, 0x9946417f6af5d4948841a2e0a96704f6422eeed6a50b94ad8c6df40c1d0ae838, 0x70e0be86de0b7cc50e825600e4af80735669778a6facdfcc91309aabc8fc6cfa);
    x, y, s, t := Twice(x, y, s, t, 0xa80dbe3c0a7c40b217cfeabe4bd2a0aeb38c578a624caa1dd8a849f5bca957cb, 0x2ea634df4fcb8d56e74192879ebbae3ce53fc27017791c9beb475df4717596e3, 0x1a5e4dbff5f111d590d494e3a98de6cf1e3d043cb3c4e090470244e167c1b4eb);
    x, y, s, t := Twice(x, y, s, t, 0x9ef0993e0e71c9197517d779fe6061feb75d608a77742fb9eccfe13602ac5aa7, 0x47ee4cb2623fee6d27fefb8ddebb607eae8fdce78e585e1f694c5ff8d1548677, 0x446a6d6912dd78491bf492b6be8d8ad441894c87f5abbd617b25661f34d5839c);
    x, y, s, t := Plus(x, y, s, t, GX, GY, 1, 0, 0xe7f9de7ef6ec789a58664026cea38b52901d0dbcf9b53ae95d2a1e391a12af08, 0x2c8690668cd4416c2cf611c14d8944d9be4aef053bfb02b80ceaa9b7a0a49eaa, 0x8cdafa468d9a7950e5e43e0f638bbf5bf0a2c29dffd317957808851a59781f03);
    x, y, s, t := Twice(x, y, s, t, 0xa98ee95679313b06e9bcaa9ac84ff3c50a7b94510fbef6e6a8f88c762a045ba6, 0x195f76984cb55fa9de3c2ae1d58df955aee79be6524428fbf6825232824d857e, 0xdccb7e123fd18651b64077f5eebb6cb5e4ea619d4643661c2b7eae7278d9a856);
    x, y, s, t := Plus(x, y, s, t, FX, NY, 0, -1, 0xba39579f5ac61bf2a26b529502793dea197de934cf9a6208ce9cab9337a62b09, 0x50b65cb2d29ea6fd486d26e3d223ac5de99311094b599377afd625551ec2d628, 0x6fef18ec41638b4b15824d24bbf4d18b4433084a0b690f9a73f3d88bfcbed6b7);
    x, y, s, t := Twice(x, y, s, t, 0x7d2d3199ff03e3db2c80a4b4500153fdb72733ecd44756d2ae655db21390e645, 0xa8879cac66a20232198d95db70f402cb2b44de71c834edc3ac70c549b034425b, 0x3f6adac903b38d12623e31526a02e29cd546e3a6ee7f306ef2764e6811ab0fcc);
    x, y, s, t := Plus(x, y, s, t, GX, GY, 1, 0, 0xf99dd308b4166ba4a5f011b7a9e5c070001dd309829211e451fb7dc278eac78f, 0xfdc07ca30a2801c615fbb24e9de590ae7c6b29238b0036063e66c26abae5ff29, 0x5eb9cb60f00088a7ef42274a2447ab34e422036c9c652d2bd90ef1aaaefd494);
    x, y, s, t := Twice(x, y, s, t, 0xe9b075809ac8e3145208ccd179d1fd3a49f137cb2a4fe088a197c8efacb2a9a8, 0x59a747a37b68d8f43a1096031fbafc6d16e50e983faea9e1442454fd89ff4793, 0x4ab26560cc6b14d7ffce1519cc995d17877524b624c03a32844d54019b999ba0);
    x, y, s, t := Plus(x, y, s, t, FFX, GY, -1, -1, 0x3c664f0c4dc3e954aaa404d2c2cd6ce945600a50b5f09dedf95d85cc083d265d, 0xe57e52622ad01085a7d6c2e25d43353eae1fe6bc381c925be2b21287dce1dd0b, 0xde47e9d5a640f9bad6a346bf3af4cdf64efab79d016653a66c40f4758ce600ca);
    x, y, s, t := Twice(x, y, s, t, 0xa5223db8ea7820ac280323e2628bfa7e231fde12b9a042d87c82d7cd0448163d, 0xd9449f3f64ba3ea859cf83bc2fe32d14ee3e873272b7fd47d7b3f8b2235b1f4b, 0x821bbfdac7c4cdc2026e84812e6f0581eb0ec3c5c5ba8dec2599ae04a7a1f2a0);
    x, y, s, t := Plus(x, y, s, t, GX, GY, 1, 0, 0xe709d52256d68aea9078d1603541aabba6091679e99ebf09628903a1cd93d4cf, 0xe39e8c7d7b1cc31cd1eb02422a067334ed595aab01fbac759fae923378958c26, 0xd9cbb5d7d2063dd395d6d3a1cadcbda680d49ef3a8a275bff44ad03df809f1a8);
  }

  lemma Chain11()
    ensures At(0xed9e26352430d4d0bf320d5dce3faf649e201a90e0eb36127b0dbd7801819515, 0x12f50df5d460153294548497e92ce798f94fda010b84830c832e8dea94db5934, 0x18436910d3ea35e6f436487249427, -0x7221bf6b0087441437aa3fd4855ff)
  {
    hide At;
    GeneratorImages();
    Chain10();
    var x, y, s, t := 0xe39e8c7d7b1cc31cd1eb02422a067334ed595aab01fbac759fae923378958c26, 0xd9cbb5d7d2063dd395d6d3a1cadcbda680d49ef3a8a275bff44ad03df809f1a8, 0x3086d221a7d46bcde86c90e493, -0xe4437ed6010e88286f547fa90a;
    x, y, s, t := Twice(x, y, s, t, 0xbc44754d518ca2c47e826ae822c5977b9478d0e2f57ac54c5770f450df3caeb0, 0x76a86bdd7ba8bbe42db32b83015921cd2b8cac4649d103b26d38ce7d3f9dcc4f, 0x45c698ed3d70ecb168c7ed534cbbeac761f270440ce3014668b253354cacfdb7);
    x, y, s, t := Plus(x, y, s, t, FFX, GY, -1, -1, 0xe8316ea06efab108ddfe6a79d5800e7bf06a47feacd2de8478bc1a61ffb659d6, 0x6be79777f105419d66f724e0b1dc66d70ea36c383ad3c784f205e827318ab1ab, 0x18387d40fa29596081b10304904b63af7ec8a314753fd27b2021db477cb36c8f);
    x, y, s, t := Twice(x, y, s, t, 0x19bcd24697ff9ac287ddb43610387d441ffadf3844f8a15bdd42a806ee0549ad, 0x8c43fbf99fa31d4fd311509bf91b26e24a3e3f8f98e4bb5b64f5b3578c8aed2d, 0xd82c7b56e48b5b0b65fb70f934932134976de895591d0447a65ae25b5c424992);
    x, y, s, t := Plus(x, y, s, t, FX, NY, 0, -1, 0xfc811d2454f12b939e81910c8983a5191d6d6b39810560d0085f81c29cc49702, 0x408925ffdc22d7a73ac970566f099324e52b2c9401c34e1c30f5545db9f1aa0d, 0x4e34ddf0dabc588e394d6b83e7d3fe61123b2797d991ac8c0b27121afaeb3227);
    x, y, s, t := Twice(x, y, s, t, 0x54843b8e932453b121470965385e8520874de2ba7184e40761a98379130f21d5, 0x3617011f94e8b7626b616fbcd467f816d5c38e8760e04e5b3dc1da4a0d3dfeee, 0xca12f57d1f079c66e0d0082186ccb56b15dda1533c6bf412204470027136a596);
    x, y, s, t := Twice(x, y, s, t, 0xdd126a127277bae737571b7da916b0dc9360ec80222ca93eec2c852c4094aeb1, 0x36c4d3244f0d1f41c3bf367bf2fed4a5085a7478115477ceb10f410ef78da304, 0xc2d2881436a82cecb6e38369a3a75fb0047e017bebcb907ae4ab42ea4689d735);
    x, y, s, t := Twice(x, y, s, t, 0x321940ee7b8a81809e95489db25eefcc12858b62fc6d9f33c2b32429af3fd69e, 0xf9068748bb3a0751d00c1c02abc6674a898a3602c48d16f0f1c946e85b0b71da, 0x3090fdd4a7b276bf14691573b0ad9c41ed80e87d2b95e414f9cb28cebc6e6da7);
    x, y, s, t := Twice(x, y, s, t, 0x4b3b075b15cfa43a29b09411e800187ee10ae01d951662b001cf0f54991138a5, 0x3da4a21376dfba8e9fec946f8c3b87c3f1818540367c25955ffb9de10a928cc6, 0x808fd3ca3dccd6c2e79ea47ccb63401831906e02b9e0e88a2718df046ec75cfa);
    x, y, s, t := Plus(x, y, s, t, GX, GY, 1, 0, 0x82580e3eea8b329631d0992d5e903a621574917dc569c1b85224b764ec670801, 0x46f08b403c3c4b2db874fadcbcf0d186f7788715be6c23a27b959f390953901c, 0x3c145f374b576f3ceef2672e6cad6533f4c42c0a7d9f4e36cab1f2462b63be63);
    x, y, s, t := Twice(x, y, s, t, 0x77028d66dd9be91c437b71f8bd8a24d53e3336fff7bf15c6a6c17e4ae037226f, 0x9bde3ee986980d62f9dd1c56b31d918872fab40ca7c3224d5765ea532c147c73, 0x43004b51eed37ae7a79603a84d1862c3cc25c9d2f854521663d45822ceba1);
    x, y, s, t := Twice(x, y, s, t, 0x55bb6fc8fafff851b6e4488f90d3d7e93f73564cc7c732e6299511fffc4c2d50, 0xfb5a7270d68aaf297cc358aa31c2914e9a4b2bb378a0acfa78f590e99917fe44, 0xbc54a9059af40aa2df6cefe2468827258ea667472685094d1145e51a4d777fa0);
    x, y, s, t := Plus(x, y, s, t, GX, GY, 1, 0, 0x555611e738c221e2bd82175ce151449e3d0ae7a36ab8c5aadc06e71db846b1df, 0xc495ab829645adb5ea6ebcd6011deab30299d7ceaf47249aa685faa6c4ddc1c0, 0xe850cd699f17b56d5d631067550ba12f1676f71d1ef464e811e541e6381b1fd2);
    x, y, s, t := Twice(x, y, s, t, 0x240ebc025899b1047da1f4d83f4d38f7222208f4c6e0ad6338a4497355de8b01, 0xda6120247ca7cd64fd93af0aa682ec468d2563e96a964d04d968618c5d9483a0, 0x88e6f7a9dce032e394104fc8189830a4d2c2bf32ce758646e857e87591e23bfd);
    x, y, s, t := Twice(x, y, s, t, 0xa2198ef6530d3e023d2e2e93293bab7c71eb37424490614a9b31f007d8af364e, 0xdc8dac21bb5e998a259eb99e7fb59162f574527feaf8363a7f6cd378352a577b, 0xeb75e3ad3c52a156f5c3aae7f7619fd895a38e0093d3f4b1eeb3a5c5cff2995f);
    x, y, s, t := Plus(x, y, s, t, FX, GY, 0, 1, 0xbccc0ca6cbfc25af76670b2a8ccdbdc4ac2c188d8a66078a15e8a68fc822ca9b, 0x54ff859bf6665541b595f8a408dd5abab2a68a95faecf729cedaf6b464181dbd, 0x4e3363a0a42bf1745a59de625e42d81796e41e292450be3f68caa114444f6874);
    x, y, s, t := Twice(x, y, s, t, 0x33f34b38ae6825af74d6529899a9f8e7ea5b1cc06a22b3de0a3bcb472cbef45e, 0x89f19c1041d4a203d2430527dca0128ad5223e30013ad7e4de05c68f073dd055, 0x3aa467041a485ec61895103f2b82307a7e4708ac29cc4ac8387190f9b728e599);
    x, y, s, t := Plus(x, y, s, t, FFX, GY, -1, -1, 0xc7a41e0d0fb0ce31fc7e071e44df476dcf827be4d1cae55ee4303dde4c36463, 0xed9e26352430d4d0bf320d5dce3faf649e201a90e0eb36127b0dbd7801819515, 0x12f50df5d460153294548497e92ce798f94fda010b84830c832e8dea94db5934);
  }

  lemma Chain12()
    ensures At(0x2e73bd84a08c41c3da360726f11f392b43f1c132af4968be1b88cae3528153ff, 0xee61ded1204764e55d463c21e73301ec749aa9e846104877a78401e1f68bfad2, 0x610da4434fa8d79bd0d921c92509d63, -0x1c886fdac021d1050dea8ff52157fc98)
  {
    hide At;
    GeneratorImages();
    Chain11();
    var x, y, s, t := 0xed9e26352430d4d0bf320d5dce3faf649e201a90e0eb36127b0dbd7801819515, 0x12f50df5d460153294548497e92ce798f94fda010b84830c832e8dea94db5934, 0x18436910d3ea35e6f436487249427, -0x7221bf6b0087441437aa3fd4855ff;
    x, y, s, t := Twice(x, y, s, t, 0xcaa117c47af47ee19a4ed95790479e6c0662621485fde48eb04a386945182aa2, 0x38ee22af11d7a4fd110f3978882ab24e8ca36e537cff29b716272a5105eb8990, 0x121c24d9ffbbd1f9c4784cbe10eff591c36275613b8cfffe6a0c08fc6e3938ca);
    x, y, s, t := Plus(x, y, s, t, GX, GY, 1, 0, 0xa16e6d005756e54b3520638ba6545e7a486a17b3ed0edd6cad01a82c527606ab, 0xcc52fd85317f77e7c64b67adcf02731caf4b9f2386598e499659da4f436026f, 0x3798132bc8b7fa01b137d726cb20a26168c07dd21effbde0d3ea895def3be832);
    x, y, s, t := Twice(x, y, s, t, 0x59caacdaf2ef28f60751934e81218d8a717d0cffdff81793427e110b11f754fd, 0x66c0d568756e2d839380e376c052c3a0a2595785c695745dc1793e295af364ff, 0x7d947de7511fe56514ae49622a1c152bbf3cc5d4ef61d03642a91bc7cb5d4299);
    x, y, s, t := Twice(x, y, s, t, 0x62f6fe98611019b0d9fa1c47202378fd545ff180cd7aba24eb28c395f246ea69, 0xe8a7ecaa37b0835fe1d4d2e314862260677efe483e885d3bd384314782529798, 0xdd0ef01500cc3a8c8c1335d77a02b8cf8ae01dfd1c84c2de8212ea13379566f8);
    x, y, s, t := Plus(x, y, s, t, FFX, GY, -1, -1, 0xb96d1c77b8b31c410131153fb123de75663066c1e6afd59d221ca963611d4cb5, 0x3e7cf06a7ca56ba14b381fe56695c71ed325c9d6b9ab292e4f8530f34077bf7e, 0x3afb1c4ec0213d9786f8372726b0e7b3fc37bf0cfaee0a4c7c8b1fd7361a740);
    x, y, s, t := Twice(x, y, s, t, 0x236c8c1fb436c162e3b1a7d6f1df28a361d349b60f26cbc2fd2e97903e55f3ca, 0xcbf33a18a763ef8f35b2b6e64eb49d825409e36141aa371f00d059372de70994, 0x9e74683ca71ba2b2bb21afb3a13ca45d0f168c88371999c7ddc9996974ca0427);
    x, y, s, t := Twice(x, y, s, t, 0x50dddeb159ca4925531f29f65bf6ee273cc3b83d763474d785a095d1c9021b51, 0x31ef6b90d78d5470dfc6d5355469db184e8be8e3547d3b7c73802d8aaa08124f, 0x3bc2ea5c27b989c9193176ccf48bd385ac5d4ea348c8ea2bcf3864a3522fb634);
    x, y, s, t := Plus(x, y, s, t, FFX, GY, -1, -1, 0x3898252d9f6ccc86b574d7794996077bc109e5f6194cbffcb97dec089af030a1, 0x55b0234f41a1c8f24f9945d78fca03e59855555dc9e1f6eec7c1e7a2426339e8, 0x15f46c42f28eaffcf8aaf8e663298063eaa03043aa1eecfe7af8e1ceeb32d550);
    x, y, s, t := Twice(x, y, s, t, 0x64bb527a289dda1f502b7b0b9670f8d17f3683deaa9380df75afc92123a3d7e9, 0x3b63cb0d5633980eaa17f4c03b2cfdff1a8b0ee22b10a708f741581e601ad550, 0x32f9a1383a4786802822fc0d47c31aac458395a41aa08f80bba0433f0d772e1e);
    x, y, s, t := Twice(x, y, s, t, 0x3fbdef211ace1b3767c016c2fe1fc03a0f91e81248eaf004d716a363fee43d3a, 0xe2846e7dc4ac66a32a504697288609c129fb4fb8165f9e150d49259db5d0f845, 0x24f907363bebce641de1bf08bab5a90af657cc9b90e564e4e30e647543bb44b2);
    x, y, s, t := Plus(x, y, s, t, FX, GY, 0, 1, 0x2ac6f219ca4776e5af4900f4bf59b980f8819a7c327409cf214fd404d993348d, 0xc8c5876b3696f9931c97fa9dd35d761e5c1a8fe9eda5bf111c77fed425057c63, 0x98dfef978a5caf7932adba11bd466950545e6fef5d70831b2a644f699f1a0ec5);
    x, y, s, t := Twice(x, y, s, t, 0xa2145ba40b630728f5695c7207195ec1ee1ac29dadcde19cda3c1e89d4502a00, 0xe43d311aad22834c29d9e55e80de19dfefef2283d1aca3a7ee97daeef1ce992b, 0xae176ad91cc42e0352546b9ea80d0e221f8f0339aaa9a2898767527e7524b39f);
    x, y, s, t := Plus(x, y, s, t, GX, GY, 1, 0, 0x7d2fc678e29c131d6291e46097851330d5eacce2cd9be91aac34765fe4647732, 0xeb42d690ec70f77a451d0508cb8b3a4701a090279af12a1b989deb1dc25e2f2a, 0xd192843e022c372be25fa56cb867c7880dbebdf9ebfab4c0d643d202bb11d1ed);
    x, y, s, t := Twice(x, y, s, t, 0xbdc82178c7f86e705c142854815d49e29fa3dc0a0050c0ae2f665a34378a04f4, 0x36bd272cafd8e5ba6e8abbc9d9ed05fde8e39908f5e5f1240932cfbf35877771, 0x8fe40ca9d5c7571a64770dd82fc440cf88448bc142edb72a4d8679777c8fddc);
    x, y, s, t := Twice(x, y, s, t, 0xadc22f2fba2b506797babeaf407316cbe79000c2b76d69c314461b1c751f1e0a, 0xa7888391cf858cb53f41e90f0331a71cbc09ac87e92503d2e3fd51ce65856b7c, 0xf10fd2b5a8dd2427a41421d07b741e9444e2862b46e7748df7bbacb4b59cd5b3);
    x, y, s, t := Plus(x, y, s, t, GX, NY, -1, 0, 0x98c06a6dd6e975e2ce60b13d05281e191f6264a9b2037fa58d03686fbaf72cf4, 0x2e73bd84a08c41c3da360726f11f392b43f1c132af4968be1b88cae3528153ff, 0xee61ded1204764e55d463c21e73301ec749aa9e846104877a78401e1f68bfad2);
  }

  lemma Chain13()
    ensures At(0xc994b69768832bcbff5e9ab39ae8d1d3763bbf1e531bed98fe51de5ee84f50fb, 0x483ada7726a3c4655da4fbfc0e1108a8fd17b448a68554199c47d08ffb10d4b8, 0x3086d221a7d46bcde86c90e49284eb14, -0xe4437ed6010e88286f547fa90abfe4c4)
  {
    hide At;
    GeneratorImages();
    Chain12();
    var x, y, s, t := 0x2e73bd84a08c41c3da360726f11f392b43f1c132af4968be1b88cae3528153ff, 0xee61ded1204764e55d463c21e73301ec749aa9e846104877a78401e1f68bfad2, 0x610da4434fa8d79bd0d921c92509d63, -0x1c886fdac021d1050dea8ff52157fc98;
    x, y, s, t := Twice(x, y, s, t, 0xa41a12c3a66208b6d8e9b060b49d22a4dbeb15ac07c3da0a7c83af61a3f4188, 0x337902d5b48417caec5bf4ab4acd57e82bc266552c3cf4c011f843dfae108e77, 0x8b71e83545fc2b5872589f99d948c03108d36797c4de363ebd3ff6a9e1a95b10);
    x, y, s, t := Plus(x, y, s, t, FFX, GY, -1, -1, 0xb04e51fbb3f7c3363380042dca88f0bcdbf72a12dcec4c226af678b3c8d3d0f7, 0xee38067db0c7811d0a5b131dde99217caeb39cc3bf3ae9ed8690e8c13a3991b7, 0x8ebbbff6e6ddd78cf327dc85b6f0145d501c2d82833eec943681bc61eccceeda);
    x, y, s, t := Twice(x, y, s, t, 0xe1d301976fb399add38a5dd05f54cb8db6a6e85c3fc58875514735e895da7af6, 0xe484db4013e80e83052b1267603def814791291a8a098469934ed0bc5f7e2739, 0xc0c686408d517dfd67c2367651380d00d126e4229631fd03f8ff35eef1a61e3c);
    x, y, s, t := Twice(x, y, s, t, 0x968c0ffb15f4a01415d996da8f13efb2fba8e419d3a2337e2ba82987c6a62c49, 0xc994b69768832bcbff5e9ab39ae8d1d3763bbf1e531bed98fe51de5ee84f50fb, 0x483ada7726a3c4655da4fbfc0e1108a8fd17b448a68554199c47d08ffb10d4b8);
  }
}
