/** The number -7 has no cube root in the field: by Fermat's theorem its power (p - 1) / 3 would be 1, and it is not. */
module CubeRoots {
  import opened Integers
  import opened FieldMul
  import opened Points
  import opened PowerChains
  import opened PrimeModuli
  import opened Primes

  /** (p - 1) / 3 */
  const THIRD: nat := 0x55555555555555555555555555555555555555555555555555555554fffffeba

  lemma Seven_1()
    ensures PowerIs(P, 7, 0x15555555555555555, 0x683adbbba76b1bbb662e8716051953d83f6fd356a211a707718073f025bff854)
  {
    hide PowerIs;
    var b, p, q := 7, 49, 343;
    FirstPowers(P, b, p, q);
    var e: nat, v := 1, 7;
    e, v := Climb(P, b, e, v, 1, b, 0x41a7);
    e, v := Climb(P, b, e, v, 1, b, 0x7c05a810b72a027);
    e, v := Climb(P, b, e, v, 1, b, 0x62b68801ec048e694ca024f381769f5541392b34be4839cdca181dc19a27);
    e, v := Climb(P, b, e, v, 1, b, 0xe632dbdb6b5938595651734a39636410f570c2baaaf10dc8a79ca291638942de);
    e, v := Climb(P, b, e, v, 1, b, 0xd634a40a16ea79f193e7cfb72385bfd8bf65abdb16bbdc3cc0ab3fb724d97e62);
    e, v := Climb(P, b, e, v, 1, b, 0x8e861b455c77ebd77fa70ebd0721ad41e2cb5738fcec909564a80f60cf27c333);
    e, v := Climb(P, b, e, v, 1, b, 0x815d8e8792a267b2152235514d1a8edc4cd3819c6f632798a9d233478216e958);
    e, v := Climb(P, b, e, v, 1, b, 0x49b286a0c24417479f96b03d44490a42d3e573dce851bbe984e2443b32386e57);
    e, v := Climb(P, b, e, v, 1, b, 0x49dc660749534f6b0d8d15d22d4e8415100e12296d24d603f63cec8f6c6eb6e8);
    e, v := Climb(P, b, e, v, 1, b, 0x62af9022446ed3d5f05e16b345eaca7160c561cd0b95c781d910ae50dd6a5a82);
    e, v := Climb(P, b, e, v, 1, b, 0xbcc01d0aa309ee4ad078bcae56e37c7501cf5176d293963a092add0bc5254e6);
    e, v := Climb(P, b, e, v, 1, b, 0x259f94192fdf5204ceeb7836ffe41cef1c38a8a589bb96d1e6708fad8b7069d4);
    e, v := Climb(P, b, e, v, 1, b, 0xc707ace6cc7544a69163dcf7ac486557b3fadbd9c6cc111676dc9437bd4b2b15);
    e, v := Climb(P, b, e, v, 1, b, 0xe3755aa00ef35f4b7fa858bf32670734f4d275e7dd86fcdaccc0a37e15df5e00);
    e, v := Climb(P, b, e, v, 1, b, 0x816425eddac85a24490349864a71aba2f24bcc56a86bbdfcb1eb2595a5ad5cfa);
    e, v := Climb(P, b, e, v, 1, b, 0xe13f308bdc6b19272db56846fdf5cb8874c1dd26ec4b80a538ca0d121ce09ba9);
    e, v := Climb(P, b, e, v, 1, b, 0x40bcf6f31a22bd338756da0e4b60f0d025bd1be7719a246eab629c77da9cfd49);
    e, v := Climb(P, b, e, v, 1, b, 0x533a16bc6138f1f11baa10c5c4c2f5e661f8a18a6a05e58db235f8efb861c081);
    e, v := Climb(P, b, e, v, 1, b, 0xf79df8523ee141a1637e015420851638292bd9786ad157891e0802a81c47b89f);
    e, v := Climb(P, b, e, v, 1, b, 0x3b0d2c9db8af8e0e320125b4985cd888fd3235e495b1555fe98bb2b15cb07332);
    e, v := Climb(P, b, e, v, 1, b, 0x899bdf8a0ffd8f8216fc717ace0bd31b43a59033bda35d941d356b9aa6de1e3c);
    e, v := Climb(P, b, e, v, 1, b, 0x49c83a27c34c8635552cf039a1a4a49eb94ad2b9165472c0ea272d639db1616d);
    e, v := Climb(P, b, e, v, 1, b, 0xd8c76e77747fd4c258fc3831f566b0abddcc74755d32460fd160cbd94fbc3826);
    e, v := Climb(P, b, e, v, 1, b, 0xceb709ef1d014056579850b77fb13998df199c4300c0125e28a6ef3f4f67c243);
    e, v := Climb(P, b, e, v, 1, b, 0xffe39606ec8c9eede826b066086a6bf1a2d7b66f49f46d049f347859aa647a02);
    e, v := Climb(P, b, e, v, 1, b, 0x8349cf2cfb630c801085cdf83e03f5df140c53123fb51fc30b364c452b9d1158);
    e, v := Climb(P, b, e, v, 1, b, 0xa9eb201d77fa7a0477ee0bd28b2713cba3d9d3f56840b5e2eea4ae4c6b7b2c6d);
    e, v := Climb(P, b, e, v, 1, b, 0xad92abf84456e3f88a33ea4874b0ae9e4f02eaf24e5b8b5bca8d8ff475efdb42);
    e, v := Climb(P, b, e, v, 1, b, 0xdbfe51c70aaa1f7919ef2099e0e9f0b86dfae3b54985a0ed1b52e824dd91186e);
    e, v := Climb(P, b, e, v, 1, b, 0xd7df68df2eccdac61c8789bba4e89360985eaff509172cc6745abf1808a18e5c);
    e, v := Climb(P, b, e, v, 1, b, 0x1860a66d9be02659a854a0e14ef7179c5f958ef995ec9dc1cba2f7cc50f31085);
    e, v := Climb(P, b, e, v, 1, b, 0x683adbbba76b1bbb662e8716051953d83f6fd356a211a707718073f025bff854);
  }

  lemma Seven_2()
    ensures PowerIs(P, 7, 0x155555555555555555555555555555555, 0x57acd9d504af4eda58c6c04e5285fc5a91247db9fd8478546c8c22b02dccf5dd)
  {
    hide PowerIs;
    Seven_1();
    var b, p, q := 7, 49, 343;
    FirstPowers(P, b, p, q);
    var e: nat, v := 0x15555555555555555, 0x683adbbba76b1bbb662e8716051953d83f6fd356a211a707718073f025bff854;
    e, v := Climb(P, b, e, v, 1, b, 0xe781bfd3139d90d6b4c26a0ccc032356378d70e89f401b032e4396ad26d1fc3b);
    e, v := Climb(P, b, e, v, 1, b, 0xdfdded23a9a7e7f19adc3852521cd465212e3957c5ed6b16ad37418b80dabc9d);
    e, v := Climb(P, b, e, v, 1, b, 0xd079b41f315315ef9cab48ea74039e356334e2cc442d0d65d97d226aec463187);
    e, v := Climb(P, b, e, v, 1, b, 0xc3baa9e5f7a98b78ea17ab3a4e36e5729e70666d9c9b99f0ae9a6a90de0ae3bc);
    e, v := Climb(P, b, e, v, 1, b, 0xbd99604f15f388a890eead839b86289f0795027e441633616242b6b1b288bf1);
    e, v := Climb(P, b, e, v, 1, b, 0xa03e05caa6b8829936ef41d36dd1417c2fb3b94b8d74e97444256b0d6596676);
    e, v := Climb(P, b, e, v, 1, b, 0x8665015359f79d60929d8d717712a5bc0b007d783f454bc2bffff5e7ffe90b78);
    e, v := Climb(P, b, e, v, 1, b, 0x8a67f385a5022e59ddee044307792c470d7ee66be845b94ef55ecbc7019e8879);
    e, v := Climb(P, b, e, v, 1, b, 0x234ce69c2449e5603c37199f828ac73916f31c12f185957ac7d1e2331a55e83f);
    e, v := Climb(P, b, e, v, 1, b, 0xc901811e0783547abbe1ecdbcb0bc7d4f91bd549706a2550893afc98ff737748);
    e, v := Climb(P, b, e, v, 1, b, 0x38ebf3b8a6aa6b365c04b86aa0891686c8cb5f0a56d87a85f3a2009f7bd1a0f0);
    e, v := Climb(P, b, e, v, 1, b, 0x6237444534136c1a51a53dd0b93760b04e4dc872d165f8e8087566fb0176aed5);
    e, v := Climb(P, b, e, v, 1, b, 0xe06d2a7d7382027a9914c9b242588976910f309007a51b09cdd1cbe6dad57e8b);
    e, v := Climb(P, b, e, v, 1, b, 0xff5b79f60480e0246231bae43ec8fa51487776d0f45e556ff07e77b92d910c3e);
    e, v := Climb(P, b, e, v, 1, b, 0x1bd1d2e39ac7e78ff091254ef5911716860449869522954ffa3208e77d42411);
    e, v := Climb(P, b, e, v, 1, b, 0xe73e831e847f2d7044b83aedff6f87f4e826079e9c4a671003d40185d3d42d50);
    e, v := Climb(P, b, e, v, 1, b, 0xc528bb30664adbc55cc52a0edaf351537b7ec45b3f99dd9bb6cb36e41b4fc358);
    e, v := Climb(P, b, e, v, 1, b, 0xb5d79f068a8df3d50e78ddf91d18057c7eec87a0c2cda57c4b06da995406a755);
    e, v := Climb(P, b, e, v, 1, b, 0xa53f8a0a9bd2794cbf0c41524153c32ecdd14d2968cf51b08fd08c8616962037);
    e, v := Climb(P, b, e, v, 1, b, 0x7701b50c4e442adf08de5c1497db8de26a49d70882acf9b8c4740ebbeab171f5);
    e, v := Climb(P, b, e, v, 1, b, 0xeaf28da0ddc9ea8adda7e507ace529d7ba100cb976f73c0105538efe9021d481);
    e, v := Climb(P, b, e, v, 1, b, 0xc990baeddbb3d35fa32a73788a0b781e4723e595c81dbde90b10a0e31bb8dd7e);
    e, v := Climb(P, b, e, v, 1, b, 0x9b4583be2d369b7b5357f421434f13c9b4b9454d41d24ecfbd282afb7249be7a);
    e, v := Climb(P, b, e, v, 1, b, 0xc361b3c9d720fe9c8a7fd309fb9db9c346fc700851f5e48d6315886fd833dd6c);
    e, v := Climb(P, b, e, v, 1, b, 0x2c00823264bdfa66211061795c38014e97a47b73be847c09f1fb8710a2ca70b0);
    e, v := Climb(P, b, e, v, 1, b, 0x8abc518d9e3207413a06f78c88e97b243bea514f16c32ceee2ce223c1f3720d1);
    e, v := Climb(P, b, e, v, 1, b, 0xaf55af865749b70e66105312a15d64abc08a88a5430554b7f752dad264338e5d);
    e, v := Climb(P, b, e, v, 1, b, 0xa49414f35118566e055541ddc53be235eac2c2b977974532abe260c7a97c3f1e);
    e, v := Climb(P, b, e, v, 1, b, 0x892d6ecb1618f0f696d61102d801fcdc89ccfc5c096b7429ecce720cb1099135);
    e, v := Climb(P, b, e, v, 1, b, 0x75a0d81acd51b8456da8e0db15c09931c3e9a6c8c1d5bdc9484be18977378d25);
    e, v := Climb(P, b, e, v, 1, b, 0xf0d02bb7beb7ea244b8d53fbfcbae29c64f532e9743576b3b8abcaa6c434a944);
    e, v := Climb(P, b, e, v, 1, b, 0x57acd9d504af4eda58c6c04e5285fc5a91247db9fd8478546c8c22b02dccf5dd);
  }

  lemma Seven_3()
    ensures PowerIs(P, 7, 0x1555555555555555555555555555555555555555555555555, 0x9e82b65f14badd743584a539f01c6f003ed88c95c04e40356e7534b411e5a7fc)
  {
    hide PowerIs;
    Seven_2();
    var b, p, q := 7, 49, 343;
    FirstPowers(P, b, p, q);
    var e: nat, v := 0x155555555555555555555555555555555, 0x57acd9d504af4eda58c6c04e5285fc5a91247db9fd8478546c8c22b02dccf5dd;
    e, v := Climb(P, b, e, v, 1, b, 0x93ea0fdd1711a3622848bcbab4ab7f36014561d55850f8d5cd2f0a711724733f);
    e, v := Climb(P, b, e, v, 1, b, 0xf75699f21738e53c17479e98a6760f1fc8e626dfa643508ce63c11fe77096a8);
    e, v := Climb(P, b, e, v, 1, b, 0x2e538b7bc7f2ad7b93e36422c714786203f5d0d1a1a8ba214a78d74d4dabc973);
    e, v := Climb(P, b, e, v, 1, b, 0x213404ab14b78088cc8720a6119a855919841e111baa7d0531a3e3d8b0e581fa);
    e, v := Climb(P, b, e, v, 1, b, 0xf065c1f14aff7a76e57a6dc519898bcafdf6b754db4f1b70d61042c888c46745);
    e, v := Climb(P, b, e, v, 1, b, 0x9cadcfc1cff5170093f309402da2809891e8a91cfd2f72de2b72416bc1b6ae77);
    e, v := Climb(P, b, e, v, 1, b, 0x3e41a81324a0a5632696021d2ccbd2989c64c1980b08c6c9b78e06a63dd8759f);
    e, v := Climb(P, b, e, v, 1, b, 0x9dba5e3eb09e6c5b63efc96e7afb95c6c955bee60f8380ba45cea8226cdb35fa);
    e, v := Climb(P, b, e, v, 1, b, 0x59638dc24e8b6043e2ef808fe059478f657647cf4c8a79cd8a7b1340e2838ca6);
    e, v := Climb(P, b, e, v, 1, b, 0x795bf012e44eb6ee3b9b5d2145231be45e165c38d5e9523e892bd43e209b637d);
    e, v := Climb(P, b, e, v, 1, b, 0x15233d40b71b4e48344b315cb83e26ea29f1f38af6df60bc5fee51a0762df5ae);
    e, v := Climb(P, b, e, v, 1, b, 0x44eec50b8c72b25f0c37a396449cfdae021c6811966b45681d1b0cb5efea8167);
    e, v := Climb(P, b, e, v, 1, b, 0x9cab69805c4cf01c41e774783f4c59a92618066fbe68de765be639c625082c15);
    e, v := Climb(P, b, e, v, 1, b, 0xb800ee0230ebc3512ed83c6664f623e6b76556a14857d9ac401d4377abdf6f25);
    e, v := Climb(P, b, e, v, 1, b, 0x1c7021d4605995267a972d066876cea842154ef9d25fddaa07a42a2fb3ceb4e8);
    e, v := Climb(P, b, e, v, 1, b, 0x3ca5505de245df846ada5f81f1a245b6cc1f8d8391127d0bddf2a09bb21fa9c8);
    e, v := Climb(P, b, e, v, 1, b, 0xaef16ed1e84f350b8a22ebcad3306587f80f93a0610d608de7a018c8761564bb);
    e, v := Climb(P, b, e, v, 1, b, 0x16e08393fd6373c0073e75fc56f0f79c446fd7bb859667dd8c149b5ecd111fec);
    e, v := Climb(P, b, e, v, 1, b, 0x2295c9cafdfd81dc3793375e785bd670bf36526da45f09e80715bab98133571b);
    e, v := Climb(P, b, e, v, 1, b, 0x44ce2bb8f3fa681d20af8be73841972630e0be63ec3a5b016b93a43d0fd63959);
    e, v := Climb(P, b, e, v, 1, b, 0xfe3d01ffbe2de43d6dcfdf8e99154a3680863e1b96d9746fb18c86d0383725e);
    e, v := Climb(P, b, e, v, 1, b, 0x927c96db4ca7f49882a80cf38812e67119b8b221bcba93d392c952042f846dcd);
    e, v := Climb(P, b, e, v, 1, b, 0x270cbfbf7524501ccef5d72f771be92f74af5796994ac6263e9692b3967633f8);
    e, v := Climb(P, b, e, v, 1, b, 0x7001889ba1297fde1741fa17ef931e06ebf151910195df1ae90ee791da5abc7e);
    e, v := Climb(P, b, e, v, 1, b, 0x865075f768f04345cd1abd77bb0f9eba782f3c951c31b9738f383772e3063245);
    e, v := Climb(P, b, e, v, 1, b, 0x4c30206290eff650d01d7410786d4729c31e6b6be1ac0d70b3c41b7bf35e8999);
    e, v := Climb(P, b, e, v, 1, b, 0x42d943e56610e967109a4dee0cbf26474992364689b262f7f22c1dff42888eae);
    e, v := Climb(P, b, e, v, 1, b, 0xef518ada1f7eda4bb7e86ca62c935305ce54b9d64dfa5b4857d6e5025f5e2b22);
    e, v := Climb(P, b, e, v, 1, b, 0x4c6abc720ddcd5b30156df81f4a21357692521f38393821633df6e9ee7266081);
    e, v := Climb(P, b, e, v, 1, b, 0x4ad9b18330d97be9cc3b6163c6ab00edbdce215a89be8f46194080871a88edc8);
    e, v := Climb(P, b, e, v, 1, b, 0xdb8a201799d4423a681d9018d14ed2e300a50dd483a003b94335026d9ce053cb);
    e, v := Climb(P, b, e, v, 1, b, 0x9e82b65f14badd743584a539f01c6f003ed88c95c04e40356e7534b411e5a7fc);
  }

  lemma Seven_4()
    ensures PowerIs(P, 7, 0x55555555555555555555555555555555555555555555555555555554fffffeba, 0x7ae96a2b657c07106e64479eac3434e99cf0497512f58995c1396c28719501ee)
  {
    hide PowerIs;
    Seven_3();
    var b, p, q := 7, 49, 343;
    FirstPowers(P, b, p, q);
    var e: nat, v := 0x1555555555555555555555555555555555555555555555555, 0x9e82b65f14badd743584a539f01c6f003ed88c95c04e40356e7534b411e5a7fc;
    e, v := Climb(P, b, e, v, 1, b, 0x9035d862ad8cacde9dc9cbd1b7e80688b15553789a775c6f35a2bfd0e8a56ea1);
    e, v := Climb(P, b, e, v, 1, b, 0x546d14a6f333c170530e1953a8584a76a9f901995cd6b70f78f1c960bcc6c4d8);
    e, v := Climb(P, b, e, v, 1, b, 0xc5463f86eec4a6f05286314fcbf3e629150a46dd8084794434290493fcdd5298);
    e, v := Climb(P, b, e, v, 1, b, 0xe91bcf5b9b80834edc0c1514769ad63b27ecc5f9a4f3e839d630afff69356ebc);
    e, v := Climb(P, b, e, v, 1, b, 0x5657a8bab9ada66cec6095cffd2d1ad26243c4d23df5d9d1572b13c3a5feb2ea);
    e, v := Climb(P, b, e, v, 1, b, 0xb4aea16c0ddaf69a2b1937d04d7b2400fb41f0b3bc2c2d66f80304f23df50e3d);
    e, v := Climb(P, b, e, v, 1, b, 0xfa7e1a30e83a9ea96c8d3dc8f35f02b569b4fa284265bbab1c4fa504c01372e8);
    e, v := Climb(P, b, e, v, 1, b, 0x1a66d9d4838f46bb12654df3977d204d2a75011b476b37e2216db56a681145ed);
    e, v := Climb(P, b, e, v, 1, b, 0xda13bbf41e6b20d5f6c877a9a5e95e38e2b4edb7b05509136c910ce18ad8b0af);
    e, v := Climb(P, b, e, v, 1, b, 0xb043bcbe8f9ecbb99bc71586c42411e04617b0a060279a7dead3170ed8b474e8);
    e, v := Climb(P, b, e, v, 1, b, 0xa473c681994c54143b7c2f451f43288e63162dbd3dd4ba794b55f3b4e3c46ed5);
    e, v := Climb(P, b, e, v, 1, b, 0x9b6aca0b3a4434c3fc89317536996041a7eb4fc9bcbaeb357e1d76749a5dd59b);
    e, v := Climb(P, b, e, v, 1, b, 0xf68b7860302f1ffa8f5a98f6ce057dddbb8529d35f3f6b2d9cc7c3e7fc8b4cea);
    e, v := Climb(P, b, e, v, 1, b, 0xd45c997e9252d7343e97b3589c768bb4549de9c49830b1b5191324596093ace4);
    e, v := Climb(P, b, e, v, 0, 1, 0xbb86cf6abf01a27b7e43f2956475fa5f3fbec7d6e2c9da500f74691bd4a5dcb);
    e, v := Climb(P, b, e, v, 3, q, 0xa69e0ebb6f8ebfe846ad95cb159b22c06d3d4f0511f960363ab5816b92be1f1);
    e, v := Climb(P, b, e, v, 3, q, 0x4a41a5c330b20176a203bda17de29029675d5a9ecce500c607df00db895b894e);
    e, v := Climb(P, b, e, v, 3, q, 0x503034bb8f6c5208d455752ec5effef02cd294b8d5cc5d87d0ab312122cc6163);
    e, v := Climb(P, b, e, v, 3, q, 0x607faf72366c6463fe25ffd397613c115abb297a80b749bd5d1513d3a0c8c1a4);
    e, v := Climb(P, b, e, v, 3, q, 0xc5742b7acd721159688ac7ce47f8296feb796651a13e83c6096c0b26abacdec5);
    e, v := Climb(P, b, e, v, 3, q, 0xa02f6bc3887ea5e20d8cfedced3d4ba684df830caa5e20c9b109e5177d03564);
    e, v := Climb(P, b, e, v, 3, q, 0xd90dd6cb24f832391392f29efb4523fb20b0924d0aa3e1ed9a4aec40a128dd68);
    e, v := Climb(P, b, e, v, 3, q, 0xfa70c0ad503869830baf4cd14067309644e24412b1aedfc901625e7538c45df);
    e, v := Climb(P, b, e, v, 3, q, 0xe7b871c02eafb827b67e54b61da6190cec265a3c99ef456958109493e6973b45);
    e, v := Climb(P, b, e, v, 3, q, 0xc6165f84551f435d469ea230d952ff9adf50fb609e61d46beb43e62edf89f56f);
    e, v := Climb(P, b, e, v, 3, q, 0x2b6fbab8111fc4d4eba0a4bf3dd4c7ad61bf9b40fefd1bc3f885e9297bd0bb93);
    e, v := Climb(P, b, e, v, 2, p, 0x6a8687a9be6284b51c6215e698ef76dd57eb11fcdb3ea1fa6221b7545705ff31);
    e, v := Climb(P, b, e, v, 2, p, 0x25671368cfaa7f361a6f332949f179a9fbe195f8b3386259f3028fd49e150e32);
    e, v := Climb(P, b, e, v, 3, q, 0x9804320cf572d25a25f62b408e402b5277e2888e049e1e30b90f634b98a4a627);
    e, v := Climb(P, b, e, v, 2, p, 0xcd6e3c1e14cec02afe40de54596cf176419396ea4ef9bfdf47c0786d37f5123a);
    e, v := Climb(P, b, e, v, 2, p, 0x7ae96a2b657c07106e64479eac3434e99cf0497512f58995c1396c28719501ee);
  }

  lemma SevenPower()
    ensures !Cong(Power(7, THIRD), 1, P)
  {
    Seven_4();
    var w := 0x7ae96a2b657c07106e64479eac3434e99cf0497512f58995c1396c28719501ee;
    if Cong(Power(7, THIRD), 1, P) {
      CongSym(Power(7, THIRD), w, P);
      CongTrans(w, Power(7, THIRD), 1, P);
      CongUnique(w, 1, P);
    }
  }

  lemma SquareOfMinusSeven(n: nat)
    requires n % 2 == 0
    ensures Power(-7, n) == Power(7, n)
  {
    var h := n / 2;
    PowerPower(-7, 2, h);
    PowerPower(7, 2, h);
    assert Power(-7, 1) == -7 * Power(-7, 0) && Power(-7, 2) == -7 * Power(-7, 1);
    assert Power(7, 1) == 7 * Power(7, 0) && Power(7, 2) == 7 * Power(7, 1);
  }

  lemma NoCubeRoot(x: int)
    ensures !Z0(Cube(x) + 7)
  {
    hide Prime, Cong;
    if Z0(Cube(x) + 7) {
      RootNotZero(x);
      ZeroRemainder(x);
      PIsPrime();
      Fermat(P, x);
      PowerPower(x, 3, THIRD);
      CubeIsPower(x);
      CubeIsMinusSeven(x);
      PowerCong(Cube(x), -7, THIRD, P);
      SquareOfMinusSeven(THIRD);
      CongSym(Power(Cube(x), THIRD), Power(7, THIRD), P);
      CongTrans(Power(7, THIRD), Power(Cube(x), THIRD), 1, P);
      SevenPower();
    }
  }

  lemma RootNotZero(x: int)
    requires Z0(Cube(x) + 7)
    ensures !Z0(x)
  {
    SmallIsNotZero(7);
    if Z0(x) {
      assert 7 == 1 * (Cube(x) + 7) + -(x * x) * x;
      ZeroCombine(7, 1, Cube(x) + 7, -(x * x), x);
    }
  }

  lemma CubeIsPower(x: int)
    ensures Power(x, 3) == Cube(x)
  {
    assert Power(x, 1) == x * Power(x, 0) && Power(x, 2) == x * Power(x, 1);
    assert Power(x, 3) == x * Power(x, 2);
    assert x * (x * x) == x * x * x;
  }

  lemma CubeIsMinusSeven(x: int)
    requires Z0(Cube(x) + 7)
    ensures Cong(Cube(x), -7, P)
  {
    hide Cube, Z0;
    ZeroRemainder(Cube(x) + 7);
    assert Cube(x) - -7 == Cube(x) + 7;
  }
}
