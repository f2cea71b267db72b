/**
 The self test, first block: 64 zero bytes from the initial hash value.
 */
module SelfTestFirst {
  import opened Words
  import opened Sha256
  import opened ShaSteps

  const START: State :=
    State(0x6a09e667, 0xbb67ae85, 0x3c6ef372, 0xa54ff53a,
          0x510e527f, 0x9b05688c, 0x1f83d9ab, 0x5be0cd19)
  const END: State :=
    State(0xda5698be, 0x17b9b469, 0x62335799, 0x779fbeca,
          0x8ce5d491, 0xc0d26243, 0xbafef9ea, 0x1837a9d8)

  const W0: seq<Word> := [0x00000000, 0x00000000, 0x00000000, 0x00000000]
  const W1: seq<Word> := [0x00000000, 0x00000000, 0x00000000, 0x00000000]
  const W2: seq<Word> := [0x00000000, 0x00000000, 0x00000000, 0x00000000]
  const W3: seq<Word> := [0x00000000, 0x00000000, 0x00000000, 0x00000000]
  const W4: seq<Word> := [0x00000000, 0x00000000, 0x00000000, 0x00000000]
  const W5: seq<Word> := [0x00000000, 0x00000000, 0x00000000, 0x00000000]
  const W6: seq<Word> := [0x00000000, 0x00000000, 0x00000000, 0x00000000]
  const W7: seq<Word> := [0x00000000, 0x00000000, 0x00000000, 0x00000000]
  const W8: seq<Word> := [0x00000000, 0x00000000, 0x00000000, 0x00000000]
  const W9: seq<Word> := [0x00000000, 0x00000000, 0x00000000, 0x00000000]
  const W10: seq<Word> := [0x00000000, 0x00000000, 0x00000000, 0x00000000]
  const W11: seq<Word> := [0x00000000, 0x00000000, 0x00000000, 0x00000000]
  const W12: seq<Word> := [0x00000000, 0x00000000, 0x00000000, 0x00000000]
  const W13: seq<Word> := [0x00000000, 0x00000000, 0x00000000, 0x00000000]
  const W14: seq<Word> := [0x00000000, 0x00000000, 0x00000000, 0x00000000]
  const W15: seq<Word> := [0x00000000, 0x00000000, 0x00000000, 0x00000000]

  const A: seq<Word> := [0xa54ff53a, 0x3c6ef372, 0xbb67ae85, 0x6a09e667]
  const A0: seq<Word> := [0xfc08884d, 0x7ad96290, 0xf3dd6c3f, 0x0a24b1aa]
  const A1: seq<Word> := [0x489fc27e, 0x6bb2da87, 0x965ecae2, 0x5e498fb3]
  const A2: seq<Word> := [0x258e85ba, 0x87dd269e, 0xb8b7c158, 0xc0dee80e]
  const A3: seq<Word> := [0x4640cdd5, 0x3acde607, 0xd22264c0, 0x1f951eb2]
  const A4: seq<Word> := [0x15ea9067, 0x73d7f239, 0xaecf98b4, 0x21ce99d5]
  const A5: seq<Word> := [0x3e2317a3, 0x7c60fbe3, 0x26e60522, 0xa5681bb2]
  const A6: seq<Word> := [0x8087db3a, 0xa5cf0091, 0x141ab25e, 0x8f16d9e7]
  const A7: seq<Word> := [0x9e161da9, 0x370ce121, 0xd63659f5, 0x5edcac07]
  const A8: seq<Word> := [0x1e9161ac, 0x8d7b2972, 0xa6842a6d, 0x291dbe19]
  const A9: seq<Word> := [0x9a1608e3, 0x9e33dff5, 0xe57e5397, 0xbcea14c8]
  const A10: seq<Word> := [0x4d2f5e2a, 0x1f6d7896, 0x550b15f7, 0x46c63a16]
  const A11: seq<Word> := [0x4673e127, 0x11a7f01d, 0x0043f8a0, 0xb896f08c]
  const A12: seq<Word> := [0xc9303382, 0x82f02b5c, 0x0a455585, 0xe2666753]
  const A13: seq<Word> := [0xe7117664, 0x3e7a6340, 0xdf67aa36, 0xcc9b24f4]
  const A14: seq<Word> := [0x85ba18d0, 0x8845a542, 0x4b1ae547, 0x8ff307f7]
  const A15: seq<Word> := [0xd24fc990, 0x25c46427, 0x5c5205e4, 0x704cb257]

  const E: seq<Word> := [0x5be0cd19, 0x1f83d9ab, 0x9b05688c, 0x510e527f]
  const E0: seq<Word> := [0x98c7e2a2, 0x9df1b216, 0xc57b68fb, 0x909cf5c9]
  const E1: seq<Word> := [0x2cab14aa, 0x9d120f96, 0x79c76dda, 0x9426ec60]
  const E2: seq<Word> := [0x839d20bc, 0x3e9d0be7, 0x65aff72f, 0x7d9b9b1d]
  const E3: seq<Word> := [0x5f0deb7a, 0xc5c6eedf, 0x7efa870c, 0xf3161690]
  const E4: seq<Word> := [0x1b968440, 0xab002c44, 0xd623e343, 0x391fe568]
  const E5: seq<Word> := [0x738012cf, 0xc2999c5f, 0x1566b1e5, 0x50185f01]
  const E6: seq<Word> := [0xc5a8f002, 0x16b0c850, 0x4334f303, 0x32afef6d]
  const E7: seq<Word> := [0x21e11719, 0x6c057621, 0xd3ec2dbf, 0xf4983bb6]
  const E8: seq<Word> := [0xa14cd591, 0x16b18454, 0x5971ef8c, 0xcf03b894]
  const E9: seq<Word> := [0x3f13fc47, 0x87e0021e, 0x9a8b0ef8, 0xab229668]
  const E10: seq<Word> := [0x099ecea7, 0xf0d1ea3d, 0x26900fd1, 0x4fd141b7]
  const E11: seq<Word> := [0xe268250c, 0xd3afe0ad, 0xb3261902, 0x3406be47]
  const E12: seq<Word> := [0x0d99d9a7, 0x1df0dcb4, 0xc6e3ab3c, 0x149e10f9]
  const E13: seq<Word> := [0xd2417d23, 0x0fea20c9, 0x07282c81, 0x36c65f16]
  const E14: seq<Word> := [0x163cedea, 0xe97af59c, 0xff574951, 0x40098aff]
  const E15: seq<Word> := [0xbc56dcbf, 0x9b7b203f, 0x25ccf9b7, 0x3bd78212]

  lemma Words4()
    ensures WordRow(W0 + W1 + W2 + W3 + W4)
  {
  }

  lemma Words5()
    ensures WordRow(W1 + W2 + W3 + W4 + W5)
  {
  }

  lemma Words6()
    ensures WordRow(W2 + W3 + W4 + W5 + W6)
  {
  }

  lemma Words7()
    ensures WordRow(W3 + W4 + W5 + W6 + W7)
  {
  }

  lemma Words8()
    ensures WordRow(W4 + W5 + W6 + W7 + W8)
  {
  }

  lemma Words9()
    ensures WordRow(W5 + W6 + W7 + W8 + W9)
  {
  }

  lemma Words10()
    ensures WordRow(W6 + W7 + W8 + W9 + W10)
  {
  }

  lemma Words11()
    ensures WordRow(W7 + W8 + W9 + W10 + W11)
  {
  }

  lemma Words12()
    ensures WordRow(W8 + W9 + W10 + W11 + W12)
  {
  }

  lemma Words13()
    ensures WordRow(W9 + W10 + W11 + W12 + W13)
  {
  }

  lemma Words14()
    ensures WordRow(W10 + W11 + W12 + W13 + W14)
  {
  }

  lemma Words15()
    ensures WordRow(W11 + W12 + W13 + W14 + W15)
  {
  }

  lemma Rounds0()
    ensures RoundRow(A + A0, E + E0, K0, W0)
  {
  }

  lemma Rounds1()
    ensures RoundRow(A0 + A1, E0 + E1, K1, W1)
  {
  }

  lemma Rounds2()
    ensures RoundRow(A1 + A2, E1 + E2, K2, W2)
  {
  }

  lemma Rounds3()
    ensures RoundRow(A2 + A3, E2 + E3, K3, W3)
  {
  }

  lemma Rounds4()
    ensures RoundRow(A3 + A4, E3 + E4, K4, W4)
  {
  }

  lemma Rounds5()
    ensures RoundRow(A4 + A5, E4 + E5, K5, W5)
  {
  }

  lemma Rounds6()
    ensures RoundRow(A5 + A6, E5 + E6, K6, W6)
  {
  }

  lemma Rounds7()
    ensures RoundRow(A6 + A7, E6 + E7, K7, W7)
  {
  }

  lemma Rounds8()
    ensures RoundRow(A7 + A8, E7 + E8, K8, W8)
  {
  }

  lemma Rounds9()
    ensures RoundRow(A8 + A9, E8 + E9, K9, W9)
  {
  }

  lemma Rounds10()
    ensures RoundRow(A9 + A10, E9 + E10, K10, W10)
  {
  }

  lemma Rounds11()
    ensures RoundRow(A10 + A11, E10 + E11, K11, W11)
  {
  }

  lemma Rounds12()
    ensures RoundRow(A11 + A12, E11 + E12, K12, W12)
  {
  }

  lemma Rounds13()
    ensures RoundRow(A12 + A13, E12 + E13, K13, W13)
  {
  }

  lemma Rounds14()
    ensures RoundRow(A13 + A14, E13 + E14, K14, W14)
  {
  }

  lemma Rounds15()
    ensures RoundRow(A14 + A15, E14 + E15, K15, W15)
  {
  }

  ghost predicate AllScheduled(m: Block) {
    && Scheduled(m, W0, 0) && Scheduled(m, W1, 4) && Scheduled(m, W2, 8) && Scheduled(m, W3, 12)
    && Scheduled(m, W4, 16) && Scheduled(m, W5, 20) && Scheduled(m, W6, 24) && Scheduled(m, W7, 28)
    && Scheduled(m, W8, 32) && Scheduled(m, W9, 36) && Scheduled(m, W10, 40) && Scheduled(m, W11, 44)
    && Scheduled(m, W12, 48) && Scheduled(m, W13, 52) && Scheduled(m, W14, 56) && Scheduled(m, W15, 60)
  }

  lemma Schedules(m: Block)
    requires m == W0 + W1 + W2 + W3
    ensures AllScheduled(m)
  {
    hide Follows, Schedule, Scheduled;
    Begins(m, W0, 0);
    Begins(m, W1, 4);
    Begins(m, W2, 8);
    Begins(m, W3, 12);
    Words4();
    NextRow(m, W0, W1, W2, W3, W4, 0);
    Words5();
    NextRow(m, W1, W2, W3, W4, W5, 4);
    Words6();
    NextRow(m, W2, W3, W4, W5, W6, 8);
    Words7();
    NextRow(m, W3, W4, W5, W6, W7, 12);
    Words8();
    NextRow(m, W4, W5, W6, W7, W8, 16);
    Words9();
    NextRow(m, W5, W6, W7, W8, W9, 20);
    Words10();
    NextRow(m, W6, W7, W8, W9, W10, 24);
    Words11();
    NextRow(m, W7, W8, W9, W10, W11, 28);
    Words12();
    NextRow(m, W8, W9, W10, W11, W12, 32);
    Words13();
    NextRow(m, W9, W10, W11, W12, W13, 36);
    Words14();
    NextRow(m, W10, W11, W12, W13, W14, 40);
    Words15();
    NextRow(m, W11, W12, W13, W14, W15, 44);
  }

  lemma AllRounds(m: Block)
    requires AllScheduled(m)
    ensures Rounds(START, m, 64) == At(A15, E15, 0)
  {
    hide Rounds, Turns, Scheduled;
    NoRounds(START, m);
    ConstantRows();
    Rounds0();
    FourRounds(START, m, A, A0, E, E0, K0, W0, 0);
    Rounds1();
    FourRounds(START, m, A0, A1, E0, E1, K1, W1, 4);
    Rounds2();
    FourRounds(START, m, A1, A2, E1, E2, K2, W2, 8);
    Rounds3();
    FourRounds(START, m, A2, A3, E2, E3, K3, W3, 12);
    Rounds4();
    FourRounds(START, m, A3, A4, E3, E4, K4, W4, 16);
    Rounds5();
    FourRounds(START, m, A4, A5, E4, E5, K5, W5, 20);
    Rounds6();
    FourRounds(START, m, A5, A6, E5, E6, K6, W6, 24);
    Rounds7();
    FourRounds(START, m, A6, A7, E6, E7, K7, W7, 28);
    Rounds8();
    FourRounds(START, m, A7, A8, E7, E8, K8, W8, 32);
    Rounds9();
    FourRounds(START, m, A8, A9, E8, E9, K9, W9, 36);
    Rounds10();
    FourRounds(START, m, A9, A10, E9, E10, K10, W10, 40);
    Rounds11();
    FourRounds(START, m, A10, A11, E10, E11, K11, W11, 44);
    Rounds12();
    FourRounds(START, m, A11, A12, E11, E12, K12, W12, 48);
    Rounds13();
    FourRounds(START, m, A12, A13, E12, E13, K13, W13, 52);
    Rounds14();
    FourRounds(START, m, A13, A14, E13, E14, K14, W14, 56);
    Rounds15();
    FourRounds(START, m, A14, A15, E14, E15, K15, W15, 60);
  }

  lemma LastAdditions()
    ensures AddState(START, At(A15, E15, 0)) == END
  {
  }

  lemma Compresses(m: Block)
    requires m == W0 + W1 + W2 + W3
    ensures Compress(START, m) == END
  {
    hide Rounds, AddState, Scheduled, At, Compress;
    Schedules(m);
    AllRounds(m);
    LastAdditions();
    Ends(START, m, At(A15, E15, 0));
  }
}
