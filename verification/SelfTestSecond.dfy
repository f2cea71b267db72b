/**
 The self test, second hash: the first digest and its padding from the initial hash value.
 */
module SelfTestSecond {
  import opened Words
  import opened Sha256
  import opened ShaSteps

  const START: State :=
    State(0x6a09e667, 0xbb67ae85, 0x3c6ef372, 0xa54ff53a,
          0x510e527f, 0x9b05688c, 0x1f83d9ab, 0x5be0cd19)
  const END: State :=
    State(0x4be7570e, 0x8f70eb09, 0x3640c846, 0x8274ba75,
          0x9745a7aa, 0x2b7d25ab, 0x1e0421b2, 0x59845014)

  const W0: seq<Word> := [0x5b6fb58e, 0x61fa4759, 0x39767d68, 0xa446f97f]
  const W1: seq<Word> := [0x1bff02c0, 0xe5935a3e, 0xa8bb51e6, 0x515783d8]
  const W2: seq<Word> := [0x80000000, 0x00000000, 0x00000000, 0x00000000]
  const W3: seq<Word> := [0x00000000, 0x00000000, 0x00000000, 0x00000100]
  const W4: seq<Word> := [0x8a9a99a9, 0xaaa07463, 0xaed98bec, 0x1cd61a3a]
  const W5: seq<Word> := [0xc8966c2c, 0xc0308966, 0xfedb76d1, 0x42a1f1bd]
  const W6: seq<Word> := [0x002deace, 0x75d32d64, 0x6514e5a3, 0xbb9a2cc4]
  const W7: seq<Word> := [0xaead2477, 0x52afa306, 0x79807ba9, 0x0a513958]
  const W8: seq<Word> := [0x02475fc7, 0x79b8940e, 0x9fbd91b2, 0xffa4aff7]
  const W9: seq<Word> := [0x8deec2b1, 0x5d7e959d, 0xd1186a9f, 0xc40a12c0]
  const W10: seq<Word> := [0xbf17b213, 0xd39aa350, 0xa9536246, 0x031499f8]
  const W11: seq<Word> := [0xd79ecefc, 0x46b52455, 0xfb272cc5, 0x59d83806]
  const W12: seq<Word> := [0x806e8c1a, 0x50c5f727, 0x16765a8b, 0xdeb158a2]
  const W13: seq<Word> := [0x4f27d430, 0x1f3f24fa, 0x5937f1a6, 0x9776596e]
  const W14: seq<Word> := [0x29cfa945, 0x12b9a376, 0x7f9fb7e5, 0x88f1a530]
  const W15: seq<Word> := [0x0f3e8b36, 0xe5ad5412, 0x3124b113, 0x0a65d301]

  const A: seq<Word> := [0xa54ff53a, 0x3c6ef372, 0xbb67ae85, 0x6a09e667]
  const A0: seq<Word> := [0x57783ddb, 0x831b9feb, 0xa30c330a, 0x3e3d6e54]
  const A1: seq<Word> := [0x949d18da, 0xda6c0d2c, 0x7fb5b5d5, 0x604de355]
  const A2: seq<Word> := [0xf4a92a19, 0xd03377df, 0xd0a7bcea, 0xf2e756dc]
  const A3: seq<Word> := [0x14329a28, 0x7603e103, 0xb7b3598c, 0x36e7a008]
  const A4: seq<Word> := [0x800577a9, 0xe95e69d5, 0x47f7fa57, 0x26543d34]
  const A5: seq<Word> := [0x2102b2fc, 0xaef5144a, 0xf03620d9, 0x5eea8d1a]
  const A6: seq<Word> := [0xca366419, 0x15cb316b, 0xbba41b85, 0x7d63e2d0]
  const A7: seq<Word> := [0x1b366030, 0x5d9ad265, 0x5e02a6de, 0x79645e75]
  const A8: seq<Word> := [0x85904d84, 0x2ae56828, 0x1682bfdc, 0xfa2bb0b9]
  const A9: seq<Word> := [0xb3602435, 0x135bc5ba, 0x24d4f125, 0x0cceaff5]
  const A10: seq<Word> := [0x1ea7d883, 0xf3de8a5c, 0xccd1f234, 0x626f3481]
  const A11: seq<Word> := [0xf73e1d16, 0xfd5fe387, 0x019c41ee, 0xb3d811b2]
  const A12: seq<Word> := [0xb3fb40eb, 0x2f53f040, 0xd44954f0, 0xc2cb388b]
  const A13: seq<Word> := [0x514d32a4, 0x2663882c, 0xef5039e8, 0x84db6be1]
  const A14: seq<Word> := [0x4d49511f, 0xef525fa2, 0x99203e47, 0x3732b550]
  const A15: seq<Word> := [0xdd24c53b, 0xf9d1d4d4, 0xd4093c84, 0xe1dd70a7]

  const E: seq<Word> := [0x5be0cd19, 0x1f83d9ab, 0x9b05688c, 0x510e527f]
  const E0: seq<Word> := [0xf4379830, 0x682d0aac, 0xa974d07a, 0x24d4d6c1]
  const E1: seq<Word> := [0xc0601ce5, 0x8fd9ea31, 0x94bb7941, 0x983c6ea7]
  const E2: seq<Word> := [0x99a36e63, 0xaca45999, 0xd906ec36, 0xb5053a11]
  const E3: seq<Word> := [0x212f1c1d, 0x576b12ac, 0x3817fee7, 0xc6abc4b5]
  const E4: seq<Word> := [0xca1bb0e5, 0xe026dd8f, 0x12046b37, 0xbf35c532]
  const E5: seq<Word> := [0x88f0c3db, 0xdb926f7d, 0x3420ceb3, 0x42c72b2f]
  const E6: seq<Word> := [0x96e6d552, 0x5eb671ff, 0xea0048ef, 0x1dfd71b2]
  const E7: seq<Word> := [0x21393e2a, 0x59721f6d, 0x0d6e12ba, 0xebcc3df7]
  const E8: seq<Word> := [0x0738cde5, 0x1f09bdc4, 0x6c486d0c, 0x7b5035ea]
  const E9: seq<Word> := [0xa8c4de66, 0xbe393464, 0xc1db884b, 0x3fd0ecfc]
  const E10: seq<Word> := [0xc704fd48, 0x5da0470d, 0xbe9f08d8, 0xab0b4131]
  const E11: seq<Word> := [0xf2c367b5, 0x5db2d466, 0x3a08f0b0, 0x2318600e]
  const E12: seq<Word> := [0xb837cbf8, 0x723ab0ae, 0x5bf5bfca, 0x0780c536]
  const E13: seq<Word> := [0x26ee0b5f, 0xcfb2f047, 0xba74f49e, 0x2bf0947a]
  const E14: seq<Word> := [0xa4addfab, 0xc9702aad, 0xab57b5c5, 0x5a3fe936]
  const E15: seq<Word> := [0xfda382fb, 0xfe804807, 0x9077bd1f, 0x4637552b]

  lemma Words4()
    ensures WordRow(W0 + W1 + W2 + W3 + W4)
  {
  }

  lemma Words5()
    ensures WordRow(W1 + W2 + W3 + W4 + W5)
  {
  }

  lemma Words6()
    ensures WordRow(W2 + W3 + W4 + W5 + W6)
  {
  }

  lemma Words7()
    ensures WordRow(W3 + W4 + W5 + W6 + W7)
  {
  }

  lemma Words8()
    ensures WordRow(W4 + W5 + W6 + W7 + W8)
  {
  }

  lemma Words9()
    ensures WordRow(W5 + W6 + W7 + W8 + W9)
  {
  }

  lemma Words10()
    ensures WordRow(W6 + W7 + W8 + W9 + W10)
  {
  }

  lemma Words11()
    ensures WordRow(W7 + W8 + W9 + W10 + W11)
  {
  }

  lemma Words12()
    ensures WordRow(W8 + W9 + W10 + W11 + W12)
  {
  }

  lemma Words13()
    ensures WordRow(W9 + W10 + W11 + W12 + W13)
  {
  }

  lemma Words14()
    ensures WordRow(W10 + W11 + W12 + W13 + W14)
  {
  }

  lemma Words15()
    ensures WordRow(W11 + W12 + W13 + W14 + W15)
  {
  }

  lemma Rounds0()
    ensures RoundRow(A + A0, E + E0, K0, W0)
  {
  }

  lemma Rounds1()
    ensures RoundRow(A0 + A1, E0 + E1, K1, W1)
  {
  }

  lemma Rounds2()
    ensures RoundRow(A1 + A2, E1 + E2, K2, W2)
  {
  }

  lemma Rounds3()
    ensures RoundRow(A2 + A3, E2 + E3, K3, W3)
  {
  }

  lemma Rounds4()
    ensures RoundRow(A3 + A4, E3 + E4, K4, W4)
  {
  }

  lemma Rounds5()
    ensures RoundRow(A4 + A5, E4 + E5, K5, W5)
  {
  }

  lemma Rounds6()
    ensures RoundRow(A5 + A6, E5 + E6, K6, W6)
  {
  }

  lemma Rounds7()
    ensures RoundRow(A6 + A7, E6 + E7, K7, W7)
  {
  }

  lemma Rounds8()
    ensures RoundRow(A7 + A8, E7 + E8, K8, W8)
  {
  }

  lemma Rounds9()
    ensures RoundRow(A8 + A9, E8 + E9, K9, W9)
  {
  }

  lemma Rounds10()
    ensures RoundRow(A9 + A10, E9 + E10, K10, W10)
  {
  }

  lemma Rounds11()
    ensures RoundRow(A10 + A11, E10 + E11, K11, W11)
  {
  }

  lemma Rounds12()
    ensures RoundRow(A11 + A12, E11 + E12, K12, W12)
  {
  }

  lemma Rounds13()
    ensures RoundRow(A12 + A13, E12 + E13, K13, W13)
  {
  }

  lemma Rounds14()
    ensures RoundRow(A13 + A14, E13 + E14, K14, W14)
  {
  }

  lemma Rounds15()
    ensures RoundRow(A14 + A15, E14 + E15, K15, W15)
  {
  }

  ghost predicate AllScheduled(m: Block) {
    && Scheduled(m, W0, 0) && Scheduled(m, W1, 4) && Scheduled(m, W2, 8) && Scheduled(m, W3, 12)
    && Scheduled(m, W4, 16) && Scheduled(m, W5, 20) && Scheduled(m, W6, 24) && Scheduled(m, W7, 28)
    && Scheduled(m, W8, 32) && Scheduled(m, W9, 36) && Scheduled(m, W10, 40) && Scheduled(m, W11, 44)
    && Scheduled(m, W12, 48) && Scheduled(m, W13, 52) && Scheduled(m, W14, 56) && Scheduled(m, W15, 60)
  }

  lemma Schedules(m: Block)
    requires m == W0 + W1 + W2 + W3
    ensures AllScheduled(m)
  {
    hide Follows, Schedule, Scheduled;
    Begins(m, W0, 0);
    Begins(m, W1, 4);
    Begins(m, W2, 8);
    Begins(m, W3, 12);
    Words4();
    NextRow(m, W0, W1, W2, W3, W4, 0);
    Words5();
    NextRow(m, W1, W2, W3, W4, W5, 4);
    Words6();
    NextRow(m, W2, W3, W4, W5, W6, 8);
    Words7();
    NextRow(m, W3, W4, W5, W6, W7, 12);
    Words8();
    NextRow(m, W4, W5, W6, W7, W8, 16);
    Words9();
    NextRow(m, W5, W6, W7, W8, W9, 20);
    Words10();
    NextRow(m, W6, W7, W8, W9, W10, 24);
    Words11();
    NextRow(m, W7, W8, W9, W10, W11, 28);
    Words12();
    NextRow(m, W8, W9, W10, W11, W12, 32);
    Words13();
    NextRow(m, W9, W10, W11, W12, W13, 36);
    Words14();
    NextRow(m, W10, W11, W12, W13, W14, 40);
    Words15();
    NextRow(m, W11, W12, W13, W14, W15, 44);
  }

  lemma AllRounds(m: Block)
    requires AllScheduled(m)
    ensures Rounds(START, m, 64) == At(A15, E15, 0)
  {
    hide Rounds, Turns, Scheduled;
    NoRounds(START, m);
    ConstantRows();
    Rounds0();
    FourRounds(START, m, A, A0, E, E0, K0, W0, 0);
    Rounds1();
    FourRounds(START, m, A0, A1, E0, E1, K1, W1, 4);
    Rounds2();
    FourRounds(START, m, A1, A2, E1, E2, K2, W2, 8);
    Rounds3();
    FourRounds(START, m, A2, A3, E2, E3, K3, W3, 12);
    Rounds4();
    FourRounds(START, m, A3, A4, E3, E4, K4, W4, 16);
    Rounds5();
    FourRounds(START, m, A4, A5, E4, E5, K5, W5, 20);
    Rounds6();
    FourRounds(START, m, A5, A6, E5, E6, K6, W6, 24);
    Rounds7();
    FourRounds(START, m, A6, A7, E6, E7, K7, W7, 28);
    Rounds8();
    FourRounds(START, m, A7, A8, E7, E8, K8, W8, 32);
    Rounds9();
    FourRounds(START, m, A8, A9, E8, E9, K9, W9, 36);
    Rounds10();
    FourRounds(START, m, A9, A10, E9, E10, K10, W10, 40);
    Rounds11();
    FourRounds(START, m, A10, A11, E10, E11, K11, W11, 44);
    Rounds12();
    FourRounds(START, m, A11, A12, E11, E12, K12, W12, 48);
    Rounds13();
    FourRounds(START, m, A12, A13, E12, E13, K13, W13, 52);
    Rounds14();
    FourRounds(START, m, A13, A14, E13, E14, K14, W14, 56);
    Rounds15();
    FourRounds(START, m, A14, A15, E14, E15, K15, W15, 60);
  }

  lemma LastAdditions()
    ensures AddState(START, At(A15, E15, 0)) == END
  {
  }

  lemma Compresses(m: Block)
    requires m == W0 + W1 + W2 + W3
    ensures Compress(START, m) == END
  {
    hide Rounds, AddState, Scheduled, At, Compress;
    Schedules(m);
    AllRounds(m);
    LastAdditions();
    Ends(START, m, At(A15, E15, 0));
  }
}
