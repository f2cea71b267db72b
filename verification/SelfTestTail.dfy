/**
 The self test, second block: 16 zero bytes and the padding of an 80-byte header.
 */
module SelfTestTail {
  import opened Words
  import opened Sha256
  import opened ShaSteps

  const START: State :=
    State(0xda5698be, 0x17b9b469, 0x62335799, 0x779fbeca,
          0x8ce5d491, 0xc0d26243, 0xbafef9ea, 0x1837a9d8)
  const END: State :=
    State(0x5b6fb58e, 0x61fa4759, 0x39767d68, 0xa446f97f,
          0x1bff02c0, 0xe5935a3e, 0xa8bb51e6, 0x515783d8)

  const W0: seq<Word> := [0x00000000, 0x00000000, 0x00000000, 0x00000000]
  const W1: seq<Word> := [0x80000000, 0x00000000, 0x00000000, 0x00000000]
  const W2: seq<Word> := [0x00000000, 0x00000000, 0x00000000, 0x00000000]
  const W3: seq<Word> := [0x00000000, 0x00000000, 0x00000000, 0x00000280]
  const W4: seq<Word> := [0x00000000, 0x01100000, 0x00000000, 0x110064aa]
  const W5: seq<Word> := [0x80000000, 0x3ec40ab9, 0x00205280, 0x840409b8]
  const W6: seq<Word> := [0x24200800, 0x85ca5380, 0x16098340, 0xe39120c8]
  const W7: seq<Word> := [0x3091965e, 0xb465dc72, 0x7e8d044c, 0x79ba2049]
  const W8: seq<Word> := [0xa89a879a, 0x6b4d80a2, 0x45cdd0e3, 0xc2f1c6b7]
  const W9: seq<Word> := [0xfdeddc90, 0xadb2ff59, 0x33a6352a, 0x53d7693a]
  const W10: seq<Word> := [0xf0fd3e71, 0x0783e19a, 0xd74d81e1, 0x4e633ee4]
  const W11: seq<Word> := [0xd4367515, 0xb708ecf0, 0xdc5838ad, 0x5827bdf2]
  const W12: seq<Word> := [0xf52a5ea3, 0x25f76249, 0xff600a55, 0x3def66b9]
  const W13: seq<Word> := [0xd291b357, 0xc8e900bf, 0x20578192, 0x9bde1093]
  const W14: seq<Word> := [0x1481dc8b, 0x8aa093eb, 0xf9f8637a, 0x290ae5a0]
  const W15: seq<Word> := [0xa7bef534, 0x53e78211, 0x1d13a0a1, 0x6ceff70f]

  const A: seq<Word> := [0x779fbeca, 0x62335799, 0x17b9b469, 0xda5698be]
  const A0: seq<Word> := [0x2fb9aab4, 0x96c3a1b3, 0x9e2f69a2, 0xd59c8f95]
  const A1: seq<Word> := [0xa32f5c6c, 0x017e3bb7, 0xfdb094bf, 0x928ca958]
  const A2: seq<Word> := [0xf57266b7, 0xf6655f78, 0x2999204a, 0x46f180ea]
  const A3: seq<Word> := [0x1892bdae, 0x0f1349ed, 0x865facdc, 0x6731c8d7]
  const A4: seq<Word> := [0xa821861f, 0x68ab4430, 0x3130b0ef, 0xdfa4df35]
  const A5: seq<Word> := [0xf26c6844, 0xa8a0ce33, 0x1e5aa7ff, 0x27805186]
  const A6: seq<Word> := [0xef0fb216, 0x16a27e10, 0x07ba830d, 0xc86125fd]
  const A7: seq<Word> := [0x12c7cc7c, 0xf33be643, 0xfe0b71ff, 0x534b1d48]
  const A8: seq<Word> := [0xc2e53eda, 0xdf3beb5f, 0xa51def21, 0x9117ec1d]
  const A9: seq<Word> := [0x339dba36, 0x43b4424e, 0x1b3afad0, 0xe6aa58f9]
  const A10: seq<Word> := [0xc59136cf, 0xda31b0a6, 0x9f087664, 0xeab9d40c]
  const A11: seq<Word> := [0xbcf1a2f7, 0xd50aa7ca, 0xafe8633f, 0x91dd3f2d]
  const A12: seq<Word> := [0xb5d18389, 0x0ef84a9c, 0xc9eb9ad2, 0x2bf3665d]
  const A13: seq<Word> := [0xa665e8cc, 0xaf35731f, 0xf2ab4ec2, 0xf3935c24]
  const A14: seq<Word> := [0xa3e942c0, 0xc268acf8, 0x9940ed27, 0xe39cfbe5]
  const A15: seq<Word> := [0x2ca73ab5, 0xd74325cf, 0x4a4092f0, 0x81191cd0]

  const E: seq<Word> := [0x1837a9d8, 0xbafef9ea, 0xc0d26243, 0x8ce5d491]
  const E0: seq<Word> := [0x2c2444d3, 0x205778b2, 0x306ae52b, 0xba0ddd36]
  const E1: seq<Word> := [0xc0618516, 0x8a3312d9, 0x35988593, 0x2e29e4d1]
  const E2: seq<Word> := [0xaa222ceb, 0x00b90885, 0xddc23e64, 0xf756974b]
  const E3: seq<Word> := [0x5626254e, 0xdb4434df, 0x5fda245b, 0x664ef002]
  const E4: seq<Word> := [0x614c64c9, 0x749fa313, 0xb8b543c0, 0x94bf0a53]
  const E5: seq<Word> := [0x03b1fc99, 0x4f097f43, 0x3c58d291, 0xb9ca9af1]
  const E6: seq<Word> := [0xae6421a6, 0x7a7bc969, 0x81c24e29, 0x34ac1c66]
  const E7: seq<Word> := [0x21d35a1e, 0x8e9a496c, 0x1219a10c, 0xcbe58aea]
  const E8: seq<Word> := [0x0fbc19c4, 0x2d986034, 0x8d20a552, 0xb52e4457]
  const E9: seq<Word> := [0x064a03f7, 0x461414ca, 0x592ccb94, 0x286023b1]
  const E10: seq<Word> := [0x9e6e5137, 0x526a19ef, 0xfe1a1979, 0x3d137e79]
  const E11: seq<Word> := [0x2aafd23b, 0xb2781049, 0xb0ac07e2, 0x6b22d607]
  const E12: seq<Word> := [0xf31387ec, 0xf6f1e680, 0x2d86dd26, 0x654f3823]
  const E13: seq<Word> := [0x9aaf2ed6, 0x19ea575a, 0x66252b67, 0x11db0a93]
  const E14: seq<Word> := [0xc5e7f529, 0xe1fe83e2, 0xb2131397, 0xc6eefbfe]
  const E15: seq<Word> := [0x391fda00, 0xedbc57fc, 0x24c0f7fb, 0x8f192e2f]

  lemma Words4()
    ensures WordRow(W0 + W1 + W2 + W3 + W4)
  {
  }

  lemma Words5()
    ensures WordRow(W1 + W2 + W3 + W4 + W5)
  {
  }

  lemma Words6()
    ensures WordRow(W2 + W3 + W4 + W5 + W6)
  {
  }

  lemma Words7()
    ensures WordRow(W3 + W4 + W5 + W6 + W7)
  {
  }

  lemma Words8()
    ensures WordRow(W4 + W5 + W6 + W7 + W8)
  {
  }

  lemma Words9()
    ensures WordRow(W5 + W6 + W7 + W8 + W9)
  {
  }

  lemma Words10()
    ensures WordRow(W6 + W7 + W8 + W9 + W10)
  {
  }

  lemma Words11()
    ensures WordRow(W7 + W8 + W9 + W10 + W11)
  {
  }

  lemma Words12()
    ensures WordRow(W8 + W9 + W10 + W11 + W12)
  {
  }

  lemma Words13()
    ensures WordRow(W9 + W10 + W11 + W12 + W13)
  {
  }

  lemma Words14()
    ensures WordRow(W10 + W11 + W12 + W13 + W14)
  {
  }

  lemma Words15()
    ensures WordRow(W11 + W12 + W13 + W14 + W15)
  {
  }

  lemma Rounds0()
    ensures RoundRow(A + A0, E + E0, K0, W0)
  {
  }

  lemma Rounds1()
    ensures RoundRow(A0 + A1, E0 + E1, K1, W1)
  {
  }

  lemma Rounds2()
    ensures RoundRow(A1 + A2, E1 + E2, K2, W2)
  {
  }

  lemma Rounds3()
    ensures RoundRow(A2 + A3, E2 + E3, K3, W3)
  {
  }

  lemma Rounds4()
    ensures RoundRow(A3 + A4, E3 + E4, K4, W4)
  {
  }

  lemma Rounds5()
    ensures RoundRow(A4 + A5, E4 + E5, K5, W5)
  {
  }

  lemma Rounds6()
    ensures RoundRow(A5 + A6, E5 + E6, K6, W6)
  {
  }

  lemma Rounds7()
    ensures RoundRow(A6 + A7, E6 + E7, K7, W7)
  {
  }

  lemma Rounds8()
    ensures RoundRow(A7 + A8, E7 + E8, K8, W8)
  {
  }

  lemma Rounds9()
    ensures RoundRow(A8 + A9, E8 + E9, K9, W9)
  {
  }

  lemma Rounds10()
    ensures RoundRow(A9 + A10, E9 + E10, K10, W10)
  {
  }

  lemma Rounds11()
    ensures RoundRow(A10 + A11, E10 + E11, K11, W11)
  {
  }

  lemma Rounds12()
    ensures RoundRow(A11 + A12, E11 + E12, K12, W12)
  {
  }

  lemma Rounds13()
    ensures RoundRow(A12 + A13, E12 + E13, K13, W13)
  {
  }

  lemma Rounds14()
    ensures RoundRow(A13 + A14, E13 + E14, K14, W14)
  {
  }

  lemma Rounds15()
    ensures RoundRow(A14 + A15, E14 + E15, K15, W15)
  {
  }

  ghost predicate AllScheduled(m: Block) {
    && Scheduled(m, W0, 0) && Scheduled(m, W1, 4) && Scheduled(m, W2, 8) && Scheduled(m, W3, 12)
    && Scheduled(m, W4, 16) && Scheduled(m, W5, 20) && Scheduled(m, W6, 24) && Scheduled(m, W7, 28)
    && Scheduled(m, W8, 32) && Scheduled(m, W9, 36) && Scheduled(m, W10, 40) && Scheduled(m, W11, 44)
    && Scheduled(m, W12, 48) && Scheduled(m, W13, 52) && Scheduled(m, W14, 56) && Scheduled(m, W15, 60)
  }

  lemma Schedules(m: Block)
    requires m == W0 + W1 + W2 + W3
    ensures AllScheduled(m)
  {
    hide Follows, Schedule, Scheduled;
    Begins(m, W0, 0);
    Begins(m, W1, 4);
    Begins(m, W2, 8);
    Begins(m, W3, 12);
    Words4();
    NextRow(m, W0, W1, W2, W3, W4, 0);
    Words5();
    NextRow(m, W1, W2, W3, W4, W5, 4);
    Words6();
    NextRow(m, W2, W3, W4, W5, W6, 8);
    Words7();
    NextRow(m, W3, W4, W5, W6, W7, 12);
    Words8();
    NextRow(m, W4, W5, W6, W7, W8, 16);
    Words9();
    NextRow(m, W5, W6, W7, W8, W9, 20);
    Words10();
    NextRow(m, W6, W7, W8, W9, W10, 24);
    Words11();
    NextRow(m, W7, W8, W9, W10, W11, 28);
    Words12();
    NextRow(m, W8, W9, W10, W11, W12, 32);
    Words13();
    NextRow(m, W9, W10, W11, W12, W13, 36);
    Words14();
    NextRow(m, W10, W11, W12, W13, W14, 40);
    Words15();
    NextRow(m, W11, W12, W13, W14, W15, 44);
  }

  lemma AllRounds(m: Block)
    requires AllScheduled(m)
    ensures Rounds(START, m, 64) == At(A15, E15, 0)
  {
    hide Rounds, Turns, Scheduled;
    NoRounds(START, m);
    ConstantRows();
    Rounds0();
    FourRounds(START, m, A, A0, E, E0, K0, W0, 0);
    Rounds1();
    FourRounds(START, m, A0, A1, E0, E1, K1, W1, 4);
    Rounds2();
    FourRounds(START, m, A1, A2, E1, E2, K2, W2, 8);
    Rounds3();
    FourRounds(START, m, A2, A3, E2, E3, K3, W3, 12);
    Rounds4();
    FourRounds(START, m, A3, A4, E3, E4, K4, W4, 16);
    Rounds5();
    FourRounds(START, m, A4, A5, E4, E5, K5, W5, 20);
    Rounds6();
    FourRounds(START, m, A5, A6, E5, E6, K6, W6, 24);
    Rounds7();
    FourRounds(START, m, A6, A7, E6, E7, K7, W7, 28);
    Rounds8();
    FourRounds(START, m, A7, A8, E7, E8, K8, W8, 32);
    Rounds9();
    FourRounds(START, m, A8, A9, E8, E9, K9, W9, 36);
    Rounds10();
    FourRounds(START, m, A9, A10, E9, E10, K10, W10, 40);
    Rounds11();
    FourRounds(START, m, A10, A11, E10, E11, K11, W11, 44);
    Rounds12();
    FourRounds(START, m, A11, A12, E11, E12, K12, W12, 48);
    Rounds13();
    FourRounds(START, m, A12, A13, E12, E13, K13, W13, 52);
    Rounds14();
    FourRounds(START, m, A13, A14, E13, E14, K14, W14, 56);
    Rounds15();
    FourRounds(START, m, A14, A15, E14, E15, K15, W15, 60);
  }

  lemma LastAdditions()
    ensures AddState(START, At(A15, E15, 0)) == END
  {
  }

  lemma Compresses(m: Block)
    requires m == W0 + W1 + W2 + W3
    ensures Compress(START, m) == END
  {
    hide Rounds, AddState, Scheduled, At, Compress;
    Schedules(m);
    AllRounds(m);
    LastAdditions();
    Ends(START, m, At(A15, E15, 0));
  }
}
