/**
 Following a compression word by word: rows of four schedule words and of four values of the working variables `a` and
 `e`, each checked against section 6.2.2 of FIPS 180-4 by calculation.
 */
module ShaSteps {
  import opened Words
  import opened Sha256

  /** Word `i + 16` of `w` follows its sixteen predecessors. */
  predicate Follows(w: seq<Word>, i: nat)
    requires i + 16 < |w|
  {
    w[i + 16] == Add(Add(Add(w[i], SmallSigma0(w[i + 1])), w[i + 9]), SmallSigma1(w[i + 14]))
  }

  predicate WordRow(w: seq<Word>)
    requires |w| == 20
  {
    Follows(w, 0) && Follows(w, 1) && Follows(w, 2) && Follows(w, 3)
  }

  ghost predicate Scheduled(m: Block, w: seq<Word>, t: nat) {
    forall i {:trigger w[i]} :: 0 <= i < |w| ==> w[i] == Schedule(m, t + i)
  }

  lemma Begins(m: Block, w: seq<Word>, t: nat)
    requires |w| == 4 && t + 4 <= 16 && w == m[t..t + 4]
    ensures Scheduled(m, w, t)
  {
    hide Schedule;
    FirstWords(m);
  }

  lemma NextRow(m: Block, w0: seq<Word>, w1: seq<Word>, w2: seq<Word>, w3: seq<Word>, w4: seq<Word>, t: nat)
    requires |w0| == |w1| == |w2| == |w3| == |w4| == 4 && WordRow(w0 + w1 + w2 + w3 + w4)
    requires Scheduled(m, w0, t) && Scheduled(m, w1, t + 4) && Scheduled(m, w2, t + 8) && Scheduled(m, w3, t + 12)
    ensures Scheduled(m, w4, t + 16)
  {
    hide Schedule, Follows, Scheduled;
    var w := w0 + w1 + w2 + w3 + w4;
    Join(m, w0, w1, t);
    Join(m, w0 + w1, w2, t);
    Join(m, w0 + w1 + w2, w3, t);
    assert w[..16] == w0 + w1 + w2 + w3;
    FourWords(m, w, t);
    assert w[16..] == w4;
  }

  lemma Join(m: Block, a: seq<Word>, b: seq<Word>, t: nat)
    requires Scheduled(m, a, t) && Scheduled(m, b, t + |a|)
    ensures Scheduled(m, a + b, t)
  {
    hide Schedule;
    forall i {:trigger (a + b)[i]} | 0 <= i < |a + b|
      ensures (a + b)[i] == Schedule(m, t + i)
    {
      if i < |a| {
        assert a[i] == Schedule(m, t + i);
      } else {
        assert b[i - |a|] == Schedule(m, t + |a| + (i - |a|));
      }
    }
  }

  lemma FourWords(m: Block, w: seq<Word>, t: nat)
    requires |w| == 20 && Scheduled(m, w[..16], t) && WordRow(w)
    ensures Scheduled(m, w[16..], t + 16)
  {
    hide Follows, Scheduled;
    OneWord(m, w, t, 16);
    OneWord(m, w, t, 17);
    OneWord(m, w, t, 18);
    OneWord(m, w, t, 19);
    LastRow(m, w, t);
  }

  lemma LastRow(m: Block, w: seq<Word>, t: nat)
    requires |w| == 20 && Scheduled(m, w[..20], t)
    ensures Scheduled(m, w[16..], t + 16)
  {
    hide Schedule;
    forall i {:trigger w[16..][i]} | 0 <= i < 4
      ensures w[16..][i] == Schedule(m, t + 16 + i)
    {
      assert w[..20][16 + i] == Schedule(m, t + (16 + i));
    }
  }

  lemma OneWord(m: Block, w: seq<Word>, t: nat, n: nat)
    requires 16 <= n < |w| && Scheduled(m, w[..n], t) && Follows(w, n - 16)
    ensures Scheduled(m, w[..n + 1], t)
  {
    hide Schedule, Add, SmallSigma0, SmallSigma1;
    var before := w[..n];
    assert before[n - 16] == Schedule(m, t + (n - 16)) && before[n - 15] == Schedule(m, t + (n - 15));
    assert before[n - 7] == Schedule(m, t + (n - 7)) && before[n - 2] == Schedule(m, t + (n - 2));
    LaterWord(m, t + (n - 16));
    assert [w[n]][0] == Schedule(m, t + |before|);
    hide Scheduled, Follows;
    assert Scheduled(m, [w[n]], t + |before|) by { Single(m, w[n], t + |before|); }
    Join(m, before, [w[n]], t);
    assert before + [w[n]] == w[..n + 1];
  }

  lemma Single(m: Block, w: Word, t: nat)
    requires w == Schedule(m, t)
    ensures Scheduled(m, [w], t)
  {
    hide Schedule;
  }

  /** The working variables at `i`, when `a` and `e` list the values of those two. */
  function At(a: seq<Word>, e: seq<Word>, i: nat): State
    requires i + 3 < |a| && i + 3 < |e|
  {
    State(a[i + 3], a[i + 2], a[i + 1], a[i], e[i + 3], e[i + 2], e[i + 1], e[i])
  }

  /** The round with constant `k[i]` and word `w[i]` gives value `i + 4` of both. */
  predicate Turns(a: seq<Word>, e: seq<Word>, k: seq<Word>, w: seq<Word>, i: nat)
    requires i + 4 < |a| && i + 4 < |e| && i < |k| && i < |w|
  {
    At(a, e, i + 1) == Round(At(a, e, i), k[i], w[i])
  }

  predicate RoundRow(a: seq<Word>, e: seq<Word>, k: seq<Word>, w: seq<Word>)
    requires |a| == |e| == 8 && |k| == |w| == 4
  {
    Turns(a, e, k, w, 0) && Turns(a, e, k, w, 1) && Turns(a, e, k, w, 2) && Turns(a, e, k, w, 3)
  }

  lemma FourRounds(s: State, m: Block, a: seq<Word>, a': seq<Word>, e: seq<Word>, e': seq<Word>, k: seq<Word>,
                   w: seq<Word>, t: nat)
    requires |a| == |a'| == |e| == |e'| == |k| == |w| == 4 && t + 4 <= 64 && Scheduled(m, w, t)
    requires IsRow(k, t) && Rounds(s, m, t) == At(a, e, 0) && RoundRow(a + a', e + e', k, w)
    ensures Rounds(s, m, t + 4) == At(a', e', 0)
  {
    hide Rounds, Round, Schedule;
    assert w[0] == Schedule(m, t) && w[1] == Schedule(m, t + 1);
    assert w[2] == Schedule(m, t + 2) && w[3] == Schedule(m, t + 3);
    NextRound(s, m, t);
    NextRound(s, m, t + 1);
    NextRound(s, m, t + 2);
    NextRound(s, m, t + 3);
  }

  // The round constants, row by row

  const K0: seq<Word> := [0x428a2f98, 0x71374491, 0xb5c0fbcf, 0xe9b5dba5]
  const K1: seq<Word> := [0x3956c25b, 0x59f111f1, 0x923f82a4, 0xab1c5ed5]
  const K2: seq<Word> := [0xd807aa98, 0x12835b01, 0x243185be, 0x550c7dc3]
  const K3: seq<Word> := [0x72be5d74, 0x80deb1fe, 0x9bdc06a7, 0xc19bf174]
  const K4: seq<Word> := [0xe49b69c1, 0xefbe4786, 0x0fc19dc6, 0x240ca1cc]
  const K5: seq<Word> := [0x2de92c6f, 0x4a7484aa, 0x5cb0a9dc, 0x76f988da]
  const K6: seq<Word> := [0x983e5152, 0xa831c66d, 0xb00327c8, 0xbf597fc7]
  const K7: seq<Word> := [0xc6e00bf3, 0xd5a79147, 0x06ca6351, 0x14292967]
  const K8: seq<Word> := [0x27b70a85, 0x2e1b2138, 0x4d2c6dfc, 0x53380d13]
  const K9: seq<Word> := [0x650a7354, 0x766a0abb, 0x81c2c92e, 0x92722c85]
  const K10: seq<Word> := [0xa2bfe8a1, 0xa81a664b, 0xc24b8b70, 0xc76c51a3]
  const K11: seq<Word> := [0xd192e819, 0xd6990624, 0xf40e3585, 0x106aa070]
  const K12: seq<Word> := [0x19a4c116, 0x1e376c08, 0x2748774c, 0x34b0bcb5]
  const K13: seq<Word> := [0x391c0cb3, 0x4ed8aa4a, 0x5b9cca4f, 0x682e6ff3]
  const K14: seq<Word> := [0x748f82ee, 0x78a5636f, 0x84c87814, 0x8cc70208]
  const K15: seq<Word> := [0x90befffa, 0xa4506ceb, 0xbef9a3f7, 0xc67178f2]

  predicate IsRow(k: seq<Word>, t: nat)
    requires |k| == 4 && t + 4 <= 64
  {
    k[0] == K[t] && k[1] == K[t + 1] && k[2] == K[t + 2] && k[3] == K[t + 3]
  }

  lemma ConstantRows0()
    ensures IsRow(K0, 0) && IsRow(K1, 4)
  {
  }

  lemma ConstantRows1()
    ensures IsRow(K2, 8) && IsRow(K3, 12)
  {
  }

  lemma ConstantRows2()
    ensures IsRow(K4, 16) && IsRow(K5, 20)
  {
  }

  lemma ConstantRows3()
    ensures IsRow(K6, 24) && IsRow(K7, 28)
  {
  }

  lemma ConstantRows4()
    ensures IsRow(K8, 32) && IsRow(K9, 36)
  {
  }

  lemma ConstantRows5()
    ensures IsRow(K10, 40) && IsRow(K11, 44)
  {
  }

  lemma ConstantRows6()
    ensures IsRow(K12, 48) && IsRow(K13, 52)
  {
  }

  lemma ConstantRows7()
    ensures IsRow(K14, 56) && IsRow(K15, 60)
  {
  }

  lemma ConstantRows()
    ensures IsRow(K0, 0) && IsRow(K1, 4) && IsRow(K2, 8) && IsRow(K3, 12)
    ensures IsRow(K4, 16) && IsRow(K5, 20) && IsRow(K6, 24) && IsRow(K7, 28)
    ensures IsRow(K8, 32) && IsRow(K9, 36) && IsRow(K10, 40) && IsRow(K11, 44)
    ensures IsRow(K12, 48) && IsRow(K13, 52) && IsRow(K14, 56) && IsRow(K15, 60)
  {
    hide IsRow;
    ConstantRows0();
    ConstantRows1();
    ConstantRows2();
    ConstantRows3();
    ConstantRows4();
    ConstantRows5();
    ConstantRows6();
    ConstantRows7();
  }

  lemma NoRounds(s: State, m: Block)
    ensures Rounds(s, m, 0) == s
  {
  }

  lemma Ends(s: State, m: Block, end: State)
    requires Rounds(s, m, 64) == end
    ensures Compress(s, m) == AddState(s, end)
  {
    hide Rounds, AddState;
  }
}
