/**
 The ARMv8 SHA-256 path of sha256d_arm_sha2.c. The four vector instructions get the meaning the Arm architecture gives
 them (the shared pseudocode `SHA256hash`, and the SHA256SU0 and SHA256SU1 operations); everything above them is the
 code. Four rounds happen per step, four schedule vectors rotate, and for words that are constant padding the tables
 hold the sum of round constant and padding.
 */
module ArmSha2 {
  import opened Words
  import opened Sha256
  import opened Sha256d

  /** A `uint32x4_t`, lane 0 first. */
  datatype Vec = Vec(x0: Word, x1: Word, x2: Word, x3: Word)

  /** `vaddq_u32`. */
  function VAdd(a: Vec, b: Vec): Vec {
    Vec(Add(a.x0, b.x0), Add(a.x1, b.x1), Add(a.x2, b.x2), Add(a.x3, b.x3))
  }

  // The instructions

  function ShaChoose(x: Word, y: Word, z: Word): Word { ((y ^ z) & x) ^ z }

  function ShaMajority(x: Word, y: Word, z: Word): Word { (x & y) | ((x | y) & z) }

  /** One turn of the four-turn loop in `SHA256hash`, ending with the 256-bit rotation of `y:x` by one lane. */
  function HashTurn(x: Vec, y: Vec, w: Word): (Vec, Vec) {
    var t := Add(Add(Add(y.x3, BigSigma1(y.x0)), ShaChoose(y.x0, y.x1, y.x2)), w);
    var x3 := Add(t, x.x3);
    var y3 := Add(Add(t, BigSigma0(x.x0)), ShaMajority(x.x0, x.x1, x.x2));
    (Vec(y3, x.x0, x.x1, x.x2), Vec(x3, y.x0, y.x1, y.x2))
  }

  function HashFour(x: Vec, y: Vec, wk: Vec): (Vec, Vec) {
    var (xa, ya) := HashTurn(x, y, wk.x0);
    var (xb, yb) := HashTurn(xa, ya, wk.x1);
    var (xc, yc) := HashTurn(xb, yb, wk.x2);
    HashTurn(xc, yc, wk.x3)
  }

  /** `vsha256hq_u32`. */
  function Sha256H(abcd: Vec, efgh: Vec, wk: Vec): Vec { HashFour(abcd, efgh, wk).0 }

  /** `vsha256h2q_u32`. */
  function Sha256H2(efgh: Vec, abcd: Vec, wk: Vec): Vec { HashFour(abcd, efgh, wk).1 }

  /** `vsha256su0q_u32`. */
  function Sha256Su0(a: Vec, b: Vec): Vec {
    Vec(Add(SmallSigma0(a.x1), a.x0), Add(SmallSigma0(a.x2), a.x1),
        Add(SmallSigma0(a.x3), a.x2), Add(SmallSigma0(b.x0), a.x3))
  }

  /** `vsha256su1q_u32`: the upper two lanes use the lower two of the result itself. */
  function Sha256Su1(a: Vec, b: Vec, c: Vec): Vec {
    var r0 := Add(Add(SmallSigma1(c.x2), a.x0), b.x1);
    var r1 := Add(Add(SmallSigma1(c.x3), a.x1), b.x2);
    Vec(r0, r1, Add(Add(SmallSigma1(r0), a.x2), b.x3), Add(Add(SmallSigma1(r1), a.x3), c.x0))
  }

  // What the instructions compute, in terms of FIPS 180-4

  function Abcd(s: State): Vec { Vec(s.a, s.b, s.c, s.d) }

  function Efgh(s: State): Vec { Vec(s.e, s.f, s.g, s.h) }

  /** Four consecutive schedule words. */
  function ScheduleVec(m: Block, t: nat): Vec {
    Vec(Schedule(m, t), Schedule(m, t + 1), Schedule(m, t + 2), Schedule(m, t + 3))
  }

  /** `vld1q_u32(&k_sha256_round_constants[t])`. */
  function KVec(t: nat): Vec
    requires t + 4 <= 64
  {
    Vec(K[t], K[t + 1], K[t + 2], K[t + 3])
  }

  lemma ChoiceFunctionsAgree(x: Word, y: Word, z: Word)
    ensures ShaChoose(x, y, z) == Ch(x, y, z)
    ensures ShaMajority(x, y, z) == Maj(x, y, z)
  {
    ChooseAgrees(x, y, z);
    MajorityAgrees(x, y, z);
  }

  lemma ChooseAgrees(x: Word, y: Word, z: Word)
    ensures ((y ^ z) & x) ^ z == (x & y) ^ (!x & z)
  {
  }

  lemma MajorityAgrees(x: Word, y: Word, z: Word)
    ensures (x & y) | ((x | y) & z) == (x & y) ^ (x & z) ^ (y & z)
  {
  }

  /** One turn of the instruction is one round, although it adds in another order and gets `w + k` already summed. */
  lemma TurnIsRound(s: State, k: Word, w: Word)
    ensures HashTurn(Abcd(s), Efgh(s), Add(w, k)) == (Abcd(Round(s, k, w)), Efgh(Round(s, k, w)))
  {
    hide Add, BigSigma0, BigSigma1, Ch, Maj, ShaChoose, ShaMajority;
    ChoiceFunctionsAgree(s.e, s.f, s.g);
    ChoiceFunctionsAgree(s.a, s.b, s.c);
    var base := Add(Add(s.h, BigSigma1(s.e)), Ch(s.e, s.f, s.g));
    AddAssociative(base, k, w);
    AddCommutative(w, k);
    AddAssociative(T1(s, k, w), BigSigma0(s.a), Maj(s.a, s.b, s.c));
    AddCommutative(T1(s, k, w), s.d);
  }

  lemma TurnAdvances(s: State, m: Block, t: nat)
    requires t < 64
    ensures HashTurn(Abcd(Rounds(s, m, t)), Efgh(Rounds(s, m, t)), Add(Schedule(m, t), K[t]))
         == (Abcd(Rounds(s, m, t + 1)), Efgh(Rounds(s, m, t + 1)))
  {
    hide Add, Round, HashTurn, Abcd, Efgh, Schedule;
    TurnIsRound(Rounds(s, m, t), K[t], Schedule(m, t));
  }

  /** The instruction pair advances the working variables by four rounds. */
  lemma FourTurnsAreFourRounds(s: State, m: Block, t: nat)
    requires t + 4 <= 64
    ensures HashFour(Abcd(Rounds(s, m, t)), Efgh(Rounds(s, m, t)), VAdd(ScheduleVec(m, t), KVec(t)))
         == (Abcd(Rounds(s, m, t + 4)), Efgh(Rounds(s, m, t + 4)))
  {
    hide Add, Round, HashTurn, Abcd, Efgh, Schedule, Rounds;
    TurnAdvances(s, m, t);
    TurnAdvances(s, m, t + 1);
    TurnAdvances(s, m, t + 2);
    TurnAdvances(s, m, t + 3);
  }

  /** The two schedule instructions together produce the next four words. */
  lemma ScheduleStep(m: Block, t: nat)
    ensures Sha256Su1(Sha256Su0(ScheduleVec(m, t), ScheduleVec(m, t + 4)),
                      ScheduleVec(m, t + 8), ScheduleVec(m, t + 12))
         == ScheduleVec(m, t + 16)
  {
    hide Add, SmallSigma0, SmallSigma1, Schedule;
    ScheduleLane(m, t);
    ScheduleLane(m, t + 1);
    ScheduleLane(m, t + 2);
    ScheduleLane(m, t + 3);
  }

  lemma ScheduleLane(m: Block, t: nat)
    ensures Schedule(m, t + 16) ==
            Add(Add(SmallSigma1(Schedule(m, t + 14)), Add(SmallSigma0(Schedule(m, t + 1)), Schedule(m, t))),
                Schedule(m, t + 9))
  {
    hide Add, SmallSigma0, SmallSigma1, Schedule;
    LaterWord(m, t);
    SumOrder(Schedule(m, t), SmallSigma0(Schedule(m, t + 1)), Schedule(m, t + 9), SmallSigma1(Schedule(m, t + 14)));
  }

  lemma SumOrder(w0: Word, s0: Word, w9: Word, s1: Word)
    ensures Add(Add(s1, Add(s0, w0)), w9) == Add(Add(Add(w0, s0), w9), s1)
  {
    hide Add;
    AddCommutative(s0, w0);
    AddCommutative(s1, Add(w0, s0));
    AddAssociative(Add(w0, s0), s1, w9);
    AddCommutative(s1, w9);
    AddAssociative(Add(w0, s0), w9, s1);
  }

  // The code

  const FIRST_TAIL_WK1 := Vec(0xb956c25b, 0x59f111f1, 0x923f82a4, 0xab1c5ed5)
  const FIRST_TAIL_WK2 := Vec(0xd807aa98, 0x12835b01, 0x243185be, 0x550c7dc3)
  const FIRST_TAIL_WK3 := Vec(0x72be5d74, 0x80deb1fe, 0x9bdc06a7, 0xc19bf3f4)
  const SECOND_HASH_WK2 := Vec(0x5807aa98, 0x12835b01, 0x243185be, 0x550c7dc3)
  const SECOND_HASH_WK3 := Vec(0x72be5d74, 0x80deb1fe, 0x9bdc06a7, 0xc19bf274)

  /** The tables hold the round constants plus the constant words of the two padded blocks. */
  lemma TablesHoldSums()
    ensures FIRST_TAIL_WK1 == VAdd(Vec(0x80000000, 0, 0, 0), KVec(4))
    ensures FIRST_TAIL_WK2 == VAdd(Vec(0, 0, 0, 0), KVec(8))
    ensures FIRST_TAIL_WK3 == VAdd(Vec(0, 0, 0, 640), KVec(12))
    ensures SECOND_HASH_WK2 == VAdd(Vec(0x80000000, 0, 0, 0), KVec(8))
    ensures SECOND_HASH_WK3 == VAdd(Vec(0, 0, 0, 256), KVec(12))
  {
    assert KVec(4) == Vec(0x3956c25b, 0x59f111f1, 0x923f82a4, 0xab1c5ed5);
    assert KVec(8) == Vec(0xd807aa98, 0x12835b01, 0x243185be, 0x550c7dc3);
    assert KVec(12) == Vec(0x72be5d74, 0x80deb1fe, 0x9bdc06a7, 0xc19bf174);
  }

  /** The working variables sit in the two vectors after `t` rounds. */
  ghost predicate At(abcd: Vec, efgh: Vec, s: State, m: Block, t: nat)
    requires t <= 64
  {
    abcd == Abcd(Rounds(s, m, t)) && efgh == Efgh(Rounds(s, m, t))
  }

  /** `BTC_SHA256_ARM_ROUND4_WK`. */
  method Round4Wk(abcd: Vec, efgh: Vec, wk: Vec, ghost s: State, ghost m: Block, ghost t: nat)
    returns (abcd': Vec, efgh': Vec)
    requires t + 4 <= 64 && At(abcd, efgh, s, m, t)
    requires wk == VAdd(ScheduleVec(m, t), KVec(t))
    ensures At(abcd', efgh', s, m, t + 4)
  {
    hide HashFour, VAdd, ScheduleVec, KVec, Rounds, Abcd, Efgh;
    var prev := abcd;
    abcd' := Sha256H(prev, efgh, wk);
    efgh' := Sha256H2(efgh, prev, wk);
    FourTurnsAreFourRounds(s, m, t);
  }

  /** `BTC_SHA256_ARM_ROUND4`. */
  method Round4(abcd: Vec, efgh: Vec, sched: Vec, offset: nat, ghost s: State, ghost m: Block)
    returns (abcd': Vec, efgh': Vec)
    requires offset + 4 <= 64 && At(abcd, efgh, s, m, offset)
    requires sched == ScheduleVec(m, offset)
    ensures At(abcd', efgh', s, m, offset + 4)
  {
    hide HashFour, VAdd, ScheduleVec, Rounds, Abcd, Efgh;
    abcd', efgh' := Round4Wk(abcd, efgh, VAdd(sched, KVec(offset)), s, m, offset);
  }

  /** `BTC_SHA256_ARM_ROUNDS16`. */
  method Rounds16(abcd: Vec, efgh: Vec, sched0: Vec, sched1: Vec, sched2: Vec, sched3: Vec, offset: nat,
                  ghost s: State, ghost m: Block)
    returns (abcd': Vec, efgh': Vec, next0: Vec, next1: Vec, next2: Vec, next3: Vec)
    requires 16 <= offset <= 48 && At(abcd, efgh, s, m, offset)
    requires Window(sched0, sched1, sched2, sched3, m, offset - 16)
    ensures At(abcd', efgh', s, m, offset + 16)
    ensures Window(next0, next1, next2, next3, m, offset)
  {
    hide HashFour, Sha256Su0, Sha256Su1, ScheduleVec, At;
    next0 := Sha256Su1(Sha256Su0(sched0, sched1), sched2, sched3);
    ScheduleStep(m, offset - 16);
    abcd', efgh' := Round4(abcd, efgh, next0, offset, s, m);
    next1 := Sha256Su1(Sha256Su0(sched1, sched2), sched3, next0);
    ScheduleStep(m, offset - 12);
    abcd', efgh' := Round4(abcd', efgh', next1, offset + 4, s, m);
    next2 := Sha256Su1(Sha256Su0(sched2, sched3), next0, next1);
    ScheduleStep(m, offset - 8);
    abcd', efgh' := Round4(abcd', efgh', next2, offset + 8, s, m);
    next3 := Sha256Su1(Sha256Su0(sched3, next0), next1, next2);
    ScheduleStep(m, offset - 4);
    abcd', efgh' := Round4(abcd', efgh', next3, offset + 12, s, m);
  }

  /** Four vectors holding sixteen consecutive schedule words. */
  ghost predicate Window(sched0: Vec, sched1: Vec, sched2: Vec, sched3: Vec, m: Block, t: nat) {
    && sched0 == ScheduleVec(m, t) && sched1 == ScheduleVec(m, t + 4)
    && sched2 == ScheduleVec(m, t + 8) && sched3 == ScheduleVec(m, t + 12)
  }

  /** The three `ROUNDS16` groups and the closing additions, which every ARM compression shares. */
  method LastRounds(abcd: Vec, efgh: Vec, sched0: Vec, sched1: Vec, sched2: Vec, sched3: Vec,
                    ghost s: State, ghost m: Block)
    returns (abcd': Vec, efgh': Vec)
    requires At(abcd, efgh, s, m, 16)
    requires Window(sched0, sched1, sched2, sched3, m, 0)
    ensures At(abcd', efgh', s, m, 64)
  {
    hide At, Window;
    var s0, s1, s2, s3;
    abcd', efgh', s0, s1, s2, s3 := Rounds16(abcd, efgh, sched0, sched1, sched2, sched3, 16, s, m);
    abcd', efgh', s0, s1, s2, s3 := Rounds16(abcd', efgh', s0, s1, s2, s3, 32, s, m);
    abcd', efgh', s0, s1, s2, s3 := Rounds16(abcd', efgh', s0, s1, s2, s3, 48, s, m);
  }

  lemma TailWindow(tail: Tail)
    ensures Window(Vec(tail[0], tail[1], tail[2], tail[3]), Vec(0x80000000, 0, 0, 0), Vec(0, 0, 0, 0),
                   Vec(0, 0, 0, 640),
                   TailBlock(tail), 0)
  {
    hide Schedule;
    FirstWords(TailBlock(tail));
  }

  lemma SecondWindow(first: State)
    ensures Window(Abcd(first), Efgh(first), Vec(0x80000000, 0, 0, 0), Vec(0, 0, 0, 256), SecondBlock(first), 0)
  {
    hide Schedule;
    FirstWords(SecondBlock(first));
  }

  /** `sha256_arm_compress_btc_tail`. */
  method CompressTail(startAbcd: Vec, startEfgh: Vec, sched0: Vec, ghost s: State, ghost tail: Tail)
    returns (outAbcd: Vec, outEfgh: Vec)
    requires startAbcd == Abcd(s) && startEfgh == Efgh(s)
    requires sched0 == Vec(tail[0], tail[1], tail[2], tail[3])
    ensures outAbcd == Abcd(Compress(s, TailBlock(tail))) && outEfgh == Efgh(Compress(s, TailBlock(tail)))
  {
    hide Add, Schedule, Round, ScheduleVec, KVec, TailBlock;
    ghost var m := TailBlock(tail);
    var abcd, efgh := startAbcd, startEfgh;
    var sched1 := Vec(0x80000000, 0, 0, 0);
    var sched2 := Vec(0, 0, 0, 0);
    var sched3 := Vec(0, 0, 0, 640);
    TailWindow(tail);
    TablesHoldSums();
    abcd, efgh := Round4(abcd, efgh, sched0, 0, s, m);
    abcd, efgh := Round4Wk(abcd, efgh, FIRST_TAIL_WK1, s, m, 4);
    abcd, efgh := Round4Wk(abcd, efgh, FIRST_TAIL_WK2, s, m, 8);
    abcd, efgh := Round4Wk(abcd, efgh, FIRST_TAIL_WK3, s, m, 12);
    abcd, efgh := LastRounds(abcd, efgh, sched0, sched1, sched2, sched3, s, m);
    outAbcd, outEfgh := VAdd(abcd, startAbcd), VAdd(efgh, startEfgh);
    ClosingAdditions(s, m, abcd, efgh);
  }

  lemma ClosingAdditions(s: State, m: Block, abcd: Vec, efgh: Vec)
    requires At(abcd, efgh, s, m, 64)
    ensures VAdd(abcd, Abcd(s)) == Abcd(Compress(s, m)) && VAdd(efgh, Efgh(s)) == Efgh(Compress(s, m))
  {
    hide Add, Rounds;
    AddStateCommutative(s, Rounds(s, m, 64));
  }

  lemma AddStateCommutative(x: State, y: State)
    ensures AddState(x, y) == AddState(y, x)
  {
    hide Add;
    AddCommutative(x.a, y.a);
    AddCommutative(x.b, y.b);
    AddCommutative(x.c, y.c);
    AddCommutative(x.d, y.d);
    AddCommutative(x.e, y.e);
    AddCommutative(x.f, y.f);
    AddCommutative(x.g, y.g);
    AddCommutative(x.h, y.h);
  }

  /** `sha256_arm_compress_second_hash`. */
  method CompressSecond(sched0: Vec, sched1: Vec, ghost first: State) returns (outAbcd: Vec, outEfgh: Vec)
    requires sched0 == Abcd(first) && sched1 == Efgh(first)
    ensures outAbcd == Abcd(Compress(INITIAL, SecondBlock(first)))
    ensures outEfgh == Efgh(Compress(INITIAL, SecondBlock(first)))
  {
    hide Add, Schedule, Round, ScheduleVec, KVec, SecondBlock;
    ghost var m := SecondBlock(first);
    var initialAbcd, initialEfgh := Abcd(INITIAL), Efgh(INITIAL);
    var abcd, efgh := initialAbcd, initialEfgh;
    var sched2 := Vec(0x80000000, 0, 0, 0);
    var sched3 := Vec(0, 0, 0, 256);
    SecondWindow(first);
    TablesHoldSums();
    abcd, efgh := Round4(abcd, efgh, sched0, 0, INITIAL, m);
    abcd, efgh := Round4(abcd, efgh, sched1, 4, INITIAL, m);
    abcd, efgh := Round4Wk(abcd, efgh, SECOND_HASH_WK2, INITIAL, m, 8);
    abcd, efgh := Round4Wk(abcd, efgh, SECOND_HASH_WK3, INITIAL, m, 12);
    abcd, efgh := LastRounds(abcd, efgh, sched0, sched1, sched2, sched3, INITIAL, m);
    outAbcd, outEfgh := VAdd(abcd, initialAbcd), VAdd(efgh, initialEfgh);
    ClosingAdditions(INITIAL, m, abcd, efgh);
  }

  /** `sha256d_hash_tail_words_arm_raw`. */
  method HashTail(fastState: seq<Word>, tail: Tail) returns (out: seq<Word>)
    requires |fastState| == 8
    ensures out == StateWords(FinishState(FromWords(fastState), tail))
  {
    hide Compress, TailBlock, SecondBlock;
    ghost var mid := FromWords(fastState);
    var abcd := Vec(fastState[0], fastState[1], fastState[2], fastState[3]);
    var efgh := Vec(fastState[4], fastState[5], fastState[6], fastState[7]);
    abcd, efgh := CompressTail(abcd, efgh, Vec(tail[0], tail[1], tail[2], tail[3]), mid, tail);
    abcd, efgh := CompressSecond(abcd, efgh, Compress(mid, TailBlock(tail)));
    out := [abcd.x0, abcd.x1, abcd.x2, abcd.x3, efgh.x0, efgh.x1, efgh.x2, efgh.x3];
  }
}
