/**
 The interleaved forms of sha256d_arm_sha2.c: two nonces share every load of a round constant, their vector updates
 alternate. Each lane is proved to compute exactly what the single form computes.
 */
module ArmPair {
  import opened Words
  import opened Sha256
  import opened Sha256d
  import opened ArmSha2

  /** The vectors of one lane: working variables and the rotating schedule. */
  datatype Lane = Lane(abcd: Vec, efgh: Vec, sched0: Vec, sched1: Vec, sched2: Vec, sched3: Vec)

  /** The lane has done `t` rounds. */
  ghost predicate LaneAt(v: Lane, s: State, m: Block, t: nat)
    requires t <= 64
  {
    At(v.abcd, v.efgh, s, m, t)
  }

  /** `BTC_SHA256_ARM_ROUND4_WK_PAIR`: both lanes use the same table entry. */
  method Round4WkPair(a: Lane, b: Lane, wk: Vec, t: nat, ghost s: State, ghost ma: Block, ghost mb: Block)
    returns (a': Lane, b': Lane)
    requires t + 4 <= 64 && LaneAt(a, s, ma, t) && LaneAt(b, s, mb, t)
    requires wk == VAdd(ScheduleVec(ma, t), KVec(t)) == VAdd(ScheduleVec(mb, t), KVec(t))
    ensures LaneAt(a', s, ma, t + 4) && LaneAt(b', s, mb, t + 4)
    ensures a' == a.(abcd := a'.abcd, efgh := a'.efgh) && b' == b.(abcd := b'.abcd, efgh := b'.efgh)
  {
    a', b' := TwoSteps(a, b, wk, wk, t, s, ma, mb);
  }

  /** The body both pair macros share: `abcd` of either lane is replaced before `efgh` of either lane. */
  method TwoSteps(a: Lane, b: Lane, aWk: Vec, bWk: Vec, ghost t: nat, ghost s: State, ghost ma: Block, ghost mb: Block)
    returns (a': Lane, b': Lane)
    requires t + 4 <= 64 && LaneAt(a, s, ma, t) && LaneAt(b, s, mb, t)
    requires aWk == VAdd(ScheduleVec(ma, t), KVec(t)) && bWk == VAdd(ScheduleVec(mb, t), KVec(t))
    ensures LaneAt(a', s, ma, t + 4) && LaneAt(b', s, mb, t + 4)
    ensures a' == a.(abcd := a'.abcd, efgh := a'.efgh) && b' == b.(abcd := b'.abcd, efgh := b'.efgh)
  {
    hide HashFour, VAdd, ScheduleVec, KVec, Rounds, Abcd, Efgh;
    var aPrev := a.abcd;
    var bPrev := b.abcd;
    a' := a.(abcd := Sha256H(aPrev, a.efgh, aWk));
    b' := b.(abcd := Sha256H(bPrev, b.efgh, bWk));
    a' := a'.(efgh := Sha256H2(a'.efgh, aPrev, aWk));
    b' := b'.(efgh := Sha256H2(b'.efgh, bPrev, bWk));
    FourTurnsAreFourRounds(s, ma, t);
    FourTurnsAreFourRounds(s, mb, t);
  }

  /** `BTC_SHA256_ARM_ROUND4_PAIR`: one load of the constants, one addition per lane. */
  method Round4Pair(a: Lane, b: Lane, aSched: Vec, bSched: Vec, offset: nat,
                    ghost s: State, ghost ma: Block, ghost mb: Block)
    returns (a': Lane, b': Lane)
    requires offset + 4 <= 64 && LaneAt(a, s, ma, offset) && LaneAt(b, s, mb, offset)
    requires aSched == ScheduleVec(ma, offset) && bSched == ScheduleVec(mb, offset)
    ensures LaneAt(a', s, ma, offset + 4) && LaneAt(b', s, mb, offset + 4)
    ensures a' == a.(abcd := a'.abcd, efgh := a'.efgh) && b' == b.(abcd := b'.abcd, efgh := b'.efgh)
  {
    hide HashFour, VAdd, ScheduleVec, Rounds, Abcd, Efgh;
    var k := KVec(offset);
    var aWk := VAdd(aSched, k);
    var bWk := VAdd(bSched, k);
    a', b' := TwoSteps(a, b, aWk, bWk, offset, s, ma, mb);
  }

  ghost predicate LaneWindow(v: Lane, m: Block, t: nat) {
    Window(v.sched0, v.sched1, v.sched2, v.sched3, m, t)
  }

  /** `BTC_SHA256_ARM_ROUNDS16_PAIR`. */
  method Rounds16Pair(a: Lane, b: Lane, offset: nat, ghost s: State, ghost ma: Block, ghost mb: Block)
    returns (a': Lane, b': Lane)
    requires 16 <= offset <= 48
    requires LaneAt(a, s, ma, offset) && LaneWindow(a, ma, offset - 16)
    requires LaneAt(b, s, mb, offset) && LaneWindow(b, mb, offset - 16)
    ensures LaneAt(a', s, ma, offset + 16) && LaneWindow(a', ma, offset)
    ensures LaneAt(b', s, mb, offset + 16) && LaneWindow(b', mb, offset)
  {
    hide Sha256Su0, Sha256Su1, ScheduleVec, At;
    a', b' := a, b;
    LaneSchedule(ma, offset - 16);
    LaneSchedule(mb, offset - 16);
    a' := a'.(sched0 := Sha256Su1(Sha256Su0(a'.sched0, a'.sched1), a'.sched2, a'.sched3));
    b' := b'.(sched0 := Sha256Su1(Sha256Su0(b'.sched0, b'.sched1), b'.sched2, b'.sched3));
    a', b' := Round4Pair(a', b', a'.sched0, b'.sched0, offset, s, ma, mb);
    a' := a'.(sched1 := Sha256Su1(Sha256Su0(a'.sched1, a'.sched2), a'.sched3, a'.sched0));
    b' := b'.(sched1 := Sha256Su1(Sha256Su0(b'.sched1, b'.sched2), b'.sched3, b'.sched0));
    a', b' := Round4Pair(a', b', a'.sched1, b'.sched1, offset + 4, s, ma, mb);
    a' := a'.(sched2 := Sha256Su1(Sha256Su0(a'.sched2, a'.sched3), a'.sched0, a'.sched1));
    b' := b'.(sched2 := Sha256Su1(Sha256Su0(b'.sched2, b'.sched3), b'.sched0, b'.sched1));
    a', b' := Round4Pair(a', b', a'.sched2, b'.sched2, offset + 8, s, ma, mb);
    a' := a'.(sched3 := Sha256Su1(Sha256Su0(a'.sched3, a'.sched0), a'.sched1, a'.sched2));
    b' := b'.(sched3 := Sha256Su1(Sha256Su0(b'.sched3, b'.sched0), b'.sched1, b'.sched2));
    a', b' := Round4Pair(a', b', a'.sched3, b'.sched3, offset + 12, s, ma, mb);
  }

  lemma LaneSchedule(m: Block, t: nat)
    ensures Sha256Su1(Sha256Su0(ScheduleVec(m, t), ScheduleVec(m, t + 4)),
                      ScheduleVec(m, t + 8), ScheduleVec(m, t + 12))
         == ScheduleVec(m, t + 16)
    ensures Sha256Su1(Sha256Su0(ScheduleVec(m, t + 4), ScheduleVec(m, t + 8)), ScheduleVec(m, t + 12),
                      ScheduleVec(m, t + 16)) == ScheduleVec(m, t + 20)
    ensures Sha256Su1(Sha256Su0(ScheduleVec(m, t + 8), ScheduleVec(m, t + 12)), ScheduleVec(m, t + 16),
                      ScheduleVec(m, t + 20)) == ScheduleVec(m, t + 24)
    ensures Sha256Su1(Sha256Su0(ScheduleVec(m, t + 12), ScheduleVec(m, t + 16)), ScheduleVec(m, t + 20),
                      ScheduleVec(m, t + 24)) == ScheduleVec(m, t + 28)
  {
    hide Sha256Su0, Sha256Su1, ScheduleVec;
    ScheduleStep(m, t);
    ScheduleStep(m, t + 4);
    ScheduleStep(m, t + 8);
    ScheduleStep(m, t + 12);
  }

  method LastRoundsPair(a: Lane, b: Lane, ghost s: State, ghost ma: Block, ghost mb: Block)
    returns (a': Lane, b': Lane)
    requires LaneAt(a, s, ma, 16) && LaneWindow(a, ma, 0)
    requires LaneAt(b, s, mb, 16) && LaneWindow(b, mb, 0)
    ensures LaneAt(a', s, ma, 64) && LaneAt(b', s, mb, 64)
  {
    hide LaneAt, LaneWindow;
    a', b' := Rounds16Pair(a, b, 16, s, ma, mb);
    a', b' := Rounds16Pair(a', b', 32, s, ma, mb);
    a', b' := Rounds16Pair(a', b', 48, s, ma, mb);
  }

  /** `sha256_arm_compress_btc_tail2`: from one midstate, two tails. */
  method CompressTailPair(startAbcd: Vec, startEfgh: Vec, aSched0: Vec, bSched0: Vec,
                          ghost s: State, ghost tailA: Tail, ghost tailB: Tail)
    returns (aAbcd: Vec, aEfgh: Vec, bAbcd: Vec, bEfgh: Vec)
    requires startAbcd == Abcd(s) && startEfgh == Efgh(s)
    requires aSched0 == Vec(tailA[0], tailA[1], tailA[2], tailA[3])
    requires bSched0 == Vec(tailB[0], tailB[1], tailB[2], tailB[3])
    ensures aAbcd == Abcd(Compress(s, TailBlock(tailA))) && aEfgh == Efgh(Compress(s, TailBlock(tailA)))
    ensures bAbcd == Abcd(Compress(s, TailBlock(tailB))) && bEfgh == Efgh(Compress(s, TailBlock(tailB)))
  {
    hide Add, Schedule, Round, ScheduleVec, KVec, TailBlock, VAdd, Compress;
    ghost var ma, mb := TailBlock(tailA), TailBlock(tailB);
    var a := Lane(startAbcd, startEfgh, aSched0, Vec(0x80000000, 0, 0, 0), Vec(0, 0, 0, 0), Vec(0, 0, 0, 640));
    var b := Lane(startAbcd, startEfgh, bSched0, a.sched1, a.sched2, a.sched3);
    TailWindow(tailA);
    TailWindow(tailB);
    TablesHoldSums();
    a, b := Round4Pair(a, b, a.sched0, b.sched0, 0, s, ma, mb);
    a, b := Round4WkPair(a, b, FIRST_TAIL_WK1, 4, s, ma, mb);
    a, b := Round4WkPair(a, b, FIRST_TAIL_WK2, 8, s, ma, mb);
    a, b := Round4WkPair(a, b, FIRST_TAIL_WK3, 12, s, ma, mb);
    a, b := LastRoundsPair(a, b, s, ma, mb);
    aAbcd, aEfgh := VAdd(a.abcd, startAbcd), VAdd(a.efgh, startEfgh);
    bAbcd, bEfgh := VAdd(b.abcd, startAbcd), VAdd(b.efgh, startEfgh);
    ClosingAdditions(s, ma, a.abcd, a.efgh);
    ClosingAdditions(s, mb, b.abcd, b.efgh);
  }

  /** `sha256_arm_compress_second_hash2`. */
  method CompressSecondPair(aSched0: Vec, aSched1: Vec, bSched0: Vec, bSched1: Vec,
                            ghost first: State, ghost other: State)
    returns (aAbcd: Vec, aEfgh: Vec, bAbcd: Vec, bEfgh: Vec)
    requires aSched0 == Abcd(first) && aSched1 == Efgh(first)
    requires bSched0 == Abcd(other) && bSched1 == Efgh(other)
    ensures aAbcd == Abcd(Compress(INITIAL, SecondBlock(first))) && aEfgh == Efgh(Compress(INITIAL, SecondBlock(first)))
    ensures bAbcd == Abcd(Compress(INITIAL, SecondBlock(other))) && bEfgh == Efgh(Compress(INITIAL, SecondBlock(other)))
  {
    hide Add, Schedule, Round, ScheduleVec, KVec, SecondBlock, VAdd, Compress;
    ghost var ma, mb := SecondBlock(first), SecondBlock(other);
    var initialAbcd, initialEfgh := Abcd(INITIAL), Efgh(INITIAL);
    var a := Lane(initialAbcd, initialEfgh, aSched0, aSched1, Vec(0x80000000, 0, 0, 0), Vec(0, 0, 0, 256));
    var b := Lane(initialAbcd, initialEfgh, bSched0, bSched1, a.sched2, a.sched3);
    SecondWindow(first);
    SecondWindow(other);
    TablesHoldSums();
    a, b := Round4Pair(a, b, a.sched0, b.sched0, 0, INITIAL, ma, mb);
    a, b := Round4Pair(a, b, a.sched1, b.sched1, 4, INITIAL, ma, mb);
    a, b := Round4WkPair(a, b, SECOND_HASH_WK2, 8, INITIAL, ma, mb);
    a, b := Round4WkPair(a, b, SECOND_HASH_WK3, 12, INITIAL, ma, mb);
    a, b := LastRoundsPair(a, b, INITIAL, ma, mb);
    aAbcd, aEfgh := VAdd(a.abcd, initialAbcd), VAdd(a.efgh, initialEfgh);
    bAbcd, bEfgh := VAdd(b.abcd, initialAbcd), VAdd(b.efgh, initialEfgh);
    ClosingAdditions(INITIAL, ma, a.abcd, a.efgh);
    ClosingAdditions(INITIAL, mb, b.abcd, b.efgh);
  }

  /** `sha256d_hash_nonce_pair_arm_raw`, with the two swapped nonces already in the tails. */
  method HashTailPair(fastState: seq<Word>, tailA: Tail, tailB: Tail) returns (outA: seq<Word>, outB: seq<Word>)
    requires |fastState| == 8
    ensures outA == StateWords(FinishState(FromWords(fastState), tailA))
    ensures outB == StateWords(FinishState(FromWords(fastState), tailB))
  {
    hide Compress, TailBlock, SecondBlock;
    ghost var mid := FromWords(fastState);
    var startAbcd := Vec(fastState[0], fastState[1], fastState[2], fastState[3]);
    var startEfgh := Vec(fastState[4], fastState[5], fastState[6], fastState[7]);
    var aAbcd, aEfgh, bAbcd, bEfgh := CompressTailPair(
      startAbcd, startEfgh, Vec(tailA[0], tailA[1], tailA[2], tailA[3]), Vec(tailB[0], tailB[1], tailB[2], tailB[3]),
      mid, tailA, tailB);
    aAbcd, aEfgh, bAbcd, bEfgh := CompressSecondPair(
      aAbcd, aEfgh, bAbcd, bEfgh, Compress(mid, TailBlock(tailA)), Compress(mid, TailBlock(tailB)));
    outA := [aAbcd.x0, aAbcd.x1, aAbcd.x2, aAbcd.x3, aEfgh.x0, aEfgh.x1, aEfgh.x2, aEfgh.x3];
    outB := [bAbcd.x0, bAbcd.x1, bAbcd.x2, bAbcd.x3, bEfgh.x0, bEfgh.x1, bEfgh.x2, bEfgh.x3];
  }
}
