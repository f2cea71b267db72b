/**
 What one work item of the OpenCL kernels hashes: `scan_one_nonce` with either scalar compression, and
 `scan_two_nonces_vec`, which runs the rolling loop on two-lane vectors.
 */
module OpenClScanItem {
  import opened Words
  import opened Sha256
  import opened Sha256d
  import opened OpensslSha
  import opened Targets
  import opened Scan
  import opened OpenClKernel

  /** The kernels' `meets_target`: the comparison written out, word 7 first. */
  method MeetsTarget(hash: seq<Word>, target: seq<Word>) returns (meets: int)
    requires |hash| == |target| == 8
    ensures meets == if WordsMeet(hash, target) then 1 else 0
  {
    hide LittleEndian, Bswap32, LeBytes, WordsToBytes, Below, WordsMeet;
    NothingAbove(hash, target);
    var h := Bswap32(hash[7]);
    WordStep(hash, target, 7);
    if Below(h, target[7]) { return 1; }
    if Below(target[7], h) { return 0; }
    WordsAreOrdered(h, target[7]);
    h := Bswap32(hash[6]);
    WordStep(hash, target, 6);
    if Below(h, target[6]) { return 1; }
    if Below(target[6], h) { return 0; }
    WordsAreOrdered(h, target[6]);
    h := Bswap32(hash[5]);
    WordStep(hash, target, 5);
    if Below(h, target[5]) { return 1; }
    if Below(target[5], h) { return 0; }
    WordsAreOrdered(h, target[5]);
    h := Bswap32(hash[4]);
    WordStep(hash, target, 4);
    if Below(h, target[4]) { return 1; }
    if Below(target[4], h) { return 0; }
    WordsAreOrdered(h, target[4]);
    h := Bswap32(hash[3]);
    WordStep(hash, target, 3);
    if Below(h, target[3]) { return 1; }
    if Below(target[3], h) { return 0; }
    WordsAreOrdered(h, target[3]);
    h := Bswap32(hash[2]);
    WordStep(hash, target, 2);
    if Below(h, target[2]) { return 1; }
    if Below(target[2], h) { return 0; }
    WordsAreOrdered(h, target[2]);
    h := Bswap32(hash[1]);
    WordStep(hash, target, 1);
    if Below(h, target[1]) { return 1; }
    if Below(target[1], h) { return 0; }
    WordsAreOrdered(h, target[1]);
    h := Bswap32(hash[0]);
    WordStep(hash, target, 0);
    if Below(h, target[0]) { return 1; }
    if Below(target[0], h) { return 0; }
    WordsAreOrdered(h, target[0]);
    SameBytesMeet(hash, target);
    return 1;
  }

  lemma NothingAbove(hash: seq<Word>, target: seq<Word>)
    requires |hash| == |target| == 8
    ensures SameFrom(hash, target, 8)
  {
  }

  lemma SameBytesMeet(hash: seq<Word>, target: seq<Word>)
    requires |hash| == |target| == 8 && SameFrom(hash, target, 0)
    ensures WordsMeet(hash, target)
  {
    hide LittleEndian, LeBytes, WordsToBytes;
    assert WordsToBytes(hash) == LeBytes(target);
  }

  /** `if (meets_target(...)) store_match(...)`, up to the call. */
  method Keep(hash: seq<Word>, target: seq<Word>, nonce: U32) returns (found: seq<Match>)
    requires |hash| == |target| == 8
    ensures found == if WordsMeet(hash, target) then [Match(nonce, hash)] else []
  {
    hide WordsMeet;
    var meets := MeetsTarget(hash, target);
    found := if meets != 0 then [Match(nonce, hash)] else [];
  }

  /** `scan_one_nonce`, up to the call of `store_match`. The nonce's match, if there is one. */
  method ScanOneNonce(fast: seq<Word>, tail: Tail, target: seq<Word>, nonce: U32, unrolled: bool)
    returns (found: seq<Match>)
    requires |fast| == |target| == 8
    ensures found == MatchOf(FromWords(fast), tail, target, nonce)
  {
    hide Compress, PadWords, Bswap32, WordsMeet, StateWords, FromWords;
    InitialWords();
    var full := TailWith(tail, nonce);
    var first := CompressPair(fast, full, 640, unrolled);
    var out := CompressPair(StateWords(INITIAL), first, 256, unrolled);
    found := Keep(out, target, nonce);
  }

  /** `scan_one_nonce` of the modern fixed kernels, up to the call of `store_match_words`. */
  method ScanOneNonceScalar(fast: State, tail: Tail, target: seq<Word>, nonce: U32) returns (found: seq<Match>)
    requires |target| == 8
    ensures found == MatchOf(fast, tail, target, nonce)
  {
    hide Compress, Bswap32, WordsMeet;
    var full := TailWith(tail, nonce);
    var s := CompressScalar(fast, Registers(full[0], full[1], full[2], full[3], 0x80000000, 0, 0, 0,
                                            0, 0, 0, 0, 0, 0, 0, 640));
    TailRegisters(full);
    var h := CompressScalar(INITIAL, Registers(s.a, s.b, s.c, s.d, s.e, s.f, s.g, s.h,
                                               0x80000000, 0, 0, 0, 0, 0, 0, 256));
    SecondRegisters(s);
    found := Keep(StateWords(h), target, nonce);
  }

  lemma TailRegisters(tail: Tail)
    ensures Registers(tail[0], tail[1], tail[2], tail[3], 0x80000000, 0, 0, 0, 0, 0, 0, 0, 0, 0, 0, 640).Words()
            == TailBlock(tail)
  {
  }

  lemma SecondRegisters(s: State)
    ensures Registers(s.a, s.b, s.c, s.d, s.e, s.f, s.g, s.h, 0x80000000, 0, 0, 0, 0, 0, 0, 256).Words()
            == SecondBlock(s)
  {
  }

  /** Fill `w`, set `st`, call `compress`. */
  method CompressPair(start: seq<Word>, words: seq<Word>, bits: Word, unrolled: bool) returns (out: seq<Word>)
    requires |start| == 8 && |words| <= 8
    ensures out == StateWords(Compress(FromWords(start), PadWords(words, bits)))
  {
    hide Compress;
    var block := PadWords(words, bits);
    hide PadWords;
    var st := new Word[8](i requires 0 <= i < 8 => start[i]);
    var w := new Word[16](i requires 0 <= i < 16 => block[i]);
    assert w[..] == block && StateOf(st) == FromWords(start);
    if unrolled {
      CompressUnrolled(st, w);
    } else {
      CompressRolling(st, w);
    }
    out := st[..];
    assert out == StateWords(StateOf(st));
  }

  // Two lanes

  /** A `uint2`. */
  datatype Two = Two(s0: Word, s1: Word)
  {
    function Lane(second: bool): Word { if second then s1 else s0 }
  }

  function AddV(x: Two, y: Two): Two { Two(Add(x.s0, y.s0), Add(x.s1, y.s1)) }

  function BigSigma0V(x: Two): Two { Two(BigSigma0(x.s0), BigSigma0(x.s1)) }

  function BigSigma1V(x: Two): Two { Two(BigSigma1(x.s0), BigSigma1(x.s1)) }

  function SmallSigma0V(x: Two): Two { Two(SmallSigma0(x.s0), SmallSigma0(x.s1)) }

  function SmallSigma1V(x: Two): Two { Two(SmallSigma1(x.s0), SmallSigma1(x.s1)) }

  function ChV(x: Two, y: Two, z: Two): Two { Two(Ch(x.s0, y.s0, z.s0), Ch(x.s1, y.s1, z.s1)) }

  function MajV(x: Two, y: Two, z: Two): Two { Two(Maj(x.s0, y.s0, z.s0), Maj(x.s1, y.s1, z.s1)) }

  function Both(w: Word): Two { Two(w, w) }

  function LaneOf(v: seq<Two>, second: bool): (w: seq<Word>)
    ensures |w| == |v|
  {
    seq(|v|, i requires 0 <= i < |v| => v[i].Lane(second))
  }

  /** One round on both lanes at once: the eight vector registers after it. */
  function RoundV(s: seq<Two>, k: Word, w: Two): (r: seq<Two>)
    requires |s| == 8
    ensures |r| == 8
  {
    var t1 := AddV(AddV(AddV(AddV(s[7], BigSigma1V(s[4])), ChV(s[4], s[5], s[6])), Both(k)), w);
    var t2 := AddV(BigSigma0V(s[0]), MajV(s[0], s[1], s[2]));
    [AddV(t1, t2), s[0], s[1], s[2], AddV(s[3], t1), s[4], s[5], s[6]]
  }

  lemma RoundVLane(s: seq<Two>, k: Word, w: Two, second: bool)
    requires |s| == 8
    ensures FromWords(LaneOf(RoundV(s, k, w), second)) == Round(FromWords(LaneOf(s, second)), k, w.Lane(second))
  {
    hide Add, BigSigma0, BigSigma1, Ch, Maj;
  }

  /** The vector form of a window word. */
  function NextWordV(w: seq<Two>, j: nat): Two
    requires |w| == 16 && j < 16
  {
    AddV(AddV(AddV(w[j], SmallSigma1V(w[(j + 14) % 16])), w[(j + 9) % 16]), SmallSigma0V(w[(j + 1) % 16]))
  }

  lemma RollingStepLane(w: seq<Two>, m: Block, i: nat, second: bool)
    requires |w| == 16 && i >= 16 && Rolling(LaneOf(w, second), m, i)
    ensures NextWordV(w, i % 16).Lane(second) == Schedule(m, i)
    ensures Rolling(LaneOf(w[i % 16 := NextWordV(w, i % 16)], second), m, i + 1)
  {
    hide Add, SmallSigma0, SmallSigma1, Schedule, Rolling;
    RollingStep(LaneOf(w, second), m, i);
    assert LaneOf(w[i % 16 := NextWordV(w, i % 16)], second) ==
           LaneOf(w, second)[i % 16 := NextWordV(w, i % 16).Lane(second)];
  }

  /** One lane of the loop's state before turn `i`. */
  ghost predicate LaneBefore(s: seq<Two>, w: seq<Two>, start: State, m: Block, i: nat, second: bool)
    requires |s| == 8 && |w| == 16 && i <= 64
  {
    && FromWords(LaneOf(s, second)) == Rounds(start, m, i)
    && if i <= 16 then LaneOf(w, second) == m else Rolling(LaneOf(w, second), m, i)
  }

  /** One turn, seen from one lane. */
  lemma LaneTurn(s: seq<Two>, w: seq<Two>, start: State, m: Block, i: nat, second: bool)
    requires |s| == 8 && |w| == 16 && i < 64 && LaneBefore(s, w, start, m, i, second)
    ensures var wi := if i < 16 then w[i] else NextWordV(w, i % 16);
            LaneBefore(RoundV(s, K[i], wi), if i < 16 then w else w[i % 16 := wi], start, m, i + 1, second)
  {
    hide Round, Schedule, Rolling, NextWordV, RoundV, FromWords;
    var wi := if i < 16 then w[i] else NextWordV(w, i % 16);
    if i < 16 {
      assert wi.Lane(second) == m[i];
      FirstWords(m);
      if i == 15 {
        WindowStarts(m);
      }
    } else {
      if i == 16 {
        WindowStarts(m);
      }
      RollingStepLane(w, m, i, second);
    }
    RoundVLane(s, K[i], wi, second);
    NextRound(start, m, i);
  }

  /** `compress_vec2`. */
  method CompressVec2(st: array<Two>, w: array<Two>)
    requires st.Length == 8 && w.Length == 16 && st != w
    modifies st, w
    ensures forall second ::
              LaneOf(st[..], second) ==
              StateWords(Compress(FromWords(LaneOf(old(st[..]), second)), LaneOf(old(w[..]), second)))
  {
    hide Rolling, RoundV, LaneBefore, Rounds;
    ghost var start, m := st[..], w[..];
    var s := st[..];
    VecStarts(start, m, false);
    VecStarts(start, m, true);
    for i := 0 to 64
      invariant |s| == 8 && st[..] == start
      invariant LaneBefore(s, w[..], FromWords(LaneOf(start, false)), LaneOf(m, false), i, false)
      invariant LaneBefore(s, w[..], FromWords(LaneOf(start, true)), LaneOf(m, true), i, true)
    {
      LaneTurn(s, w[..], FromWords(LaneOf(start, false)), LaneOf(m, false), i, false);
      LaneTurn(s, w[..], FromWords(LaneOf(start, true)), LaneOf(m, true), i, true);
      var wi;
      if i < 16 {
        wi := w[i];
      } else {
        var j := i % 16;
        wi := NextWordV(w[..], j);
        ghost var before := w[..];
        w[j] := wi;
        assert w[..] == before[j := wi];
      }
      s := RoundV(s, K[i], wi);
    }
    AddIntoV(st, s);
    VecEnds(start, s, w[..], m, false);
    VecEnds(start, s, w[..], m, true);
  }

  lemma VecStarts(start: seq<Two>, m: seq<Two>, second: bool)
    requires |start| == 8 && |m| == 16
    ensures LaneBefore(start, m, FromWords(LaneOf(start, second)), LaneOf(m, second), 0, second)
  {
  }

  lemma VecEnds(start: seq<Two>, s: seq<Two>, w: seq<Two>, m: seq<Two>, second: bool)
    requires |start| == |s| == 8 && |m| == |w| == 16
    requires LaneBefore(s, w, FromWords(LaneOf(start, second)), LaneOf(m, second), 64, second)
    ensures LaneOf(SumV(start, s), second) ==
            StateWords(Compress(FromWords(LaneOf(start, second)), LaneOf(m, second)))
  {
    hide Add, Rounds, Rolling;
    LaneOfSum(start, s, second);
  }

  lemma LaneOfSum(x: seq<Two>, y: seq<Two>, second: bool)
    requires |x| == |y| == 8
    ensures LaneOf(SumV(x, y), second) ==
            StateWords(AddState(FromWords(LaneOf(x, second)), FromWords(LaneOf(y, second))))
  {
    hide Add;
    var sum, a, b := LaneOf(SumV(x, y), second), LaneOf(x, second), LaneOf(y, second);
    assert forall k :: 0 <= k < 8 ==> sum[k] == Add(a[k], b[k]);
  }

  function SumV(x: seq<Two>, y: seq<Two>): (r: seq<Two>)
    requires |x| == |y| == 8
    ensures |r| == 8
  {
    seq(8, i requires 0 <= i < 8 => AddV(x[i], y[i]))
  }

  /** `st[0]+=a; ...; st[7]+=h` on vectors. */
  method AddIntoV(st: array<Two>, s: seq<Two>)
    requires st.Length == |s| == 8
    modifies st
    ensures st[..] == SumV(old(st[..]), s)
  {
    hide AddV;
    for i := 0 to 8
      invariant forall k :: 0 <= k < i ==> st[k] == AddV(old(st[k]), s[k])
      invariant forall k :: i <= k < 8 ==> st[k] == old(st[k])
    {
      st[i] := AddV(st[i], s[i]);
    }
  }

  function Zip(x: seq<Word>, y: seq<Word>): (v: seq<Two>)
    requires |x| == |y|
    ensures |v| == |x| && LaneOf(v, false) == x && LaneOf(v, true) == y
  {
    seq(|x|, i requires 0 <= i < |x| => Two(x[i], y[i]))
  }

  /** Fill both lanes of `w`, start both lanes of `s` from the same state, call `compress_vec2`. */
  method CompressLanes(start: seq<Word>, words0: seq<Word>, words1: seq<Word>, bits: Word)
    returns (out0: seq<Word>, out1: seq<Word>)
    requires |start| == 8 && |words0| == |words1| <= 8
    ensures out0 == StateWords(Compress(FromWords(start), PadWords(words0, bits)))
    ensures out1 == StateWords(Compress(FromWords(start), PadWords(words1, bits)))
  {
    hide Compress, PadWords, FromWords;
    var starts := Zip(start, start);
    var blocks := Zip(PadWords(words0, bits), PadWords(words1, bits));
    hide Zip, LaneOf;
    var st := new Two[8](i requires 0 <= i < 8 => starts[i]);
    var w := new Two[16](i requires 0 <= i < 16 => blocks[i]);
    assert st[..] == starts && w[..] == blocks;
    CompressVec2(st, w);
    out0, out1 := LaneOf(st[..], false), LaneOf(st[..], true);
  }

  /** `scan_two_nonces_vec`: nonce `n` in lane 0, `n + 1` in lane 1, which only counts if it is in range. */
  method ScanTwoNonces(fast: seq<Word>, tail: Tail, target: seq<Word>, nonce0: U32, secondValid: bool)
    returns (found: seq<Match>)
    requires |fast| == |target| == 8
    ensures found == MatchOf(FromWords(fast), tail, target, nonce0)
                   + if secondValid then MatchOf(FromWords(fast), tail, target, Wrap32(nonce0 as int + 1)) else []
  {
    hide Compress, Bswap32, WordsMeet, FromWords, PadWords, StateWords;
    var nonce1 := Wrap32(nonce0 as int + 1);
    hide Wrap32;
    var first0, first1 := CompressLanes(fast, TailWith(tail, nonce0), TailWith(tail, nonce1), 640);
    InitialWords();
    var out0, out1 := CompressLanes(StateWords(INITIAL), first0, first1, 256);
    var found0 := Keep(out0, target, nonce0);
    found := found0;
    if secondValid {
      var found1 := Keep(out1, target, nonce1);
      found := found + found1;
    }
  }

  lemma InitialWords()
    ensures FromWords(StateWords(INITIAL)) == INITIAL
  {
  }
}
