/**
 The compression functions of the OpenCL kernels (the kernel text in opencl_miner.c). One keeps a rolling window of
 sixteen message words and loops; one is unrolled, rotating register names instead of moving values and updating
 message words in place; one runs the loop on two lanes at once. All compute the compression function of FIPS 180-4.
 */
module OpenClKernel {
  import opened Words
  import opened Sha256
  import opened OpensslSha

  // The rolling window

  /** `w` holds the sixteen most recent schedule words, word `t` in slot `t & 15`. */
  ghost predicate Rolling(w: seq<Word>, m: Block, next: nat)
    requires |w| == 16 && next >= 16
  {
    forall t :: next - 16 <= t < next ==> w[t % 16] == Schedule(m, t)
  }

  /** The kernel adds the four terms of a schedule word in its own order. */
  lemma KernelScheduleOrder(m: Block, t: nat)
    ensures Schedule(m, t + 16) ==
            Add(Add(Add(Schedule(m, t), SmallSigma1(Schedule(m, t + 14))), Schedule(m, t + 9)),
                SmallSigma0(Schedule(m, t + 1)))
  {
    hide Add, SmallSigma0, SmallSigma1, Schedule;
    LaterWord(m, t);
    FourTerms(Schedule(m, t), SmallSigma0(Schedule(m, t + 1)), Schedule(m, t + 9), SmallSigma1(Schedule(m, t + 14)));
  }

  lemma FourTerms(x: Word, y: Word, z: Word, v: Word)
    ensures Add(Add(Add(x, v), z), y) == Add(Add(Add(x, y), z), v)
    ensures Add(x, Add(Add(y, z), v)) == Add(Add(Add(x, y), z), v)
  {
    hide Add;
    AddAssociative(Add(x, v), z, y);
    AddCommutative(z, y);
    AddAssociative(x, v, Add(y, z));
    AddCommutative(v, Add(y, z));
    AddAssociative(x, Add(y, z), v);
    AddAssociative(x, y, z);
  }

  lemma SlotFacts(i: nat, t: nat)
    requires i - 16 < t <= i
    ensures (t % 16 == i % 16) <==> t == i
    ensures i >= 16 ==> (i - 16) % 16 == i % 16
    ensures i >= 16 ==> (i - 2) % 16 == (i % 16 + 14) % 16
    ensures i >= 16 ==> (i - 7) % 16 == (i % 16 + 9) % 16
    ensures i >= 16 ==> (i - 15) % 16 == (i % 16 + 1) % 16
  {
    StepBack(i, i - t);
    if i >= 16 {
      StepBack(i, 16);
      StepBack(i, 2);
      StepBack(i, 7);
      StepBack(i, 15);
    }
  }

  /** Going back by `k` in a ring of sixteen. */
  lemma StepBack(i: nat, k: nat)
    requires k <= 16 && k <= i
    ensures (i - k) % 16 == (i % 16 + (16 - k)) % 16
    ensures (i - k) % 16 == i % 16 <==> k == 0 || k == 16
  {
    var q, r := i / 16, i % 16;
    if r >= k {
      RemainderIs(i - k, q, r - k);
      RemainderIs(r + 16 - k, 1, r - k);
    } else {
      RemainderIs(i - k, q - 1, r + 16 - k);
      RemainderIs(r + 16 - k, 0, r + 16 - k);
    }
  }

  lemma RemainderIs(x: nat, q: int, r: nat)
    requires r < 16 && x == 16 * q + r
    ensures x % 16 == r
  {
  }

  lemma RollingAt(w: seq<Word>, m: Block, next: nat, t: nat)
    requires |w| == 16 && next >= 16 && Rolling(w, m, next) && next - 16 <= t < next
    ensures w[t % 16] == Schedule(m, t)
  {
  }

  lemma RollingNext(w: seq<Word>, m: Block, i: nat)
    requires |w| == 16 && i >= 16 && Rolling(w, m, i)
    ensures Rolling(w[i % 16 := Schedule(m, i)], m, i + 1)
  {
    hide Schedule;
    forall t | i - 15 <= t < i + 1 ensures w[i % 16 := Schedule(m, i)][t % 16] == Schedule(m, t) {
      SlotFacts(i, t);
    }
  }

  lemma RollingStep(w: seq<Word>, m: Block, i: nat)
    requires |w| == 16 && i >= 16 && Rolling(w, m, i)
    ensures var j := i % 16;
            var wi := Add(Add(Add(w[j], SmallSigma1(w[(j + 14) % 16])), w[(j + 9) % 16]), SmallSigma0(w[(j + 1) % 16]));
            wi == Schedule(m, i) && Rolling(w[j := wi], m, i + 1)
  {
    hide Add, SmallSigma0, SmallSigma1, Schedule, Rolling;
    SlotFacts(i, i);
    RollingAt(w, m, i, i - 16);
    RollingAt(w, m, i, i - 2);
    RollingAt(w, m, i, i - 7);
    RollingAt(w, m, i, i - 15);
    KernelScheduleOrder(m, i - 16);
    RollingNext(w, m, i);
  }

  /** `compress` of the compact kernel: `for (i = 0; i < 64; ++i)` over a window of sixteen words. */
  method CompressRolling(st: array<Word>, w: array<Word>)
    requires st.Length == 8 && w.Length == 16 && st != w
    modifies st, w
    ensures StateOf(st) == Compress(old(StateOf(st)), old(w[..]))
  {
    hide Add, BigSigma0, BigSigma1, SmallSigma0, SmallSigma1, Ch, Maj, Schedule, Rolling;
    ghost var m, start := w[..], StateOf(st);
    var a, b, c, d, e, f, g, h := st[0], st[1], st[2], st[3], st[4], st[5], st[6], st[7];
    for i := 0 to 64
      invariant StateOf(st) == start
      invariant State(a, b, c, d, e, f, g, h) == Rounds(start, m, i)
      invariant if i <= 16 then w[..] == m else Rolling(w[..], m, i)
    {
      var wi := MessageWord(w, i, m);
      var t1 := Add(Add(Add(Add(h, BigSigma1(e)), Ch(e, f, g)), K[i]), wi);
      var t2 := Add(BigSigma0(a), Maj(a, b, c));
      h := g;
      g := f;
      f := e;
      e := Add(d, t1);
      d := c;
      c := b;
      b := a;
      a := Add(t1, t2);
    }
    AddInto(st, State(a, b, c, d, e, f, g, h));
  }

  /** The word of turn `i`: from the block, or rolled into the window. */
  method MessageWord(w: array<Word>, i: nat, ghost m: Block) returns (wi: Word)
    requires w.Length == 16 && if i <= 16 then w[..] == m else Rolling(w[..], m, i)
    modifies w
    ensures wi == Schedule(m, i)
    ensures if i < 16 then w[..] == m else Rolling(w[..], m, i + 1)
  {
    hide Add, SmallSigma0, SmallSigma1, Schedule, Rolling;
    if i < 16 {
      wi := w[i];
      FirstWords(m);
    } else {
      WindowStarts(m);
      var j := i % 16;
      RollingStep(w[..], m, i);
      wi := Add(Add(Add(w[j], SmallSigma1(w[(j + 14) % 16])), w[(j + 9) % 16]), SmallSigma0(w[(j + 1) % 16]));
      ghost var before := w[..];
      w[j] := wi;
      assert w[..] == before[j := wi];
    }
  }

  lemma WindowStarts(m: Block)
    ensures Rolling(m, m, 16)
  {
  }

  /** `st[0]+=a; ...; st[7]+=h`. */
  method AddInto(st: array<Word>, s: State)
    requires st.Length == 8
    modifies st
    ensures StateOf(st) == AddState(old(StateOf(st)), s) && st[..] == StateWords(StateOf(st))
  {
    hide Add, StateWords;
    st[0] := Add(st[0], s.a);
    st[1] := Add(st[1], s.b);
    st[2] := Add(st[2], s.c);
    st[3] := Add(st[3], s.d);
    st[4] := Add(st[4], s.e);
    st[5] := Add(st[5], s.f);
    st[6] := Add(st[6], s.g);
    st[7] := Add(st[7], s.h);
    ArrayIsState(st);
  }

  lemma ArrayIsState(st: array<Word>)
    requires st.Length == 8
    ensures st[..] == StateWords(StateOf(st))
  {
  }

  // The unrolled form

  /** The sixteen message registers. */
  datatype Registers = Registers(w0: Word, w1: Word, w2: Word, w3: Word, w4: Word, w5: Word, w6: Word, w7: Word,
                                 w8: Word, w9: Word, w10: Word, w11: Word, w12: Word, w13: Word, w14: Word, w15: Word)
  {
    function Words(): (w: Block) {
      [w0, w1, w2, w3, w4, w5, w6, w7, w8, w9, w10, w11, w12, w13, w14, w15]
    }
  }

  /** Word `i + 16` of `v` follows from earlier ones by the schedule recurrence. */
  ghost predicate ScheduleLink(v: seq<Word>, i: nat)
    requires i + 16 < |v|
  {
    v[i + 16] == Add(Add(Add(v[i], SmallSigma0(v[i + 1])), v[i + 9]), SmallSigma1(v[i + 14]))
  }

  /** `v` is a stretch of 32 words of a message schedule. */
  ghost predicate Continues(v: seq<Word>) {
    |v| == 32 && forall i :: 0 <= i < 16 ==> ScheduleLink(v, i)
  }

  ghost predicate RoundLink(u: seq<State>, k: seq<Word>, w: seq<Word>, i: nat)
    requires |u| == 17 && |k| == |w| == 16 && i < 16
  {
    u[i + 1] == Round(u[i], k[i], w[i])
  }

  /** `u` is a stretch of sixteen rounds, with constants `k` and message words `w`. */
  ghost predicate RoundTrace(u: seq<State>, k: seq<Word>, w: seq<Word>) {
    |u| == 17 && |k| == |w| == 16 && forall i :: 0 <= i < 16 ==> RoundLink(u, k, w, i)
  }

  /** The same for the second half of a stretch of 32 words. */
  ghost predicate LaterTrace(u: seq<State>, k: seq<Word>, v: seq<Word>) {
    |v| == 32 && RoundTrace(u, k, v[16..32])
  }

  /** Register `w` holds word `i` of `v`. */
  ghost predicate WordAt(w: Word, v: seq<Word>, i: nat) {
    i < |v| && w == v[i]
  }

  /** The registers, named in the order of the round, hold state `i` of `u`. */
  ghost predicate Working(a: Word, b: Word, c: Word, d: Word, e: Word, f: Word, g: Word, h: Word,
                          u: seq<State>, i: nat)
  {
    i < |u| && State(a, b, c, d, e, f, g, h) == u[i]
  }

  /** `MSG(w0, w1, w9, w14)`: the message word is replaced in place by the one sixteen rounds later. */
  method Msg(w0: Word, w1: Word, w9: Word, w14: Word, ghost v: seq<Word>, ghost i: nat) returns (next: Word)
    requires i < 16 && Continues(v)
    requires WordAt(w0, v, i) && WordAt(w1, v, i + 1) && WordAt(w9, v, i + 9) && WordAt(w14, v, i + 14)
    ensures WordAt(next, v, i + 16)
  {
    hide Add, SmallSigma0, SmallSigma1;
    assert ScheduleLink(v, i);
    next := Add(w0, Add(Add(SmallSigma0(w1), w9), SmallSigma1(w14)));
    FourTerms(w0, SmallSigma0(w1), w9, SmallSigma1(w14));
  }

  /** `ROUND(a,...,h,w,k)`: updates `d` and `h` only. The caller passes its registers rotated by one each time. */
  method RoundMacro(a: Word, b: Word, c: Word, d: Word, e: Word, f: Word, g: Word, h: Word, w: Word, k: Word,
                    ghost ks: seq<Word>, ghost u: seq<State>, ghost v: seq<Word>, ghost at: nat, ghost i: nat)
    returns (d': Word, h': Word)
    requires i < 16 && at + 16 <= |v| && RoundTrace(u, ks, v[at..at + 16])
    requires Working(a, b, c, d, e, f, g, h, u, i) && WordAt(w, v, at + i) && k == ks[i]
    ensures Working(h', a, b, c, d', e, f, g, u, i + 1)
  {
    hide Add, BigSigma0, BigSigma1, Ch, Maj;
    assert RoundLink(u, ks, v[at..at + 16], i);
    var t1 := Add(Add(Add(Add(h, BigSigma1(e)), Ch(e, f, g)), k), w);
    var t2 := Add(BigSigma0(a), Maj(a, b, c));
    d' := Add(d, t1);
    h' := Add(t1, t2);
  }

  /** `ROUND(a,...,h,MSG(w0,w1,w9,w14),k)`, with constant `i` of its group. */
  method MsgRound(a: Word, b: Word, c: Word, d: Word, e: Word, f: Word, g: Word, h: Word,
                  w0: Word, w1: Word, w9: Word, w14: Word, ks: seq<Word>,
                  ghost u: seq<State>, ghost v: seq<Word>, i: nat)
    returns (d': Word, h': Word, next: Word)
    requires i < 16 && Continues(v) && LaterTrace(u, ks, v)
    requires WordAt(w0, v, i) && WordAt(w1, v, i + 1) && WordAt(w9, v, i + 9) && WordAt(w14, v, i + 14)
    requires Working(a, b, c, d, e, f, g, h, u, i)
    ensures WordAt(next, v, i + 16) && Working(h', a, b, c, d', e, f, g, u, i + 1)
  {
    hide RoundTrace, Working, WordAt;
    TraceLengths(u, ks, v[16..32]);
    next := Msg(w0, w1, w9, w14, v, i);
    d', h' := RoundMacro(a, b, c, d, e, f, g, h, next, ks[i], ks, u, v, 16, i);
  }

  /** Eight of the first sixteen `ROUND` lines. After eight, every register is back under its own name. */
  method PlainEight(start: State, w0: Word, w1: Word, w2: Word, w3: Word, w4: Word, w5: Word, w6: Word, w7: Word,
                    k: seq<Word>, ghost u: seq<State>, ghost v: seq<Word>, at: nat)
    returns (out: State)
    requires at <= 8 && |v| >= 16 && RoundTrace(u, k, v[0..16]) && start == u[at]
    requires WordAt(w0, v, at) && WordAt(w1, v, at + 1) && WordAt(w2, v, at + 2) && WordAt(w3, v, at + 3)
    requires WordAt(w4, v, at + 4) && WordAt(w5, v, at + 5) && WordAt(w6, v, at + 6) && WordAt(w7, v, at + 7)
    ensures out == u[at + 8]
  {
    hide RoundTrace, Working, WordAt;
    TraceLengths(u, k, v[0..16]);
    var a, b, c, d, e, f, g, h := Spread(start, u, at);
    d, h := RoundMacro(a, b, c, d, e, f, g, h, w0, k[at + 0], k, u, v, 0, at + 0);
    c, g := RoundMacro(h, a, b, c, d, e, f, g, w1, k[at + 1], k, u, v, 0, at + 1);
    b, f := RoundMacro(g, h, a, b, c, d, e, f, w2, k[at + 2], k, u, v, 0, at + 2);
    a, e := RoundMacro(f, g, h, a, b, c, d, e, w3, k[at + 3], k, u, v, 0, at + 3);
    h, d := RoundMacro(e, f, g, h, a, b, c, d, w4, k[at + 4], k, u, v, 0, at + 4);
    g, c := RoundMacro(d, e, f, g, h, a, b, c, w5, k[at + 5], k, u, v, 0, at + 5);
    f, b := RoundMacro(c, d, e, f, g, h, a, b, w6, k[at + 6], k, u, v, 0, at + 6);
    e, a := RoundMacro(b, c, d, e, f, g, h, a, w7, k[at + 7], k, u, v, 0, at + 7);
    out := Collect(a, b, c, d, e, f, g, h, u, at + 8);
  }

  lemma TraceLengths(u: seq<State>, k: seq<Word>, w: seq<Word>)
    requires RoundTrace(u, k, w)
    ensures |u| == 17 && |k| == |w| == 16
  {
  }

  /** Registers `w0` to `w7` hold words `t` to `t + 7` of `v`. */
  ghost predicate LowAt(r: Registers, v: seq<Word>, t: nat) {
    && WordAt(r.w0, v, t) && WordAt(r.w1, v, t + 1) && WordAt(r.w2, v, t + 2) && WordAt(r.w3, v, t + 3)
    && WordAt(r.w4, v, t + 4) && WordAt(r.w5, v, t + 5) && WordAt(r.w6, v, t + 6) && WordAt(r.w7, v, t + 7)
  }

  /** Registers `w8` to `w15` hold words `t` to `t + 7` of `v`. */
  ghost predicate HighAt(r: Registers, v: seq<Word>, t: nat) {
    && WordAt(r.w8, v, t) && WordAt(r.w9, v, t + 1) && WordAt(r.w10, v, t + 2) && WordAt(r.w11, v, t + 3)
    && WordAt(r.w12, v, t + 4) && WordAt(r.w13, v, t + 5) && WordAt(r.w14, v, t + 6) && WordAt(r.w15, v, t + 7)
  }

  /** `u32 a=st[0], b=st[1], ..., h=st[7]`. */
  method Spread(start: State, ghost u: seq<State>, ghost i: nat)
    returns (a: Word, b: Word, c: Word, d: Word, e: Word, f: Word, g: Word, h: Word)
    requires i < |u| && start == u[i]
    ensures Working(a, b, c, d, e, f, g, h, u, i)
  {
    a, b, c, d, e, f, g, h := start.a, start.b, start.c, start.d, start.e, start.f, start.g, start.h;
  }

  method Collect(a: Word, b: Word, c: Word, d: Word, e: Word, f: Word, g: Word, h: Word, ghost u: seq<State>,
                 ghost i: nat)
    returns (out: State)
    requires Working(a, b, c, d, e, f, g, h, u, i)
    ensures i < |u| && out == u[i]
  {
    out := State(a, b, c, d, e, f, g, h);
  }

  /** The lines of a later group that update and use `w0` to `w7`. */
  method LowEight(start: State, r: Registers, k: seq<Word>, ghost u: seq<State>, ghost v: seq<Word>)
    returns (out: State, r': Registers)
    requires |v| == 32 && Continues(v) && LowAt(r, v, 0) && HighAt(r, v, 8)
    requires LaterTrace(u, k, v) && |u| == 17 && |k| == 16 && start == u[0]
    ensures out == u[8] && LowAt(r', v, 16) && HighAt(r', v, 8)
  {
    hide LaterTrace, Working, WordAt, Continues, ScheduleLink;
    var a, b, c, d, e, f, g, h := Spread(start, u, 0);
    var w0, w1, w2, w3, w4, w5, w6, w7 := r.w0, r.w1, r.w2, r.w3, r.w4, r.w5, r.w6, r.w7;
    var w8, w9, w10, w11, w12, w13, w14, w15 := r.w8, r.w9, r.w10, r.w11, r.w12, r.w13, r.w14, r.w15;
    d, h, w0 := MsgRound(a, b, c, d, e, f, g, h, w0, w1, w9, w14, k, u, v, 0);
    c, g, w1 := MsgRound(h, a, b, c, d, e, f, g, w1, w2, w10, w15, k, u, v, 1);
    b, f, w2 := MsgRound(g, h, a, b, c, d, e, f, w2, w3, w11, w0, k, u, v, 2);
    a, e, w3 := MsgRound(f, g, h, a, b, c, d, e, w3, w4, w12, w1, k, u, v, 3);
    h, d, w4 := MsgRound(e, f, g, h, a, b, c, d, w4, w5, w13, w2, k, u, v, 4);
    g, c, w5 := MsgRound(d, e, f, g, h, a, b, c, w5, w6, w14, w3, k, u, v, 5);
    f, b, w6 := MsgRound(c, d, e, f, g, h, a, b, w6, w7, w15, w4, k, u, v, 6);
    e, a, w7 := MsgRound(b, c, d, e, f, g, h, a, w7, w8, w0, w5, k, u, v, 7);
    out := Collect(a, b, c, d, e, f, g, h, u, 8);
    r' := Registers(w0, w1, w2, w3, w4, w5, w6, w7,
                    w8, w9, w10, w11, w12, w13, w14, w15);
  }

  /** The lines of a later group that update and use `w8` to `w15`. */
  method HighEight(start: State, r: Registers, k: seq<Word>, ghost u: seq<State>, ghost v: seq<Word>)
    returns (out: State, r': Registers)
    requires |v| == 32 && Continues(v) && LowAt(r, v, 16) && HighAt(r, v, 8)
    requires LaterTrace(u, k, v) && |u| == 17 && |k| == 16 && start == u[8]
    ensures out == u[16] && LowAt(r', v, 16) && HighAt(r', v, 24)
  {
    hide LaterTrace, Working, WordAt, Continues, ScheduleLink;
    var a, b, c, d, e, f, g, h := Spread(start, u, 8);
    var w0, w1, w2, w3, w4, w5, w6, w7 := r.w0, r.w1, r.w2, r.w3, r.w4, r.w5, r.w6, r.w7;
    var w8, w9, w10, w11, w12, w13, w14, w15 := r.w8, r.w9, r.w10, r.w11, r.w12, r.w13, r.w14, r.w15;
    d, h, w8 := MsgRound(a, b, c, d, e, f, g, h, w8, w9, w1, w6, k, u, v, 8);
    c, g, w9 := MsgRound(h, a, b, c, d, e, f, g, w9, w10, w2, w7, k, u, v, 9);
    b, f, w10 := MsgRound(g, h, a, b, c, d, e, f, w10, w11, w3, w8, k, u, v, 10);
    a, e, w11 := MsgRound(f, g, h, a, b, c, d, e, w11, w12, w4, w9, k, u, v, 11);
    h, d, w12 := MsgRound(e, f, g, h, a, b, c, d, w12, w13, w5, w10, k, u, v, 12);
    g, c, w13 := MsgRound(d, e, f, g, h, a, b, c, w13, w14, w6, w11, k, u, v, 13);
    f, b, w14 := MsgRound(c, d, e, f, g, h, a, b, w14, w15, w7, w12, k, u, v, 14);
    e, a, w15 := MsgRound(b, c, d, e, f, g, h, a, w15, w0, w8, w13, k, u, v, 15);
    out := Collect(a, b, c, d, e, f, g, h, u, 16);
    r' := Registers(w0, w1, w2, w3, w4, w5, w6, w7,
                    w8, w9, w10, w11, w12, w13, w14, w15);
  }

  /** `n` consecutive schedule words. */
  ghost function WordsFrom(m: Block, t: nat, n: nat): seq<Word> {
    seq(n, i requires 0 <= i < n => Schedule(m, t + i))
  }

  /** The states around sixteen consecutive rounds. */
  ghost function StatesFrom(s: State, m: Block, t: nat): seq<State>
    requires t <= 48
  {
    seq(17, i requires 0 <= i < 17 => Rounds(s, m, t + i))
  }

  lemma WordsContinue(m: Block, t: nat)
    ensures Continues(WordsFrom(m, t, 32))
  {
    hide ScheduleLink;
    forall i | 0 <= i < 16 ensures ScheduleLink(WordsFrom(m, t, 32), i) {
      WordsLink(m, t, i);
    }
  }

  lemma WordsLink(m: Block, t: nat, i: nat)
    requires i < 16
    ensures ScheduleLink(WordsFrom(m, t, 32), i)
  {
    hide Add, SmallSigma0, SmallSigma1, Schedule;
    LaterWord(m, t + i);
  }

  lemma StatesTrace(s: State, m: Block, t: nat)
    requires t <= 48
    ensures RoundTrace(StatesFrom(s, m, t), K[t..t + 16], WordsFrom(m, t, 16))
  {
    hide RoundLink;
    var u, k, w := StatesFrom(s, m, t), K[t..t + 16], WordsFrom(m, t, 16);
    forall i | 0 <= i < 16 ensures RoundLink(u, k, w, i) {
      StatesLink(s, m, t, i);
    }
  }

  lemma StatesLink(s: State, m: Block, t: nat, i: nat)
    requires t <= 48 && i < 16
    ensures RoundLink(StatesFrom(s, m, t), K[t..t + 16], WordsFrom(m, t, 16), i)
  {
    hide Round, Schedule, Rounds;
    NextRound(s, m, t + i);
  }

  const GROUP1: seq<Word> := [
    0x428a2f98, 0x71374491, 0xb5c0fbcf, 0xe9b5dba5, 0x3956c25b, 0x59f111f1, 0x923f82a4, 0xab1c5ed5,
    0xd807aa98, 0x12835b01, 0x243185be, 0x550c7dc3, 0x72be5d74, 0x80deb1fe, 0x9bdc06a7, 0xc19bf174]
  const GROUP2: seq<Word> := [
    0xe49b69c1, 0xefbe4786, 0x0fc19dc6, 0x240ca1cc, 0x2de92c6f, 0x4a7484aa, 0x5cb0a9dc, 0x76f988da,
    0x983e5152, 0xa831c66d, 0xb00327c8, 0xbf597fc7, 0xc6e00bf3, 0xd5a79147, 0x06ca6351, 0x14292967]
  const GROUP3: seq<Word> := [
    0x27b70a85, 0x2e1b2138, 0x4d2c6dfc, 0x53380d13, 0x650a7354, 0x766a0abb, 0x81c2c92e, 0x92722c85,
    0xa2bfe8a1, 0xa81a664b, 0xc24b8b70, 0xc76c51a3, 0xd192e819, 0xd6990624, 0xf40e3585, 0x106aa070]
  const GROUP4: seq<Word> := [
    0x19a4c116, 0x1e376c08, 0x2748774c, 0x34b0bcb5, 0x391c0cb3, 0x4ed8aa4a, 0x5b9cca4f, 0x682e6ff3,
    0x748f82ee, 0x78a5636f, 0x84c87814, 0x8cc70208, 0x90befffa, 0xa4506ceb, 0xbef9a3f7, 0xc67178f2]

  /** The constants written into the 64 `ROUND` lines are the standard table, in order. */
  lemma GroupsAreTheTable()
    ensures GROUP1 == K[0..16] && GROUP2 == K[16..32] && GROUP3 == K[32..48] && GROUP4 == K[48..64]
  {
  }

  /** The first sixteen `ROUND` lines. */
  method FirstSixteen(start: State, r: Registers, ghost m: Block) returns (out: State)
    requires LowAt(r, WordsFrom(m, 0, 32), 0) && HighAt(r, WordsFrom(m, 0, 32), 8)
    ensures out == Rounds(start, m, 16)
  {
    hide RoundTrace, WordAt;
    GroupsAreTheTable();
    hide GROUP1;
    ghost var u, v := StatesFrom(start, m, 0), WordsFrom(m, 0, 32);
    assert v[0..16] == WordsFrom(m, 0, 16);
    StatesTrace(start, m, 0);
    out := PlainEight(start, r.w0, r.w1, r.w2, r.w3, r.w4, r.w5, r.w6, r.w7, GROUP1, u, v, 0);
    out := PlainEight(out, r.w8, r.w9, r.w10, r.w11, r.w12, r.w13, r.w14, r.w15, GROUP1, u, v, 8);
  }

  /** A later group of sixteen `ROUND` lines with their `MSG` updates. */
  method NextSixteen(start: State, r: Registers, k: seq<Word>, ghost s: State, ghost m: Block, ghost base: nat)
    returns (out: State, r': Registers)
    requires 16 <= base <= 48 && start == Rounds(s, m, base) && k == K[base..base + 16]
    requires LowAt(r, WordsFrom(m, base - 16, 32), 0) && HighAt(r, WordsFrom(m, base - 16, 32), 8)
    ensures out == Rounds(s, m, base + 16)
    ensures LowAt(r', WordsFrom(m, base - 16, 32), 16) && HighAt(r', WordsFrom(m, base - 16, 32), 24)
  {
    hide RoundTrace, LowAt, HighAt, Continues, Rounds;
    ghost var u, v := StatesFrom(s, m, base), WordsFrom(m, base - 16, 32);
    assert v[16..32] == WordsFrom(m, base, 16);
    StatesTrace(s, m, base);
    WordsContinue(m, base - 16);
    out, r' := LowEight(start, r, k, u, v);
    out, r' := HighEight(out, r', k, u, v);
  }

  /** The registers at the end of one group are those the next group starts from. */
  lemma NextWindow(r: Registers, m: Block, t: nat)
    requires LowAt(r, WordsFrom(m, t, 32), 16) && HighAt(r, WordsFrom(m, t, 32), 24)
    ensures LowAt(r, WordsFrom(m, t + 16, 32), 0) && HighAt(r, WordsFrom(m, t + 16, 32), 8)
  {
    hide WordAt, WordsFrom;
    WordMovesOn(r.w0, m, t, 0);
    WordMovesOn(r.w1, m, t, 1);
    WordMovesOn(r.w2, m, t, 2);
    WordMovesOn(r.w3, m, t, 3);
    WordMovesOn(r.w4, m, t, 4);
    WordMovesOn(r.w5, m, t, 5);
    WordMovesOn(r.w6, m, t, 6);
    WordMovesOn(r.w7, m, t, 7);
    WordMovesOn(r.w8, m, t, 8);
    WordMovesOn(r.w9, m, t, 9);
    WordMovesOn(r.w10, m, t, 10);
    WordMovesOn(r.w11, m, t, 11);
    WordMovesOn(r.w12, m, t, 12);
    WordMovesOn(r.w13, m, t, 13);
    WordMovesOn(r.w14, m, t, 14);
    WordMovesOn(r.w15, m, t, 15);
  }

  lemma WordMovesOn(w: Word, m: Block, t: nat, i: nat)
    requires i < 16 && WordAt(w, WordsFrom(m, t, 32), i + 16)
    ensures WordAt(w, WordsFrom(m, t + 16, 32), i)
  {
    hide Schedule;
    assert t + (i + 16) == t + 16 + i;
  }

  lemma FirstWindow(m: Block)
    ensures var r := Registers(m[0], m[1], m[2], m[3], m[4], m[5], m[6], m[7],
                               m[8], m[9], m[10], m[11], m[12], m[13], m[14], m[15]);
            LowAt(r, WordsFrom(m, 0, 32), 0) && HighAt(r, WordsFrom(m, 0, 32), 8)
  {
    assert forall i :: 0 <= i < 16 ==> WordsFrom(m, 0, 32)[i] == m[i];
  }

  /** The 64 `ROUND` lines, which both unrolled forms share. */
  method UnrolledRounds(start: State, r: Registers) returns (s: State)
    ensures s == Rounds(start, r.Words(), 64)
  {
    hide Rounds, Schedule, LowAt, HighAt, WordsFrom;
    ghost var m := r.Words();
    FirstWindow(m);
    GroupsAreTheTable();
    s := FirstSixteen(start, r, m);
    var next;
    s, next := NextSixteen(s, r, GROUP2, start, m, 16);
    NextWindow(next, m, 0);
    s, next := NextSixteen(s, next, GROUP3, start, m, 32);
    NextWindow(next, m, 16);
    s, next := NextSixteen(s, next, GROUP4, start, m, 48);
  }

  /** `compress` of the unrolled kernel: arrays loaded into registers first. */
  method CompressUnrolled(st: array<Word>, w: array<Word>)
    requires st.Length == 8 && w.Length == 16
    modifies st
    ensures StateOf(st) == Compress(old(StateOf(st)), old(w[..]))
  {
    hide Rounds, AddState;
    var r := Registers(w[0], w[1], w[2], w[3], w[4], w[5], w[6], w[7],
                       w[8], w[9], w[10], w[11], w[12], w[13], w[14], w[15]);
    assert r.Words() == w[..];
    var s := UnrolledRounds(State(st[0], st[1], st[2], st[3], st[4], st[5], st[6], st[7]), r);
    AddInto(st, s);
  }

  /** `SHA256_COMPRESS_SCALAR` of the modern kernels: state and message are registers throughout. What the macro
      leaves in the message registers is not used, every call sets all sixteen. */
  method CompressScalar(start: State, r: Registers) returns (out: State)
    ensures out == Compress(start, r.Words())
  {
    hide Rounds, Add;
    var s := UnrolledRounds(start, r);
    out := State(Add(start.a, s.a), Add(start.b, s.b), Add(start.c, s.c), Add(start.d, s.d),
                 Add(start.e, s.e), Add(start.f, s.f), Add(start.g, s.g), Add(start.h, s.h));
  }
}
