/**
 The two loops that openssl_sha.c and sha256d.c both contain: filling the 64-word schedule in place, and the 64 rounds
 over eight local variables.
 */
module ScalarRounds {
  import opened Words
  import opened Sha256

  /** The schedule loop: extends the block in `w[0..16)` to all 64 words. */
  method ExpandSchedule(w: array<Word>)
    requires w.Length == 64
    modifies w
    ensures w[..16] == old(w[..16])
    ensures forall t :: 0 <= t < 64 ==> w[t] == Schedule(w[..16], t)
  {
    hide Add, SmallSigma0, SmallSigma1, Schedule;
    ghost var m := w[..16];
    FirstWords(m);
    for i := 16 to 64
      invariant forall t :: 0 <= t < i ==> w[t] == Schedule(m, t)
    {
      LaterWord(m, i - 16);
      var s0 := SmallSigma0(w[i - 15]);
      var s1 := SmallSigma1(w[i - 2]);
      w[i] := Add(Add(Add(w[i - 16], s0), w[i - 7]), s1);
    }
    assert w[..16] == m;
  }

  /** The 64-round loop over a full schedule. */
  method RunRounds(start: State, w: array<Word>, ghost m: Block) returns (s: State)
    requires w.Length == 64
    requires forall t :: 0 <= t < 64 ==> w[t] == Schedule(m, t)
    ensures s == Rounds(start, m, 64)
  {
    hide Add, BigSigma0, BigSigma1, Ch, Maj;
    var a, b, c, d, e, f, g, h := start.a, start.b, start.c, start.d, start.e, start.f, start.g, start.h;
    for i := 0 to 64
      invariant State(a, b, c, d, e, f, g, h) == Rounds(start, m, i)
    {
      var s1 := BigSigma1(e);
      var ch := Ch(e, f, g);
      var temp1 := Add(Add(Add(Add(h, s1), ch), K[i]), w[i]);
      var s0 := BigSigma0(a);
      var maj := Maj(a, b, c);
      var temp2 := Add(s0, maj);
      h := g;
      g := f;
      f := e;
      e := Add(d, temp1);
      d := c;
      c := b;
      b := a;
      a := Add(temp1, temp2);
    }
    return State(a, b, c, d, e, f, g, h);
  }
}
