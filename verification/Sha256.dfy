/**
 SHA-256 as FIPS 180-4 defines it: the constants of sections 4.2.2 and 5.3.3, the message schedule and rounds of
 section 6.2.2, the padding of section 5.1.1. The portable, OpenSSL, ARM and OpenCL implementations are proved against
 these functions; those for x86 SHA-NI and CUDA are not part of this model.
 */
module Sha256 {
  import opened Words

  const K: seq<Word> :=
    [0x428a2f98, 0x71374491, 0xb5c0fbcf, 0xe9b5dba5, 0x3956c25b, 0x59f111f1, 0x923f82a4, 0xab1c5ed5,
     0xd807aa98, 0x12835b01, 0x243185be, 0x550c7dc3, 0x72be5d74, 0x80deb1fe, 0x9bdc06a7, 0xc19bf174] +
    [0xe49b69c1, 0xefbe4786, 0x0fc19dc6, 0x240ca1cc, 0x2de92c6f, 0x4a7484aa, 0x5cb0a9dc, 0x76f988da,
     0x983e5152, 0xa831c66d, 0xb00327c8, 0xbf597fc7, 0xc6e00bf3, 0xd5a79147, 0x06ca6351, 0x14292967] +
    [0x27b70a85, 0x2e1b2138, 0x4d2c6dfc, 0x53380d13, 0x650a7354, 0x766a0abb, 0x81c2c92e, 0x92722c85,
     0xa2bfe8a1, 0xa81a664b, 0xc24b8b70, 0xc76c51a3, 0xd192e819, 0xd6990624, 0xf40e3585, 0x106aa070] +
    [0x19a4c116, 0x1e376c08, 0x2748774c, 0x34b0bcb5, 0x391c0cb3, 0x4ed8aa4a, 0x5b9cca4f, 0x682e6ff3,
     0x748f82ee, 0x78a5636f, 0x84c87814, 0x8cc70208, 0x90befffa, 0xa4506ceb, 0xbef9a3f7, 0xc67178f2]

  /** The eight working variables, which are also the eight words of the hash value. */
  datatype State = State(a: Word, b: Word, c: Word, d: Word, e: Word, f: Word, g: Word, h: Word)

  const INITIAL: State := State(
    0x6a09e667, 0xbb67ae85, 0x3c6ef372, 0xa54ff53a, 0x510e527f, 0x9b05688c, 0x1f83d9ab, 0x5be0cd19)

  /** The sixteen message words of one block. */
  type Block = s: seq<Word> | |s| == 16 witness seq(16, _ => 0)

  // Section 6.2.2

  /** The first `n` words of the message schedule. */
  function Expanded(m: Block, n: nat): (w: seq<Word>)
    ensures |w| == n
  {
    if n == 0 then [] else Expanded(m, n - 1) + [NextWord(m, Expanded(m, n - 1))]
  }

  /** The word that follows the words `w` of the schedule. */
  function NextWord(m: Block, w: seq<Word>): Word {
    var t := |w|;
    if t < 16 then m[t] else Add(Add(Add(w[t - 16], SmallSigma0(w[t - 15])), w[t - 7]), SmallSigma1(w[t - 2]))
  }

  /** Word `t` of the message schedule. */
  function Schedule(m: Block, t: nat): Word { Expanded(m, t + 1)[t] }

  function T1(s: State, k: Word, w: Word): Word {
    Add(Add(Add(Add(s.h, BigSigma1(s.e)), Ch(s.e, s.f, s.g)), k), w)
  }

  function T2(s: State): Word { Add(BigSigma0(s.a), Maj(s.a, s.b, s.c)) }

  function Round(s: State, k: Word, w: Word): State {
    State(Add(T1(s, k, w), T2(s)), s.a, s.b, s.c, Add(s.d, T1(s, k, w)), s.e, s.f, s.g)
  }

  /** The working variables after the first `t` rounds. */
  function Rounds(s: State, m: Block, t: nat): State
    requires t <= 64
  {
    if t == 0 then s else Round(Rounds(s, m, t - 1), K[t - 1], Schedule(m, t - 1))
  }

  function AddState(x: State, y: State): State {
    State(Add(x.a, y.a), Add(x.b, y.b), Add(x.c, y.c), Add(x.d, y.d),
          Add(x.e, y.e), Add(x.f, y.f), Add(x.g, y.g), Add(x.h, y.h))
  }

  function Compress(s: State, m: Block): State { AddState(s, Rounds(s, m, |K|)) }

  // Section 5.2.1: bytes to blocks

  function BlockWord(data: seq<Byte>, i: nat): Word
    requires 4 * i + 4 <= |data|
  {
    LoadBe32(data[4 * i..4 * i + 4])
  }

  function BlockWords(data: seq<Byte>): Block
    requires |data| == 64
  {
    seq(16, i requires 0 <= i < 16 => BlockWord(data, i))
  }

  /** The hash value after the first `n` blocks of `data` have been folded in, in order. */
  function HashBlocks(s: State, data: seq<Byte>, n: nat): State
    requires 64 * n <= |data|
  {
    if n == 0 then s
    else Compress(HashBlocks(s, data, n - 1), BlockWords(data[64 * (n - 1)..64 * n]))
  }

  // Section 5.1.1: padding

  function Zeros(n: nat): (z: seq<Byte>)
    ensures |z| == n
  {
    seq(n, _ => 0)
  }

  lemma ZerosAppend(m: nat, n: nat)
    ensures Zeros(m) + Zeros(n) == Zeros(m + n)
  {
  }

  /** `n` in `length` bytes, most significant first. */
  function BigEndian(n: nat, length: nat): (b: seq<Byte>)
    ensures |b| == length
  {
    if length == 0 then [] else BigEndian(n / 256, length - 1) + [(n % 256) as Byte]
  }

  /** How many zero bytes follow the 0x80 marker: the fewest that leave eight bytes in the last block. */
  function ZeroCount(length: nat): nat { (55 - length) % 64 }

  lemma ZeroCountIs(length: nat, full: nat, used: nat)
    requires length == 64 * full + used && used < 64
    ensures ZeroCount(length) == if used < 56 then 55 - used else 119 - used
  {
    var slack: int := 55 - length;
    assert slack % 64 == if used < 56 then 55 - used else 119 - used;
  }

  function Pad(message: seq<Byte>): (padded: seq<Byte>)
    ensures |padded| % 64 == 0
  {
    message + [0x80] + Zeros(ZeroCount(|message|)) + BigEndian(8 * |message|, 8)
  }

  // Section 6.2.2, last step: the digest

  function StateWords(s: State): (w: seq<Word>)
    ensures |w| == 8
  {
    [s.a, s.b, s.c, s.d, s.e, s.f, s.g, s.h]
  }

  function FromWords(w: seq<Word>): State
    requires |w| == 8
  {
    State(w[0], w[1], w[2], w[3], w[4], w[5], w[6], w[7])
  }

  function WordsToBytes(w: seq<Word>): (b: seq<Byte>)
    ensures |b| == 4 * |w|
  {
    if |w| == 0 then [] else WordsToBytes(w[..|w| - 1]) + PutBe32(w[|w| - 1])
  }

  function Digest(message: seq<Byte>): (d: seq<Byte>)
    ensures |d| == 32
  {
    WordsToBytes(StateWords(HashBlocks(INITIAL, Pad(message), |Pad(message)| / 64)))
  }

  /** SHA-256 applied twice, the proof-of-work function. */
  function DoubleDigest(message: seq<Byte>): (d: seq<Byte>)
    ensures |d| == 32
  {
    Digest(Digest(message))
  }

  // Facts about the definitions that several implementations need

  lemma NextRound(s: State, m: Block, t: nat)
    requires t < 64
    ensures Rounds(s, m, t + 1) == Round(Rounds(s, m, t), K[t], Schedule(m, t))
  {
    hide Round, Schedule;
  }

  /** The words of the schedule stay where they are. */
  lemma {:induction false} ExpandedAt(m: Block, n: nat, t: nat)
    requires t < n
    ensures Expanded(m, n)[t] == Schedule(m, t)
  {
    hide NextWord;
    if t < n - 1 {
      ExpandedAt(m, n - 1, t);
    }
  }

  /** The first sixteen words are those of the block. */
  lemma FirstWords(m: Block)
    ensures forall t :: 0 <= t < 16 ==> Schedule(m, t) == m[t]
  {
  }

  /** Each later word comes of four earlier ones. */
  lemma LaterWord(m: Block, t: nat)
    ensures Schedule(m, t + 16) ==
            Add(Add(Add(Schedule(m, t), SmallSigma0(Schedule(m, t + 1))), Schedule(m, t + 9)),
                SmallSigma1(Schedule(m, t + 14)))
  {
    hide Add, SmallSigma0, SmallSigma1;
    ExpandedAt(m, t + 16, t);
    ExpandedAt(m, t + 16, t + 1);
    ExpandedAt(m, t + 16, t + 9);
    ExpandedAt(m, t + 16, t + 14);
  }

  /** Only the blocks that are folded in matter. */
  lemma {:induction false} HashBlocksPrefix(s: State, x: seq<Byte>, y: seq<Byte>, n: nat)
    requires 64 * n <= |x| && 64 * n <= |y|
    requires x[..64 * n] == y[..64 * n]
    ensures HashBlocks(s, x, n) == HashBlocks(s, y, n)
  {
    hide Compress, BlockWords;
    if n > 0 {
      assert x[..64 * (n - 1)] == x[..64 * n][..64 * (n - 1)] == y[..64 * (n - 1)];
      assert x[64 * (n - 1)..64 * n] == x[..64 * n][64 * (n - 1)..] == y[64 * (n - 1)..64 * n];
      HashBlocksPrefix(s, x, y, n - 1);
    }
  }

  /** Appending one block to a message of whole blocks compresses that block into the value so far. */
  lemma HashAppendBlock(s: State, whole: seq<Byte>, block: seq<Byte>, n: nat)
    requires |whole| == 64 * n && |block| == 64
    ensures HashBlocks(s, whole + block, n + 1) == Compress(HashBlocks(s, whole, n), BlockWords(block))
  {
    hide Compress, BlockWords;
    assert (whole + block)[..64 * n] == whole && (whole + block)[64 * n..64 * (n + 1)] == block;
    HashBlocksPrefix(s, whole + block, whole, n);
  }

  lemma WordsToBytesStep(w: seq<Word>, i: nat)
    requires i < |w|
    ensures WordsToBytes(w[..i + 1]) == WordsToBytes(w[..i]) + PutBe32(w[i])
  {
    hide PutBe32;
    assert w[..i + 1][..i] == w[..i];
  }

  lemma {:induction false} WordOfBytes(w: seq<Word>, i: nat)
    requires i < |w|
    ensures WordsToBytes(w)[4 * i..4 * i + 4] == PutBe32(w[i])
  {
    var last := |w| - 1;
    if i < last {
      WordOfBytes(w[..last], i);
      assert WordsToBytes(w)[4 * i..4 * i + 4] == WordsToBytes(w[..last])[4 * i..4 * i + 4];
    }
  }
}
