/**
 The double hash of an 80-byte block header (sha256d.c). The first 64 bytes are compressed once per job into a
 midstate; each nonce then costs two more compressions. `FinishState` is the specification of that tail computation,
 and `MidstateIsDoubleDigest` says it is SHA-256 applied twice to the whole header.
 */
module Sha256d {
  import opened Words
  import opened Sha256
  import opened ScalarRounds
  import opened OpensslSha

  type Header = b: seq<Byte> | |b| == 80 witness Zeros(80)
  type Tail = w: seq<Word> | |w| == 4 witness [0, 0, 0, 0]

  // Specification

  /** `words`, the end marker and a bit length, as one block. */
  function PadWords(words: seq<Word>, bits: Word): Block
    requires |words| <= 8
  {
    words + [0x80000000] + seq(14 - |words|, _ => 0) + [bits]
  }

  function TailBlock(tail: Tail): Block { PadWords(tail, 640) }

  function SecondBlock(first: State): Block { PadWords(StateWords(first), 256) }

  /** The final hash value for a header whose first block compressed to `mid` and whose last 16 bytes are `tail`. */
  function FinishState(mid: State, tail: Tail): State {
    Compress(INITIAL, SecondBlock(Compress(mid, TailBlock(tail))))
  }

  function MidstateOf(header: Header): State { Compress(INITIAL, BlockWords(header[..64])) }

  function TailOf(header: Header): Tail {
    [BlockWord(header, 16), BlockWord(header, 17), BlockWord(header, 18), BlockWord(header, 19)]
  }

  /** The 64 bytes `PadWords` stands for. */
  function PadBytes(words: seq<Word>, bits: nat): (b: seq<Byte>)
    requires |words| <= 8
    ensures |b| == 64
  {
    WordsToBytes(words) + [0x80] + Zeros(55 - 4 * |words|) + BigEndian(bits, 8)
  }

  lemma BigEndianSmall(n: nat)
    requires n < 65536
    ensures BigEndian(n, 8) == Zeros(6) + [(n / 256) as Byte, (n % 256) as Byte]
  {
    BigEndianZero(6);
    assert n / 256 / 256 == 0 && n / 256 % 256 == n / 256;
    assert BigEndian(n, 8) == BigEndian(n / 256, 7) + [(n % 256) as Byte];
    assert BigEndian(n / 256, 7) == BigEndian(0, 6) + [(n / 256) as Byte];
  }

  lemma {:induction false} BigEndianZero(length: nat)
    ensures BigEndian(0, length) == Zeros(length)
  {
    if length > 0 {
      BigEndianZero(length - 1);
    }
  }

  /** The padded bytes load back as the padded words, for the two lengths the code uses. */
  lemma PadBytesLoad(words: seq<Word>, n: nat, bits: Word)
    requires |words| <= 8
    requires (n == 640 && bits == 640) || (n == 256 && bits == 256)
    ensures BlockWords(PadBytes(words, n)) == PadWords(words, bits)
  {
    hide LoadBe32, PutBe32, WordsToBytes, BigEndian;
    var b := PadBytes(words, n);
    var w := PadWords(words, bits);
    BigEndianSmall(n);
    forall i | 0 <= i < 16 ensures BlockWord(b, i) == w[i] {
      PadBytesWord(words, n, i);
      if i < |words| {
        LoadPutBe32(words[i]);
      } else {
        LoadPadding();
      }
    }
  }

  lemma PadBytesWord(words: seq<Word>, n: nat, i: nat)
    requires |words| <= 8 && i < 16 && n < 65536
    ensures PadBytes(words, n)[4 * i..4 * i + 4] ==
            if i < |words| then PutBe32(words[i])
            else if i == |words| then [0x80, 0, 0, 0]
            else if i < 15 then [0, 0, 0, 0]
            else [0, 0, (n / 256) as Byte, (n % 256) as Byte]
  {
    hide PutBe32, WordsToBytes, BigEndian;
    BigEndianSmall(n);
    if i < |words| {
      WordOfBytes(words, i);
      assert PadBytes(words, n)[4 * i..4 * i + 4] == WordsToBytes(words)[4 * i..4 * i + 4];
    }
  }

  lemma LoadPadding()
    ensures LoadBe32([0x80, 0, 0, 0]) == 0x80000000
    ensures LoadBe32([0, 0, 0, 0]) == 0
    ensures LoadBe32([0, 0, 2, 0x80]) == 640
    ensures LoadBe32([0, 0, 1, 0]) == 256
  {
  }

  /** The second hash, over the 32 bytes of the first digest. */
  lemma DigestOfDigest(first: State)
    ensures Digest(WordsToBytes(StateWords(first))) ==
            WordsToBytes(StateWords(Compress(INITIAL, SecondBlock(first))))
  {
    hide Compress, BlockWords, BigEndian, PadWords, StateWords, WordsToBytes;
    var words := StateWords(first);
    var bytes := WordsToBytes(words);
    assert Pad(bytes) == PadBytes(words, 256);
    assert [] + Pad(bytes) == Pad(bytes);
    HashAppendBlock(INITIAL, [], Pad(bytes), 0);
    PadBytesLoad(words, 256, 256);
  }

  /** The first hash, over the 80 bytes of the header. */
  lemma DigestOfHeader(header: Header)
    ensures Digest(header) ==
            WordsToBytes(StateWords(Compress(MidstateOf(header), TailBlock(TailOf(header)))))
  {
    hide Compress, BlockWords, BigEndian, PadWords, StateWords, WordsToBytes, BlockWord;
    var front, back := header[..64], PadBytes(TailOf(header), 640);
    TailBytes(header);
    assert Pad(header) == front + back;
    assert [] + front == front;
    HashAppendBlock(INITIAL, [], front, 0);
    HashAppendBlock(INITIAL, front, back, 1);
    PadBytesLoad(TailOf(header), 640, 640);
  }

  lemma TailBytes(header: Header)
    ensures WordsToBytes(TailOf(header)) == header[64..]
  {
    hide LoadBe32, PutBe32, WordsToBytes;
    var tail := TailOf(header);
    var b := WordsToBytes(tail);
    forall i | 0 <= i < 4 ensures b[4 * i..4 * i + 4] == header[64 + 4 * i..68 + 4 * i] {
      WordOfBytes(tail, i);
      assert tail[i] == LoadBe32(header[64 + 4 * i..68 + 4 * i]);
      PutLoadBe32(header[64 + 4 * i..68 + 4 * i]);
    }
    FourByFour(b);
    FourByFour(header[64..]);
    assert forall i :: 0 <= i < 4 ==> header[64..][4 * i..4 * i + 4] == header[64 + 4 * i..68 + 4 * i];
  }

  lemma FourByFour(b: seq<Byte>)
    requires |b| == 16
    ensures b == b[4 * 0..4 * 0 + 4] + b[4 * 1..4 * 1 + 4] + b[4 * 2..4 * 2 + 4] + b[4 * 3..4 * 3 + 4]
  {
  }

  /** Midstate correctness: the two-step computation is SHA-256 applied twice to the header. */
  lemma MidstateIsDoubleDigest(header: Header)
    ensures DoubleDigest(header) == WordsToBytes(StateWords(FinishState(MidstateOf(header), TailOf(header))))
  {
    hide Digest, Compress, TailBlock, SecondBlock, MidstateOf, TailOf;
    DigestOfHeader(header);
    DigestOfDigest(Compress(MidstateOf(header), TailBlock(TailOf(header))));
  }

  // The code

  /** `sha256d_80`. */
  method HashHeader(header: Header) returns (out: array<Byte>)
    ensures fresh(out) && out[..] == DoubleDigest(header)
  {
    hide Digest;
    var first := HashMessage(header);
    out := HashMessage(first[..]);
  }

  /** `sha256_compress_words`: compresses the block in `w[0..16)` into the state and leaves the schedule in `w`. */
  method CompressWords(state: array<Word>, w: array<Word>)
    requires state.Length == 8 && w.Length == 64 && state != w
    modifies state, w
    ensures StateOf(state) == Compress(old(StateOf(state)), old(w[..16]))
  {
    hide Add, Rounds, Schedule;
    ghost var m := w[..16];
    var start := State(state[0], state[1], state[2], state[3], state[4], state[5], state[6], state[7]);
    ExpandSchedule(w);
    var s := RunRounds(start, w, m);
    StoreState(state, AddState(start, s));
  }

  method StoreState(state: array<Word>, s: State)
    requires state.Length == 8
    modifies state
    ensures StateOf(state) == s && state[..] == StateWords(s)
  {
    state[0], state[1], state[2], state[3] := s.a, s.b, s.c, s.d;
    state[4], state[5], state[6], state[7] := s.e, s.f, s.g, s.h;
  }

  /** `sha256_midstate_t`: two streaming contexts for the OpenSSL-style path, eight words for the fast one. */
  class Midstate {
    const ctx: Context
    const secondCtx: Context
    const fastState: array<Word>

    ghost predicate Prepared(mid: State)
      reads this, fastState, ctx, ctx.h, ctx.block, secondCtx, secondCtx.h, secondCtx.block
    {
      && ctx.Valid() && StateOf(ctx.h) == mid
      && secondCtx.Valid() && StateOf(secondCtx.h) == INITIAL
      && fastState.Length == 8 && StateOf(fastState) == mid
    }

    /** `sha256d_80_midstate_prepare`. */
    constructor (first64: seq<Byte>)
      requires |first64| == 64
      ensures fresh(ctx) && fresh(ctx.h) && fresh(ctx.block) && fresh(fastState)
      ensures Prepared(Compress(INITIAL, BlockWords(first64)))
    {
      hide Compress, BlockWords, StateOf, Context.Buffered;
      var first := AbsorbFirstBlock(first64);
      var second := AbsorbNothing();
      var fast := new Word[8];
      StoreState(fast, INITIAL);
      var w := LoadBlock(first64);
      CompressWords(fast, w);
      ctx, secondCtx, fastState := first, second, fast;
    }

    /** `sha256d_80_midstate_hash_openssl`: build both padded blocks as bytes and transform context copies. */
    method HashOpenssl(tail: Tail, ghost mid: State) returns (out: seq<Word>)
      requires Prepared(mid)
      ensures out == StateWords(FinishState(mid, tail))
    {
      hide Compress, BlockWords, PutBe32, BigEndian, WordsToBytes, PadWords, Context.Buffered;
      var copy := new Context.Copy(ctx);
      var secondCopy := new Context.Copy(secondCtx);
      var firstBlock := PutWords(tail);
      firstBlock := firstBlock + [0x80] + Zeros(39) + BigEndian(640, 8);
      copy.Transform(firstBlock);
      PadBytesLoad(tail, 640, 640);
      assert copy.h[..] == StateWords(StateOf(copy.h));
      var secondBlock := PutWords(copy.h[..]);
      secondBlock := secondBlock + [0x80] + Zeros(23) + BigEndian(256, 8);
      secondCopy.Transform(secondBlock);
      PadBytesLoad(copy.h[..], 256, 256);
      out := secondCopy.h[..];
      assert out == StateWords(StateOf(secondCopy.h));
    }

    /** `sha256d_80_midstate_hash_fast_c`: the same two blocks written straight into the word array. */
    method HashFastC(tail: Tail, ghost mid: State) returns (out: seq<Word>)
      requires Prepared(mid)
      ensures out == StateWords(FinishState(mid, tail))
    {
      hide Compress, PadWords;
      var firstState := new Word[8];
      var secondState := new Word[8];
      var w := new Word[64];
      StoreState(firstState, State(fastState[0], fastState[1], fastState[2], fastState[3],
                                   fastState[4], fastState[5], fastState[6], fastState[7]));
      var first := CompressPadded(firstState, w, tail, 640);
      StoreState(secondState, INITIAL);
      out := CompressPadded(secondState, w, first, 256);
    }
  }

  method AbsorbFirstBlock(first64: seq<Byte>) returns (c: Context)
    requires |first64| == 64
    ensures fresh(c) && fresh(c.h) && fresh(c.block)
    ensures c.Valid() && StateOf(c.h) == Compress(INITIAL, BlockWords(first64))
  {
    hide Compress, BlockWords, StateOf;
    c := new Context();
    c.Update(first64);
    assert [] + first64 == first64;
    HashAppendBlock(INITIAL, [], first64, 0);
  }

  method AbsorbNothing() returns (c: Context)
    ensures fresh(c) && fresh(c.h) && fresh(c.block)
    ensures c.Valid() && StateOf(c.h) == INITIAL
  {
    hide StateOf;
    c := new Context();
  }

  /** Fill the first sixteen words with a padded block and compress it; the eight result words are also returned. */
  method CompressPadded(state: array<Word>, w: array<Word>, words: seq<Word>, bits: Word) returns (out: seq<Word>)
    requires state.Length == 8 && w.Length == 64 && state != w && |words| <= 8
    modifies state, w
    ensures out == StateWords(Compress(old(StateOf(state)), PadWords(words, bits)))
  {
    hide Compress, PadWords;
    FillPadded(w, words, bits);
    CompressWords(state, w);
    out := state[..];
  }

  /** The `put_be32` loops that copy words into a byte block. */
  method PutWords(words: seq<Word>) returns (bytes: seq<Byte>)
    ensures bytes == WordsToBytes(words)
  {
    hide PutBe32, WordsToBytes;
    bytes := [];
    assert words[..0] == [] && WordsToBytes([]) == [];
    for i := 0 to |words|
      invariant bytes == WordsToBytes(words[..i])
    {
      bytes := bytes + PutBe32(words[i]);
      WordsToBytesStep(words, i);
    }
    assert words[..|words|] == words;
  }

  /** Words, the 0x80000000 marker, the zeroing loop and the length, written into `w[0..16)`. */
  method FillPadded(w: array<Word>, words: seq<Word>, bits: Word)
    requires w.Length == 64 && |words| <= 8
    modifies w
    ensures w[..16] == PadWords(words, bits)
  {
    for i := 0 to |words|
      invariant w[..i] == words[..i]
    {
      w[i] := words[i];
    }
    w[|words|] := 0x80000000;
    for i := |words| + 1 to 15
      invariant w[..i] == words + [0x80000000] + seq(i - |words| - 1, _ => 0)
    {
      w[i] := 0;
    }
    w[15] := bits;
  }
}
