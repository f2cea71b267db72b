/**
 The streaming SHA-256 of compat/openssl_sha.c. A context absorbs a message in pieces of any size; `message` is the
 ghost record of everything absorbed so far, and `Valid` says what the context's own fields know about it.
 */
module OpensslSha {
  import opened Words
  import opened Sha256
  import opened ScalarRounds

  ghost function StateOf(h: array<Word>): State
    requires h.Length == 8
    reads h
  {
    State(h[0], h[1], h[2], h[3], h[4], h[5], h[6], h[7])
  }

  /** The 16 `load_be32` calls that open a transform. */
  method LoadBlock(data: seq<Byte>) returns (w: array<Word>)
    requires |data| == 64
    ensures fresh(w) && w.Length == 64 && w[..16] == BlockWords(data)
  {
    hide LoadBe32;
    w := new Word[64];
    for i := 0 to 16
      invariant forall t :: 0 <= t < i ==> w[t] == BlockWord(data, t)
    {
      w[i] := LoadBe32(data[i * 4..i * 4 + 4]);
    }
  }

  method CopyOf<T>(a: array<T>) returns (copy: array<T>)
    ensures fresh(copy) && copy.Length == a.Length && copy[..] == a[..]
  {
    copy := new T[a.Length](i requires 0 <= i < a.Length reads a => a[i]);
  }

  class Context {
    const h: array<Word>
    var bytes: U64
    const block: array<Byte>
    var used: nat
    ghost var message: seq<Byte>
    ghost var full: nat  // whole blocks of `message` already compressed

    ghost predicate Shaped() {
      h.Length == 8 && block.Length == 64
    }

    /** The state words hold the whole blocks of the message, the first `end` bytes of the buffer the rest of it. */
    ghost predicate Buffered(end: nat)
      reads `message, `full, h, block
    {
      && Shaped()
      && end <= 64 && |message| == 64 * full + end
      && block[..end] == message[64 * full..]
      && StateOf(h) == HashBlocks(INITIAL, message, full)
    }

    ghost predicate Absorbed()
      reads `used, `message, `full, h, block
    {
      Shaped() && used < 64 && Buffered(used)
    }

    ghost predicate Valid()
      reads this, h, block
    {
      Absorbed() && bytes == Wrap64(|message|)
    }

    /** `SHA256_Init`. */
    constructor ()
      ensures Valid() && fresh(h) && fresh(block)
      ensures message == []
    {
      h := new Word[8];
      bytes := 0;
      used := 0;
      block := new Byte[64](_ => 0);
      message, full := [], 0;
      new;
      SetState(INITIAL);
    }

    /** The structure assignment `SHA256_CTX ctx = state->ctx`. */
    constructor Copy(other: Context)
      requires other.Valid()
      ensures Valid() && fresh(h) && fresh(block)
      ensures message == other.message && StateOf(h) == StateOf(other.h)
    {
      var words := CopyOf(other.h);
      var bytesHeld := CopyOf(other.block);
      h := words;
      bytes := other.bytes;
      used := other.used;
      block := bytesHeld;
      message, full := other.message, other.full;
      new;
      assert block[..used] == other.block[..used];
      assert forall k :: 0 <= k < 8 ==> h[k] == h[..][k] && other.h[k] == other.h[..][k];
    }

    method SetState(s: State)
      requires Shaped()
      modifies h
      ensures StateOf(h) == s
    {
      h[0], h[1], h[2], h[3], h[4], h[5], h[6], h[7] := s.a, s.b, s.c, s.d, s.e, s.f, s.g, s.h;
    }

    /** `SHA256_Transform`: one compression of `data` into the eight state words. */
    method Transform(data: seq<Byte>)
      requires Shaped() && |data| == 64
      modifies h
      ensures StateOf(h) == Compress(old(StateOf(h)), BlockWords(data))
    {
      hide Add, Rounds, Schedule, BlockWords;
      var start := State(h[0], h[1], h[2], h[3], h[4], h[5], h[6], h[7]);
      var w := LoadBlock(data);
      ExpandSchedule(w);
      var s := RunRounds(start, w, BlockWords(data));
      SetState(AddState(start, s));
    }

    /** `SHA256_Update`: absorb `data`, compressing each time the block fills. */
    method Update(data: seq<Byte>)
      requires Valid()
      modifies this, h, block
      ensures Valid()
      ensures message == old(message) + data
    {
      hide Buffered;
      bytes := Wrap64(bytes + |data|);
      var p := 0;
      while p < |data|
        invariant p <= |data| && Absorbed()
        invariant message == old(message) + data[..p]
        invariant bytes == Wrap64(|old(message)| + |data|)
      {
        var take := 64 - used;
        if take > |data| - p {
          take := |data| - p;
        }
        Absorb(data[p..p + take]);
        assert data[..p + take] == data[..p] + data[p..p + take];
        p := p + take;
      }
      assert data[..p] == data;
    }

    /** One turn of the `SHA256_Update` loop: the piece fits in the room left in the block. */
    method Absorb(piece: seq<Byte>)
      requires Absorbed() && 0 < |piece| <= 64 - used
      modifies this`used, this`message, this`full, h, block
      ensures Absorbed()
      ensures message == old(message) + piece
    {
      Store(used, piece);
      used := used + |piece|;
      if used == 64 {
        Flush();
        used := 0;
      }
    }

    /** `memcpy` or `memset` into the buffer at `at`. */
    method Store(at: nat, piece: seq<Byte>)
      requires Buffered(at) && at + |piece| <= 64
      modifies this`message, block
      ensures Buffered(at + |piece|)
      ensures message == old(message) + piece
    {
      hide HashBlocks, StateOf;
      forall k | 0 <= k < |piece| {
        block[at + k] := piece[k];
      }
      HashBlocksPrefix(INITIAL, message, message + piece, full);
      message := message + piece;
    }

    /** `SHA256_Transform(ctx, ctx->block)` on a full buffer. */
    method Flush()
      requires Buffered(64)
      modifies this`full, h
      ensures Buffered(0)
    {
      hide HashBlocks, Compress, BlockWords, StateOf;
      assert block[..] == block[..64];
      Transform(block[..]);
      ghost var whole := message[..64 * full];
      HashBlocksPrefix(INITIAL, message, whole, full);
      assert message == whole + block[..];
      HashAppendBlock(INITIAL, whole, block[..], full);
      full := full + 1;
    }

    /** `SHA256_Final`: append the padding of section 5.1.1 and write the digest to `md`. */
    method Final(md: array<Byte>)
      requires Valid() && md.Length == 32 && md != block
      modifies this, h, block, md
      ensures old(|message|) < 0x2000_0000_0000_0000 ==> md[..] == Digest(old(message))
    {
      hide HashBlocks, BigEndian, WordsToBytes, StateOf, Zeros, ZeroCount;
      var bits := Wrap64(bytes * 8);
      AppendPadding(bits);
      WriteState(md);
      assert message[..64 * full] == message;
      if |old(message)| < 0x2000_0000_0000_0000 {
        assert bits == 8 * |old(message)|;
        assert message == Pad(old(message));
      }
    }

    /** The zero padding and the length that end `SHA256_Final`. */
    method AppendPadding(bits: U64)
      requires Absorbed()
      modifies this, h, block
      ensures Buffered(0)
      ensures message == old(message) + [0x80] + Zeros(ZeroCount(|old(message)|)) + BigEndian(bits, 8)
    {
      hide HashBlocks, BigEndian, StateOf, Zeros, ZeroCount;
      ghost var original := message;
      ghost var spilled := AppendMarker();
      ZerosAppend(spilled, 56 - used);
      Store(used, Zeros(56 - used));
      assert message == original + [0x80] + Zeros(ZeroCount(|original|));
      PutBe64(bits);
      Flush();
    }

    /** The 0x80 marker, and the block that has to be closed early when the length no longer fits. */
    method AppendMarker() returns (ghost spilled: nat)
      requires Absorbed()
      modifies this, h, block
      ensures used <= 56 && Buffered(used)
      ensures message == old(message) + [0x80] + Zeros(spilled)
      ensures spilled + (56 - used) == ZeroCount(|old(message)|)
    {
      hide HashBlocks, StateOf, ZeroCount;
      ZeroCountIs(|message|, full, used);
      Store(used, [0x80]);
      used := used + 1;
      spilled := 0;
      if used > 56 {
        spilled := 64 - used;
        Store(used, Zeros(64 - used));
        Flush();
        used := 0;
      }
    }

    /** `put_be64(ctx->block + 56, v)`: eight bytes from the last to the first. */
    method PutBe64(v: U64)
      requires Buffered(56)
      modifies this`message, block
      ensures Buffered(64)
      ensures message == old(message) + BigEndian(v, 8)
    {
      hide HashBlocks, StateOf;
      HashBlocksPrefix(INITIAL, message, message + BigEndian(v, 8), full);
      var rest: int := v;
      var i := 7;
      while i >= 0
        modifies block
        invariant -1 <= i <= 7 && rest >= 0
        invariant block[..56] == old(block[..56])
        invariant BigEndian(v, 8) == BigEndian(rest, i + 1) + block[57 + i..]
      {
        label Turn:
        block[56 + i] := (rest % 256) as Byte;
        assert block[56 + i..] == [(rest % 256) as Byte] + old@Turn(block[57 + i..]);
        rest := rest / 256;
        i := i - 1;
      }
      message := message + BigEndian(v, 8);
      assert block[..64] == block[..56] + block[56..];
    }

    /** The closing `put_be32` loop. */
    method WriteState(md: array<Byte>)
      requires Shaped() && md.Length == 32 && md != block
      modifies md
      ensures md[..] == WordsToBytes(StateWords(StateOf(h)))
    {
      hide PutBe32, WordsToBytes;
      ghost var words := StateWords(StateOf(h));
      assert words == h[..];
      assert words[..0] == [];
      assert WordsToBytes([]) == [];
      for i := 0 to 8
        invariant md[..4 * i] == WordsToBytes(words[..i])
      {
        WordsToBytesStep(words, i);
        Put4(md, 4 * i, h[i]);
      }
      assert words[..8] == words && md[..32] == md[..];
    }

    /** `put_be32(md + at, v)`. */
    static method Put4(md: array<Byte>, at: nat, v: Word)
      requires at + 4 <= md.Length
      modifies md
      ensures md[..at + 4] == old(md[..at]) + PutBe32(v)
    {
      hide PutBe32;
      var b := PutBe32(v);
      md[at], md[at + 1], md[at + 2], md[at + 3] := b[0], b[1], b[2], b[3];
    }
  }

  /** The one-shot `SHA256`. */
  method HashMessage(data: seq<Byte>) returns (md: array<Byte>)
    ensures fresh(md) && md.Length == 32
    ensures |data| < 0x2000_0000_0000_0000 ==> md[..] == Digest(data)
  {
    hide Digest;
    md := new Byte[32];
    var ctx := new Context();
    ctx.Update(data);
    assert [] + data == data;
    ctx.Final(md);
  }

  function Concat(pieces: seq<seq<Byte>>): seq<Byte> {
    if |pieces| == 0 then [] else Concat(pieces[..|pieces| - 1]) + pieces[|pieces| - 1]
  }

  /** However a message is cut into `SHA256_Update` calls, empty pieces included, the digest is that of the whole. */
  method HashPieces(pieces: seq<seq<Byte>>) returns (md: array<Byte>)
    ensures fresh(md) && md.Length == 32
    ensures |Concat(pieces)| < 0x2000_0000_0000_0000 ==> md[..] == Digest(Concat(pieces))
  {
    hide Digest;
    md := new Byte[32];
    var ctx := new Context();
    for i := 0 to |pieces|
      invariant ctx.Valid() && fresh(ctx) && fresh(ctx.h) && fresh(ctx.block) && md != ctx.block
      invariant ctx.message == Concat(pieces[..i])
    {
      ctx.Update(pieces[i]);
      assert pieces[..i + 1][..i] == pieces[..i];
    }
    assert pieces[..|pieces|] == pieces;
    ctx.Final(md);
  }
}
