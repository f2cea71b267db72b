/**
 32-bit words and bytes as the C code handles them: wrap-around addition, the six logical functions of
 section 4.1.2 of FIPS 180-4, and the byte-order helpers that every hashing path shares.
 */
module Words {
  import Bytes

  type Byte = bv8
  type Word = bv32

  /** A `uint32_t` used as a number (a nonce, a count) rather than as a pattern of bits. */
  const U32_LIMIT: int := 0x1_0000_0000
  const U64_LIMIT: int := 0x1_0000_0000_0000_0000

  type U32 = x: int | 0 <= x < U32_LIMIT
  type U64 = x: int | 0 <= x < U64_LIMIT

  function Wrap32(x: int): U32 { x % U32_LIMIT }

  function Wrap64(x: int): U64 { x % U64_LIMIT }

  function Add(x: Word, y: Word): Word { x + y }

  // A rotation is two shifts, as in section 3.2 of FIPS 180-4.

  function BigSigma0(x: Word): Word { ((x >> 2) | (x << 30)) ^ ((x >> 13) | (x << 19)) ^ ((x >> 22) | (x << 10)) }

  function BigSigma1(x: Word): Word { ((x >> 6) | (x << 26)) ^ ((x >> 11) | (x << 21)) ^ ((x >> 25) | (x << 7)) }

  function SmallSigma0(x: Word): Word { ((x >> 7) | (x << 25)) ^ ((x >> 18) | (x << 14)) ^ (x >> 3) }

  function SmallSigma1(x: Word): Word { ((x >> 17) | (x << 15)) ^ ((x >> 19) | (x << 13)) ^ (x >> 10) }

  function Ch(x: Word, y: Word, z: Word): Word { (x & y) ^ (!x & z) }

  function Maj(x: Word, y: Word, z: Word): Word { (x & y) ^ (x & z) ^ (y & z) }

  lemma AddAssociative(x: Word, y: Word, z: Word)
    ensures Add(Add(x, y), z) == Add(x, Add(y, z))
  {
    calc {
      Add(Add(x, y), z);
      Add(x + y, z);
      x + y + z;
      Add(x, y + z);
      Add(x, Add(y, z));
    }
  }

  lemma AddCommutative(x: Word, y: Word)
    ensures Add(x, y) == Add(y, x)
  {
  }

  // Bytes and numbers

  /** A small number as a byte. */
  function ByteOf(x: nat): Byte
    requires x < 256
  {
    x as Byte
  }

  lemma ByteOfIs(x: nat)
    requires x < 256
    ensures ByteOf(x) as int == x
  {
    Bytes.RoundTrip(x);
  }

  lemma ByteIsItsNumber(b: Byte)
    ensures b as int < 256 && ByteOf(b as int) == b
  {
  }

  lemma Nibbles(b: Byte)
    ensures (b >> 4) as int == b as int / 16 && (b & 15) as int == b as int % 16
  {
    hide *;
  }

  // Byte order

  function LoadBe32(b: seq<Byte>): Word
    requires |b| == 4
  {
    ((b[0] as Word) << 24) | ((b[1] as Word) << 16) | ((b[2] as Word) << 8) | (b[3] as Word)
  }

  function LoadLe32(b: seq<Byte>): Word
    requires |b| == 4
  {
    (b[0] as Word) | ((b[1] as Word) << 8) | ((b[2] as Word) << 16) | ((b[3] as Word) << 24)
  }

  function PutBe32(v: Word): (b: seq<Byte>)
    ensures |b| == 4
  {
    [((v >> 24) & 0xff) as Byte, ((v >> 16) & 0xff) as Byte, ((v >> 8) & 0xff) as Byte, (v & 0xff) as Byte]
  }

  function PutLe32(v: Word): (b: seq<Byte>)
    ensures |b| == 4
  {
    [(v & 0xff) as Byte, ((v >> 8) & 0xff) as Byte, ((v >> 16) & 0xff) as Byte, ((v >> 24) & 0xff) as Byte]
  }

  function Bswap32(v: Word): Word {
    ((v & 0x000000ff) << 24) | ((v & 0x0000ff00) << 8) | ((v & 0x00ff0000) >> 8) | ((v & 0xff000000) >> 24)
  }

  lemma LoadPutBe32(v: Word)
    ensures LoadBe32(PutBe32(v)) == v
  {
  }

  lemma PutLoadBe32(b: seq<Byte>)
    requires |b| == 4
    ensures PutBe32(LoadBe32(b)) == b
  {
  }

  lemma LoadPutLe32(v: Word)
    ensures LoadLe32(PutLe32(v)) == v
  {
  }

  lemma PutLoadLe32(b: seq<Byte>)
    requires |b| == 4
    ensures PutLe32(LoadLe32(b)) == b
  {
  }

  /** Reading the big-endian image of a word little-endian swaps it, and the other way round. */
  lemma SwapIsOtherOrder(v: Word, b: seq<Byte>)
    requires |b| == 4
    ensures LoadBe32(PutLe32(v)) == Bswap32(v)
    ensures Bswap32(LoadBe32(b)) == LoadLe32(b)
    ensures PutLe32(v) == PutBe32(Bswap32(v))
  {
  }
}
