/**
 Building a mining job from the pool's fields (miner.c): extranonce2 text, coinbase, Merkle root, the 80-byte header
 and the target. Strings are C strings: no character is a terminator.
 */
module JobBuilder {
  import opened Words
  import opened Sha256
  import opened Sha256d
  import opened Targets
  import opened OpensslSha
  import opened Difficulty
  import opened Hex
  import opened Scan

  /** `%0*llx` with twice the size as width. An empty text when there is no size, or no room for it. */
  function FormatExtranonce2(outSize: nat, size: int, value: U64): string {
    var chars := size * 2;
    if chars <= 0 || chars + 1 > outSize then ""
    else
      var text := Padded(value, chars);
      if |text| < outSize then text else text[..outSize - 1]
  }

  lemma {:induction false} HexitsFit(v: nat, width: nat)
    requires width > 0 && v < Pow16(width)
    ensures |Hexits(v)| <= width
  {
    DigitsNeeded(v, width);
  }

  lemma SixteenDigits()
    ensures Pow16(16) == U64_LIMIT
  {
    assert Pow16(4) == 0x1_0000;
    assert Pow16(8) == 0x1_0000_0000;
    assert Pow16(12) == 0x1_0000_0000_0000;
  }

  /** In the 32-byte buffer of a job no text is cut short. */
  lemma ExtranonceIsNotCut(size: int, value: U64)
    requires 0 < size <= 15
    ensures FormatExtranonce2(32, size, value) == Padded(value, size * 2)
    ensures 0 < |Padded(value, size * 2)| < 32
  {
    hide Hexits, Pow16;
    SixteenDigits();
    HexitsFit(value, 16);
  }

  /** The buffer is usable for sizes 1 to 15. */
  lemma ExtranonceEmptyIff(size: int, value: U64)
    ensures FormatExtranonce2(32, size, value) == "" <==> size <= 0 || size > 15
  {
    hide Padded;
    if 0 < size <= 15 {
      ExtranonceIsNotCut(size, value);
    }
  }

  /** Different values never print the same text, even when the size changed in between. */
  lemma ExtranoncesDiffer(size1: int, value1: U64, size2: int, value2: U64)
    requires 0 < size1 <= 15 && 0 < size2 <= 15 && value1 != value2
    ensures FormatExtranonce2(32, size1, value1) != FormatExtranonce2(32, size2, value2)
  {
    hide Padded, FormatExtranonce2;
    ExtranonceIsNotCut(size1, value1);
    ExtranonceIsNotCut(size2, value2);
    PaddedReadsBack(value1, size1 * 2);
    PaddedReadsBack(value2, size2 * 2);
  }

  /** The text has the size the pool asked for exactly when the value fits that many bytes; a larger counter prints a
      longer text. */
  lemma ExtranonceSizeIff(size: int, value: U64)
    requires 0 < size <= 15
    ensures |FormatExtranonce2(32, size, value)| == 2 * size <==> value < Pow16(2 * size)
  {
    hide Padded, FormatExtranonce2, Pow16;
    ExtranonceIsNotCut(size, value);
    PaddedWidth(value, 2 * size);
  }

  /** A one-byte extranonce2 already prints three digits for the counter's 256th value. */
  lemma ExtranonceOverflows()
    ensures FormatExtranonce2(32, 1, 256) == "100"
  {
    assert Hexits(1) == "1";
    assert Hexits(16) == "10";
    assert Hexits(256) == "100";
  }

  // The header

  /** `hex_u32_to_le`: four decoded bytes, reversed. */
  ghost function ReversedWord(hex: string): (bytes: seq<Byte>)
    requires Decodes(hex, 4)
    ensures |bytes| == 4
  {
    var b := Decoded(hex);
    [b[3], b[2], b[1], b[0]]
  }

  method HexU32ToLe(hex: string) returns (bytes: Option<seq<Byte>>)
    ensures bytes.Some? <==> Decodes(hex, 4)
    ensures bytes.Some? ==> bytes.value == ReversedWord(hex)
  {
    hide Decoded;
    var tmp := HexToBytes(hex, 4);
    if tmp.None? {
      return None;
    }
    var b := tmp.value;
    return Some([b[3], b[2], b[1], b[0]]);
  }

  /** Every group of four bytes reversed. */
  function SwapWords(b: seq<Byte>): (r: seq<Byte>)
    requires |b| % 4 == 0
    ensures |r| == |b|
  {
    if |b| == 0 then []
    else
      var n := |b|;
      SwapWords(b[..n - 4]) + [b[n - 1], b[n - 2], b[n - 3], b[n - 4]]
  }

  /** `prevhash_to_header_bytes`: eight words, each decoded and reversed on its own. */
  method PrevhashToHeaderBytes(hex: string) returns (bytes: Option<seq<Byte>>)
    ensures bytes.Some? <==> Decodes(hex, 32)
    ensures bytes.Some? ==> bytes.value == SwapWords(Decoded(hex))
  {
    hide HexValue, ByteAt, Decoded, SwapWords;
    if |hex| != 64 {
      return None;
    }
    var out := [];
    assert hex[..0] == "";
    NothingSwapped();
    for i := 0 to 8
      invariant |out| == 4 * i && IsHex(hex[..8 * i]) && out == SwapWords(Decoded(hex[..8 * i]))
    {
      var chunk := hex[8 * i..8 * i + 8];
      var word := HexU32ToLe(chunk);
      if word.None? {
        ChunkFails(hex, 8 * i);
        return None;
      }
      NextChunk(hex[..8 * i], chunk);
      assert hex[..8 * (i + 1)] == hex[..8 * i] + chunk;
      out := out + word.value;
    }
    assert hex[..64] == hex;
    return Some(out);
  }

  lemma NothingSwapped()
    ensures SwapWords(Decoded("")) == []
  {
  }

  lemma ChunkFails(hex: string, at: nat)
    requires at + 8 <= |hex| && !IsHex(hex[at..at + 8])
    ensures !IsHex(hex)
  {
    hide HexValue;
    var i :| 0 <= i < 8 && HexValue(hex[at..at + 8][i]) < 0;
    assert HexValue(hex[at + i]) < 0;
  }

  lemma NextChunk(before: string, chunk: string)
    requires |before| % 8 == 0 && IsHex(before) && Decodes(chunk, 4)
    ensures IsHex(before + chunk)
    ensures SwapWords(Decoded(before + chunk)) == SwapWords(Decoded(before)) + ReversedWord(chunk)
  {
    hide HexValue, ByteAt, Decoded, IsHex;
    DecodedSplit(before, chunk);
    SwapNext(Decoded(before), Decoded(chunk));
  }

  lemma DecodedSplit(x: string, y: string)
    requires |x| % 2 == 0 && |y| % 2 == 0 && IsHex(x) && IsHex(y)
    ensures IsHex(x + y) && Decoded(x + y) == Decoded(x) + Decoded(y)
  {
    hide HexValue, ByteOf;
    var m := |x| / 2;
    forall k | 0 <= k < |y| / 2
      ensures Decoded(x + y)[m + k] == Decoded(y)[k]
    {
      assert (x + y)[2 * (m + k)] == y[2 * k] && (x + y)[2 * (m + k) + 1] == y[2 * k + 1];
    }
  }

  lemma SwapNext(x: seq<Byte>, y: seq<Byte>)
    requires |x| % 4 == 0 && |y| == 4
    ensures SwapWords(x + y) == SwapWords(x) + [y[3], y[2], y[1], y[0]]
  {
    assert (x + y)[..|x|] == x;
  }

  /** Byte `i` comes from the mirror place in its group of four. */
  lemma {:induction false} SwapAt(b: seq<Byte>, i: nat)
    requires |b| % 4 == 0 && i < |b|
    ensures 0 <= 4 * (i / 4) + 3 - i % 4 < |b|
    ensures SwapWords(b)[i] == b[4 * (i / 4) + 3 - i % 4]
  {
    var n := |b|;
    if i < n - 4 {
      SwapAt(b[..n - 4], i);
    } else {
      assert n == 4 * (n / 4) && i / 4 == n / 4 - 1;
    }
  }

  /** Swapping twice gives the bytes back. */
  lemma {:induction false} SwapTwice(b: seq<Byte>)
    requires |b| % 4 == 0
    ensures SwapWords(SwapWords(b)) == b
  {
    if |b| > 0 {
      var n := |b|;
      var x, y := b[..n - 4], [b[n - 4], b[n - 3], b[n - 2], b[n - 1]];
      LastFour(b);
      SwapTwice(x);
      SwapNext(x, y);
      SwapNext(SwapWords(x), [y[3], y[2], y[1], y[0]]);
    }
  }

  lemma LastFour<T>(s: seq<T>)
    requires |s| >= 4
    ensures s == s[..|s| - 4] + [s[|s| - 4], s[|s| - 3], s[|s| - 2], s[|s| - 1]]
  {
  }

  /** A header field written by `hex_u32_to_le` holds, little-endian, the number its text shows. */
  lemma FieldIsNumber(hex: string)
    requires Decodes(hex, 4)
    ensures LittleEndian(ReversedWord(hex)) == Number(hex)
  {
    hide HexValue, ByteOf, ByteAt;
    ByteIsPair(hex, 0);
    ByteIsPair(hex, 1);
    ByteIsPair(hex, 2);
    ByteIsPair(hex, 3);
    FourBytes(ReversedWord(hex));
    EightDigits(hex);
  }

  lemma ByteIsPair(hex: string, i: nat)
    requires 2 * i + 1 < |hex| && IsHex(hex)
    ensures ByteAt(hex, i) as int == 16 * HexValue(hex[2 * i]) + HexValue(hex[2 * i + 1])
  {
    hide HexValue, ByteOf;
    ByteOfIs(16 * HexValue(hex[2 * i]) + HexValue(hex[2 * i + 1]));
  }

  lemma FourBytes(b: seq<Byte>)
    requires |b| == 4
    ensures LittleEndian(b) == b[0] as int + 256 * (b[1] as int + 256 * (b[2] as int + 256 * b[3] as int))
  {
    assert LittleEndian(b[1..][1..][1..][1..]) == 0;
    assert LittleEndian(b[1..][1..][1..]) == b[3] as int;
    assert LittleEndian(b[1..][1..]) == b[2] as int + 256 * b[3] as int;
  }

  lemma NextDigit(s: string, i: nat)
    requires i < |s|
    ensures Number(s[..i + 1]) == 16 * Number(s[..i]) + HexValue(s[i])
  {
    hide HexValue;
    assert s[..i + 1][..i] == s[..i];
  }

  lemma EightDigits(s: string)
    requires |s| == 8
    ensures Number(s) == 16 * (16 * (16 * (16 * (16 * (16 * (16 * HexValue(s[0]) + HexValue(s[1])) + HexValue(s[2]))
                       + HexValue(s[3])) + HexValue(s[4])) + HexValue(s[5])) + HexValue(s[6])) + HexValue(s[7])
  {
    hide HexValue, Number;
    NextDigit(s, 0);
    NextDigit(s, 1);
    NextDigit(s, 2);
    NextDigit(s, 3);
    NextDigit(s, 4);
    NextDigit(s, 5);
    NextDigit(s, 6);
    NextDigit(s, 7);
    assert s[..8] == s;
    NumberOfNothing(s);
  }

  lemma NumberOfNothing(s: string)
    ensures Number(s[..0]) == 0
  {
  }

  // The job

  /** The fields of a `mining.notify` message. */
  datatype Template = Template(jobId: string, prevhash: string, coinb1: string, coinb2: string, merkle: seq<string>,
                               version: string, nbits: string, ntime: string)

  type Target = b: seq<Byte> | |b| == 32 witness Zeros(32)

  /** `miner_job_t`. */
  datatype Job = Job(sequence: U64, jobId: string, extranonce2: string, ntime: string, header: Header, target: Target)

  function CoinbaseText(t: Template, extranonce1: string, extranonce2: string): string {
    t.coinb1 + extranonce1 + extranonce2 + t.coinb2
  }

  /** What the fields have to look like for a job to be built. */
  ghost predicate Buildable(t: Template, extranonce1: string, extranonce2: string) {
    && |t.jobId| < 128 && |extranonce2| < 32 && |t.ntime| < 16
    && |CoinbaseText(t, extranonce1, extranonce2)| % 2 == 0 && IsHex(CoinbaseText(t, extranonce1, extranonce2))
    && (forall i :: 0 <= i < |t.merkle| ==> Decodes(t.merkle[i], 32))
    && Decodes(t.version, 4) && Decodes(t.prevhash, 32) && Decodes(t.ntime, 4) && Decodes(t.nbits, 4)
  }

  /** Where a job was built with an extranonce2 of an even number of digits, the counter's next text builds one exactly
      when its number of digits is even too. */
  lemma BuildableIffEven(t: Template, extranonce1: string, text: string, size: int, value: U64)
    requires 0 < size <= 15 && Buildable(t, extranonce1, text) && |text| % 2 == 0
    ensures var next := FormatExtranonce2(32, size, value);
            next != "" && (Buildable(t, extranonce1, next) <==> |next| % 2 == 0)
  {
    hide Padded, FormatExtranonce2, HexValue;
    ExtranonceIsNotCut(size, value);
    PaddedIsHex(value, size * 2);
    HexAround(t.coinb1 + extranonce1, text, FormatExtranonce2(32, size, value), t.coinb2);
  }

  lemma HexAround(front: string, text: string, next: string, rest: string)
    requires IsHex(front + text + rest) && IsHex(next)
    ensures IsHex(front + next + rest)
  {
    hide HexValue;
    var was, now := front + text + rest, front + next + rest;
    forall i | 0 <= i < |now|
      ensures HexValue(now[i]) >= 0
    {
      if i < |front| {
        assert was[i] == now[i];
      } else if i >= |front| + |next| {
        assert was[i - |next| + |text|] == now[i];
      } else {
        assert now[i] == next[i - |front|];
      }
    }
  }

  /** With a one-byte extranonce2 the counter's values 256 to 4095 print three digits. */
  lemma ThreeDigits(value: U64)
    requires 256 <= value < 4096
    ensures |FormatExtranonce2(32, 1, value)| == 3
  {
    hide Hexits;
    ExtranonceIsNotCut(1, value);
    assert Pow16(2) == 256 && Pow16(3) == 4096;
    DigitsNeeded(value, 2);
    DigitsNeeded(value, 3);
  }

  ghost function Branch(hex: string): (hash: seq<Byte>)
    requires Decodes(hex, 32)
    ensures |hash| == 32
  {
    Decoded(hex)
  }

  /** The Merkle root of the coinbase under the first `n` branches. */
  ghost function MerkleRoot(coinbase: seq<Byte>, merkle: seq<string>, n: nat): (root: seq<Byte>)
    requires n <= |merkle| && forall i :: 0 <= i < n ==> Decodes(merkle[i], 32)
    ensures |root| == 32
  {
    if n == 0 then DoubleDigest(coinbase)
    else DoubleDigest(MerkleRoot(coinbase, merkle, n - 1) + Branch(merkle[n - 1]))
  }

  function Assemble(version: seq<Byte>, prevhash: seq<Byte>, root: seq<Byte>, ntime: seq<Byte>, nbits: seq<Byte>)
    : Header
    requires |version| == |ntime| == |nbits| == 4 && |prevhash| == |root| == 32
  {
    version + prevhash + root + ntime + nbits + Zeros(4)
  }

  ghost function Prevhash(hex: string): (bytes: seq<Byte>)
    requires Decodes(hex, 32)
    ensures |bytes| == 32
  {
    SwapWords(Decoded(hex))
  }

  ghost function CoinbaseBytes(t: Template, extranonce1: string, extranonce2: string): seq<Byte>
    requires Buildable(t, extranonce1, extranonce2)
  {
    Decoded(CoinbaseText(t, extranonce1, extranonce2))
  }

  ghost function RootOf(t: Template, extranonce1: string, extranonce2: string): (root: seq<Byte>)
    requires Buildable(t, extranonce1, extranonce2)
    ensures |root| == 32
  {
    MerkleRoot(CoinbaseBytes(t, extranonce1, extranonce2), t.merkle, |t.merkle|)
  }

  ghost function HeaderOf(t: Template, extranonce1: string, extranonce2: string): Header
    requires Buildable(t, extranonce1, extranonce2)
  {
    Assemble(ReversedWord(t.version), Prevhash(t.prevhash), RootOf(t, extranonce1, extranonce2),
             ReversedWord(t.ntime), ReversedWord(t.nbits))
  }

  /** The job the fields describe. */
  ghost function JobOf(t: Template, extranonce1: string, extranonce2: string, difficulty: real, undefinedCast: U32): Job
    requires Buildable(t, extranonce1, extranonce2)
  {
    Job(0, t.jobId, extranonce2, t.ntime, HeaderOf(t, extranonce1, extranonce2),
        BytesOf(TargetNumber(difficulty, undefinedCast), 32))
  }

  /** `sha256d_data`. */
  method DoubleHash(data: seq<Byte>) returns (hash: seq<Byte>)
    requires |data| < 0x2000_0000_0000_0000
    ensures hash == DoubleDigest(data) && |hash| == 32
  {
    hide Digest;
    var first := HashMessage(data);
    var second := HashMessage(first[..]);
    hash := second[..];
  }

  /** The loop over the Merkle branches. */
  method FoldMerkle(coinbase: seq<Byte>, merkle: seq<string>) returns (root: Option<seq<Byte>>)
    requires |coinbase| < 0x2000_0000_0000_0000
    ensures root.Some? <==> forall i :: 0 <= i < |merkle| ==> Decodes(merkle[i], 32)
    ensures root.Some? ==> root.value == MerkleRoot(coinbase, merkle, |merkle|)
  {
    hide DoubleDigest, Decoded, IsHex;
    var hash := DoubleHash(coinbase);
    for i := 0 to |merkle|
      invariant forall k :: 0 <= k < i ==> Decodes(merkle[k], 32)
      invariant hash == MerkleRoot(coinbase, merkle, i) && |hash| == 32
    {
      var branch := HexToBytes(merkle[i], 32);
      if branch.None? {
        return None;
      }
      hash := DoubleHash(hash + branch.value);
    }
    return Some(hash);
  }

  /** Strings, coinbase and Merkle branches checked; the version word, previous hash, time and bits decoded. */
  method FillHeader(t: Template, root: seq<Byte>) returns (header: Option<Header>)
    requires |root| == 32
    ensures header.Some? <==>
              Decodes(t.version, 4) && Decodes(t.prevhash, 32) && Decodes(t.ntime, 4) && Decodes(t.nbits, 4)
    ensures header.Some? ==> header.value == Assemble(ReversedWord(t.version), Prevhash(t.prevhash), root,
                                                      ReversedWord(t.ntime), ReversedWord(t.nbits))
  {
    hide Decoded, IsHex, SwapWords, ReversedWord;
    var version := HexU32ToLe(t.version);
    if version.None? {
      return None;
    }
    var prevhash := PrevhashToHeaderBytes(t.prevhash);
    if prevhash.None? {
      return None;
    }
    var ntime := HexU32ToLe(t.ntime);
    if ntime.None? {
      return None;
    }
    var nbits := HexU32ToLe(t.nbits);
    if nbits.None? {
      return None;
    }
    return Some(Assemble(version.value, prevhash.value, root, ntime.value, nbits.value));
  }

  /** `miner_build_job`. The bound is the longest coinbase SHA-256 is defined for. */
  method BuildJob(t: Template, extranonce1: string, extranonce2: string, difficulty: real, undefinedCast: U32)
    returns (job: Option<Job>)
    requires |CoinbaseText(t, extranonce1, extranonce2)| < 0x2000_0000_0000_0000
    ensures job.Some? <==> Buildable(t, extranonce1, extranonce2)
    ensures job.Some? ==> job.value == JobOf(t, extranonce1, extranonce2, difficulty, undefinedCast)
  {
    hide Decoded, IsHex, SwapWords, ReversedWord, MerkleRoot, TargetNumber, LittleEndian, BytesOf;
    if |t.jobId| >= 128 || |extranonce2| >= 32 || |t.ntime| >= 16 {
      return None;
    }
    var text := CoinbaseText(t, extranonce1, extranonce2);
    if |text| % 2 != 0 {
      return None;
    }
    var coinbase := HexToBytes(text, |text| / 2);
    if coinbase.None? {
      return None;
    }
    var root := FoldMerkle(coinbase.value, t.merkle);
    if root.None? {
      return None;
    }
    var header := FillHeader(t, root.value);
    if header.None? {
      return None;
    }
    var target := TargetFromDifficulty(difficulty, undefinedCast);
    BytesOfLittleEndian(target);
    return Some(Job(0, t.jobId, extranonce2, t.ntime, header.value, target));
  }

  /** Version, time and bits stand in the header as little-endian numbers, the previous hash with every word
      swapped, the Merkle root as it is, and the nonce is zero. */
  ghost predicate LaidOut(h: Header, t: Template, prevhash: seq<Byte>, root: seq<Byte>) {
    && LittleEndian(h[0..4]) == Number(t.version)
    && SwapWords(h[4..36]) == prevhash
    && h[36..68] == root
    && LittleEndian(h[68..72]) == Number(t.ntime)
    && LittleEndian(h[72..76]) == Number(t.nbits)
    && WithNonce(h, 0) == h
  }

  /** The coinbase is the four parts in this order, each at its place: printed as hexadecimal digits and cut where the
      parts end, it gives them back in lower case. */
  lemma CoinbaseLayout(t: Template, extranonce1: string, extranonce2: string)
    requires Buildable(t, extranonce1, extranonce2)
    ensures var text := Encoded(CoinbaseBytes(t, extranonce1, extranonce2));
            var i := |t.coinb1|;
            var j := i + |extranonce1|;
            var k := j + |extranonce2|;
            && |text| == k + |t.coinb2|
            && text[..i] == LowerText(t.coinb1) && text[i..j] == LowerText(extranonce1)
            && text[j..k] == LowerText(extranonce2) && text[k..] == LowerText(t.coinb2)
  {
    hide Encoded, Decoded, IsHex, Hex.Lower;
    DecodedEncodes(CoinbaseText(t, extranonce1, extranonce2));
  }

  /** The transactions of a block as a tree: every inner node hashes the hashes of its two parts. */
  datatype Tree = Leaf(data: seq<Byte>) | Inner(left: Tree, right: Tree)

  function TreeHash(tree: Tree): (hash: seq<Byte>)
    ensures |hash| == 32
  {
    match tree
    case Leaf(data) => DoubleDigest(data)
    case Inner(left, right) => DoubleDigest(TreeHash(left) + TreeHash(right))
  }

  function FirstLeaf(tree: Tree): seq<Byte> { if tree.Leaf? then tree.data else FirstLeaf(tree.left) }

  /** The hashes of the parts that the way up from the first leaf meets on its right. */
  function Siblings(tree: Tree): seq<seq<Byte>> {
    if tree.Leaf? then [] else Siblings(tree.left) + [TreeHash(tree.right)]
  }

  /** For any tree whose first transaction is the coinbase, the branches are all that is needed for its root. */
  lemma {:induction false} RootIsTreeHash(tree: Tree, merkle: seq<string>)
    requires |merkle| == |Siblings(tree)|
    requires forall i :: 0 <= i < |merkle| ==> Decodes(merkle[i], 32) && Branch(merkle[i]) == Siblings(tree)[i]
    ensures MerkleRoot(FirstLeaf(tree), merkle, |merkle|) == TreeHash(tree)
  {
    hide Branch, DoubleDigest, Decodes;
    if tree.Inner? {
      var n := |merkle| - 1;
      RootIsTreeHash(tree.left, merkle[..n]);
      FirstBranchesOnly(FirstLeaf(tree), merkle, merkle[..n], n);
    }
  }

  lemma {:induction false} FirstBranchesOnly(coinbase: seq<Byte>, a: seq<string>, b: seq<string>, n: nat)
    requires n <= |a| && n <= |b| && forall i :: 0 <= i < n ==> a[i] == b[i] && Decodes(a[i], 32)
    ensures MerkleRoot(coinbase, a, n) == MerkleRoot(coinbase, b, n)
  {
    hide Branch, DoubleDigest, Decodes;
    if n > 0 {
      FirstBranchesOnly(coinbase, a, b, n - 1);
    }
  }

  lemma HeaderLayout(t: Template, extranonce1: string, extranonce2: string)
    requires Buildable(t, extranonce1, extranonce2)
    ensures LaidOut(HeaderOf(t, extranonce1, extranonce2), t, Branch(t.prevhash), RootOf(t, extranonce1, extranonce2))
  {
    hide Decoded, IsHex, SwapWords, ReversedWord, MerkleRoot, Number, LittleEndian, WithNonce, Assemble;
    FieldIsNumber(t.version);
    FieldIsNumber(t.ntime);
    FieldIsNumber(t.nbits);
    SwapTwice(Decoded(t.prevhash));
    Fields(ReversedWord(t.version), Prevhash(t.prevhash), RootOf(t, extranonce1, extranonce2),
           ReversedWord(t.ntime), ReversedWord(t.nbits));
  }

  lemma Fields(version: seq<Byte>, prevhash: seq<Byte>, root: seq<Byte>, ntime: seq<Byte>, nbits: seq<Byte>)
    requires |version| == |ntime| == |nbits| == 4 && |prevhash| == |root| == 32
    ensures var h := Assemble(version, prevhash, root, ntime, nbits);
            h[0..4] == version && h[4..36] == prevhash && h[36..68] == root && h[68..72] == ntime && h[72..76] == nbits
            && WithNonce(h, 0) == h
  {
    hide PutLe32, NonceWord, Zeros;
    ZeroNonce();
    var h := Assemble(version, prevhash, root, ntime, nbits);
    assert h == h[..76] + Zeros(4);
  }

  lemma ZeroNonce()
    ensures PutLe32(NonceWord(0)) == Zeros(4)
  {
  }
}
