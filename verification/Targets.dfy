/**
 Comparing a hash with a target. Both are 256-bit numbers stored least significant byte first; the code compares them
 byte by byte (miner.c) or word by word after swapping each hash word (sha256d.c, sha256d_arm_sha2.c and the kernels).
 */
module Targets {
  import opened Words
  import opened Sha256

  /** The number a byte string stands for, least significant byte first. */
  function LittleEndian(b: seq<Byte>): nat {
    if |b| == 0 then 0 else b[0] as int + 256 * LittleEndian(b[1..])
  }

  // Numbers of a given size

  function Pow256(n: nat): (p: nat)
    ensures p > 0
  {
    if n == 0 then 1 else 256 * Pow256(n - 1)
  }

  function LowByte(v: nat): Byte { ByteOf(v % 256) }

  /** The `length` low bytes of a number, least significant first. */
  function BytesOf(v: nat, length: nat): (b: seq<Byte>)
    ensures |b| == length
  {
    if length == 0 then [] else [LowByte(v)] + BytesOf(v / 256, length - 1)
  }

  /** A byte string is the little-endian image of its own number. */
  lemma {:induction false} BytesOfLittleEndian(b: seq<Byte>)
    ensures BytesOf(LittleEndian(b), |b|) == b
  {
    hide ByteOf;
    if |b| > 0 {
      BytesOfLittleEndian(b[1..]);
      ByteIsItsNumber(b[0]);
      assert LittleEndian(b) / 256 == LittleEndian(b[1..]);
    }
  }

  lemma {:induction false} LittleEndianBelow(b: seq<Byte>)
    ensures LittleEndian(b) < Pow256(|b|)
  {
    if |b| > 0 {
      LittleEndianBelow(b[1..]);
      ByteIsItsNumber(b[0]);
    }
  }

  /** A number that fits is read back from its bytes. */
  lemma {:induction false} LittleEndianOfBytes(v: nat, length: nat)
    requires v < Pow256(length)
    ensures LittleEndian(BytesOf(v, length)) == v
  {
    hide ByteOf;
    if length > 0 {
      LittleEndianOfBytes(v / 256, length - 1);
      ByteOfIs(v % 256);
      assert BytesOf(v, length)[1..] == BytesOf(v / 256, length - 1);
    }
  }

  /** The byte image of words written least significant byte first. */
  function LeBytes(w: seq<Word>): (b: seq<Byte>)
    ensures |b| == 4 * |w|
  {
    if |w| == 0 then [] else LeBytes(w[..|w| - 1]) + PutLe32(w[|w| - 1])
  }

  /** The proof-of-work test: the digest bytes, read little-endian, do not exceed the target. */
  predicate HashMeets(hash: seq<Byte>, target: seq<Byte>) {
    LittleEndian(hash) <= LittleEndian(target)
  }

  predicate WordsMeet(hashWords: seq<Word>, targetWords: seq<Word>) {
    HashMeets(WordsToBytes(hashWords), LeBytes(targetWords))
  }

  /** The loop `target_words[i] = load_le32(target + 4 * i)` of `miner_set_job`. */
  function LoadTarget(target: seq<Byte>): (w: seq<Word>)
    requires |target| == 32
    ensures |w| == 8
  {
    seq(8, i requires 0 <= i < 8 => LoadLe32(target[4 * i..4 * i + 4]))
  }

  /** The most significant byte that differs decides. */
  lemma {:induction false} FirstDifferenceDecides(x: seq<Byte>, y: seq<Byte>, i: nat)
    requires |x| == |y| && i < |x|
    requires x[i] < y[i] && forall k :: i < k < |x| ==> x[k] == y[k]
    ensures LittleEndian(x) < LittleEndian(y)
  {
    if i == 0 {
      assert x[0] as int < y[0] as int;
      assert x[1..] == y[1..];
    } else {
      FirstDifferenceDecides(x[1..], y[1..], i - 1);
      assert x[0] as int < 256;
    }
  }

  /** `miner_hash_meets_target`. */
  method BytesMeetTarget(hash: seq<Byte>, target: seq<Byte>) returns (ok: bool)
    requires |hash| == |target| == 32
    ensures ok <==> LittleEndian(hash) <= LittleEndian(target)
  {
    hide LittleEndian;
    var i := 31;
    while i >= 0
      invariant -1 <= i < 32
      invariant forall k :: i < k < 32 ==> hash[k] == target[k]
    {
      if hash[i] < target[i] {
        FirstDifferenceDecides(hash, target, i);
        return true;
      }
      if hash[i] > target[i] {
        FirstDifferenceDecides(target, hash, i);
        return false;
      }
      i := i - 1;
    }
    assert hash == target;
    return true;
  }

  // Words

  predicate Below(a: Word, b: Word) { a < b }

  /** Inside a word, too, the most significant byte that differs decides. */
  lemma ByteDecidesWord(x: seq<Byte>, y: seq<Byte>, j: nat)
    requires |x| == |y| == 4 && j < 4
    requires x[j] < y[j] && forall k :: j < k < 4 ==> x[k] == y[k]
    ensures Below(LoadLe32(x), LoadLe32(y))
  {
    assert j == 0 || j == 1 || j == 2 || j == 3;
    BytesBelow(x[0], x[1], x[2], x[3], y[0], y[1], y[2], y[3]);
  }

  lemma BytesBelow(a0: Byte, a1: Byte, a2: Byte, a3: Byte, b0: Byte, b1: Byte, b2: Byte, b3: Byte)
    requires a3 < b3 || (a3 == b3 && (a2 < b2 || (a2 == b2 && (a1 < b1 || (a1 == b1 && a0 < b0)))))
    ensures (a0 as Word) | ((a1 as Word) << 8) | ((a2 as Word) << 16) | ((a3 as Word) << 24)
          < (b0 as Word) | ((b1 as Word) << 8) | ((b2 as Word) << 16) | ((b3 as Word) << 24)
  {
  }

  lemma BelowIsAsymmetric(a: Word, b: Word)
    requires Below(a, b)
    ensures !Below(b, a) && a != b
  {
  }

  lemma {:induction false} LeWordOfBytes(w: seq<Word>, i: nat)
    requires i < |w|
    ensures LeBytes(w)[4 * i..4 * i + 4] == PutLe32(w[i])
  {
    hide PutLe32;
    var last := |w| - 1;
    if i < last {
      LeWordOfBytes(w[..last], i);
      assert LeBytes(w)[4 * i..4 * i + 4] == LeBytes(w[..last])[4 * i..4 * i + 4];
    }
  }

  /** Byte `j` of word `i` of a 256-bit number, most significant difference first. */
  function HighestDifference(u: seq<Byte>, v: seq<Byte>): (j: nat)
    requires |u| == |v| == 4
    ensures j < 4 && forall k :: j < k < 4 ==> u[k] == v[k]
    ensures u != v ==> u[j] != v[j]
  {
    if u[3] != v[3] then 3 else if u[2] != v[2] then 2 else if u[1] != v[1] then 1
    else assert u == [u[0], u[1], u[2], u[3]] && v == [v[0], v[1], v[2], v[3]]; 0
  }

  lemma SmallerWordHasSmallerByte(u: seq<Byte>, v: seq<Byte>)
    requires |u| == |v| == 4 && Below(LoadLe32(u), LoadLe32(v))
    ensures u[HighestDifference(u, v)] < v[HighestDifference(u, v)]
  {
    hide LoadLe32, HighestDifference, Below;
    var j := HighestDifference(u, v);
    BelowIsAsymmetric(LoadLe32(u), LoadLe32(v));
    if v[j] < u[j] {
      ByteDecidesWord(v, u, j);
      assert false;
    }
  }

  lemma WordsAreOrdered(a: Word, b: Word)
    ensures Below(a, b) || Below(b, a) || a == b
  {
    hide LoadLe32, PutLe32, HighestDifference, Below;
    var u, v := PutLe32(a), PutLe32(b);
    LoadPutLe32(a);
    LoadPutLe32(b);
    if u != v {
      var j := HighestDifference(u, v);
      if u[j] < v[j] {
        ByteDecidesWord(u, v, j);
      } else {
        ByteDecidesWord(v, u, j);
      }
    }
  }

  /** If the words above `i` agree and word `i` is smaller, the whole number is smaller. */
  lemma WordDecides(x: seq<Byte>, y: seq<Byte>, i: nat)
    requires |x| == |y| == 32 && i < 8
    requires forall k :: 4 * i + 4 <= k < 32 ==> x[k] == y[k]
    requires Below(LoadLe32(x[4 * i..4 * i + 4]), LoadLe32(y[4 * i..4 * i + 4]))
    ensures LittleEndian(x) < LittleEndian(y)
  {
    hide LittleEndian, LoadLe32, HighestDifference, Below;
    var u, v := x[4 * i..4 * i + 4], y[4 * i..4 * i + 4];
    var j := HighestDifference(u, v);
    SmallerWordHasSmallerByte(u, v);
    assert forall k :: 0 <= k < 4 ==> u[k] == x[4 * i + k] && v[k] == y[4 * i + k];
    forall k | 4 * i + j < k < 32 ensures x[k] == y[k] {
      assert k < 4 * i + 4 ==> x[k] == u[k - 4 * i] && y[k] == v[k - 4 * i];
    }
    FirstDifferenceDecides(x, y, 4 * i + j);
  }

  lemma SameWordSameBytes(x: seq<Byte>, y: seq<Byte>, i: nat)
    requires |x| == |y| == 32 && i < 8
    requires LoadLe32(x[4 * i..4 * i + 4]) == LoadLe32(y[4 * i..4 * i + 4])
    ensures forall k :: 4 * i <= k < 4 * i + 4 ==> x[k] == y[k]
  {
    hide LoadLe32, PutLe32;
    var u, v := x[4 * i..4 * i + 4], y[4 * i..4 * i + 4];
    PutLoadLe32(u);
    PutLoadLe32(v);
    assert forall k :: 4 * i <= k < 4 * i + 4 ==> x[k] == u[k - 4 * i] && y[k] == v[k - 4 * i];
  }

  /** The two byte images agree from word `i` up. */
  ghost predicate SameFrom(hashWords: seq<Word>, targetWords: seq<Word>, i: nat)
    requires |hashWords| == |targetWords| == 8
  {
    forall k :: 4 * i <= k < 32 ==> WordsToBytes(hashWords)[k] == LeBytes(targetWords)[k]
  }

  /** One step of the word loop, with the words above `i` already found equal. */
  lemma WordStep(hashWords: seq<Word>, targetWords: seq<Word>, i: nat)
    requires |hashWords| == |targetWords| == 8 && i < 8
    requires SameFrom(hashWords, targetWords, i + 1)
    ensures Below(Bswap32(hashWords[i]), targetWords[i]) ==> WordsMeet(hashWords, targetWords)
    ensures Below(targetWords[i], Bswap32(hashWords[i])) ==> !WordsMeet(hashWords, targetWords)
    ensures Bswap32(hashWords[i]) == targetWords[i] ==> SameFrom(hashWords, targetWords, i)
  {
    hide LittleEndian, LoadLe32, Bswap32, LeBytes, WordsToBytes, Below;
    var x, y := WordsToBytes(hashWords), LeBytes(targetWords);
    LoadedWords(hashWords, targetWords, i);
    if Below(Bswap32(hashWords[i]), targetWords[i]) {
      WordDecides(x, y, i);
    }
    if Below(targetWords[i], Bswap32(hashWords[i])) {
      WordDecides(y, x, i);
    }
    if Bswap32(hashWords[i]) == targetWords[i] {
      SameWordSameBytes(x, y, i);
    }
  }

  /** `hash_words_meet_target`: swap each hash word and compare from word 7 down. */
  method WordsMeetTarget(hashWords: seq<Word>, targetWords: seq<Word>) returns (ok: bool)
    requires |hashWords| == |targetWords| == 8
    ensures ok <==> WordsMeet(hashWords, targetWords)
    ensures ok <==> LittleEndian(WordsToBytes(hashWords)) <= LittleEndian(LeBytes(targetWords))
  {
    hide LittleEndian, Bswap32, LeBytes, WordsToBytes, Below;
    var i := 7;
    while i >= 0
      invariant -1 <= i < 8
      invariant SameFrom(hashWords, targetWords, i + 1)
    {
      var h := Bswap32(hashWords[i]);
      var t := targetWords[i];
      WordStep(hashWords, targetWords, i);
      if Below(h, t) {
        return true;
      }
      if Below(t, h) {
        return false;
      }
      WordsAreOrdered(h, t);
      i := i - 1;
    }
    assert WordsToBytes(hashWords) == LeBytes(targetWords);
    return true;
  }

  lemma LoadedWords(hashWords: seq<Word>, targetWords: seq<Word>, i: nat)
    requires |hashWords| == |targetWords| && i < |hashWords|
    ensures LoadLe32(WordsToBytes(hashWords)[4 * i..4 * i + 4]) == Bswap32(hashWords[i])
    ensures LoadLe32(LeBytes(targetWords)[4 * i..4 * i + 4]) == targetWords[i]
  {
    hide LoadLe32, LoadBe32, PutBe32, PutLe32, Bswap32, LeBytes, WordsToBytes;
    WordOfBytes(hashWords, i);
    LeWordOfBytes(targetWords, i);
    LoadPutBe32(hashWords[i]);
    SwapIsOtherOrder(hashWords[i], PutBe32(hashWords[i]));
    LoadPutLe32(targetWords[i]);
  }

  /** Loading a target as words loses nothing, so both loops decide the same question about the same bytes. */
  lemma LoadTargetKeepsBytes(target: seq<Byte>)
    requires |target| == 32
    ensures LeBytes(LoadTarget(target)) == target
  {
    hide LoadLe32, PutLe32, LeBytes;
    var b := LeBytes(LoadTarget(target));
    forall k | 0 <= k < 32 ensures b[k] == target[k] {
      var i := k / 4;
      LeWordOfBytes(LoadTarget(target), i);
      PutLoadLe32(target[4 * i..4 * i + 4]);
      assert b[k] == b[4 * i..4 * i + 4][k - 4 * i] && target[k] == target[4 * i..4 * i + 4][k - 4 * i];
    }
  }
}
