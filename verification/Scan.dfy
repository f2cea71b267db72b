/**
 Scanning a range of nonces. `ScanMatches` is the sequence of callbacks a scan makes; the plain loop of sha256d.c and
 the paired ARM loop with its odd tail are both proved to make exactly that sequence, whichever hashing path they use.
 */
module Scan {
  import opened Words
  import opened Sha256
  import opened Sha256d
  import opened Targets
  import ArmSha2
  import ArmPair

  /** One `on_match` call. */
  datatype Match = Match(nonce: U32, words: HashWords)

  type HashWords = w: seq<Word> | |w| == 8 witness seq(8, _ => 0)

  /** The backends the build contains. */
  datatype Backend = OpenSsl | FastC | Arm

  /** A nonce as a pattern of 32 bits. */
  function NonceWord(nonce: U32): Word { LoadLe32(BytesOf(nonce, 4)) }

  /** The pattern read as a number again. */
  function WordNonce(w: Word): (nonce: U32)
  {
    FourBytesBelow(PutLe32(w));
    LittleEndian(PutLe32(w))
  }

  lemma FourBytesBelow(b: seq<Byte>)
    requires |b| == 4
    ensures LittleEndian(b) < U32_LIMIT
  {
    hide LittleEndian, Pow256;
    LittleEndianBelow(b);
    FourBytesOfRoom();
  }

  lemma FourBytesOfRoom()
    ensures Pow256(4) == U32_LIMIT
  {
  }

  /** Writing a nonce as a word loses nothing, and its little-endian image are the nonce's bytes. */
  lemma NonceReadsBack(nonce: U32)
    ensures WordNonce(NonceWord(nonce)) == nonce && PutLe32(NonceWord(nonce)) == BytesOf(nonce, 4)
  {
    hide LittleEndian, Pow256, LoadLe32, PutLe32, BytesOf;
    FourBytesOfRoom();
    PutLoadLe32(BytesOf(nonce, 4));
    LittleEndianOfBytes(nonce, 4);
  }

  /** The tail words with `tail_words[3] = bswap32(nonce)`. */
  function TailWith(tail: Tail, nonce: U32): Tail {
    [tail[0], tail[1], tail[2], Bswap32(NonceWord(nonce))]
  }

  function NonceHash(mid: State, tail: Tail, nonce: U32): (words: seq<Word>)
    ensures |words| == 8
  {
    StateWords(FinishState(mid, TailWith(tail, nonce)))
  }

  /** What one nonce contributes: one callback, or none. */
  function MatchOf(mid: State, tail: Tail, target: seq<Word>, nonce: U32): seq<Match>
    requires |target| == 8
  {
    var words := NonceHash(mid, tail, nonce);
    if WordsMeet(words, target) then [Match(nonce, words)] else []
  }

  /** The callbacks for nonces `start`, `start + 1`, ..., modulo 2^32. */
  function ScanMatches(mid: State, tail: Tail, target: seq<Word>, start: U32, count: nat): seq<Match>
    requires |target| == 8
  {
    if count == 0 then []
    else ScanMatches(mid, tail, target, start, count - 1) + MatchOf(mid, tail, target, Wrap32(start + count - 1))
  }

  // The order of the callbacks

  /** Later callbacks have larger nonces, so no nonce comes twice. */
  ghost predicate Ascending(matches: seq<Match>) {
    forall i, j :: 0 <= i < j < |matches| ==> matches[i].nonce < matches[j].nonce
  }

  lemma {:induction false} HitInRange(mid: State, tail: Tail, target: seq<Word>, start: U32, count: nat, hit: Match)
    requires |target| == 8 && start + count <= U32_LIMIT && hit in ScanMatches(mid, tail, target, start, count)
    ensures start <= hit.nonce < start + count && hit in MatchOf(mid, tail, target, hit.nonce)
  {
    hide NonceHash, WordsMeet;
    if count > 0 && hit !in MatchOf(mid, tail, target, Wrap32(start + count - 1)) {
      HitInRange(mid, tail, target, start, count - 1, hit);
    }
  }

  /** A scan that does not run past 2^32 reports every nonce at most once, in ascending order. */
  lemma {:induction false} ScanAscends(mid: State, tail: Tail, target: seq<Word>, start: U32, count: nat)
    requires |target| == 8 && start + count <= U32_LIMIT
    ensures Ascending(ScanMatches(mid, tail, target, start, count))
  {
    hide NonceHash, WordsMeet, MatchOf, ScanMatches, Wrap32;
    if count == 0 {
      NoNonces(mid, tail, target, start);
    } else {
      var before := ScanMatches(mid, tail, target, start, count - 1);
      var last := MatchOf(mid, tail, target, start + count - 1);
      LastNonce(mid, tail, target, start, count);
      ScanAscends(mid, tail, target, start, count - 1);
      forall i | 0 <= i < |before|
        ensures before[i].nonce < start + count - 1
      {
        HitInRange(mid, tail, target, start, count - 1, before[i]);
      }
      OneAtMost(mid, tail, target, start + count - 1);
      AscendingNext(before, last, start + count - 1);
    }
  }

  lemma LastNonce(mid: State, tail: Tail, target: seq<Word>, start: U32, count: nat)
    requires |target| == 8 && count > 0 && start + count <= U32_LIMIT
    ensures ScanMatches(mid, tail, target, start, count)
         == ScanMatches(mid, tail, target, start, count - 1) + MatchOf(mid, tail, target, start + count - 1)
  {
    hide MatchOf;
  }

  lemma OneAtMost(mid: State, tail: Tail, target: seq<Word>, nonce: U32)
    requires |target| == 8
    ensures var found := MatchOf(mid, tail, target, nonce); |found| <= 1 && forall m <- found :: m.nonce == nonce
  {
    hide NonceHash, WordsMeet;
  }

  lemma AscendingNext(before: seq<Match>, last: seq<Match>, nonce: nat)
    requires Ascending(before) && forall i :: 0 <= i < |before| ==> before[i].nonce < nonce
    requires |last| <= 1 && forall m <- last :: m.nonce == nonce
    ensures Ascending(before + last)
  {
    if |last| == 1 {
      assert last[0] in last;
    }
  }

  /** `tail_words_func` applied: every backend returns the same eight words. */
  method HashTailWords(backend: Backend, state: Midstate, tail: Tail, ghost mid: State) returns (words: seq<Word>)
    requires state.Prepared(mid)
    ensures words == StateWords(FinishState(mid, tail))
  {
    hide FinishState;
    match backend
    case OpenSsl => words := state.HashOpenssl(tail, mid);
    case FastC => words := state.HashFastC(tail, mid);
    case Arm => words := ArmSha2.HashTail(state.fastState[..], tail);
  }

  /** The loop that loads `tail_words`. */
  method LoadTail(header: Header) returns (words: Tail)
    ensures words == TailOf(header)
  {
    hide LoadBe32;
    var tail := [];
    for i := 0 to 4
      invariant |tail| == i && forall k :: 0 <= k < i ==> tail[k] == BlockWord(header, 16 + k)
    {
      tail := tail + [LoadBe32(header[64 + i * 4..64 + i * 4 + 4])];
    }
    words := tail;
  }

  /** `sha256d_80_midstate_prepare` and `sha256d_80_midstate_hash`: whichever backend finishes the tail, the bytes
      are the double hash of the whole header. */
  method HashByMidstate(backend: Backend, header: Header) returns (hash: seq<Byte>)
    ensures hash == DoubleDigest(header)
  {
    hide FinishState, DoubleDigest, BlockWords, Compress, WordsToBytes, TailOf;
    var state := new Midstate(header[..64]);
    var tail := LoadTail(header);
    var words := HashTailWords(backend, state, tail, MidstateOf(header));
    hash := PutWords(words);
    MidstateIsDoubleDigest(header);
  }

  /** `if (hash_words_meet_target(...)) on_match(...)`. */
  method Report(words: seq<Word>, target: seq<Word>, nonce: U32) returns (reported: seq<Match>)
    requires |words| == |target| == 8
    ensures reported == if WordsMeet(words, target) then [Match(nonce, words)] else []
  {
    var meets := WordsMeetTarget(words, target);
    reported := if meets then [Match(nonce, words)] else [];
  }

  /** `sha256d_scan_nonce_range_generic`. */
  method ScanGeneric(backend: Backend, state: Midstate, tail: Tail, target: seq<Word>, start: U32, count: U32,
                     ghost mid: State)
    returns (matches: seq<Match>)
    requires state.Prepared(mid) && |target| == 8
    ensures matches == ScanMatches(mid, tail, target, start, count)
  {
    hide FinishState, WordsMeet, TailWith, Wrap32, Midstate.Prepared;
    matches := [];
    for i := 0 to count
      invariant matches == ScanMatches(mid, tail, target, start, i)
    {
      var nonce := Wrap32(start + i);
      var words := HashTailWords(backend, state, TailWith(tail, nonce), mid);
      var reported := Report(words, target, nonce);
      matches := matches + reported;
    }
  }

  /** One turn of the paired loop: both nonces of a pair, in order. */
  method ScanPair(fastState: seq<Word>, tail: Tail, target: seq<Word>, nonceA: U32, nonceB: U32, matches: seq<Match>)
    returns (all: seq<Match>)
    requires |fastState| == |target| == 8
    ensures var mid := FromWords(fastState);
            all == matches + MatchOf(mid, tail, target, nonceA) + MatchOf(mid, tail, target, nonceB)
  {
    hide FinishState, WordsMeet, TailWith, FromWords;
    var wordsA, wordsB := ArmPair.HashTailPair(fastState, TailWith(tail, nonceA), TailWith(tail, nonceB));
    var reportedA := Report(wordsA, target, nonceA);
    var reportedB := Report(wordsB, target, nonceB);
    all := matches + reportedA + reportedB;
  }

  /** `sha256d_scan_nonce_range_arm_sha2`: nonces two at a time, then the odd one. */
  method ScanArm(fastState: seq<Word>, tail: Tail, target: seq<Word>, start: U32, count: U32)
    returns (matches: seq<Match>)
    requires |fastState| == |target| == 8
    ensures matches == ScanMatches(FromWords(fastState), tail, target, start, count)
  {
    hide FinishState, WordsMeet, TailWith, FromWords, ScanMatches, MatchOf;
    ghost var mid := FromWords(fastState);
    matches := [];
    NoNonces(mid, tail, target, start);
    var i := 0;
    var paired := count - count % 2;
    while i < paired
      invariant 0 <= i <= paired && i % 2 == 0
      invariant matches == ScanMatches(mid, tail, target, start, i)
    {
      var nonceA := Wrap32(start + i);
      var nonceB := Wrap32(nonceA as int + 1);
      matches := ScanPair(fastState, tail, target, nonceA, nonceB, matches);
      TwoMoreNonces(mid, tail, target, start, i);
      i := i + 2;
    }
    if i < count {
      var found := ScanOdd(fastState, tail, target, Wrap32(start + i));
      matches := matches + found;
      OneMoreNonce(mid, tail, target, start, i);
    }
  }

  /** The nonce left over when the count is odd. */
  method ScanOdd(fastState: seq<Word>, tail: Tail, target: seq<Word>, nonce: U32) returns (found: seq<Match>)
    requires |fastState| == |target| == 8
    ensures found == MatchOf(FromWords(fastState), tail, target, nonce)
  {
    hide FinishState, WordsMeet, TailWith, FromWords;
    var words := ArmSha2.HashTail(fastState, TailWith(tail, nonce));
    found := Report(words, target, nonce);
  }

  lemma NoNonces(mid: State, tail: Tail, target: seq<Word>, start: U32)
    requires |target| == 8
    ensures ScanMatches(mid, tail, target, start, 0) == []
  {
  }

  lemma OneMoreNonce(mid: State, tail: Tail, target: seq<Word>, start: U32, i: nat)
    requires |target| == 8
    ensures ScanMatches(mid, tail, target, start, i + 1) ==
            ScanMatches(mid, tail, target, start, i) + MatchOf(mid, tail, target, Wrap32(start + i))
  {
    hide MatchOf;
  }

  lemma TwoMoreNonces(mid: State, tail: Tail, target: seq<Word>, start: U32, i: nat)
    requires |target| == 8
    ensures ScanMatches(mid, tail, target, start, i + 2) ==
            ScanMatches(mid, tail, target, start, i) + MatchOf(mid, tail, target, Wrap32(start + i))
            + MatchOf(mid, tail, target, Wrap32(Wrap32(start + i) + 1))
  {
    hide MatchOf;
    assert Wrap32(Wrap32(start + i) + 1) == Wrap32(start + (i + 1));
    assert ScanMatches(mid, tail, target, start, i + 1) ==
           ScanMatches(mid, tail, target, start, i) + MatchOf(mid, tail, target, Wrap32(start + i));
  }

  /** `sha256d_nonce_range_func` applied. */
  method ScanNonceRange(backend: Backend, state: Midstate, tail: Tail, target: seq<Word>, start: U32, count: U32,
                        ghost mid: State)
    returns (matches: seq<Match>)
    requires state.Prepared(mid) && |target| == 8
    ensures matches == ScanMatches(mid, tail, target, start, count)
  {
    hide ScanMatches;
    if backend == Arm {
      matches := ScanArm(state.fastState[..], tail, target, start, count);
    } else {
      matches := ScanGeneric(backend, state, tail, target, start, count, mid);
    }
  }

  // What the callbacks mean for a block header

  /** The header with `nonce` written little-endian into bytes 76 to 79. */
  function WithNonce(header: Header, nonce: U32): Header {
    header[..76] + PutLe32(NonceWord(nonce))
  }

  /** Reading the four bytes little-endian gives the nonce; the other 76 are the header's. */
  lemma NoncePlace(header: Header, nonce: U32)
    ensures WithNonce(header, nonce)[..76] == header[..76]
    ensures LittleEndian(WithNonce(header, nonce)[76..80]) == nonce
  {
    hide LittleEndian, Pow256, PutLe32, NonceWord, BytesOf;
    FourBytesOfRoom();
    NonceReadsBack(nonce);
    LittleEndianOfBytes(nonce, 4);
    assert WithNonce(header, nonce)[76..80] == PutLe32(NonceWord(nonce));
  }

  lemma TailOfNonce(header: Header, nonce: U32)
    ensures TailOf(WithNonce(header, nonce)) == TailWith(TailOf(header), nonce)
    ensures MidstateOf(WithNonce(header, nonce)) == MidstateOf(header)
  {
    hide LoadBe32, PutLe32, Bswap32, BlockWords, NonceWord;
    var h := WithNonce(header, nonce);
    assert h[..64] == header[..64];
    assert h[4 * 16..4 * 16 + 4] == header[4 * 16..4 * 16 + 4];
    assert h[4 * 17..4 * 17 + 4] == header[4 * 17..4 * 17 + 4];
    assert h[4 * 18..4 * 18 + 4] == header[4 * 18..4 * 18 + 4];
    assert h[4 * 19..4 * 19 + 4] == PutLe32(NonceWord(nonce));
    SwapIsOtherOrder(NonceWord(nonce), PutLe32(NonceWord(nonce)));
  }

  /** A nonce solves a job: the double hash of its header does not exceed the target. */
  predicate Solves(header: Header, target: seq<Byte>, nonce: U32, hash: seq<Byte>) {
    hash == DoubleDigest(WithNonce(header, nonce)) && LittleEndian(hash) <= LittleEndian(target)
  }

  lemma NonceHashIsDoubleDigest(header: Header, nonce: U32)
    ensures WordsToBytes(NonceHash(MidstateOf(header), TailOf(header), nonce)) == DoubleDigest(WithNonce(header, nonce))
  {
    hide MidstateOf, TailOf, TailWith, WithNonce, FinishState, DoubleDigest, WordsToBytes;
    TailOfNonce(header, nonce);
    MidstateIsDoubleDigest(WithNonce(header, nonce));
  }

  /** `nonce` is one of `start`, `start + 1`, ..., `start + count - 1` modulo 2^32. */
  predicate InRange(start: U32, count: nat, nonce: U32) {
    Wrap32(nonce - start) < count
  }

  lemma InRangeStep(start: U32, count: nat, nonce: U32)
    requires 0 < count <= U32_LIMIT
    ensures InRange(start, count, nonce) <==> InRange(start, count - 1, nonce) || nonce == Wrap32(start + count - 1)
  {
  }

  /** The scan of a job reports a nonce exactly when it lies in the range and solves the job, with the right hash. */
  lemma {:induction false} ScanIsExact(header: Header, target: seq<Byte>, start: U32, count: nat, m: Match)
    requires |target| == 32 && count <= U32_LIMIT
    ensures m in ScanMatches(MidstateOf(header), TailOf(header), LoadTarget(target), start, count)
      <==> InRange(start, count, m.nonce)
           && m.words == NonceHash(MidstateOf(header), TailOf(header), m.nonce)
           && Solves(header, target, m.nonce, WordsToBytes(m.words))
  {
    hide MidstateOf, TailOf, NonceHash, WithNonce, DoubleDigest, WordsToBytes, LittleEndian, LoadTarget, LeBytes,
         InRange;
    var mid, tail, words := MidstateOf(header), TailOf(header), LoadTarget(target);
    if count == 0 {
      NothingInEmptyRange(start, m.nonce);
    } else {
      ScanIsExact(header, target, start, count - 1, m);
      InRangeStep(start, count, m.nonce);
      LoadTargetKeepsBytes(target);
      NonceHashIsDoubleDigest(header, m.nonce);
      var last := Wrap32(start + count - 1);
      assert m in ScanMatches(mid, tail, words, start, count)
        <==> m in ScanMatches(mid, tail, words, start, count - 1) || m in MatchOf(mid, tail, words, last);
    }
  }

  lemma NothingInEmptyRange(start: U32, nonce: U32)
    ensures !InRange(start, 0, nonce)
  {
  }
}
