/**
 The self test of the core (`btcrig_core_self_test`): the double hash of a header of zero bytes is a known one. That it
 holds is proved by calculation, so constants, functions, schedule, rounds, padding and byte order are those of the
 standard, and not only those in which everything here agrees.
 */
module SelfTest {
  import opened Words
  import opened Sha256
  import opened Sha256d
  import opened Scan
  import First = SelfTestFirst
  import TailHash = SelfTestTail
  import Second = SelfTestSecond

  const EXPECTED: seq<Byte> :=
    [0x4b, 0xe7, 0x57, 0x0e, 0x8f, 0x70, 0xeb, 0x09,
     0x36, 0x40, 0xc8, 0x46, 0x82, 0x74, 0xba, 0x75,
     0x97, 0x45, 0xa7, 0xaa, 0x2b, 0x7d, 0x25, 0xab,
     0x1e, 0x04, 0x21, 0xb2, 0x59, 0x84, 0x50, 0x14]

  lemma FirstBlock()
    ensures MidstateOf(Zeros(80)) == First.END
  {
    hide Compress;
    assert Zeros(80)[..64] == Zeros(64);
    var m := BlockWords(Zeros(64));
    forall i | 0 <= i < 16
      ensures m[i] == 0
    {
      assert Zeros(64)[4 * i..4 * i + 4] == [0, 0, 0, 0];
    }
    assert First.START == INITIAL;
    First.Compresses(m);
  }

  lemma TailBlockIs()
    ensures Compress(First.END, TailBlock(TailOf(Zeros(80)))) == TailHash.END
  {
    hide Compress;
    var tail := TailOf(Zeros(80));
    assert Zeros(80)[64..68] == Zeros(80)[68..72] == Zeros(80)[72..76] == Zeros(80)[76..80] == [0, 0, 0, 0];
    assert tail == [0, 0, 0, 0];
    assert First.END == TailHash.START;
    TailHash.Compresses(TailBlock(tail));
  }

  lemma SecondHash()
    ensures Compress(INITIAL, SecondBlock(TailHash.END)) == Second.END
  {
    hide Compress;
    assert Second.START == INITIAL;
    Second.Compresses(SecondBlock(TailHash.END));
  }

  /** The double hash of 80 zero bytes. */
  lemma SelfTestDigest()
    ensures DoubleDigest(Zeros(80)) == EXPECTED
  {
    hide Compress, MidstateOf, TailOf, TailBlock, SecondBlock, WordsToBytes, DoubleDigest;
    FirstBlock();
    TailBlockIs();
    SecondHash();
    MidstateIsDoubleDigest(Zeros(80));
    LastBytes();
  }

  lemma LastBytes()
    ensures WordsToBytes(StateWords(Second.END)) == EXPECTED
  {
    var w := StateWords(Second.END);
    FirstHalf(w);
    WordsToBytesStep(w, 4);
    WordsToBytesStep(w, 5);
    WordsToBytesStep(w, 6);
    WordsToBytesStep(w, 7);
    assert w[..8] == w;
  }

  lemma FirstHalf(w: seq<Word>)
    requires w == StateWords(Second.END)
    ensures WordsToBytes(w[..4]) == EXPECTED[..16]
  {
    assert WordsToBytes(w[..0]) == [];
    WordsToBytesStep(w, 0);
    WordsToBytesStep(w, 1);
    WordsToBytesStep(w, 2);
    WordsToBytesStep(w, 3);
  }

  /** The self test always passes. */
  method CoreSelfTest() returns (passed: bool)
    ensures passed
  {
    hide DoubleDigest;
    var hash := HashHeader(Zeros(80));
    SelfTestDigest();
    passed := hash[..] == EXPECTED;
  }

  /** And so does the same test of any way to finish a midstate. */
  method BackendSelfTest(backend: Backend) returns (passed: bool)
    ensures passed
  {
    hide DoubleDigest;
    var hash := HashByMidstate(backend, Zeros(80));
    SelfTestDigest();
    passed := hash == EXPECTED;
  }
}
