/** The one fact about 8-bit patterns and numbers that everything else builds on. */
module Bytes {

  lemma RoundTrip(x: nat)
    requires x < 256
    ensures (x as bv8) as int == x
  {
    assert x == x % 256;
  }
}
