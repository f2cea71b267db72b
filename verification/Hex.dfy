/**
 Hexadecimal text: the decoding helpers of miner.c, `bytes_to_hex` of btcrig_core_full.c, and the digits that
 `miner_format_extranonce2` prints.
 */
module Hex {
  import opened Words

  datatype Option<T> = None | Some(value: T)

  /** `hex_value`: -1 for anything but a hexadecimal digit. */
  function HexValue(c: char): (v: int)
    ensures -1 <= v < 16
  {
    if '0' <= c <= '9' then c as int - '0' as int
    else if 'a' <= c <= 'f' then c as int - 'a' as int + 10
    else if 'A' <= c <= 'F' then c as int - 'A' as int + 10
    else -1
  }

  ghost predicate IsHex(s: string) { forall i :: 0 <= i < |s| ==> HexValue(s[i]) >= 0 }

  const DIGITS: string := "0123456789abcdef"

  function Digit(n: nat): (c: char)
    requires n < 16
    ensures HexValue(c) == n
  {
    DIGITS[n]
  }

  // Bytes

  /** The byte two digits stand for, the high one first. */
  function ByteAt(hex: string, i: nat): Byte
    requires 2 * i + 1 < |hex| && HexValue(hex[2 * i]) >= 0 && HexValue(hex[2 * i + 1]) >= 0
  {
    ByteOf(16 * HexValue(hex[2 * i]) + HexValue(hex[2 * i + 1]))
  }

  ghost function Decoded(hex: string): (bytes: seq<Byte>)
    requires |hex| % 2 == 0 && IsHex(hex)
    ensures |bytes| == |hex| / 2
  {
    seq(|hex| / 2, i requires 0 <= i < |hex| / 2 => ByteAt(hex, i))
  }

  /** The only inputs that decode: hexadecimal digits, two for every byte wanted. */
  ghost predicate Decodes(hex: string, length: nat) { |hex| == 2 * length && IsHex(hex) }

  /** `hex_to_bytes`. */
  method HexToBytes(hex: string, length: nat) returns (bytes: Option<seq<Byte>>)
    ensures bytes.Some? <==> Decodes(hex, length)
    ensures bytes.Some? ==> bytes.value == Decoded(hex)
  {
    if |hex| % 2 != 0 || |hex| / 2 != length {
      return None;
    }
    var out := [];
    for i := 0 to length
      invariant |out| == i && forall k :: 0 <= k < 2 * i ==> HexValue(hex[k]) >= 0
      invariant forall k :: 0 <= k < i ==> out[k] == ByteAt(hex, k)
    {
      var hi, lo := HexValue(hex[2 * i]), HexValue(hex[2 * i + 1]);
      if hi < 0 || lo < 0 {
        return None;
      }
      out := out + [ByteOf(16 * hi + lo)];
    }
    assert out == Decoded(hex);
    return Some(out);
  }

  /** The two digits of a byte. */
  function ByteText(b: Byte): (text: string)
    ensures |text| == 2
  {
    PairText(b as int)
  }

  function PairText(n: nat): (text: string)
    ensures |text| == 2
  {
    [Digit(n / 16 % 16), Digit(n % 16)]
  }

  lemma PairValues(n: nat)
    requires n < 256
    ensures HexValue(PairText(n)[0]) == n / 16 && HexValue(PairText(n)[1]) == n % 16
    ensures 16 * HexValue(PairText(n)[0]) + HexValue(PairText(n)[1]) == n
  {
    hide HexValue;
  }

  lemma PairOfDigits(hi: nat, lo: nat)
    requires hi < 16 && lo < 16
    ensures PairText(16 * hi + lo) == [DIGITS[hi], DIGITS[lo]]
  {
    hide HexValue;
    assert (16 * hi + lo) / 16 == hi && (16 * hi + lo) % 16 == lo;
  }

  function Encoded(bytes: seq<Byte>): (text: string)
    ensures |text| == 2 * |bytes|
  {
    if |bytes| == 0 then "" else Encoded(bytes[..|bytes| - 1]) + ByteText(bytes[|bytes| - 1])
  }

  /** `bytes_to_hex`: nothing when the buffer has no room for the text and its terminator. */
  method BytesToHex(bytes: seq<Byte>, outSize: nat) returns (text: string)
    ensures text == if outSize < 2 * |bytes| + 1 then "" else Encoded(bytes)
  {
    hide ByteText;
    text := "";
    if outSize < 2 * |bytes| + 1 {
      return;
    }
    for i := 0 to |bytes|
      invariant text == Encoded(bytes[..i])
    {
      TextOfNibbles(bytes[i]);
      text := text + [DIGITS[(bytes[i] >> 4) as int], DIGITS[(bytes[i] & 15) as int]];
      assert bytes[..i + 1][..i] == bytes[..i];
    }
    assert bytes[..|bytes|] == bytes;
  }

  lemma TextOfNibbles(b: Byte)
    ensures (b >> 4) as int < 16 && (b & 15) as int < 16
    ensures ByteText(b) == [DIGITS[(b >> 4) as int], DIGITS[(b & 15) as int]]
  {
    hide PairText;
    Nibbles(b);
    ByteIsItsNumber(b);
    NibbleNumbers(b as int, (b >> 4) as int, (b & 15) as int);
  }

  lemma NibbleNumbers(n: nat, hi: int, lo: int)
    requires n < 256 && hi == n / 16 && lo == n % 16
    ensures 0 <= hi < 16 && PairText(n) == [DIGITS[hi], DIGITS[lo]]
  {
    hide PairText;
    PairOfDigits(hi, lo);
  }

  lemma {:induction false} EncodedAt(bytes: seq<Byte>, i: nat)
    requires i < |bytes|
    ensures Encoded(bytes)[2 * i] == ByteText(bytes[i])[0] && Encoded(bytes)[2 * i + 1] == ByteText(bytes[i])[1]
  {
    hide ByteText;
    if i < |bytes| - 1 {
      EncodedAt(bytes[..|bytes| - 1], i);
    }
  }

  lemma TextOfByte(b: Byte)
    ensures HexValue(ByteText(b)[0]) == b as int / 16 && HexValue(ByteText(b)[1]) == b as int % 16
    ensures ByteOf(16 * HexValue(ByteText(b)[0]) + HexValue(ByteText(b)[1])) == b
  {
    hide HexValue, ByteOf, PairText;
    ByteIsItsNumber(b);
    PairValues(b as int);
  }

  lemma EncodedByte(bytes: seq<Byte>, i: nat)
    requires i < |bytes|
    ensures var text := Encoded(bytes);
            HexValue(text[2 * i]) >= 0 && HexValue(text[2 * i + 1]) >= 0 && ByteAt(text, i) == bytes[i]
  {
    hide ByteOf, ByteText, HexValue, Encoded;
    EncodedAt(bytes, i);
    TextOfByte(bytes[i]);
  }

  /** What `bytes_to_hex` prints, `hex_to_bytes` reads back. */
  lemma EncodedDecodes(bytes: seq<Byte>)
    ensures Decodes(Encoded(bytes), |bytes|) && Decoded(Encoded(bytes)) == bytes
  {
    hide Encoded, ByteAt, HexValue;
    var text := Encoded(bytes);
    forall i | 0 <= i < |text|
      ensures HexValue(text[i]) >= 0
    {
      EncodedByte(bytes, i / 2);
      assert i == 2 * (i / 2) || i == 2 * (i / 2) + 1;
    }
    forall i | 0 <= i < |bytes|
      ensures Decoded(text)[i] == bytes[i]
    {
      EncodedByte(bytes, i);
    }
  }

  function Lower(c: char): char { if 'A' <= c <= 'F' then (c as int + 32) as char else c }

  function LowerText(text: string): (r: string)
    ensures |r| == |text|
  {
    seq(|text|, i requires 0 <= i < |text| => Lower(text[i]))
  }

  /** What `hex_to_bytes` accepts, `bytes_to_hex` prints back in lower case. */
  lemma DecodedEncodes(hex: string)
    requires |hex| % 2 == 0 && IsHex(hex)
    ensures Encoded(Decoded(hex)) == LowerText(hex)
  {
    hide Decoded, Encoded, Lower, HexValue;
    forall i | 0 <= i < |hex|
      ensures Encoded(Decoded(hex))[i] == Lower(hex[i])
    {
      DecodedPair(hex, i / 2);
      assert i == 2 * (i / 2) || i == 2 * (i / 2) + 1;
    }
  }

  lemma DecodedPair(hex: string, k: nat)
    requires |hex| % 2 == 0 && IsHex(hex) && 2 * k + 1 < |hex|
    ensures var text := Encoded(Decoded(hex));
            text[2 * k] == Lower(hex[2 * k]) && text[2 * k + 1] == Lower(hex[2 * k + 1])
  {
    hide ByteOf, ByteText, HexValue, Lower, Encoded;
    EncodedAt(Decoded(hex), k);
    TextOfPair(hex[2 * k], hex[2 * k + 1]);
  }

  lemma TextOfPair(hi: char, lo: char)
    requires HexValue(hi) >= 0 && HexValue(lo) >= 0
    ensures ByteText(ByteOf(16 * HexValue(hi) + HexValue(lo))) == [Lower(hi), Lower(lo)]
  {
    hide ByteOf, HexValue, Lower, PairText;
    PairOfDigits(HexValue(hi), HexValue(lo));
    ByteOfIs(16 * HexValue(hi) + HexValue(lo));
    DigitOfValue(hi);
    DigitOfValue(lo);
  }

  lemma DigitOfValue(c: char)
    requires HexValue(c) >= 0
    ensures DIGITS[HexValue(c)] == Lower(c)
  {
  }

  // Numbers

  /** `%llx`: the digits of a number, without leading zeros. */
  function Hexits(v: nat): (s: string)
    ensures |s| > 0
  {
    if v < 16 then [Digit(v)] else Hexits(v / 16) + [Digit(v % 16)]
  }

  /** `%0*llx`: zeros in front up to the width, and no truncation beyond it. */
  function Padded(v: nat, width: nat): (s: string)
    ensures |s| >= width
  {
    var digits := Hexits(v);
    if |digits| < width then seq(width - |digits|, _ => '0') + digits else digits
  }

  /** The number a text of hexadecimal digits stands for, most significant first. */
  function Number(s: string): int {
    if |s| == 0 then 0 else 16 * Number(s[..|s| - 1]) + HexValue(s[|s| - 1])
  }

  lemma {:induction false} HexitsReadBack(v: nat)
    ensures Number(Hexits(v)) == v
  {
    hide Digit, HexValue;
    if v < 16 {
      assert Number(Hexits(v)[..0]) == 0;
    } else {
      HexitsReadBack(v / 16);
      assert Hexits(v)[..|Hexits(v)| - 1] == Hexits(v / 16);
    }
  }

  lemma {:induction false} ZerosInFront(zeros: nat, s: string)
    ensures Number(seq(zeros, _ => '0') + s) == Number(s)
  {
    var all := seq(zeros, _ => '0') + s;
    if |s| > 0 {
      ZerosInFront(zeros, s[..|s| - 1]);
      assert all[..|all| - 1] == seq(zeros, _ => '0') + s[..|s| - 1];
    } else if zeros > 0 {
      ZerosInFront(zeros - 1, s);
      assert all[..|all| - 1] == seq(zeros - 1, _ => '0') + s;
    }
  }

  /** A padded number reads back, whatever the width: numbers that differ never print the same text. */
  lemma PaddedReadsBack(v: nat, width: nat)
    ensures Number(Padded(v, width)) == v
  {
    hide Hexits, Number;
    HexitsReadBack(v);
    ZerosInFront(if |Hexits(v)| < width then width - |Hexits(v)| else 0, Hexits(v));
    assert seq(0, _ => '0') + Hexits(v) == Hexits(v);
  }

  lemma {:induction false} HexitsAreHex(v: nat)
    ensures IsHex(Hexits(v))
  {
    hide HexValue, Digit;
    if v >= 16 {
      HexitsAreHex(v / 16);
    }
  }

  lemma PaddedIsHex(v: nat, width: nat)
    ensures IsHex(Padded(v, width))
  {
    hide Hexits;
    HexitsAreHex(v);
  }

  function Pow16(n: nat): (p: nat)
    ensures p > 0
  {
    if n == 0 then 1 else 16 * Pow16(n - 1)
  }

  lemma {:induction false} DigitsNeeded(v: nat, width: nat)
    requires width > 0
    ensures |Hexits(v)| <= width <==> v < Pow16(width)
  {
    hide Digit;
    if v >= 16 && width > 1 {
      DigitsNeeded(v / 16, width - 1);
      assert v == 16 * (v / 16) + v % 16;
    } else if width > 1 {
      assert Pow16(width) == 16 * Pow16(width - 1);
    }
  }

  /** The text has the width asked for exactly when the number fits it. */
  lemma PaddedWidth(v: nat, width: nat)
    requires width > 0
    ensures |Padded(v, width)| == width <==> v < Pow16(width)
  {
    hide Hexits, Pow16;
    DigitsNeeded(v, width);
  }
}
