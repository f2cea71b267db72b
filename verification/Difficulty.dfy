/**
 The 256-bit target of a difficulty (miner.c). The double arithmetic is modelled over the reals: after the first
 division every step multiplies or divides by 256, which a double does exactly.
 */
module Difficulty {
  import opened Words
  import opened Sha256
  import opened Targets

  /** `mant` and `exp`: the number `mant * 256^(exp - 3)`. */
  datatype Scaled = Scaled(mant: real, exp: int)
  {
    function Value(): real
      requires exp >= 3
    {
      mant * Pow256(exp - 3) as real
    }
  }

  /** Non-positive difficulties count as 1. */
  function Effective(difficulty: real): (d: real)
    ensures d > 0.0
  {
    if difficulty <= 0.0 then 1.0 else difficulty
  }

  function Initial(difficulty: real): Scaled { Scaled(65535.0 / Effective(difficulty), 29) }

  /** The target the difficulty stands for: 65535 * 256^26 divided by it. */
  function Ideal(difficulty: real): real { 65535.0 * Pow256(26) as real / Effective(difficulty) }

  function Raise(s: Scaled): (r: Scaled)
    requires 3 <= s.exp <= 32
    ensures s.exp <= r.exp <= 32
    decreases 32 - s.exp
  {
    if s.mant >= 8388608.0 && s.exp < 32 then Raise(Scaled(s.mant / 256.0, s.exp + 1)) else s
  }

  function Lower(s: Scaled): (r: Scaled)
    requires 3 <= s.exp <= 32
    ensures 3 <= r.exp <= s.exp
    decreases s.exp
  {
    if 0.0 < s.mant < 32768.0 && s.exp > 3 then Lower(Scaled(s.mant * 256.0, s.exp - 1)) else s
  }

  function Normalised(difficulty: real): (r: Scaled)
    ensures 3 <= r.exp <= 32
  {
    Lower(Raise(Initial(difficulty)))
  }

  /** `(uint32_t)mant`. C leaves a value of 2^32 or more undefined: then the result is `undefinedCast`, any number. */
  function ToU32(mant: real, undefinedCast: U32): U32 {
    if 0 <= mant.Floor < U32_LIMIT then mant.Floor else undefinedCast
  }

  /** The number the 32 target bytes hold: the three low bytes of the mantissa, at the place the exponent says. */
  function TargetNumber(difficulty: real, undefinedCast: U32): nat {
    var s := Normalised(difficulty);
    (ToU32(s.mant, undefinedCast) % 0x100_0000) * Pow256(s.exp - 3)
  }

  // Bytes of a number

  lemma {:induction false} LittleEndianShift(b: seq<Byte>, zeros: nat)
    ensures LittleEndian(Zeros(zeros) + b) == Pow256(zeros) * LittleEndian(b)
  {
    var all := Zeros(zeros) + b;
    if zeros == 0 {
      assert all == b;
    } else {
      LittleEndianShift(b, zeros - 1);
      assert all[1..] == Zeros(zeros - 1) + b;
      TimesAssociates(256, Pow256(zeros - 1), LittleEndian(b));
    }
  }

  lemma TimesAssociates(x: int, y: int, z: int)
    ensures x * (y * z) == (x * y) * z
  {
  }

  lemma {:induction false} ZerosAreZero(zeros: nat)
    ensures LittleEndian(Zeros(zeros)) == 0
  {
    if zeros > 0 {
      ZerosAreZero(zeros - 1);
      assert Zeros(zeros)[1..] == Zeros(zeros - 1);
    }
  }

  /** Three bytes of `m`, least significant first, followed by zeros. */
  lemma ThreeBytes(m: nat, zeros: nat)
    ensures LittleEndian([LowByte(m), LowByte(m / 256), LowByte(m / 65536)] + Zeros(zeros)) == m % 0x100_0000
  {
    hide ByteOf, Zeros;
    var rest := Zeros(zeros);
    var b := [LowByte(m), LowByte(m / 256), LowByte(m / 65536)] + rest;
    ZerosAreZero(zeros);
    ByteOfIs(m % 256);
    ByteOfIs(m / 256 % 256);
    ByteOfIs(m / 65536 % 256);
    assert b[1..] == [LowByte(m / 256), LowByte(m / 65536)] + rest;
    assert b[1..][1..] == [LowByte(m / 65536)] + rest;
    assert b[1..][1..][1..] == rest;
    var low, mid, high := m % 256, m / 256 % 256, m / 65536 % 256;
    assert LittleEndian(b[1..][1..]) == high;
    assert LittleEndian(b[1..]) == mid + 256 * high;
    assert LittleEndian(b) == low + 256 * (mid + 256 * high);
    ThreeDigits(m);
  }

  lemma ThreeDigits(m: nat)
    ensures m % 256 + 256 * (m / 256 % 256 + 256 * (m / 65536 % 256)) == m % 0x100_0000
  {
    var a := m / 256;
    var b := a / 256;
    var c := b / 256;
    QuotientIs(m, 65536, b, 256 * (a % 256) + m % 256);
    QuotientIs(m, 0x100_0000, c, 65536 * (b % 256) + 256 * (a % 256) + m % 256);
  }

  lemma QuotientIs(m: nat, d: nat, q: nat, r: nat)
    requires r < d && m == d * q + r
    ensures m / d == q && m % d == r
  {
    var p, s := m / d, m % d;
    assert m == d * p + s;
    if p < q {
      StepBelow(d, p, q);
    } else if q < p {
      StepBelow(d, q, p);
    }
  }

  lemma {:induction false} StepBelow(d: nat, p: nat, q: nat)
    requires p < q
    ensures d * p + d <= d * q
  {
    if p + 1 < q {
      StepBelow(d, p, q - 1);
    }
  }

  // The code

  /** `miner_target_from_difficulty`. The exponent stays between 3 and 32, so of the three branches that place the
      bytes only the first is ever taken. */
  method TargetFromDifficulty(difficulty: real, undefinedCast: U32) returns (target: seq<Byte>)
    ensures |target| == 32
    ensures LittleEndian(target) == TargetNumber(difficulty, undefinedCast)
  {
    hide LittleEndian, LowByte, Pow256;
    var d := if difficulty <= 0.0 then 1.0 else difficulty;
    var mant := 65535.0 / d;
    var exp := 29;
    while mant >= 8388608.0 && exp < 32
      invariant 29 <= exp <= 32
      invariant Raise(Scaled(mant, exp)) == Raise(Initial(difficulty))
      decreases 32 - exp
    {
      mant := mant / 256.0;
      exp := exp + 1;
    }
    while 0.0 < mant < 32768.0 && exp > 3
      invariant 3 <= exp <= 32
      invariant Lower(Scaled(mant, exp)) == Normalised(difficulty)
      decreases exp
    {
      mant := mant * 256.0;
      exp := exp - 1;
    }
    var m := ToU32(mant, undefinedCast);
    var idx := 32 - exp;
    target := PlaceMantissa(m, idx);
  }

  /** The big-endian image with `m` at `idx`, reversed. */
  method PlaceMantissa(m: U32, idx: nat) returns (target: seq<Byte>)
    requires idx + 2 < 32
    ensures |target| == 32
    ensures LittleEndian(target) == (m % 0x100_0000) * Pow256(29 - idx)
  {
    hide LittleEndian, LowByte, Pow256;
    var beTarget := new Byte[32](_ => 0);
    beTarget[idx] := LowByte(m / 65536);
    beTarget[idx + 1] := LowByte(m / 256);
    beTarget[idx + 2] := LowByte(m);
    target := [];
    for i := 0 to 32
      invariant |target| == i
      invariant forall k :: 0 <= k < i ==> target[k] == beTarget[31 - k]
    {
      target := target + [beTarget[31 - i]];
    }
    var digits := [LowByte(m), LowByte(m / 256), LowByte(m / 65536)] + Zeros(idx);
    assert target == Zeros(29 - idx) + digits;
    LittleEndianShift(digits, 29 - idx);
    ThreeBytes(m, idx);
  }

  // What the target is worth

  lemma {:induction false} RaiseKeepsValue(s: Scaled)
    requires 3 <= s.exp <= 32 && s.mant > 0.0
    ensures Raise(s).mant > 0.0 && Raise(s).Value() == s.Value()
    ensures Raise(s).mant < 8388608.0 || Raise(s).exp == 32
    ensures Raise(s) == s || Raise(s).mant >= 32768.0
    decreases 32 - s.exp
  {
    if s.mant >= 8388608.0 && s.exp < 32 {
      var next := Scaled(s.mant / 256.0, s.exp + 1);
      assert Pow256(next.exp - 3) == 256 * Pow256(s.exp - 3);
      RescaledValue(s.mant, Pow256(s.exp - 3) as real);
      RaiseKeepsValue(next);
    }
  }

  lemma RescaledValue(mant: real, p: real)
    ensures mant / 256.0 * (256.0 * p) == mant * p
    ensures mant * 256.0 * p == mant * (256.0 * p)
  {
  }

  lemma {:induction false} LowerKeepsValue(s: Scaled)
    requires 3 <= s.exp <= 32 && s.mant > 0.0
    ensures Lower(s).mant > 0.0 && Lower(s).Value() == s.Value()
    ensures Lower(s).mant >= 32768.0 || Lower(s).exp == 3
    ensures Lower(s) == s || (s.mant < 32768.0 && Lower(s).mant < 8388608.0)
    decreases s.exp
  {
    if s.mant < 32768.0 && s.exp > 3 {
      var next := Scaled(s.mant * 256.0, s.exp - 1);
      assert Pow256(s.exp - 3) == 256 * Pow256(next.exp - 3);
      RescaledValue(s.mant, Pow256(next.exp - 3) as real);
      LowerKeepsValue(next);
    }
  }

  lemma InitialIsPositive(difficulty: real)
    ensures Initial(difficulty).mant > 0.0
  {
    var d := Effective(difficulty);
    assert 65535.0 / d > 0.0;
  }

  /** The range the compact form wants, unless the exponent ran out. */
  predicate Normal(s: Scaled) {
    && 3 <= s.exp <= 32 && 0.0 < s.mant
    && (s.mant < 8388608.0 || s.exp == 32)
    && (s.mant >= 32768.0 || s.exp == 3)
  }

  /** The loops start from the ideal. */
  lemma InitialIsIdeal(difficulty: real)
    ensures Initial(difficulty).Value() == Ideal(difficulty)
  {
    hide Pow256, Effective;
    Quotients(65535.0, Effective(difficulty), Pow256(26) as real);
  }

  lemma Quotients(x: real, d: real, p: real)
    requires d > 0.0
    ensures x / d * p == x * p / d
  {
    assert (x / d * p) * d == x * p;
  }

  /** The loops keep the value and end in that range. */
  lemma NormalisedForm(difficulty: real)
    ensures var s := Normalised(difficulty);
            Normal(s) && s.Value() == Ideal(difficulty)
  {
    hide Raise, Lower, Pow256;
    InitialIsPositive(difficulty);
    InitialIsIdeal(difficulty);
    RaiseKeepsValue(Initial(difficulty));
    LowerKeepsValue(Raise(Initial(difficulty)));
  }

  /** The difficulties whose mantissa fits its three bytes. */
  predicate Representable(difficulty: real) {
    Effective(difficulty) > 65535.0 / 281474976710656.0
  }

  lemma {:induction false} RaiseToTop(s: Scaled)
    requires 3 <= s.exp <= 32 && s.mant > 0.0
    ensures Raise(s).mant >= 16777216.0 <==> s.mant >= 16777216.0 * Pow256(32 - s.exp) as real
    decreases 32 - s.exp
  {
    if s.mant >= 8388608.0 && s.exp < 32 {
      var next := Scaled(s.mant / 256.0, s.exp + 1);
      RaiseToTop(next);
      assert Pow256(32 - s.exp) == 256 * Pow256(32 - next.exp);
    } else if s.exp < 32 {
      assert Pow256(32 - s.exp) >= 1;
    }
  }

  lemma MantissaFits(difficulty: real)
    ensures Normalised(difficulty).mant < 16777216.0 <==> Representable(difficulty)
  {
    hide Raise, Lower, Effective, Pow256;
    var s := Initial(difficulty);
    InitialIsPositive(difficulty);
    RaiseToTop(s);
    RoomAtTop(32 - s.exp);
    RaiseKeepsValue(s);
    LowerKeepsValue(Raise(s));
    InitialTimesDifficulty(difficulty);
    DividesOrdered(s.mant, Effective(difficulty));
  }

  lemma RoomAtTop(room: nat)
    requires room == 3
    ensures 16777216.0 * Pow256(room) as real == 281474976710656.0
  {
    assert Pow256(3) == 16777216;
  }

  lemma InitialTimesDifficulty(difficulty: real)
    ensures Initial(difficulty).mant * Effective(difficulty) == 65535.0
  {
    hide Effective;
    var d := Effective(difficulty);
    assert d > 0.0;
    assert 65535.0 / d * d == 65535.0;
  }

  lemma DividesOrdered(mant: real, d: real)
    requires d > 0.0 && mant * d == 65535.0
    ensures mant < 281474976710656.0 <==> d > 65535.0 / 281474976710656.0
  {
    if mant < 281474976710656.0 {
      assert mant * d < 281474976710656.0 * d;
    } else {
      assert mant * d >= 281474976710656.0 * d;
    }
  }

  /** The three mantissa bytes, against the mantissa itself. */
  lemma TruncatedMantissa(mant: real, undefinedCast: U32)
    requires mant > 0.0
    ensures var t := ToU32(mant, undefinedCast) % 0x100_0000;
            if mant < 16777216.0 then t == mant.Floor && t as real <= mant < t as real + 1.0
            else t as real <= mant && (mant - t as real) * 32768.0 >= mant
  {
    var t := ToU32(mant, undefinedCast) % 0x100_0000;
    assert t <= 0xff_ffff;
    if 16777216.0 <= mant && mant.Floor < U32_LIMIT {
      assert mant.Floor == mant.Floor / 0x100_0000 * 0x100_0000 + t;
      assert mant >= 16777216.0 + t as real;
    }
  }

  lemma ScaledUp(x: real, y: real, p: real)
    requires p > 0.0
    ensures x <= y <==> x * p <= y * p
  {
    if x <= y {
      assert (y - x) * p >= 0.0;
    } else {
      assert (x - y) * p > 0.0;
    }
  }

  lemma TargetIs(difficulty: real, undefinedCast: U32)
    ensures var s := Normalised(difficulty);
            TargetNumber(difficulty, undefinedCast) as real
            == (ToU32(s.mant, undefinedCast) % 0x100_0000) as real * Pow256(s.exp - 3) as real
  {
    hide Normalised, Pow256, ToU32;
  }

  /** The encoded target never exceeds the ideal one, whatever the difficulty. */
  lemma TargetNeverExceedsIdeal(difficulty: real, undefinedCast: U32)
    ensures TargetNumber(difficulty, undefinedCast) as real <= Ideal(difficulty)
  {
    hide Normalised, ToU32, Pow256, Ideal, TargetNumber;
    var s := Normalised(difficulty);
    NormalisedForm(difficulty);
    TruncatedMantissa(s.mant, undefinedCast);
    TargetIs(difficulty, undefinedCast);
    ScaledUp((ToU32(s.mant, undefinedCast) % 0x100_0000) as real, s.mant, Pow256(s.exp - 3) as real);
  }

  /** A target of at least 2^15 is short by less than one part in 2^15, exactly when the mantissa fits three bytes. */
  lemma ShortfallIffRepresentable(difficulty: real, undefinedCast: U32)
    requires Ideal(difficulty) >= 32768.0
    ensures (Ideal(difficulty) - TargetNumber(difficulty, undefinedCast) as real) * 32768.0 < Ideal(difficulty)
       <==> Representable(difficulty)
  {
    hide Normalised, ToU32, Pow256, Ideal, TargetNumber, Representable;
    var s := Normalised(difficulty);
    var t := (ToU32(s.mant, undefinedCast) % 0x100_0000) as real;
    NormalisedForm(difficulty);
    MantissaFits(difficulty);
    TruncatedMantissa(s.mant, undefinedCast);
    TargetIs(difficulty, undefinedCast);
    LargeMantissa(difficulty);
    RelativeShortfall(s.mant, t, Pow256(s.exp - 3) as real, Ideal(difficulty),
                      TargetNumber(difficulty, undefinedCast) as real);
    assert (s.mant - t) * 32768.0 < s.mant <==> s.mant < 16777216.0;
  }

  lemma RelativeShortfall(mant: real, t: real, p: real, ideal: real, target: real)
    requires p > 0.0 && ideal == mant * p && target == t * p
    ensures (ideal - target) * 32768.0 < ideal <==> (mant - t) * 32768.0 < mant
  {
    assert (ideal - target) * 32768.0 == (mant - t) * 32768.0 * p;
    ScaledUp(mant, (mant - t) * 32768.0, p);
  }

  lemma LargeMantissa(difficulty: real)
    requires Ideal(difficulty) >= 32768.0
    ensures Normalised(difficulty).mant >= 32768.0
  {
    hide Normalised, Ideal;
    NormalisedForm(difficulty);
    assert Pow256(0) == 1;
  }

  /** A smaller target is exact up to its fraction. */
  lemma SmallTargetIsFloor(difficulty: real, undefinedCast: U32)
    requires Ideal(difficulty) < 32768.0
    ensures TargetNumber(difficulty, undefinedCast) == Ideal(difficulty).Floor
  {
    hide Normalised, ToU32, Ideal;
    var s := Normalised(difficulty);
    NormalisedForm(difficulty);
    RoomyExponent(s);
    assert Pow256(0) == 1;
    TruncatedMantissa(s.mant, undefinedCast);
  }

  lemma RoomyExponent(s: Scaled)
    requires Normal(s)
    ensures s.exp > 3 ==> s.Value() >= 32768.0
  {
    hide Pow256;
    ScaledUp(32768.0, s.mant, Pow256(s.exp - 3) as real);
  }

  /** At 65535 / 2^48 the mantissa is 2^24, its three low bytes are zero, and no hash but zero meets the target. */
  lemma SmallestDifficultyFails(undefinedCast: U32)
    ensures TargetNumber(65535.0 / 281474976710656.0, undefinedCast) == 0
    ensures Ideal(65535.0 / 281474976710656.0) > 0.0
  {
    var d := 65535.0 / 281474976710656.0;
    assert Initial(d) == Scaled(281474976710656.0, 29);
    assert Raise(Scaled(281474976710656.0, 29)) == Raise(Scaled(1099511627776.0, 30));
    assert Raise(Scaled(1099511627776.0, 30)) == Raise(Scaled(4294967296.0, 31));
    assert Raise(Scaled(4294967296.0, 31)) == Scaled(16777216.0, 32);
    InitialIsPositive(d);
  }

  lemma MorePowers(a: nat, b: nat)
    requires a < b
    ensures Pow256(b) >= 256 * Pow256(a)
  {
    if a + 1 < b {
      MorePowers(a, b - 1);
    }
  }

  /** A harder difficulty never gets a larger target, across exponent changes too. */
  lemma TargetIsMonotone(d1: real, d2: real, cast1: U32, cast2: U32)
    requires Representable(d1) && Effective(d1) <= Effective(d2)
    ensures TargetNumber(d1, cast1) >= TargetNumber(d2, cast2)
  {
    hide Normalised, Pow256, ToU32, Ideal;
    var s1, s2 := Normalised(d1), Normalised(d2);
    NormalisedForm(d1);
    NormalisedForm(d2);
    MantissaFits(d1);
    MantissaFits(d2);
    TruncatedMantissa(s1.mant, cast1);
    TruncatedMantissa(s2.mant, cast2);
    IdealIsMonotone(d1, d2);
    CompactIsMonotone(s1, s2);
  }

  ghost predicate MonotoneFrom(least: real) {
    forall d1: real, d2: real, cast1: U32, cast2: U32 ::
      least <= Effective(d1) <= Effective(d2) ==> TargetNumber(d1, cast1) >= TargetNumber(d2, cast2)
  }

  /** The targets fall with the difficulty from `least` on if and only if all difficulties from there on are
      representable: below, the target is zero where it ought to be largest. */
  lemma MonotoneIff(least: real)
    ensures MonotoneFrom(least) <==> least > 65535.0 / 281474976710656.0
  {
    hide TargetNumber;
    if least > 65535.0 / 281474976710656.0 {
      forall d1: real, d2: real, cast1: U32, cast2: U32 | least <= Effective(d1) <= Effective(d2)
        ensures TargetNumber(d1, cast1) >= TargetNumber(d2, cast2)
      {
        TargetIsMonotone(d1, d2, cast1, cast2);
      }
    } else {
      SmallestDifficultyFails(0);
      OneHasTarget();
      assert least <= Effective(65535.0 / 281474976710656.0) <= Effective(1.0);
    }
  }

  /** Difficulty 1 has the target 0xffff followed by 26 zero bytes. */
  lemma OneHasTarget()
    ensures TargetNumber(1.0, 0) == 65535 * Pow256(26) > 0
  {
    hide Pow256;
    assert Initial(1.0) == Scaled(65535.0, 29);
    assert Normalised(1.0) == Scaled(65535.0, 29);
    TimesOrdered(1, 65535, Pow256(26));
  }

  /** The target is the largest number with 23 bits at some byte place that does not exceed the ideal one. */
  lemma LargestCompact(difficulty: real, undefinedCast: U32, m: nat, k: nat)
    requires Representable(difficulty) && m < 0x80_0000 && k <= 29
    requires m as real * Pow256(k) as real <= Ideal(difficulty)
    ensures m * Pow256(k) <= TargetNumber(difficulty, undefinedCast)
  {
    hide Normalised, Pow256, ToU32, Ideal, Representable, Effective;
    var s := Normalised(difficulty);
    NormalisedForm(difficulty);
    MantissaFits(difficulty);
    TruncatedMantissa(s.mant, undefinedCast);
    CompactBelow(s, m, k);
  }

  lemma CompactBelow(s: Scaled, m: nat, k: nat)
    requires Normal(s) && m < 0x80_0000 && k <= 29 && m as real * Pow256(k) as real <= s.Value()
    ensures m * Pow256(k) <= s.mant.Floor * Pow256(s.exp - 3)
  {
    hide Pow256;
    var e := s.exp - 3;
    if k < e {
      HigherPlace(s.mant.Floor, e, m, k);
    } else {
      SamePlace(s.mant, e, m, k);
    }
  }

  lemma SamePlace(mant: real, e: nat, m: nat, k: nat)
    requires e <= k && m as real * Pow256(k) as real <= mant * Pow256(e) as real
    ensures m * Pow256(k) <= mant.Floor * Pow256(e)
  {
    hide Pow256;
    PowersSplit(e, k - e);
    FlooredProduct(mant, m, Pow256(e), Pow256(k - e), Pow256(k));
  }

  lemma FlooredProduct(mant: real, m: nat, p: nat, q: nat, pq: nat)
    requires p > 0 && pq == p * q && m as real * pq as real <= mant * p as real
    ensures m * pq <= mant.Floor * p
  {
    Grouped(m, p, q);
    Floored(mant, m * q, p);
  }

  lemma Floored(mant: real, x: nat, p: nat)
    requires p > 0 && x as real * p as real <= mant * p as real
    ensures x * p <= mant.Floor * p
  {
    ScaledUp(x as real, mant, p as real);
    TimesOrdered(x, mant.Floor, p);
  }

  lemma HigherPlace(n: int, e: nat, m: nat, k: nat)
    requires m < 0x80_0000 && k < e && n >= 32768
    ensures m * Pow256(k) <= n * Pow256(e)
  {
    hide Pow256;
    MorePowers(k, e);
    TimesOrdered(m, 0x80_0000, Pow256(k));
    TimesOrdered(32768, n, Pow256(e));
  }

  lemma Grouped(m: nat, p: nat, q: nat)
    ensures m * (p * q) == m * q * p
    ensures m as real * (p * q) as real == (m * q) as real * p as real
  {
    assert m * (p * q) == m * q * p;
  }

  lemma {:induction false} PowersSplit(a: nat, b: nat)
    ensures Pow256(a + b) == Pow256(a) * Pow256(b)
  {
    if b > 0 {
      PowersSplit(a, b - 1);
      assert Pow256(a + b) == 256 * Pow256(a + b - 1);
      Grouped(256, Pow256(a), Pow256(b - 1));
    }
  }

  lemma IdealIsMonotone(d1: real, d2: real)
    requires Effective(d1) <= Effective(d2)
    ensures Ideal(d1) >= Ideal(d2)
  {
    hide Effective, Pow256, Ideal;
    InitialIsIdeal(d1);
    InitialIsIdeal(d2);
    InitialTimesDifficulty(d1);
    InitialTimesDifficulty(d2);
    InitialIsPositive(d2);
    QuotientsOrdered(Initial(d1).mant, Effective(d1), Initial(d2).mant, Effective(d2));
    ScaledUp(Initial(d2).mant, Initial(d1).mant, Pow256(26) as real);
  }

  lemma QuotientsOrdered(m1: real, d1: real, m2: real, d2: real)
    requires 0.0 < d1 <= d2 && 0.0 < m2 && m1 * d1 == m2 * d2
    ensures m2 <= m1
  {
    assert m2 * d1 <= m2 * d2;
    ScaledUp(m2, m1, d1);
  }

  lemma Chain(a: real, b: real, c: real, d: real)
    requires a >= b >= c > d
    ensures a > d
  {
  }

  /** Of two numbers in that range, the one with the larger exponent is larger, truncated or not. */
  lemma LargerExponent(s1: Scaled, s2: Scaled)
    requires Normal(s1) && Normal(s2) && s1.exp > s2.exp
    ensures s1.mant.Floor * Pow256(s1.exp - 3) >= s2.mant.Floor * Pow256(s2.exp - 3)
    ensures s1.Value() > s2.Value()
  {
    hide Pow256;
    var p1, p2 := Pow256(s1.exp - 3), Pow256(s2.exp - 3);
    MorePowers(s2.exp - 3, s1.exp - 3);
    TimesOrdered(32768, s1.mant.Floor, p1);
    TimesOrdered(s2.mant.Floor, 8388608, p2);
    RealTimes(s1.mant, p1 as real, s2.mant, p2 as real);
  }

  lemma RealTimes(m1: real, p1: real, m2: real, p2: real)
    requires m1 >= 32768.0 && 0.0 < m2 < 8388608.0 && 0.0 < p2 && 256.0 * p2 <= p1
    ensures m1 * p1 > m2 * p2
  {
    ScaledUp(32768.0, m1, p1);
    ScaledUp(8388608.0, m2, p2);
    Chain(m1 * p1, 32768.0 * p1, 8388608.0 * p2, m2 * p2);
  }

  lemma SameExponent(m1: real, m2: real, exp: nat)
    requires exp >= 3 && Scaled(m1, exp).Value() >= Scaled(m2, exp).Value()
    ensures m1.Floor >= m2.Floor
  {
    hide Pow256;
    var p := Pow256(exp - 3) as real;
    FactorsOrdered(m1, m2, p, Scaled(m1, exp).Value(), Scaled(m2, exp).Value());
    FloorsOrdered(m2, m1);
  }

  lemma FactorsOrdered(m1: real, m2: real, p: real, v1: real, v2: real)
    requires p > 0.0 && v1 == m1 * p && v2 == m2 * p && v1 >= v2
    ensures m2 <= m1
  {
    ScaledUp(m2, m1, p);
  }

  lemma FloorsOrdered(x: real, y: real)
    requires x <= y
    ensures x.Floor <= y.Floor
  {
  }

  lemma CompactIsMonotone(s1: Scaled, s2: Scaled)
    requires Normal(s1) && Normal(s2) && s1.Value() >= s2.Value()
    ensures s1.mant.Floor * Pow256(s1.exp - 3) >= s2.mant.Floor * Pow256(s2.exp - 3)
  {
    hide Pow256;
    if s1.exp == s2.exp {
      assert s2 == Scaled(s2.mant, s1.exp);
      SameExponent(s1.mant, s2.mant, s1.exp);
      TimesOrdered(s2.mant.Floor, s1.mant.Floor, Pow256(s1.exp - 3));
    } else if s1.exp > s2.exp {
      LargerExponent(s1, s2);
    } else {
      LargerExponent(s2, s1);
    }
  }

  lemma TimesOrdered(x: int, y: int, p: nat)
    requires x <= y
    ensures x * p <= y * p
  {
  }

  /** The target fits the 32 bytes it is stored in. */
  lemma TargetFits(difficulty: real, undefinedCast: U32)
    ensures TargetNumber(difficulty, undefinedCast) < Pow256(32)
    ensures LittleEndian(BytesOf(TargetNumber(difficulty, undefinedCast), 32))
            == TargetNumber(difficulty, undefinedCast)
  {
    hide Normalised, ToU32, Pow256, LittleEndian, BytesOf;
    var s := Normalised(difficulty);
    MantissaPlaces(ToU32(s.mant, undefinedCast) % 0x100_0000, s.exp - 3);
    LittleEndianOfBytes(TargetNumber(difficulty, undefinedCast), 32);
  }

  lemma MantissaPlaces(m: nat, n: nat)
    requires m < 0x100_0000 && n <= 29
    ensures m * Pow256(n) < Pow256(32)
  {
    hide Pow256;
    ThreeMorePlaces();
    if n < 29 {
      MorePowers(n, 29);
    }
    TimesOrdered(m, 0xff_ffff, Pow256(n));
  }

  lemma ThreeMorePlaces()
    ensures Pow256(32) == 0x100_0000 * Pow256(29)
  {
    assert Pow256(32) == 256 * Pow256(31);
    assert Pow256(31) == 256 * Pow256(30);
    assert Pow256(30) == 256 * Pow256(29);
  }
}
