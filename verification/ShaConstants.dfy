/**
 Where the constants of SHA-256 come from (FIPS 180-4): sections 5.3.3 and 4.2.2 define them as the first 32 bits of the
 fractional parts of the square roots of the first eight primes and of the cube roots of the first 64. That is proved
 of the table here without looking at any other table, so that no two entries can be wrong or change places.
 */
module ShaConstants {
  import opened Words
  import opened Sha256
  import Difficulty

  /** The first 64 primes. */
  const PRIMES: seq<nat> :=
    [2, 3, 5, 7, 11, 13, 17, 19, 23, 29, 31, 37, 41, 43, 47, 53] +
    [59, 61, 67, 71, 73, 79, 83, 89, 97, 101, 103, 107, 109, 113, 127, 131] +
    [137, 139, 149, 151, 157, 163, 167, 173, 179, 181, 191, 193, 197, 199, 211, 223] +
    [227, 229, 233, 239, 241, 251, 257, 263, 269, 271, 277, 281, 283, 293, 307, 311]

  /** `x` is the whole part of the square root of `p` in units of 2^-32, and `w` its fraction. */
  ghost predicate SquareRootBits(w: Word, p: nat) {
    exists q: nat :: IsSquareRoot(q * 0x1_0000_0000 + w as int, p)
  }

  predicate IsSquareRoot(x: int, p: nat) { x * x <= p * 0x1_0000_0000_0000_0000 < (x + 1) * (x + 1) }

  ghost predicate CubeRootBits(w: Word, p: nat) {
    exists q: nat :: IsCubeRoot(q * 0x1_0000_0000 + w as int, p)
  }

  predicate IsCubeRoot(x: int, p: nat) {
    x * x * x <= p * 0x1_0000_0000_0000_0000_0000_0000 < (x + 1) * (x + 1) * (x + 1)
  }

  lemma SquareRoot(w: Word, n: int, q: nat, p: nat)
    requires w as int == n && IsSquareRoot(q * 0x1_0000_0000 + n, p)
    ensures SquareRootBits(w, p)
  {
  }

  lemma CubeRoot(w: Word, n: int, q: nat, p: nat)
    requires w as int == n && IsCubeRoot(q * 0x1_0000_0000 + n, p)
    ensures CubeRootBits(w, p)
  {
  }

  /** The initial hash value, section 5.3.3. */
  lemma InitialIsSquareRoots()
    ensures forall i :: 0 <= i < 8 ==> SquareRootBits(StateWords(INITIAL)[i], PRIMES[i])
  {
    hide SquareRootBits;
    SquareRoot(INITIAL.a, 0x6a09e667, 1, 2);
    SquareRoot(INITIAL.b, 0xbb67ae85, 1, 3);
    SquareRoot(INITIAL.c, 0x3c6ef372, 2, 5);
    SquareRoot(INITIAL.d, 0xa54ff53a, 2, 7);
    SquareRoot(INITIAL.e, 0x510e527f, 3, 11);
    SquareRoot(INITIAL.f, 0x9b05688c, 3, 13);
    SquareRoot(INITIAL.g, 0x1f83d9ab, 4, 17);
    SquareRoot(INITIAL.h, 0x5be0cd19, 4, 19);
  }

  /** The round constants, section 4.2.2. */
  lemma KIsCubeRoots(i: nat)
    requires i < 64
    ensures CubeRootBits(K[i], PRIMES[i])
  {
    if i < 32 {
      if i < 8 { CubeRow0(i); } else if i < 16 { CubeRow1(i); } else if i < 24 { CubeRow2(i); } else { CubeRow3(i); }
    } else {
      if i < 40 { CubeRow4(i); } else if i < 48 { CubeRow5(i); } else if i < 56 { CubeRow6(i); } else { CubeRow7(i); }
    }
  }

  lemma CubeRow0(i: nat)
    requires 0 <= i < 8
    ensures CubeRootBits(K[i], PRIMES[i])
  {
    hide CubeRootBits;
    if i == 0 { CubeRoot(K[0], 0x428a2f98, 1, 2); }
    if i == 1 { CubeRoot(K[1], 0x71374491, 1, 3); }
    if i == 2 { CubeRoot(K[2], 0xb5c0fbcf, 1, 5); }
    if i == 3 { CubeRoot(K[3], 0xe9b5dba5, 1, 7); }
    if i == 4 { CubeRoot(K[4], 0x3956c25b, 2, 11); }
    if i == 5 { CubeRoot(K[5], 0x59f111f1, 2, 13); }
    if i == 6 { CubeRoot(K[6], 0x923f82a4, 2, 17); }
    if i == 7 { CubeRoot(K[7], 0xab1c5ed5, 2, 19); }
  }

  lemma CubeRow1(i: nat)
    requires 8 <= i < 16
    ensures CubeRootBits(K[i], PRIMES[i])
  {
    hide CubeRootBits;
    if i == 8 { CubeRoot(K[8], 0xd807aa98, 2, 23); }
    if i == 9 { CubeRoot(K[9], 0x12835b01, 3, 29); }
    if i == 10 { CubeRoot(K[10], 0x243185be, 3, 31); }
    if i == 11 { CubeRoot(K[11], 0x550c7dc3, 3, 37); }
    if i == 12 { CubeRoot(K[12], 0x72be5d74, 3, 41); }
    if i == 13 { CubeRoot(K[13], 0x80deb1fe, 3, 43); }
    if i == 14 { CubeRoot(K[14], 0x9bdc06a7, 3, 47); }
    if i == 15 { CubeRoot(K[15], 0xc19bf174, 3, 53); }
  }

  lemma CubeRow2(i: nat)
    requires 16 <= i < 24
    ensures CubeRootBits(K[i], PRIMES[i])
  {
    hide CubeRootBits;
    if i == 16 { CubeRoot(K[16], 0xe49b69c1, 3, 59); }
    if i == 17 { CubeRoot(K[17], 0xefbe4786, 3, 61); }
    if i == 18 { CubeRoot(K[18], 0x0fc19dc6, 4, 67); }
    if i == 19 { CubeRoot(K[19], 0x240ca1cc, 4, 71); }
    if i == 20 { CubeRoot(K[20], 0x2de92c6f, 4, 73); }
    if i == 21 { CubeRoot(K[21], 0x4a7484aa, 4, 79); }
    if i == 22 { CubeRoot(K[22], 0x5cb0a9dc, 4, 83); }
    if i == 23 { CubeRoot(K[23], 0x76f988da, 4, 89); }
  }

  lemma CubeRow3(i: nat)
    requires 24 <= i < 32
    ensures CubeRootBits(K[i], PRIMES[i])
  {
    hide CubeRootBits;
    if i == 24 { CubeRoot(K[24], 0x983e5152, 4, 97); }
    if i == 25 { CubeRoot(K[25], 0xa831c66d, 4, 101); }
    if i == 26 { CubeRoot(K[26], 0xb00327c8, 4, 103); }
    if i == 27 { CubeRoot(K[27], 0xbf597fc7, 4, 107); }
    if i == 28 { CubeRoot(K[28], 0xc6e00bf3, 4, 109); }
    if i == 29 { CubeRoot(K[29], 0xd5a79147, 4, 113); }
    if i == 30 { CubeRoot(K[30], 0x06ca6351, 5, 127); }
    if i == 31 { CubeRoot(K[31], 0x14292967, 5, 131); }
  }

  lemma CubeRow4(i: nat)
    requires 32 <= i < 40
    ensures CubeRootBits(K[i], PRIMES[i])
  {
    hide CubeRootBits;
    if i == 32 { CubeRoot(K[32], 0x27b70a85, 5, 137); }
    if i == 33 { CubeRoot(K[33], 0x2e1b2138, 5, 139); }
    if i == 34 { CubeRoot(K[34], 0x4d2c6dfc, 5, 149); }
    if i == 35 { CubeRoot(K[35], 0x53380d13, 5, 151); }
    if i == 36 { CubeRoot(K[36], 0x650a7354, 5, 157); }
    if i == 37 { CubeRoot(K[37], 0x766a0abb, 5, 163); }
    if i == 38 { CubeRoot(K[38], 0x81c2c92e, 5, 167); }
    if i == 39 { CubeRoot(K[39], 0x92722c85, 5, 173); }
  }

  lemma CubeRow5(i: nat)
    requires 40 <= i < 48
    ensures CubeRootBits(K[i], PRIMES[i])
  {
    hide CubeRootBits;
    if i == 40 { CubeRoot(K[40], 0xa2bfe8a1, 5, 179); }
    if i == 41 { CubeRoot(K[41], 0xa81a664b, 5, 181); }
    if i == 42 { CubeRoot(K[42], 0xc24b8b70, 5, 191); }
    if i == 43 { CubeRoot(K[43], 0xc76c51a3, 5, 193); }
    if i == 44 { CubeRoot(K[44], 0xd192e819, 5, 197); }
    if i == 45 { CubeRoot(K[45], 0xd6990624, 5, 199); }
    if i == 46 { CubeRoot(K[46], 0xf40e3585, 5, 211); }
    if i == 47 { CubeRoot(K[47], 0x106aa070, 6, 223); }
  }

  lemma CubeRow6(i: nat)
    requires 48 <= i < 56
    ensures CubeRootBits(K[i], PRIMES[i])
  {
    hide CubeRootBits;
    if i == 48 { CubeRoot(K[48], 0x19a4c116, 6, 227); }
    if i == 49 { CubeRoot(K[49], 0x1e376c08, 6, 229); }
    if i == 50 { CubeRoot(K[50], 0x2748774c, 6, 233); }
    if i == 51 { CubeRoot(K[51], 0x34b0bcb5, 6, 239); }
    if i == 52 { CubeRoot(K[52], 0x391c0cb3, 6, 241); }
    if i == 53 { CubeRoot(K[53], 0x4ed8aa4a, 6, 251); }
    if i == 54 { CubeRoot(K[54], 0x5b9cca4f, 6, 257); }
    if i == 55 { CubeRoot(K[55], 0x682e6ff3, 6, 263); }
  }

  lemma CubeRow7(i: nat)
    requires 56 <= i < 64
    ensures CubeRootBits(K[i], PRIMES[i])
  {
    hide CubeRootBits;
    if i == 56 { CubeRoot(K[56], 0x748f82ee, 6, 269); }
    if i == 57 { CubeRoot(K[57], 0x78a5636f, 6, 271); }
    if i == 58 { CubeRoot(K[58], 0x84c87814, 6, 277); }
    if i == 59 { CubeRoot(K[59], 0x8cc70208, 6, 281); }
    if i == 60 { CubeRoot(K[60], 0x90befffa, 6, 283); }
    if i == 61 { CubeRoot(K[61], 0xa4506ceb, 6, 293); }
    if i == 62 { CubeRoot(K[62], 0xbef9a3f7, 6, 307); }
    if i == 63 { CubeRoot(K[63], 0xc67178f2, 6, 311); }
  }

  // The table of primes

  ghost predicate IsPrime(n: nat) { n >= 2 && forall d :: 2 <= d < n ==> n % d != 0 }

  predicate Divides(p: nat, n: nat)
    requires p > 0
  {
    p < n && n % p == 0
  }

  /** No smaller prime below 19 divides `n`. */
  predicate Sieved(n: nat) {
    && n >= 2 && !Divides(2, n) && !Divides(3, n) && !Divides(5, n) && !Divides(7, n) && !Divides(11, n)
    && !Divides(13, n) && !Divides(17, n)
  }

  lemma SievedIsPrime(n: nat)
    requires n < 19 * 19
    ensures Sieved(n) <==> IsPrime(n)
  {
    if Sieved(n) {
      forall d | 2 <= d < n
        ensures n % d != 0
      {
        hide Sieved;
        if n % d == 0 {
          Divided(n, d);
        }
      }
    } else {
      assert n >= 2 ==> exists p :: 2 <= p < n && n % p == 0;
    }
  }

  lemma Divided(n: nat, d: nat)
    requires 2 <= d < n < 19 * 19 && n % d == 0
    ensures !Sieved(n)
  {
    hide Sieved;
    var e := n / d;
    assert n == d * e;
    if d < 19 {
      SmallDivisor(n, d, e);
    } else {
      Below19(d, e);
      SmallDivisor(n, e, d);
    }
  }

  lemma Below19(d: nat, e: nat)
    requires d >= 19 && d * e < 19 * 19
    ensures e < 19
  {
    assert d * e >= 19 * e;
  }

  lemma SmallDivisor(n: nat, d: nat, e: nat)
    requires n == d * e && 2 <= d < 19 && e >= 2
    ensures !Sieved(n)
  {
    hide Sieved;
    if d % 2 == 0 {
      Regroup(2, d / 2, e);
      Factor(n, 2, d / 2 * e);
    } else if d % 3 == 0 {
      Regroup(3, d / 3, e);
      Factor(n, 3, d / 3 * e);
    } else {
      Factor(n, d, e);
    }
  }

  lemma Regroup(p: nat, k: nat, e: nat)
    requires k > 0 && e >= 2
    ensures p * k * e == p * (k * e) && k * e >= 2
  {
  }

  lemma Factor(n: nat, p: nat, m: nat)
    requires p in {2, 3, 5, 7, 11, 13, 17} && n == p * m && m >= 2
    ensures !Sieved(n)
  {
    hide Sieved;
    Sifted(n, m);
  }

  lemma Sifted(n: nat, m: nat)
    requires m >= 2
    requires n == 2 * m || n == 3 * m || n == 5 * m || n == 7 * m || n == 11 * m || n == 13 * m || n == 17 * m
    ensures !Sieved(n)
  {
    hide Divides;
    if n == 2 * m { assert Divides(2, n) by { Evenly(2, m); } }
    else if n == 3 * m { assert Divides(3, n) by { Evenly(3, m); } }
    else if n == 5 * m { assert Divides(5, n) by { Evenly(5, m); } }
    else if n == 7 * m { assert Divides(7, n) by { Evenly(7, m); } }
    else if n == 11 * m { assert Divides(11, n) by { Evenly(11, m); } }
    else if n == 13 * m { assert Divides(13, n) by { Evenly(13, m); } }
    else { assert Divides(17, n) by { Evenly(17, m); } }
  }

  lemma Evenly(p: nat, m: nat)
    requires p >= 2 && m >= 2
    ensures Divides(p, p * m)
  {
    Difficulty.StepBelow(p, 1, m);
    Difficulty.QuotientIs(p * m, p, m, 0);
  }

  predicate NoneBetween(p: nat, q: nat)
    decreases q - p
  {
    p + 1 >= q || (!Sieved(p + 1) && NoneBetween(p + 1, q))
  }

  lemma {:induction false} Skipped(p: nat, q: nat, n: nat)
    requires NoneBetween(p, q) && p < n < q < 19 * 19
    ensures !IsPrime(n)
    decreases q - p
  {
    SievedIsPrime(p + 1);
    if n > p + 1 {
      Skipped(p + 1, q, n);
    }
  }

  /** `p` is a prime and `q` is the next. */
  ghost predicate NextPrime(p: nat, q: nat) {
    IsPrime(p) && p < q && IsPrime(q) && forall n :: p < n < q ==> !IsPrime(n)
  }

  lemma Gap(p: nat, q: nat)
    requires p < q < 19 * 19 && Sieved(p) && Sieved(q) && NoneBetween(p, q)
    ensures NextPrime(p, q)
  {
    hide Sieved, IsPrime;
    SievedIsPrime(p);
    SievedIsPrime(q);
    forall n | p < n < q
      ensures !IsPrime(n)
    {
      Skipped(p, q, n);
    }
  }

  /** The table begins with 2 and leaves no prime out. */
  lemma PrimesInOrder(i: nat)
    requires i < 63
    ensures PRIMES[0] == 2 && NextPrime(PRIMES[i], PRIMES[i + 1])
  {
    if i < 32 {
      if i < 8 { PrimeRow0(i); } else if i < 16 { PrimeRow1(i); }
      else if i < 24 { PrimeRow2(i); } else { PrimeRow3(i); }
    } else {
      if i < 40 { PrimeRow4(i); } else if i < 48 { PrimeRow5(i); }
      else if i < 56 { PrimeRow6(i); } else { PrimeRow7(i); }
    }
  }

  lemma PrimeRow0(i: nat)
    requires 0 <= i < 8
    ensures NextPrime(PRIMES[i], PRIMES[i + 1])
  {
    hide NextPrime;
    if i == 0 { Gap(2, 3); }
    if i == 1 { Gap(3, 5); }
    if i == 2 { Gap(5, 7); }
    if i == 3 { Gap(7, 11); }
    if i == 4 { Gap(11, 13); }
    if i == 5 { Gap(13, 17); }
    if i == 6 { Gap(17, 19); }
    if i == 7 { Gap(19, 23); }
  }

  lemma PrimeRow1(i: nat)
    requires 8 <= i < 16
    ensures NextPrime(PRIMES[i], PRIMES[i + 1])
  {
    hide NextPrime;
    if i == 8 { Gap(23, 29); }
    if i == 9 { Gap(29, 31); }
    if i == 10 { Gap(31, 37); }
    if i == 11 { Gap(37, 41); }
    if i == 12 { Gap(41, 43); }
    if i == 13 { Gap(43, 47); }
    if i == 14 { Gap(47, 53); }
    if i == 15 { Gap(53, 59); }
  }

  lemma PrimeRow2(i: nat)
    requires 16 <= i < 24
    ensures NextPrime(PRIMES[i], PRIMES[i + 1])
  {
    hide NextPrime;
    if i == 16 { Gap(59, 61); }
    if i == 17 { Gap(61, 67); }
    if i == 18 { Gap(67, 71); }
    if i == 19 { Gap(71, 73); }
    if i == 20 { Gap(73, 79); }
    if i == 21 { Gap(79, 83); }
    if i == 22 { Gap(83, 89); }
    if i == 23 { Gap(89, 97); }
  }

  lemma PrimeRow3(i: nat)
    requires 24 <= i < 32
    ensures NextPrime(PRIMES[i], PRIMES[i + 1])
  {
    hide NextPrime;
    if i == 24 { Gap(97, 101); }
    if i == 25 { Gap(101, 103); }
    if i == 26 { Gap(103, 107); }
    if i == 27 { Gap(107, 109); }
    if i == 28 { Gap(109, 113); }
    if i == 29 { Gap(113, 127); }
    if i == 30 { Gap(127, 131); }
    if i == 31 { Gap(131, 137); }
  }

  lemma PrimeRow4(i: nat)
    requires 32 <= i < 40
    ensures NextPrime(PRIMES[i], PRIMES[i + 1])
  {
    hide NextPrime;
    if i == 32 { Gap(137, 139); }
    if i == 33 { Gap(139, 149); }
    if i == 34 { Gap(149, 151); }
    if i == 35 { Gap(151, 157); }
    if i == 36 { Gap(157, 163); }
    if i == 37 { Gap(163, 167); }
    if i == 38 { Gap(167, 173); }
    if i == 39 { Gap(173, 179); }
  }

  lemma PrimeRow5(i: nat)
    requires 40 <= i < 48
    ensures NextPrime(PRIMES[i], PRIMES[i + 1])
  {
    hide NextPrime;
    if i == 40 { Gap(179, 181); }
    if i == 41 { Gap(181, 191); }
    if i == 42 { Gap(191, 193); }
    if i == 43 { Gap(193, 197); }
    if i == 44 { Gap(197, 199); }
    if i == 45 { Gap(199, 211); }
    if i == 46 { Gap(211, 223); }
    if i == 47 { Gap(223, 227); }
  }

  lemma PrimeRow6(i: nat)
    requires 48 <= i < 56
    ensures NextPrime(PRIMES[i], PRIMES[i + 1])
  {
    hide NextPrime;
    if i == 48 { Gap(227, 229); }
    if i == 49 { Gap(229, 233); }
    if i == 50 { Gap(233, 239); }
    if i == 51 { Gap(239, 241); }
    if i == 52 { Gap(241, 251); }
    if i == 53 { Gap(251, 257); }
    if i == 54 { Gap(257, 263); }
    if i == 55 { Gap(263, 269); }
  }

  lemma PrimeRow7(i: nat)
    requires 56 <= i < 63
    ensures NextPrime(PRIMES[i], PRIMES[i + 1])
  {
    hide NextPrime;
    if i == 56 { Gap(269, 271); }
    if i == 57 { Gap(271, 277); }
    if i == 58 { Gap(277, 281); }
    if i == 59 { Gap(281, 283); }
    if i == 60 { Gap(283, 293); }
    if i == 61 { Gap(293, 307); }
    if i == 62 { Gap(307, 311); }
  }
}
