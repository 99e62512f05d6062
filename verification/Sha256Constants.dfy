/**
 * What FIPS 180-4 says of its constants and functions apart from their digits and formulas: roots
 * of primes, choice and majority bit by bit, words as numbers in base 256.
 */
module Sha256Constants {
  import opened Sha256Standard

  // ----- section 4.2.2: cube roots -----------------------------------------------------------

  const PRIMES: seq<nat> :=
    [2, 3, 5, 7, 11, 13, 17, 19] +
    [23, 29, 31, 37, 41, 43, 47, 53] +
    [59, 61, 67, 71, 73, 79, 83, 89] +
    [97, 101, 103, 107, 109, 113, 127, 131] +
    [137, 139, 149, 151, 157, 163, 167, 173] +
    [179, 181, 191, 193, 197, 199, 211, 223] +
    [227, 229, 233, 239, 241, 251, 257, 263] +
    [269, 271, 277, 281, 283, 293, 307, 311]

  function Square(x: nat): nat { x * x }

  function Cube(x: nat): nat { x * x * x }

  /** `n` and the word as its fraction make the cube root of `p`, cut off after 32 binary places. */
  predicate CubeRoot(p: nat, n: nat, k: Word) {
    var x := n * 0x1_0000_0000 + (k as nat);
    Cube(x) <= p * 0x1_0000_0000_0000_0000_0000_0000 < Cube(x + 1)
  }

  lemma Roots0To7(t: nat)
    requires 0 <= t <= 7
    ensures exists n :: CubeRoot(PRIMES[t], n, K[t])
  {
    assert CubeRoot(PRIMES[0], 1, K[0]);
    assert CubeRoot(PRIMES[1], 1, K[1]);
    assert CubeRoot(PRIMES[2], 1, K[2]);
    assert CubeRoot(PRIMES[3], 1, K[3]);
    assert CubeRoot(PRIMES[4], 2, K[4]);
    assert CubeRoot(PRIMES[5], 2, K[5]);
    assert CubeRoot(PRIMES[6], 2, K[6]);
    assert CubeRoot(PRIMES[7], 2, K[7]);
  }

  lemma Roots8To15(t: nat)
    requires 8 <= t <= 15
    ensures exists n :: CubeRoot(PRIMES[t], n, K[t])
  {
    assert CubeRoot(PRIMES[8], 2, K[8]);
    assert CubeRoot(PRIMES[9], 3, K[9]);
    assert CubeRoot(PRIMES[10], 3, K[10]);
    assert CubeRoot(PRIMES[11], 3, K[11]);
    assert CubeRoot(PRIMES[12], 3, K[12]);
    assert CubeRoot(PRIMES[13], 3, K[13]);
    assert CubeRoot(PRIMES[14], 3, K[14]);
    assert CubeRoot(PRIMES[15], 3, K[15]);
  }

  lemma Roots16To23(t: nat)
    requires 16 <= t <= 23
    ensures exists n :: CubeRoot(PRIMES[t], n, K[t])
  {
    assert CubeRoot(PRIMES[16], 3, K[16]);
    assert CubeRoot(PRIMES[17], 3, K[17]);
    assert CubeRoot(PRIMES[18], 4, K[18]);
    assert CubeRoot(PRIMES[19], 4, K[19]);
    assert CubeRoot(PRIMES[20], 4, K[20]);
    assert CubeRoot(PRIMES[21], 4, K[21]);
    assert CubeRoot(PRIMES[22], 4, K[22]);
    assert CubeRoot(PRIMES[23], 4, K[23]);
  }

  lemma Roots24To31(t: nat)
    requires 24 <= t <= 31
    ensures exists n :: CubeRoot(PRIMES[t], n, K[t])
  {
    assert CubeRoot(PRIMES[24], 4, K[24]);
    assert CubeRoot(PRIMES[25], 4, K[25]);
    assert CubeRoot(PRIMES[26], 4, K[26]);
    assert CubeRoot(PRIMES[27], 4, K[27]);
    assert CubeRoot(PRIMES[28], 4, K[28]);
    assert CubeRoot(PRIMES[29], 4, K[29]);
    assert CubeRoot(PRIMES[30], 5, K[30]);
    assert CubeRoot(PRIMES[31], 5, K[31]);
  }

  lemma Roots32To39(t: nat)
    requires 32 <= t <= 39
    ensures exists n :: CubeRoot(PRIMES[t], n, K[t])
  {
    assert CubeRoot(PRIMES[32], 5, K[32]);
    assert CubeRoot(PRIMES[33], 5, K[33]);
    assert CubeRoot(PRIMES[34], 5, K[34]);
    assert CubeRoot(PRIMES[35], 5, K[35]);
    assert CubeRoot(PRIMES[36], 5, K[36]);
    assert CubeRoot(PRIMES[37], 5, K[37]);
    assert CubeRoot(PRIMES[38], 5, K[38]);
    assert CubeRoot(PRIMES[39], 5, K[39]);
  }

  lemma Roots40To47(t: nat)
    requires 40 <= t <= 47
    ensures exists n :: CubeRoot(PRIMES[t], n, K[t])
  {
    assert CubeRoot(PRIMES[40], 5, K[40]);
    assert CubeRoot(PRIMES[41], 5, K[41]);
    assert CubeRoot(PRIMES[42], 5, K[42]);
    assert CubeRoot(PRIMES[43], 5, K[43]);
    assert CubeRoot(PRIMES[44], 5, K[44]);
    assert CubeRoot(PRIMES[45], 5, K[45]);
    assert CubeRoot(PRIMES[46], 5, K[46]);
    assert CubeRoot(PRIMES[47], 6, K[47]);
  }

  lemma Roots48To55(t: nat)
    requires 48 <= t <= 55
    ensures exists n :: CubeRoot(PRIMES[t], n, K[t])
  {
    assert CubeRoot(PRIMES[48], 6, K[48]);
    assert CubeRoot(PRIMES[49], 6, K[49]);
    assert CubeRoot(PRIMES[50], 6, K[50]);
    assert CubeRoot(PRIMES[51], 6, K[51]);
    assert CubeRoot(PRIMES[52], 6, K[52]);
    assert CubeRoot(PRIMES[53], 6, K[53]);
    assert CubeRoot(PRIMES[54], 6, K[54]);
    assert CubeRoot(PRIMES[55], 6, K[55]);
  }

  lemma Roots56To63(t: nat)
    requires 56 <= t <= 63
    ensures exists n :: CubeRoot(PRIMES[t], n, K[t])
  {
    assert CubeRoot(PRIMES[56], 6, K[56]);
    assert CubeRoot(PRIMES[57], 6, K[57]);
    assert CubeRoot(PRIMES[58], 6, K[58]);
    assert CubeRoot(PRIMES[59], 6, K[59]);
    assert CubeRoot(PRIMES[60], 6, K[60]);
    assert CubeRoot(PRIMES[61], 6, K[61]);
    assert CubeRoot(PRIMES[62], 6, K[62]);
    assert CubeRoot(PRIMES[63], 6, K[63]);
  }

  /** Every constant holds the first 32 bits of the fractional part of the cube root of its prime. */
  lemma ConstantsAreCubeRoots(t: nat)
    requires t < 64
    ensures exists n :: CubeRoot(PRIMES[t], n, K[t])
  {
    hide *;
    if
    case 0 <= t <= 7 => Roots0To7(t);
    case 8 <= t <= 15 => Roots8To15(t);
    case 16 <= t <= 23 => Roots16To23(t);
    case 24 <= t <= 31 => Roots24To31(t);
    case 32 <= t <= 39 => Roots32To39(t);
    case 40 <= t <= 47 => Roots40To47(t);
    case 48 <= t <= 55 => Roots48To55(t);
    case 56 <= t <= 63 => Roots56To63(t);
  }

  // ----- section 5.3.3: square roots ----------------------------------------------------------

  predicate SquareRoot(p: nat, n: nat, k: Word) {
    var x := n * 0x1_0000_0000 + (k as nat);
    Square(x) <= p * 0x1_0000_0000_0000_0000 < Square(x + 1)
  }

  lemma InitialIsSquareRoots()
    ensures SquareRoot(2, 1, INITIAL.a) && SquareRoot(3, 1, INITIAL.b) && SquareRoot(5, 2, INITIAL.c)
    ensures SquareRoot(7, 2, INITIAL.d) && SquareRoot(11, 3, INITIAL.e) && SquareRoot(13, 3, INITIAL.f)
    ensures SquareRoot(17, 4, INITIAL.g) && SquareRoot(19, 4, INITIAL.h)
  {
    assert SquareRoot(2, 1, 0x6a09e667) && SquareRoot(3, 1, 0xbb67ae85);
    assert SquareRoot(5, 2, 0x3c6ef372) && SquareRoot(7, 2, 0xa54ff53a);
    assert SquareRoot(11, 3, 0x510e527f) && SquareRoot(13, 3, 0x9b05688c);
    assert SquareRoot(17, 4, 0x1f83d9ab) && SquareRoot(19, 4, 0x5be0cd19);
    hide SquareRoot;
  }

  // ----- section 4.1.2: choice and majority -----------------------------------------------------

  /** At any set `m` of bit positions: `Ch` takes `y` where `x` is one and `z` where it is zero. */
  lemma ChooseBitByBit(x: Word, y: Word, z: Word, m: Word)
    ensures x & m == m ==> Ch(x, y, z) & m == y & m
    ensures x & m == 0 ==> Ch(x, y, z) & m == z & m
  {
  }

  lemma AgreeingPair(x: Word, y: Word, z: Word, m: Word)
    ensures x & m == y & m ==> Maj(x, y, z) & m == x & m
  {
  }

  lemma MajorityIsSymmetric(x: Word, y: Word, z: Word)
    ensures Maj(x, y, z) == Maj(x, z, y) == Maj(y, z, x)
  {
  }

  /** And `Maj` takes what any two of its arguments agree on. */
  lemma MajorityBitByBit(x: Word, y: Word, z: Word, m: Word)
    ensures x & m == y & m ==> Maj(x, y, z) & m == x & m
    ensures x & m == z & m ==> Maj(x, y, z) & m == x & m
    ensures y & m == z & m ==> Maj(x, y, z) & m == y & m
  {
    hide *;
    MajorityIsSymmetric(x, y, z);
    AgreeingPair(x, y, z, m);
    AgreeingPair(x, z, y, m);
    AgreeingPair(y, z, x, m);
  }

  // ----- section 3.1: words and bytes ----------------------------------------------------------

  /** Four bytes make a number in base 256, the first one being the most significant. */
  lemma PackIsNumber(b: seq<Byte>)
    requires |b| == 4
    ensures Pack(b) == 0x100_0000 * (b[0] as Word) + 0x1_0000 * (b[1] as Word) + 0x100 * (b[2] as Word) + (b[3] as Word)
  {
  }
}
