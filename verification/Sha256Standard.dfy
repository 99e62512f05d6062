/** The SHA-256 hash as FIPS 180-4 defines it. */
module Sha256Standard {

  type Byte = bv8
  type Word = bv32

  // ----- section 4.1.2: functions -----------------------------------------------------------

  function Ch(x: Word, y: Word, z: Word): Word { (x & y) ^ (!x & z) }

  function Maj(x: Word, y: Word, z: Word): Word { (x & y) ^ (x & z) ^ (y & z) }

  function Xor3(x: Word, y: Word, z: Word): Word { x ^ y ^ z }

  function BigSigma0(x: Word): Word { Xor3(x.RotateRight(2), x.RotateRight(13), x.RotateRight(22)) }

  function BigSigma1(x: Word): Word { Xor3(x.RotateRight(6), x.RotateRight(11), x.RotateRight(25)) }

  function SmallSigma0(x: Word): Word { Xor3(x.RotateRight(7), x.RotateRight(18), x >> 3) }

  function SmallSigma1(x: Word): Word { Xor3(x.RotateRight(17), x.RotateRight(19), x >> 10) }

  // ----- section 4.2.2: constants ------------------------------------------------------------

  const K: seq<Word> := [
    0x428a2f98, 0x71374491, 0xb5c0fbcf, 0xe9b5dba5, 0x3956c25b, 0x59f111f1, 0x923f82a4, 0xab1c5ed5] +
    [0xd807aa98, 0x12835b01, 0x243185be, 0x550c7dc3, 0x72be5d74, 0x80deb1fe, 0x9bdc06a7, 0xc19bf174] +
    [0xe49b69c1, 0xefbe4786, 0x0fc19dc6, 0x240ca1cc, 0x2de92c6f, 0x4a7484aa, 0x5cb0a9dc, 0x76f988da] +
    [0x983e5152, 0xa831c66d, 0xb00327c8, 0xbf597fc7, 0xc6e00bf3, 0xd5a79147, 0x06ca6351, 0x14292967] +
    [0x27b70a85, 0x2e1b2138, 0x4d2c6dfc, 0x53380d13, 0x650a7354, 0x766a0abb, 0x81c2c92e, 0x92722c85] +
    [0xa2bfe8a1, 0xa81a664b, 0xc24b8b70, 0xc76c51a3, 0xd192e819, 0xd6990624, 0xf40e3585, 0x106aa070] +
    [0x19a4c116, 0x1e376c08, 0x2748774c, 0x34b0bcb5, 0x391c0cb3, 0x4ed8aa4a, 0x5b9cca4f, 0x682e6ff3] +
    [0x748f82ee, 0x78a5636f, 0x84c87814, 0x8cc70208, 0x90befffa, 0xa4506ceb, 0xbef9a3f7, 0xc67178f2]

  // ----- words and bytes, most significant byte first ----------------------------------------

  function Pack(b: seq<Byte>): Word
    requires |b| == 4
  {
    (b[3] as Word) | ((b[2] as Word) << 8) | ((b[1] as Word) << 16) | ((b[0] as Word) << 24)
  }

  function Unpack(x: Word): (b: seq<Byte>)
    ensures |b| == 4
  {
    [((x >> 24) & 0xFF) as Byte, ((x >> 16) & 0xFF) as Byte, ((x >> 8) & 0xFF) as Byte, (x & 0xFF) as Byte]
  }

  lemma PackUnpackInverse(x: Word, b: seq<Byte>)
    requires |b| == 4
    ensures Pack(Unpack(x)) == x && Unpack(Pack(b)) == b
  {
  }

  // ----- section 5.1.1: padding ---------------------------------------------------------------

  function Zeros(n: nat): (z: seq<Byte>)
    ensures |z| == n
  {
    seq(n, _ => 0)
  }

  /** How many zero bytes follow the one bit. */
  function ZeroBytes(n: nat): (z: nat)
    ensures (n + 1 + z) % 64 == 56
  {
    (55 - n) % 64
  }

  /** Section 5.1.1 asks for the smallest such number. */
  lemma ZeroBytesIsLeast(n: nat, y: nat)
    requires (n + 1 + y) % 64 == 56
    ensures ZeroBytes(n) <= y
  {
    assert ZeroBytes(n) < 64;
    assert (n + 1 + y) - (n + 1 + ZeroBytes(n)) == y - ZeroBytes(n);
  }

  /** A number below 2^32 as a word. */
  function AsWord(n: nat): Word
    requires n < 0x1_0000_0000
  {
    n as Word
  }

  /** A number below 2^64 as eight bytes. */
  function LengthField(n: nat): (b: seq<Byte>)
    requires n < 0x1_0000_0000_0000_0000
    ensures |b| == 8
  {
    Unpack(AsWord(n / 0x1_0000_0000)) + Unpack(AsWord(n % 0x1_0000_0000))
  }

  lemma PaddedLength(n: nat)
    ensures (n + (1 + ZeroBytes(n) + 8)) % 64 == 0
  {
    assert n + (1 + ZeroBytes(n) + 8) == (n + 1 + ZeroBytes(n)) + 8;
  }

  /** The padding of a message of `n` bytes: a one bit, zeros, the length in bits. */
  function Padding(n: nat): (p: seq<Byte>)
    requires n < 0x2000_0000_0000_0000
    ensures (n + |p|) % 64 == 0
  {
    PaddedLength(n);
    [0x80] + Zeros(ZeroBytes(n)) + LengthField(8 * n)
  }

  // ----- section 6.2.2: the hash computation ----------------------------------------------------

  datatype Regs = Regs(a: Word, b: Word, c: Word, d: Word, e: Word, f: Word, g: Word, h: Word)

  /** Section 5.3.3. */
  const INITIAL: Regs :=
    Regs(0x6a09e667, 0xbb67ae85, 0x3c6ef372, 0xa54ff53a, 0x510e527f, 0x9b05688c, 0x1f83d9ab, 0x5be0cd19)

  /** Addition modulo 2^32. */
  function Sum2(x: Word, y: Word): Word { x + y }

  function Sum4(w: Word, x: Word, y: Word, z: Word): Word { w + x + y + z }

  function Sum5(v: Word, w: Word, x: Word, y: Word, z: Word): Word { v + w + x + y + z }

  function Schedule(block: seq<Byte>, t: nat): Word
    requires |block| == 64 && t < 64
  {
    if t < 16 then
      Pack(block[4 * t..4 * t + 4])
    else
      Sum4(SmallSigma1(Schedule(block, t - 2)), Schedule(block, t - 7),
           SmallSigma0(Schedule(block, t - 15)), Schedule(block, t - 16))
  }

  function Round(r: Regs, k: Word, w: Word): Regs {
    var t1 := Sum5(r.h, BigSigma1(r.e), Ch(r.e, r.f, r.g), k, w);
    var t2 := Sum2(BigSigma0(r.a), Maj(r.a, r.b, r.c));
    Regs(Sum2(t1, t2), r.a, r.b, r.c, Sum2(r.d, t1), r.e, r.f, r.g)
  }

  /** The working variables after the first `t` rounds. */
  function Rounds(r: Regs, block: seq<Byte>, t: nat): Regs
    requires |block| == 64 && t <= 64
  {
    if t == 0 then r else Round(Rounds(r, block, t - 1), K[t - 1], Schedule(block, t - 1))
  }

  function Compress(r: Regs, block: seq<Byte>): Regs
    requires |block| == 64
  {
    var s := Rounds(r, block, 64);
    Regs(Sum2(r.a, s.a), Sum2(r.b, s.b), Sum2(r.c, s.c), Sum2(r.d, s.d),
         Sum2(r.e, s.e), Sum2(r.f, s.f), Sum2(r.g, s.g), Sum2(r.h, s.h))
  }

  function HashBlocks(r: Regs, m: seq<Byte>): Regs
    requires |m| % 64 == 0
  {
    if m == [] then r else Compress(HashBlocks(r, m[..|m| - 64]), m[|m| - 64..])
  }

  function WordsOf(r: Regs): seq<Word> {
    [r.a, r.b, r.c, r.d, r.e, r.f, r.g, r.h]
  }

  function UnpackAll(w: seq<Word>): (b: seq<Byte>)
    ensures |b| == 4 * |w|
  {
    if w == [] then [] else UnpackAll(w[..|w| - 1]) + Unpack(w[|w| - 1])
  }

  function Digest(r: Regs): (d: seq<Byte>)
    ensures |d| == 32
  {
    UnpackAll(WordsOf(r))
  }

  function Sha256(m: seq<Byte>): seq<Byte>
    requires |m| < 0x2000_0000_0000_0000
  {
    Digest(HashBlocks(INITIAL, m + Padding(|m|)))
  }

  lemma WholeBlocks(a: nat, b: nat)
    requires a % 64 == 0 && b % 64 == 0
    ensures (a + b) % 64 == 0 && (b > 0 ==> b >= 64 && (b - 64) % 64 == 0)
  {
    var i, j := a / 64, b / 64;
    assert a == 64 * i && b == 64 * j;
    assert a + b == 64 * (i + j) && b - 64 == 64 * (j - 1);
  }

  lemma LastBlock(r: Regs, m: seq<Byte>, init: seq<Byte>, block: seq<Byte>)
    requires |init| % 64 == 0 && |block| == 64 && m == init + block
    ensures |m| % 64 == 0 && HashBlocks(r, m) == Compress(HashBlocks(r, init), block)
  {
    hide Compress;
    assert m[..|m| - 64] == init && m[|m| - 64..] == block;
  }

  /** Hashing the blocks of `m` and then those of `n` is hashing all of them. */
  lemma {:induction false} HashBlocksConcat(r: Regs, m: seq<Byte>, n: seq<Byte>)
    requires |m| % 64 == 0 && |n| % 64 == 0
    ensures (|m + n|) % 64 == 0
    ensures HashBlocks(r, m + n) == HashBlocks(HashBlocks(r, m), n)
    decreases |n|
  {
    WholeBlocks(|m|, |n|);
    if n == [] {
      assert m + n == m;
    } else {
      var init, block := n[..|n| - 64], n[|n| - 64..];
      assert n == init + block && m + n == (m + init) + block;
      hide HashBlocks, Compress;
      HashBlocksConcat(r, m, init);
      LastBlock(HashBlocks(r, m), n, init, block);
      LastBlock(r, m + n, m + init, block);
    }
  }
}
