/** The streaming hash of the server: a partial-block buffer, a byte counter and eight registers. */
module Sha256Stream {
  import opened Sha256Standard

  const BLOCK_SIZE: nat := 64
  const DIGEST_SIZE: nat := 32
  const UINT32: nat := 0x1_0000_0000

  // ----- unsigned int arithmetic ----------------------------------------------------------------

  /** The value of an `unsigned int` after a computation that gives `n`. */
  function Wrap(n: nat): (w: nat)
    ensures w < UINT32
  {
    if n < UINT32 then n else Wrap(n - UINT32)
  }

  lemma {:induction false} WrapIsModulo(n: nat)
    ensures Wrap(n) == n % UINT32
  {
    if n >= UINT32 {
      WrapIsModulo(n - UINT32);
    }
  }

  lemma {:induction false} WrapSum(n: nat, m: nat)
    ensures Wrap(Wrap(n) + m) == Wrap(n + m)
  {
    if n >= UINT32 {
      WrapSum(n - UINT32, m);
    }
  }

  // ----- the macros -----------------------------------------------------------------------------

  function Rotr(x: Word, n: bv6): Word
    requires 0 < n < 32
  {
    (x >> n) | (x << (32 - n))
  }

  function F1(x: Word): Word { Xor3(Rotr(x, 2), Rotr(x, 13), Rotr(x, 22)) }

  function F2(x: Word): Word { Xor3(Rotr(x, 6), Rotr(x, 11), Rotr(x, 25)) }

  function F3(x: Word): Word { Xor3(Rotr(x, 7), Rotr(x, 18), x >> 3) }

  function F4(x: Word): Word { Xor3(Rotr(x, 17), Rotr(x, 19), x >> 10) }

  /** The shift-and-or rotations are the circular shifts of the standard. */
  lemma RotrIsCircular(x: Word)
    ensures Rotr(x, 2) == x.RotateRight(2) && Rotr(x, 13) == x.RotateRight(13) && Rotr(x, 22) == x.RotateRight(22)
    ensures Rotr(x, 6) == x.RotateRight(6) && Rotr(x, 11) == x.RotateRight(11) && Rotr(x, 25) == x.RotateRight(25)
    ensures Rotr(x, 7) == x.RotateRight(7) && Rotr(x, 18) == x.RotateRight(18)
    ensures Rotr(x, 17) == x.RotateRight(17) && Rotr(x, 19) == x.RotateRight(19)
  {
  }

  lemma MacrosAreSigmas(x: Word)
    ensures F1(x) == BigSigma0(x) && F2(x) == BigSigma1(x)
    ensures F3(x) == SmallSigma0(x) && F4(x) == SmallSigma1(x)
  {
    RotrIsCircular(x);
  }

  // ----- the padding that the code writes --------------------------------------------------------

  /** The code stores only the low 32 bits of the bit count, below four zero bytes. */
  function StoredPadding(n: nat): (p: seq<Byte>)
    ensures (n + |p|) % 64 == 0
  {
    PaddedLength(n);
    [0x80] + Zeros(ZeroBytes(n)) + (Zeros(4) + Unpack(AsWord(Wrap(8 * n))))
  }

  /** It is the padding of the standard exactly for messages below 2^29 bytes. */
  lemma StoredPaddingIsStandard(n: nat)
    requires n < 0x2000_0000_0000_0000
    ensures StoredPadding(n) == Padding(n) <==> n < 0x2000_0000
  {
    var high := AsWord(8 * n / UINT32);
    var prefix := [0x80] + Zeros(ZeroBytes(n));
    WrapIsModulo(8 * n);
    var low := Unpack(AsWord(Wrap(8 * n)));
    assert StoredPadding(n) == prefix + (Zeros(4) + low);
    assert Padding(n) == prefix + (Unpack(high) + low);
    assert StoredPadding(n)[|prefix|..] == Zeros(4) + low;
    assert Padding(n)[|prefix|..] == Unpack(high) + low;
    assert (Zeros(4) + low)[..4] == Zeros(4) && (Unpack(high) + low)[..4] == Unpack(high);
    assert StoredPadding(n) == Padding(n) <==> Zeros(4) == Unpack(high);
    PackUnpackInverse(high, Zeros(4));
    assert Pack(Zeros(4)) == 0;
    assert n < 0x2000_0000 <==> 8 * n / UINT32 == 0;
    HighWordIsZero(8 * n / UINT32);
  }

  lemma HighWordIsZero(n: nat)
    requires n < UINT32
    ensures AsWord(n) == 0 <==> n == 0
  {
  }

  lemma ScheduleStep(block: seq<Byte>, t: nat, w2: Word, w7: Word, w15: Word, w16: Word)
    requires |block| == 64 && 16 <= t < 64
    requires w2 == Schedule(block, t - 2) && w7 == Schedule(block, t - 7)
    requires w15 == Schedule(block, t - 15) && w16 == Schedule(block, t - 16)
    ensures Sum4(F4(w2), w7, F3(w15), w16) == Schedule(block, t)
  {
    MacrosAreSigmas(w2);
    MacrosAreSigmas(w15);
  }

  // ----- streaming ------------------------------------------------------------------------------

  /**
   * After absorbing `a`, its last `len` bytes wait in the buffer, and the whole blocks before
   * them are counted as an `unsigned int`.
   */
  ghost predicate Buffered(a: seq<Byte>, totLen: nat, len: nat, buffer: seq<Byte>) {
    len < BLOCK_SIZE && len <= |a| && len <= |buffer| &&
    (|a| - len) % BLOCK_SIZE == 0 && totLen == Wrap(|a| - len) &&
    a[|a| - len..] == buffer[..len]
  }

  lemma BufferMore(a: seq<Byte>, totLen: nat, len: nat, buffer: seq<Byte>, m: seq<Byte>, buffer': seq<Byte>)
    requires Buffered(a, totLen, len, buffer) && len + |m| < BLOCK_SIZE
    requires buffer[..len] + m <= buffer'
    ensures Buffered(a + m, totLen, len + |m|, buffer')
    ensures (a + m)[..|a| - len] == a[..|a| - len]
  {
    assert (a + m)[|a| - len..] == a[|a| - len..] + m;
  }

  /** Filling the buffer, taking out its block and some more whole blocks, and keeping the rest. */
  lemma BufferRest(a: seq<Byte>, totLen: nat, len: nat, buffer: seq<Byte>, m: seq<Byte>,
                   head: seq<Byte>, blocks: seq<Byte>, rest: seq<Byte>, more: nat, buffer': seq<Byte>)
    requires Buffered(a, totLen, len, buffer) && m == head + blocks + rest && more == |blocks|
    requires |head| == BLOCK_SIZE - len && more % BLOCK_SIZE == 0 && |rest| < BLOCK_SIZE && rest <= buffer'
    ensures Buffered(a + m, Wrap(totLen + (BLOCK_SIZE + more)), |rest|, buffer')
    ensures (a + m)[..|a + m| - |rest|] == a[..|a| - len] + (buffer[..len] + head) + blocks
  {
    hide Wrap;
    var whole := a[..|a| - len] + (buffer[..len] + head) + blocks;
    assert a + m == whole + rest;
    assert |whole| == |a| - len + (BLOCK_SIZE + more);
    WrapSum(|a| - len, BLOCK_SIZE + more);
    assert (whole + rest)[..|whole|] == whole;
    assert (whole + rest)[|whole|..] == rest;
  }

  lemma HashThreeParts(a: seq<Byte>, b: seq<Byte>, c: seq<Byte>)
    requires |a| % BLOCK_SIZE == 0 && |b| % BLOCK_SIZE == 0 && |c| % BLOCK_SIZE == 0
    ensures |a + b + c| % BLOCK_SIZE == 0
    ensures HashBlocks(HashBlocks(HashBlocks(INITIAL, a), b), c) == HashBlocks(INITIAL, a + b + c)
  {
    hide HashBlocks;
    HashBlocksConcat(INITIAL, a, b);
    HashBlocksConcat(INITIAL, a + b, c);
  }

  // ----- the hash object ---------------------------------------------------------------------------

  ghost function RegsOf(s: seq<Word>): Regs
    requires |s| == 8
  {
    Regs(s[0], s[1], s[2], s[3], s[4], s[5], s[6], s[7])
  }

  /** `memcpy` into `dst` at position `at`. */
  method Copy(dst: array<Byte>, at: nat, src: seq<Byte>)
    requires at + |src| <= dst.Length
    modifies dst
    ensures dst[..] == old(dst[..at]) + src + old(dst[at + |src|..])
  {
    forall i | 0 <= i < |src| {
      dst[at + i] := src[i];
    }
  }

  class SHA256 {
    var totLen: nat           // bytes hashed so far, as a 32-bit counter
    var len: nat              // bytes waiting in the block buffer
    const block: array<Byte>  // room for two blocks
    const h: array<Word>
    ghost var absorbed: seq<Byte>   // everything passed to Update

    ghost predicate Shaped()
      reads this
    {
      block.Length == 2 * BLOCK_SIZE && h.Length == 8
    }

    ghost predicate Valid()
      reads this, block, h
    {
      Shaped() && Buffered(absorbed, totLen, len, block[..]) &&
      RegsOf(h[..]) == HashBlocks(INITIAL, absorbed[..|absorbed| - len])
    }

    constructor ()
      ensures Shaped() && fresh(block) && fresh(h)
    {
      block := new Byte[2 * BLOCK_SIZE];
      h := new Word[8];
      totLen := 0;
      len := 0;
      absorbed := [];
    }

    method Init()
      requires Shaped()
      modifies this, h
      ensures Valid() && absorbed == []
    {
      h[0] := 0x6a09e667;
      h[1] := 0xbb67ae85;
      h[2] := 0x3c6ef372;
      h[3] := 0xa54ff53a;
      h[4] := 0x510e527f;
      h[5] := 0x9b05688c;
      h[6] := 0x1f83d9ab;
      h[7] := 0x5be0cd19;
      len := 0;
      totLen := 0;
      absorbed := [];
    }

    /** The message schedule of one block, filled in place. */
    method FillSchedule(w: array<Word>, subBlock: seq<Byte>)
      requires w.Length == 64 && |subBlock| == 64
      modifies w
      ensures forall j :: 0 <= j < 64 ==> w[j] == Schedule(subBlock, j)
    {
      for j := 0 to 16
        invariant forall i :: 0 <= i < j ==> w[i] == Schedule(subBlock, i)
      {
        w[j] := Pack(subBlock[4 * j..4 * j + 4]);
      }
      for j := 16 to 64
        invariant forall i :: 0 <= i < j ==> w[i] == Schedule(subBlock, i)
      {
        ScheduleStep(subBlock, j, w[j - 2], w[j - 7], w[j - 15], w[j - 16]);
        w[j] := Sum4(F4(w[j - 2]), w[j - 7], F3(w[j - 15]), w[j - 16]);
      }
    }

    /** One round, rotating the eight working variables in place. */
    method RoundInPlace(wv: array<Word>, k: Word, w: Word)
      requires wv.Length == 8
      modifies wv
      ensures RegsOf(wv[..]) == Round(old(RegsOf(wv[..])), k, w)
    {
      MacrosAreSigmas(wv[4]);
      MacrosAreSigmas(wv[0]);
      var t1 := Sum5(wv[7], F2(wv[4]), Ch(wv[4], wv[5], wv[6]), k, w);
      var t2 := Sum2(F1(wv[0]), Maj(wv[0], wv[1], wv[2]));
      wv[7] := wv[6];
      wv[6] := wv[5];
      wv[5] := wv[4];
      wv[4] := Sum2(wv[3], t1);
      wv[3] := wv[2];
      wv[2] := wv[1];
      wv[1] := wv[0];
      wv[0] := Sum2(t1, t2);
    }

    /** The 64 rounds of one block. */
    method RunRounds(wv: array<Word>, w: array<Word>, ghost subBlock: seq<Byte>)
      requires wv.Length == 8 && w.Length == 64 && wv != w && |subBlock| == 64
      requires forall j :: 0 <= j < 64 ==> w[j] == Schedule(subBlock, j)
      modifies wv
      ensures RegsOf(wv[..]) == Rounds(old(RegsOf(wv[..])), subBlock, 64)
    {
      for j := 0 to 64
        invariant RegsOf(wv[..]) == Rounds(old(RegsOf(wv[..])), subBlock, j)
      {
        RoundInPlace(wv, K[j], w[j]);
      }
    }

    /** Add the working variables to the hash value. */
    method AddInto(wv: array<Word>)
      requires Shaped() && wv.Length == 8 && wv != h
      modifies h
      ensures forall k :: 0 <= k < 8 ==> h[k] == Sum2(old(h[k]), wv[k])
    {
      for j := 0 to 8
        invariant forall k :: 0 <= k < 8 ==> h[k] == if k < j then Sum2(old(h[k]), wv[k]) else old(h[k])
      {
        h[j] := Sum2(h[j], wv[j]);
      }
    }

    method CompressBlock(subBlock: seq<Byte>)
      requires Shaped() && |subBlock| == 64
      modifies h
      ensures RegsOf(h[..]) == Compress(old(RegsOf(h[..])), subBlock)
    {
      hide Rounds, Schedule;
      var w := new Word[64];
      var wv := new Word[8];
      FillSchedule(w, subBlock);
      for j := 0 to 8
        modifies wv
        invariant wv[..j] == h[..j]
      {
        wv[j] := h[j];
      }
      assert wv[..] == h[..];
      RunRounds(wv, w, subBlock);
      AddInto(wv);
    }

    /** Compress `blockNb` blocks that stand at the front of `message`. */
    method Transform(message: seq<Byte>, blockNb: nat)
      requires Shaped() && BLOCK_SIZE * blockNb <= |message|
      modifies h
      ensures RegsOf(h[..]) == HashBlocks(old(RegsOf(h[..])), message[..BLOCK_SIZE * blockNb])
    {
      for i := 0 to blockNb
        invariant RegsOf(h[..]) == HashBlocks(old(RegsOf(h[..])), message[..BLOCK_SIZE * i])
      {
        var subBlock := message[BLOCK_SIZE * i..BLOCK_SIZE * (i + 1)];
        ghost var next := message[..BLOCK_SIZE * (i + 1)];
        assert next[..|next| - 64] == message[..BLOCK_SIZE * i] && next[|next| - 64..] == subBlock;
        CompressBlock(subBlock);
      }
    }

    /** Absorb more of the message.  The block index of the original is an `int`, hence the bound. */
    method Update(message: seq<Byte>)
      requires Valid() && |message| < 0x8000_0000
      modifies this, block, h
      ensures Valid() && absorbed == old(absorbed) + message
    {
      hide HashBlocks, Wrap, RegsOf;
      var tmpLen := BLOCK_SIZE - len;
      var remLen := if |message| < tmpLen then |message| else tmpLen;
      ghost var buffer := block[..];
      Copy(block, len, message[..remLen]);
      if len + |message| < BLOCK_SIZE {
        BufferMore(absorbed, totLen, len, buffer, message, block[..]);
        absorbed := absorbed + message;
        len := len + |message|;
        return;
      }
      UpdateBlocks(message, remLen, buffer);
    }

    /** The part of an update that fills the buffer: hash it and all whole blocks, keep the rest. */
    method UpdateBlocks(message: seq<Byte>, filled: nat, ghost buffer: seq<Byte>)
      requires Shaped() && Buffered(absorbed, totLen, len, buffer)
      requires RegsOf(h[..]) == HashBlocks(INITIAL, absorbed[..|absorbed| - len])
      requires filled == BLOCK_SIZE - len <= |message| && block[..BLOCK_SIZE] == buffer[..len] + message[..filled]
      modifies this, block, h
      ensures Valid() && absorbed == old(absorbed) + message
    {
      hide HashBlocks, Wrap, RegsOf;
      var remLen := filled;
      var newLen := |message| - remLen;
      var blockNb := newLen / BLOCK_SIZE;
      var more := BLOCK_SIZE * blockNb;
      var shifted := message[remLen..];
      ghost var hashed, first := absorbed[..|absorbed| - len], buffer[..len] + message[..remLen];
      assert block[..][..BLOCK_SIZE] == first;
      Transform(block[..], 1);
      Transform(shifted, blockNb);
      var rest := shifted[more..];
      Copy(block, 0, rest);
      assert rest <= block[..];
      HashThreeParts(hashed, first, shifted[..more]);
      assert message == message[..remLen] + shifted[..more] + rest;
      BufferRest(absorbed, totLen, len, buffer, message, message[..remLen], shifted[..more], rest, more, block[..]);
      remLen := newLen % BLOCK_SIZE;
      assert remLen == |rest|;
      len := remLen;
      totLen := Wrap(totLen + (BLOCK_SIZE + more));
      absorbed := absorbed + message;
      assert Buffered(absorbed, totLen, len, block[..]);
    }

    /** `SHA2_UNPACK32` into a buffer. */
    method Store(x: Word, dst: array<Byte>, at: nat)
      requires at + 4 <= dst.Length
      modifies dst
      ensures dst[..] == old(dst[..at]) + Unpack(x) + old(dst[at + 4..])
    {
      dst[at + 3] := (x & 0xFF) as Byte;
      dst[at + 2] := ((x >> 8) & 0xFF) as Byte;
      dst[at + 1] := ((x >> 16) & 0xFF) as Byte;
      dst[at] := ((x >> 24) & 0xFF) as Byte;
    }

    /** Pad the buffer to one or two blocks, as `StoredPadding` says. */
    method Pad(blockNb: nat, lenB: nat)
      requires Shaped() && len < BLOCK_SIZE && lenB < UINT32
      requires blockNb == if BLOCK_SIZE - 9 < len then 2 else 1
      modifies block
      ensures block[..BLOCK_SIZE * blockNb] ==
        old(block[..len]) + [0x80] + Zeros(BLOCK_SIZE * blockNb - 5 - len) + Unpack(AsWord(lenB))
    {
      hide AsWord, Unpack;
      var pmLen := BLOCK_SIZE * blockNb;
      forall i | len <= i < pmLen {
        block[i] := 0;
      }
      block[len] := 0x80;
      Store(AsWord(lenB), block, pmLen - 4);
    }

    /** The digest of everything absorbed; the object must be initialised again afterwards. */
    method Final(digest: array<Byte>)
      requires Valid() && digest.Length >= DIGEST_SIZE && digest != block
      modifies this, block, h, digest
      ensures Shaped() && absorbed == old(absorbed)
      ensures digest[..DIGEST_SIZE] == Digest(HashBlocks(INITIAL, absorbed + StoredPadding(|absorbed|)))
    {
      hide HashBlocks, Wrap, AsWord, Unpack, ZeroBytes, Digest, RegsOf;
      var blockNb := if BLOCK_SIZE - 9 < len then 2 else 1;
      var lenB := Wrap(8 * Wrap(totLen + len));
      ghost var hashed, pending := absorbed[..|absorbed| - len], block[..len];
      Pad(blockNb, lenB);
      BitCount(|absorbed|, totLen, len);
      ZeroBytesByLength(|absorbed|, len);
      PaddedTail(absorbed, len, ZeroBytes(|absorbed|), Unpack(AsWord(lenB)));
      Transform(block[..], blockNb);
      HashBlocksConcat(INITIAL, hashed, block[..BLOCK_SIZE * blockNb]);
      StoreWords(digest);
    }

    method StoreWords(digest: array<Byte>)
      requires Shaped() && digest.Length >= DIGEST_SIZE
      modifies digest
      ensures digest[..DIGEST_SIZE] == Digest(RegsOf(h[..]))
    {
      hide Unpack;
      for i := 0 to 8
        invariant digest[..4 * i] == UnpackAll(h[..i])
      {
        Store(h[i], digest, 4 * i);
        assert h[..i + 1][..i] == h[..i];
      }
      assert h[..8] == WordsOf(RegsOf(h[..]));
    }
  }

  lemma BitCount(n: nat, totLen: nat, len: nat)
    requires len <= n && totLen == Wrap(n - len)
    ensures Wrap(8 * Wrap(totLen + len)) == Wrap(8 * n)
  {
    WrapSum(n - len, len);
    WrapTimes8(n);
  }

  lemma {:induction false} WrapTimes8(n: nat)
    ensures Wrap(8 * Wrap(n)) == Wrap(8 * n)
  {
    if n >= UINT32 {
      WrapTimes8(n - UINT32);
      var m := 8 * (n - UINT32);
      assert 8 * n == m + UINT32 + UINT32 + UINT32 + UINT32 + UINT32 + UINT32 + UINT32 + UINT32;
      WrapSkips(m, 8);
    }
  }

  lemma {:induction false} WrapSkips(n: nat, k: nat)
    ensures Wrap(n + k * UINT32) == Wrap(n)
  {
    if k > 0 {
      WrapSkips(n, k - 1);
      assert n + k * UINT32 - UINT32 == n + (k - 1) * UINT32;
    }
  }

  lemma ZeroBytesByLength(n: nat, len: nat)
    requires len < BLOCK_SIZE && len <= n && (n - len) % BLOCK_SIZE == 0
    ensures ZeroBytes(n) == if BLOCK_SIZE - 9 < len then 119 - len else 55 - len
  {
    var q := (n - len) / BLOCK_SIZE;
    assert n == q * BLOCK_SIZE + len;
  }

  /** The tail of the padded message is what `Pad` writes. */
  lemma PaddedTail(a: seq<Byte>, len: nat, z: nat, u: seq<Byte>)
    requires len <= |a|
    ensures a + ([0x80] + Zeros(z) + (Zeros(4) + u)) == a[..|a| - len] + (a[|a| - len..] + [0x80] + Zeros(z + 4) + u)
  {
    assert a == a[..|a| - len] + a[|a| - len..];
    assert Zeros(z) + Zeros(4) == Zeros(z + 4);
  }

  // ----- whole runs of the hash ------------------------------------------------------------------

  function Joined(pieces: seq<seq<Byte>>): seq<Byte> {
    if pieces == [] then [] else Joined(pieces[..|pieces| - 1]) + pieces[|pieces| - 1]
  }

  /**
   * Any run of `init`, updates and `final`.  However the message is split, the digest is that of
   * the message with the stored padding, and below 2^29 bytes that is SHA-256.
   */
  method HashPieces(pieces: seq<seq<Byte>>) returns (digest: array<Byte>)
    requires forall i :: 0 <= i < |pieces| ==> |pieces[i]| < 0x8000_0000
    ensures fresh(digest) && digest.Length == DIGEST_SIZE
    ensures digest[..] == Digest(HashBlocks(INITIAL, Joined(pieces) + StoredPadding(|Joined(pieces)|)))
    ensures |Joined(pieces)| < 0x2000_0000 ==> digest[..] == Sha256(Joined(pieces))
  {
    hide HashBlocks, Digest, Padding, StoredPadding;
    digest := new Byte[DIGEST_SIZE];
    var ctx := new SHA256();
    ctx.Init();
    for i := 0 to |pieces|
      invariant ctx.Valid() && ctx.absorbed == Joined(pieces[..i])
    {
      ctx.Update(pieces[i]);
      assert pieces[..i + 1][..i] == pieces[..i];
    }
    assert pieces[..|pieces|] == pieces;
    ctx.Final(digest);
    assert digest[..] == digest[..DIGEST_SIZE];
    if |Joined(pieces)| < 0x2000_0000 {
      StoredPaddingIsStandard(|Joined(pieces)|);
    }
  }

  /** The one-call form. */
  method Sha256OneCall(input: seq<Byte>) returns (digest: array<Byte>)
    requires |input| < 0x8000_0000
    ensures fresh(digest) && digest.Length == DIGEST_SIZE
    ensures |input| < 0x2000_0000 ==> digest[..] == Sha256(input)
  {
    hide HashBlocks, Digest, Padding, StoredPadding;
    digest := HashPieces([input]);
    assert Joined([]) == [] && Joined([input]) == [] + input == input by {
      assert [input][..0] == [];
    }
  }
}
