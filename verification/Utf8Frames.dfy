/** The web client's text codec over 16-bit code units, and its loop over 256-byte frames. */
module Utf8Frames {

  type Unit = bv16
  type Byte = bv8

  const FRAME_SIZE: nat := 256

  // ----- encoding --------------------------------------------------------------------------------

  /** How many bytes a code unit takes. */
  function Width(c: Unit): nat { if c <= 0x7F then 1 else if c <= 0x7FF then 2 else 3 }

  function Lead2(c: Unit): Byte { (0xC0 | ((c >> 6) & 0x1F)) as Byte }

  function Lead3(c: Unit): Byte { (0xE0 | ((c >> 12) & 0x0F)) as Byte }

  function Middle(c: Unit): Byte { (0x80 | ((c >> 6) & 0x3F)) as Byte }

  function Last(c: Unit): Byte { (0x80 | (c & 0x3F)) as Byte }

  function Ascii(c: Unit): Byte
    requires Width(c) == 1
  {
    c as Byte
  }

  function Encode(c: Unit): (b: seq<Byte>)
    ensures |b| == Width(c)
  {
    if Width(c) == 1 then [Ascii(c)]
    else if Width(c) == 2 then [Lead2(c), Last(c)]
    else [Lead3(c), Middle(c), Last(c)]
  }

  function EncodeAll(s: seq<Unit>): seq<Byte> {
    if s == [] then [] else EncodeAll(s[..|s| - 1]) + Encode(s[|s| - 1])
  }

  function Zeros(n: nat): (z: seq<Byte>)
    ensures |z| == n
  {
    seq(n, _ => 0)
  }

  /** `length` is the size to fill up to with zeros; 0 stands for an absent argument. */
  method StringToUtf8Array(str: seq<Unit>, length: nat) returns (array': seq<Byte>)
    ensures array' == EncodeAll(str) + Zeros(if |EncodeAll(str)| < length then length - |EncodeAll(str)| else 0)
  {
    hide Ascii, Lead2, Lead3, Middle, Last, Width;
    array' := [];
    var i := 0;
    while i < |str|
      invariant 0 <= i <= |str|
      invariant array' == EncodeAll(str[..i])
    {
      var c := str[i];
      assert str[..i + 1][..i] == str[..i];
      i := i + 1;
      if Width(c) == 1 {
        array' := array' + [Ascii(c)];
      } else if Width(c) == 2 {
        array' := array' + [Lead2(c)];
        array' := array' + [Last(c)];
      } else {
        array' := array' + [Lead3(c)];
        array' := array' + [Middle(c)];
        array' := array' + [Last(c)];
      }
      assert array' == EncodeAll(str[..i - 1]) + Encode(c);
    }
    assert str[..|str|] == str;
    if length > 0 && |array'| < length {
      array' := array' + Zeros(length - |array'|);
    }
  }

  // ----- decoding --------------------------------------------------------------------------------

  function Two(c: Byte, d: Byte): Unit {
    (((c & 0x1F) as Unit) << 6) | ((d & 0x3F) as Unit)
  }

  function Three(c: Byte, d: Byte, e: Byte): Unit {
    (((c & 0x0F) as Unit) << 12) | (((d & 0x3F) as Unit) << 6) | ((e & 0x3F) as Unit)
  }

  /** What the leading byte announces: the number of bytes, or 0 for a byte that starts nothing. */
  function Announced(c: Byte): nat {
    if c < 0x80 then 1 else if 0xC0 <= c < 0xE0 then 2 else if 0xE0 <= c < 0xF0 then 3 else 0
  }

  /** A read past the end gives `undefined`: it is not equal to zero, and its bits are zero. */
  function Bits(a: seq<Byte>, i: nat): Byte { if i < |a| then a[i] else 0 }

  predicate IsZero(a: seq<Byte>, i: nat) { i < |a| && a[i] == 0 }

  function One(c: Byte): Unit { c as Unit }

  /** What the decoder makes of any bytes: it stops at a zero byte and skips bytes that start nothing. */
  function DecodeFrom(a: seq<Byte>, i: nat): seq<Unit>
    decreases if i < |a| then |a| - i else 0
  {
    if i >= |a| || a[i] == 0 then []
    else if Announced(a[i]) == 1 then [One(a[i])] + DecodeFrom(a, i + 1)
    else if Announced(a[i]) == 2 then
      (if IsZero(a, i + 1) then [] else [Two(a[i], Bits(a, i + 1))] + DecodeFrom(a, i + 2))
    else if Announced(a[i]) == 3 then
      (if IsZero(a, i + 1) || IsZero(a, i + 2) then []
       else [Three(a[i], Bits(a, i + 1), Bits(a, i + 2))] + DecodeFrom(a, i + 3))
    else DecodeFrom(a, i + 1)
  }

  method Utf8ArrayToString(array': seq<Byte>) returns (out: seq<Unit>)
    ensures out == DecodeFrom(array', 0)
  {
    hide One, Two, Three, Announced;
    out := [];
    var i := 0;
    while i < |array'|
      invariant i >= 0 && out + DecodeFrom(array', i) == DecodeFrom(array', 0)
      decreases |array'| - i
    {
      var c := array'[i];
      i := i + 1;
      if c == 0 {
        return;
      }
      match Announced(c) {
        case 1 =>
          out := out + [One(c)];
        case 2 =>
          var char2 := Bits(array', i);
          if IsZero(array', i) {
            return;
          }
          i := i + 1;
          out := out + [Two(c, char2)];
        case 3 =>
          var char2 := Bits(array', i);
          if IsZero(array', i) {
            return;
          }
          i := i + 1;
          var char3 := Bits(array', i);
          if IsZero(array', i) {
            return;
          }
          i := i + 1;
          out := out + [Three(c, char2, char3)];
        case _ =>
      }
    }
  }

  // ----- the round trip --------------------------------------------------------------------------

  /** The bytes of one code unit are recognised and put together again, and are zero only for zero. */
  lemma UnitSurvives(c: Unit)
    ensures Width(c) == 1 ==> Announced(Ascii(c)) == 1 && One(Ascii(c)) == c && (Ascii(c) == 0 <==> c == 0)
    ensures Width(c) == 2 ==> Announced(Lead2(c)) == 2 && Two(Lead2(c), Last(c)) == c && Lead2(c) != 0
    ensures Width(c) == 3 ==> Announced(Lead3(c)) == 3 && Three(Lead3(c), Middle(c), Last(c)) == c && Lead3(c) != 0
    ensures Middle(c) != 0 && Last(c) != 0
  {
  }

  lemma DecodeUnit(a: seq<Byte>, i: nat, c: Unit)
    requires i + Width(c) <= |a| && a[i..i + Width(c)] == Encode(c)
    ensures DecodeFrom(a, i) == if c == 0 then [] else [c] + DecodeFrom(a, i + Width(c))
  {
    UnitSurvives(c);
    hide One, Two, Three, Announced, Ascii, Lead2, Lead3, Middle, Last;
    var e := a[i..i + Width(c)];
    assert e == Encode(c) && e[0] == a[i];
    if Width(c) == 1 {
      assert a[i] == Ascii(c);
    } else if Width(c) == 2 {
      assert e[1] == a[i + 1];
      assert a[i] == Lead2(c) && a[i + 1] == Last(c);
    } else {
      assert Width(c) == 3;
      assert e[1] == a[i + 1] && e[2] == a[i + 2];
      assert a[i] == Lead3(c) && a[i + 1] == Middle(c) && a[i + 2] == Last(c);
    }
  }

  /** The part of a text before its first zero unit. */
  function UpToZero(s: seq<Unit>): seq<Unit> {
    if s == [] || s[0] == 0 then [] else [s[0]] + UpToZero(s[1..])
  }

  lemma {:induction false} EncodeAllFirst(s: seq<Unit>)
    requires s != []
    ensures EncodeAll(s) == Encode(s[0]) + EncodeAll(s[1..])
  {
    hide Encode;
    if |s| > 1 {
      var init := s[..|s| - 1];
      EncodeAllFirst(init);
      assert s[1..][..|s| - 2] == init[1..];
    } else {
      assert s[..0] == [] && s[1..] == [];
    }
  }

  /** Decoding a terminated text gives the text up to its first zero unit, whatever follows. */
  lemma {:induction false} DecodeText(a: seq<Byte>, i: nat, s: seq<Unit>)
    requires i + |EncodeAll(s)| < |a| && a[i..i + |EncodeAll(s)|] == EncodeAll(s) && a[i + |EncodeAll(s)|] == 0
    ensures DecodeFrom(a, i) == UpToZero(s)
    decreases |s|
  {
    hide Encode, Announced;
    if s != [] {
      EncodeAllFirst(s);
      var w := Width(s[0]);
      assert a[i..i + |EncodeAll(s)|][..w] == a[i..i + w];
      assert a[i..i + |EncodeAll(s)|][w..] == a[i + w..i + |EncodeAll(s)|];
      DecodeUnit(a, i, s[0]);
      DecodeText(a, i + w, s[1..]);
    }
  }

  /** A terminated text is read back whole exactly when it has no zero unit. */
  lemma DecodeEncode(s: seq<Unit>, filler: seq<Byte>)
    ensures DecodeFrom(EncodeAll(s) + [0] + filler, 0) == s <==> 0 !in s
  {
    DecodeText(EncodeAll(s) + [0] + filler, 0, s);
    UpToZeroKeeps(s);
  }

  lemma {:induction false} UpToZeroKeeps(s: seq<Unit>)
    ensures UpToZero(s) == s <==> 0 !in s
    ensures |UpToZero(s)| <= |s|
  {
    if s != [] {
      UpToZeroKeeps(s[1..]);
      assert s == [s[0]] + s[1..];
    }
  }

  // ----- RFC 3629 --------------------------------------------------------------------------------

  predicate OneByte(c: Unit, b0: Byte) { b0 & 0x80 == 0 && c == b0 as Unit }

  predicate TwoBytes(c: Unit, b0: Byte, b1: Byte) {
    0x80 <= c <= 0x7FF && b0 & 0xE0 == 0xC0 && b1 & 0xC0 == 0x80 &&
    c == (((b0 & 0x1F) as Unit) << 6) | ((b1 & 0x3F) as Unit)
  }

  predicate ThreeBytes(c: Unit, b0: Byte, b1: Byte, b2: Byte) {
    0x800 <= c && b0 & 0xF0 == 0xE0 && b1 & 0xC0 == 0x80 && b2 & 0xC0 == 0x80 &&
    c == (((b0 & 0x0F) as Unit) << 12) | (((b1 & 0x3F) as Unit) << 6) | ((b2 & 0x3F) as Unit)
  }

  predicate IsSurrogate(c: Unit) { 0xD800 <= c <= 0xDFFF }

  /** Section 3 of RFC 3629: the byte sequences that encode a code point of the first plane. */
  predicate IsUtf8(c: Unit, b: seq<Byte>) {
    || (|b| == 1 && OneByte(c, b[0]))
    || (|b| == 2 && TwoBytes(c, b[0], b[1]))
    || (|b| == 3 && ThreeBytes(c, b[0], b[1], b[2]) && !IsSurrogate(c))
  }

  lemma EncodeFollowsTable(c: Unit)
    ensures Width(c) == 1 ==> OneByte(c, Ascii(c))
    ensures Width(c) == 2 ==> TwoBytes(c, Lead2(c), Last(c)) && !IsSurrogate(c)
    ensures Width(c) == 3 ==> ThreeBytes(c, Lead3(c), Middle(c), Last(c))
    ensures Width(c) == 1 ==> !IsSurrogate(c)
  {
  }

  /** The encoder follows the standard exactly on the code units that are not surrogates. */
  lemma EncodeIsUtf8(c: Unit)
    ensures IsUtf8(c, Encode(c)) <==> !IsSurrogate(c)
  {
    EncodeFollowsTable(c);
    hide OneByte, TwoBytes, ThreeBytes, IsSurrogate, Ascii, Lead2, Lead3, Middle, Last, Width;
  }

  lemma ShortFormsAreUnique(c: Unit, b0: Byte, b1: Byte)
    ensures OneByte(c, b0) ==> Width(c) == 1 && b0 == Ascii(c)
    ensures TwoBytes(c, b0, b1) ==> Width(c) == 2 && b0 == Lead2(c) && b1 == Last(c)
  {
  }

  lemma LongFormIsUnique(c: Unit, b0: Byte, b1: Byte, b2: Byte)
    ensures ThreeBytes(c, b0, b1, b2) ==> Width(c) == 3 && b0 == Lead3(c) && b1 == Middle(c) && b2 == Last(c)
  {
  }

  /** And the standard leaves it no choice. */
  lemma Utf8IsUnique(c: Unit, b: seq<Byte>)
    requires IsUtf8(c, b)
    ensures b == Encode(c)
  {
    ShortFormsAreUnique(c, Bits(b, 0), Bits(b, 1));
    LongFormIsUnique(c, Bits(b, 0), Bits(b, 1), Bits(b, 2));
    hide OneByte, TwoBytes, ThreeBytes, IsSurrogate, Ascii, Lead2, Lead3, Middle, Last, Width;
  }

  // ----- frames ----------------------------------------------------------------------------------

  /** The texts a client reads from the bytes it has received. */
  function Texts(data: seq<Byte>): seq<seq<Unit>>
    decreases |data|
  {
    if data == [] then [] else [DecodeFrom(data, 0)] + Texts(if FRAME_SIZE <= |data| then data[FRAME_SIZE..] else [])
  }

  /** One text for each 256 bytes that have begun. */
  lemma {:induction false} OneTextPerFrame(data: seq<Byte>)
    ensures |Texts(data)| == (|data| + 255) / 256
  {
    hide DecodeFrom;
    if FRAME_SIZE <= |data| {
      OneTextPerFrame(data[FRAME_SIZE..]);
    }
  }

  method ServerMessageHandler(received: seq<Byte>) returns (handled: seq<seq<Unit>>)
    ensures handled == Texts(received)
  {
    hide DecodeFrom;
    var data := received;
    handled := [];
    while |data| > 0
      invariant handled + Texts(data) == Texts(received)
      decreases |data|
    {
      var str := Utf8ArrayToString(data);
      handled := handled + [str];
      data := if FRAME_SIZE <= |data| then data[FRAME_SIZE..] else [];
    }
  }

  /** A message and what the sender's buffer happens to hold behind its terminating zero. */
  datatype Frame = Frame(text: seq<Unit>, filler: seq<Byte>)

  ghost predicate Fits(f: Frame) {
    |EncodeAll(f.text)| + 1 + |f.filler| == FRAME_SIZE
  }

  function FrameBytes(f: Frame): seq<Byte> {
    EncodeAll(f.text) + [0] + f.filler
  }

  function Sent(frames: seq<Frame>): seq<Byte> {
    if frames == [] then [] else FrameBytes(frames[0]) + Sent(frames[1..])
  }

  /** Any sequence of framed texts without zero units is recovered exactly, whatever the fillers are. */
  lemma {:induction false} FramesRoundTrip(frames: seq<Frame>)
    requires forall i :: 0 <= i < |frames| ==> Fits(frames[i]) && 0 !in frames[i].text
    ensures Texts(Sent(frames)) == seq(|frames|, i requires 0 <= i < |frames| => frames[i].text)
  {
    hide DecodeFrom, EncodeAll;
    if frames != [] {
      var f, rest := frames[0], Sent(frames[1..]);
      FramesRoundTrip(frames[1..]);
      assert Sent(frames) == EncodeAll(f.text) + [0] + (f.filler + rest);
      DecodeEncode(f.text, f.filler + rest);
      assert Sent(frames)[FRAME_SIZE..] == rest;
    }
  }
}
