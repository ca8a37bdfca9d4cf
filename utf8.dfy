/** UTF-8 encoding of text, following section 3 of RFC 3629, and the
    `is_unicode` check of the bot, which compares the number of code points
    of a text with the number of bytes of its UTF-8 encoding.

    Text is a Dafny `string`: a sequence of Unicode scalar values, so the
    surrogate code points (which make Python's `str.encode()` raise) cannot
    occur. */
module Utf8 {

  type byte = b: int | 0 <= b < 0x100

  /** A code point that RFC 3629 encodes in a single byte. */
  predicate IsAscii(c: char) {
    c as int < 0x80
  }

  /** The UTF-8 byte sequence of one scalar value (RFC 3629, section 3):
      one byte below U+0080, two below U+0800, three below U+10000, four
      otherwise; the first byte announces the length and every other byte
      is a continuation byte 10xxxxxx. */
  function EncodeScalar(c: char): (r: seq<byte>)
    ensures IsAscii(c) <==> |r| == 1
    ensures IsAscii(c) ==> r == [c as int]
    ensures 0x80 <= c as int < 0x800 <==> |r| == 2
    ensures 0x800 <= c as int < 0x10000 <==> |r| == 3
    ensures 0x10000 <= c as int <==> |r| == 4
    ensures |r| == 2 ==> 0xC2 <= r[0] <= 0xDF
    ensures |r| == 3 ==> 0xE0 <= r[0] <= 0xEF
    ensures |r| == 4 ==> 0xF0 <= r[0] <= 0xF4
    ensures forall k :: 1 <= k < |r| ==> 0x80 <= r[k] < 0xC0
  {
    var n := c as int;
    if n < 0x80 then
      [n]
    else if n < 0x800 then
      [0xC0 + n / 0x40, 0x80 + n % 0x40]
    else if n < 0x10000 then
      [0xE0 + n / 0x1000, 0x80 + (n / 0x40) % 0x40, 0x80 + n % 0x40]
    else
      [0xF0 + n / 0x40000, 0x80 + (n / 0x1000) % 0x40, 0x80 + (n / 0x40) % 0x40, 0x80 + n % 0x40]
  }

  /** Reassembles the code point from the bits of a 1- to 4-byte sequence
      (the x bits of the table in section 3 of RFC 3629). */
  function DecodeScalar(bs: seq<byte>): int
    requires 1 <= |bs| <= 4
  {
    if |bs| == 1 then bs[0]
    else if |bs| == 2 then (bs[0] as int - 0xC0) * 0x40 + (bs[1] as int - 0x80)
    else if |bs| == 3 then (bs[0] as int - 0xE0) * 0x1000 + (bs[1] as int - 0x80) * 0x40 + (bs[2] as int - 0x80)
    else (bs[0] as int - 0xF0) * 0x40000 + (bs[1] as int - 0x80) * 0x1000 + (bs[2] as int - 0x80) * 0x40 + (bs[3] as int - 0x80)
  }

  /** Decoding the bytes of one scalar value gives that scalar value back. */
  lemma DecodeEncodeScalar(c: char)
    ensures DecodeScalar(EncodeScalar(c)) == c as int
  {
    var n := c as int;
    if 0x10000 <= n {
      assert n % 0x1000 == (n / 0x40) % 0x40 * 0x40 + n % 0x40;
      assert n % 0x40000 == (n / 0x1000) % 0x40 * 0x1000 + n % 0x1000;
    } else if 0x800 <= n {
      assert n % 0x1000 == (n / 0x40) % 0x40 * 0x40 + n % 0x40;
    }
  }

  /** Python's `text.encode()`: the UTF-8 encodings of the code points,
      concatenated in order; one to four bytes per code point. */
  function Encode(t: string): (r: seq<byte>)
    ensures |t| <= |r| <= 4 * |t|
  {
    if t == [] then [] else EncodeScalar(t[0]) + Encode(t[1..])
  }

  /** The encoding is exactly as long as the text precisely when every
      code point is ASCII. */
  lemma {:induction false} EncodeLength(t: string)
    ensures |Encode(t)| == |t| <==> forall i :: 0 <= i < |t| ==> IsAscii(t[i])
  {
    if t != [] {
      EncodeLength(t[1..]);
      assert forall i :: 1 <= i < |t| ==> t[i] == t[1..][i - 1];
    }
  }

  /** `is_unicode` of main_bot.py: the code-point count equals the UTF-8
      byte count, which holds exactly for the texts made only of ASCII
      code points (below U+0080). */
  predicate IsUnicode(t: string)
    ensures IsUnicode(t) <==> forall i :: 0 <= i < |t| ==> IsAscii(t[i])
  {
    EncodeLength(t);
    |t| == |Encode(t)|
  }
}
