/**
 * UTF-8 as section 3 of RFC 3629 defines it: each Unicode scalar value is
 * written as one to four bytes, the count fixed by the value's range.
 */
module Utf8 {

  type Byte = b: int | 0 <= b < 256

  /** True for a byte of the form 10xxxxxx, which continues a multi-byte sequence. */
  predicate IsContinuation(b: Byte) {
    0x80 <= b < 0xC0
  }

  /**
   * The bytes that encode `c`: 0xxxxxxx below U+0080, 110xxxxx 10xxxxxx below
   * U+0800, 1110xxxx and two continuation bytes below U+10000, and 11110xxx and
   * three continuation bytes above.
   */
  function EncodeCodePoint(c: char): (b: seq<Byte>)
    ensures 1 <= |b| <= 4
    ensures |b| == 1 <==> b[0] < 0x80
    ensures |b| == 2 <==> 0xC2 <= b[0] < 0xE0
    ensures |b| == 3 <==> 0xE0 <= b[0] < 0xF0
    ensures |b| == 4 <==> 0xF0 <= b[0] <= 0xF4
    ensures forall i :: 1 <= i < |b| ==> IsContinuation(b[i])
  {
    var cp := c as int;
    if cp < 0x80 then [cp]
    else if cp < 0x800 then [0xC0 + cp / 0x40, 0x80 + cp % 0x40]
    else if cp < 0x1_0000 then [0xE0 + cp / 0x1000, 0x80 + (cp / 0x40) % 0x40, 0x80 + cp % 0x40]
    else [0xF0 + cp / 0x4_0000, 0x80 + (cp / 0x1000) % 0x40, 0x80 + (cp / 0x40) % 0x40, 0x80 + cp % 0x40]
  }

  /** The scalar value that one well-formed sequence of one to four bytes carries. */
  function DecodeCodePoint(b: seq<Byte>): int
    requires 1 <= |b| <= 4
  {
    var lead := b[0] as int;
    if |b| == 1 then lead
    else if |b| == 2 then (lead - 0xC0) * 0x40 + Low6(b[1])
    else if |b| == 3 then (lead - 0xE0) * 0x1000 + Low6(b[1]) * 0x40 + Low6(b[2])
    else (lead - 0xF0) * 0x4_0000 + Low6(b[1]) * 0x1000 + Low6(b[2]) * 0x40 + Low6(b[3])
  }

  /** The six payload bits of a continuation byte. */
  function Low6(b: Byte): int {
    b as int - 0x80
  }

  /** Decoding the bytes of one scalar value gives the value back. */
  lemma DecodeEncodeCodePoint(c: char)
    ensures DecodeCodePoint(EncodeCodePoint(c)) == c as int
  {
    var cp := c as int;
    if cp >= 0x1_0000 {
      SplitFourBytes(cp);
    } else if cp >= 0x800 {
      SplitThreeBytes(cp);
    }
  }

  /** A value below U+10000 is its three 6-bit groups, high group first. */
  lemma SplitThreeBytes(cp: nat)
    ensures cp == (cp / 0x1000) * 0x1000 + ((cp / 0x40) % 0x40) * 0x40 + cp % 0x40
  {
    assert cp == (cp / 0x40) * 0x40 + cp % 0x40;
    assert cp / 0x40 == (cp / 0x1000) * 0x40 + (cp / 0x40) % 0x40;
  }

  /** A value above U+FFFF is its four 6-bit groups, high group first. */
  lemma SplitFourBytes(cp: nat)
    ensures cp == (cp / 0x4_0000) * 0x4_0000 + ((cp / 0x1000) % 0x40) * 0x1000 + ((cp / 0x40) % 0x40) * 0x40 + cp % 0x40
  {
    SplitThreeBytes(cp);
    assert cp / 0x1000 == (cp / 0x4_0000) * 0x40 + (cp / 0x1000) % 0x40;
  }

  /** How many bytes UTF-8 spends on `c`. */
  function CodePointLength(c: char): (n: nat)
    ensures n == |EncodeCodePoint(c)|
  {
    var cp := c as int;
    if cp < 0x80 then 1 else if cp < 0x800 then 2 else if cp < 0x1_0000 then 3 else 4
  }

  /** The UTF-8 byte length of a string of scalar values. */
  function Length(s: seq<char>): (n: nat)
    ensures |s| <= n <= 4 * |s|
  {
    if s == [] then 0 else CodePointLength(s[0]) + Length(s[1..])
  }

  /** The UTF-8 encoding of a string of scalar values. */
  function Encode(s: seq<char>): seq<Byte> {
    if s == [] then [] else EncodeCodePoint(s[0]) + Encode(s[1..])
  }

  /** The length that `Length` computes is the size of the encoding itself. */
  lemma {:induction false} LengthIsEncodedSize(s: seq<char>)
    ensures |Encode(s)| == Length(s)
  {
    if s != [] {
      LengthIsEncodedSize(s[1..]);
    }
  }
}
