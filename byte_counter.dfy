/**
 * The byte counts the bandwidth middleware records: the inbound size read
 * from the declared `Content-Length` header, and the outbound size of the
 * payload handed to `res.send`, measured as `Buffer.byteLength(data || '', 'utf8')`.
 */
module ByteCounter {
  import opened Wrappers
  import opened JsNumbers
  import Utf8

  /** One UTF-16 code unit: a JavaScript string is a sequence of these. */
  type CodeUnit = u: int | 0 <= u < 0x1_0000

  predicate IsHighSurrogate(u: CodeUnit) {
    0xD800 <= u < 0xDC00
  }

  predicate IsLowSurrogate(u: CodeUnit) {
    0xDC00 <= u < 0xE000
  }

  /** The code units of one scalar value: itself, or a surrogate pair above U+FFFF. */
  function CodeUnits(c: char): (units: seq<CodeUnit>)
    ensures 1 <= |units| <= 2
    ensures |units| == 2 <==> IsHighSurrogate(units[0])
    ensures |units| == 2 ==> IsLowSurrogate(units[1])
    ensures c as int < 0x1_0000 ==> units == [c as int]
    ensures c as int >= 0x1_0000 ==> |units| == 2 && 0x1_0000 + (units[0] as int - 0xD800) * 0x400 + (units[1] as int - 0xDC00) == c as int
  {
    var cp := c as int;
    if cp < 0x1_0000 then [cp]
    else [0xD800 + (cp - 0x1_0000) / 0x400, 0xDC00 + (cp - 0x1_0000) % 0x400]
  }

  /** The JavaScript string that holds the scalar values `s`. */
  function ToUtf16(s: seq<char>): seq<CodeUnit> {
    if s == [] then [] else CodeUnits(s[0]) + ToUtf16(s[1..])
  }

  /** UTF-8 bytes for one code unit that is not part of a surrogate pair; a lone surrogate becomes U+FFFD. */
  function UnitLength(u: CodeUnit): nat {
    if u < 0x80 then 1 else if u < 0x800 then 2 else 3
  }

  /**
   * `Buffer.byteLength(str, 'utf8')`: a surrogate pair costs four bytes, every
   * other code unit one to three, a lone surrogate three (it is written as the
   * replacement character).
   */
  function Utf8ByteLength(units: seq<CodeUnit>): (n: nat)
    ensures |units| <= n <= 3 * |units|
  {
    if units == [] then 0
    else if |units| >= 2 && IsHighSurrogate(units[0]) && IsLowSurrogate(units[1]) then 4 + Utf8ByteLength(units[2..])
    else UnitLength(units[0]) + Utf8ByteLength(units[1..])
  }

  /** Code units of `c` followed by more text cost exactly `c`'s UTF-8 length first. */
  lemma Utf8ByteLengthCons(c: char, rest: seq<CodeUnit>)
    ensures Utf8ByteLength(CodeUnits(c) + rest) == Utf8.CodePointLength(c) + Utf8ByteLength(rest)
  {
    var units := CodeUnits(c) + rest;
    if |CodeUnits(c)| == 1 {
      assert units[1..] == rest;
    } else {
      assert units[2..] == rest;
    }
  }

  /**
   * A surrogate that is not the high half of a pair is written as the
   * replacement character U+FFFD, three bytes, whatever follows it.
   */
  lemma LoneSurrogateCostsThree(u: CodeUnit, rest: seq<CodeUnit>)
    requires IsHighSurrogate(u) || IsLowSurrogate(u)
    requires !(IsHighSurrogate(u) && rest != [] && IsLowSurrogate(rest[0]))
    ensures Utf8ByteLength([u] + rest) == 3 + Utf8ByteLength(rest)
    ensures Utf8ByteLength([u] + rest) == |Utf8.EncodeCodePoint('\U{FFFD}')| + Utf8ByteLength(rest)
  {
    assert ([u] + rest)[1..] == rest;
  }

  /** On a well-formed string the measured size is the size of the string's UTF-8 encoding. */
  lemma {:induction false} Utf8ByteLengthOfString(s: seq<char>)
    ensures Utf8ByteLength(ToUtf16(s)) == Utf8.Length(s) == |Utf8.Encode(s)|
  {
    if s != [] {
      Utf8ByteLengthCons(s[0], ToUtf16(s[1..]));
      Utf8ByteLengthOfString(s[1..]);
    }
    Utf8.LengthIsEncodedSize(s);
  }

  /** What `res.send` is called with. */
  datatype Payload =
    | Absent                        // undefined or null
    | Text(units: seq<CodeUnit>)    // a string, such as the body `res.json` serialises
    | Binary(bytes: seq<Utf8.Byte>) // a Buffer

  /** The outbound size: `data || ''` turns a missing payload into the empty string. */
  function ResponseSize(data: Payload): (n: nat)
    ensures data.Absent? ==> n == 0
    ensures data.Text? ==> |data.units| <= n <= 3 * |data.units|
    ensures data.Binary? ==> n == |data.bytes|
  {
    match data
    case Absent => Utf8ByteLength([])
    case Text(units) => Utf8ByteLength(units)
    case Binary(bytes) => |bytes|
  }

  /** A well-formed string payload is measured by the size of its UTF-8 encoding. */
  lemma ResponseSizeOfString(s: seq<char>)
    ensures ResponseSize(Text(ToUtf16(s))) == |Utf8.Encode(s)|
  {
    Utf8ByteLengthOfString(s);
  }

  /** The inbound size: `parseInt(header || '0')`, so a missing or empty header reads as 0. */
  function ContentLength(header: Option<string>): (r: Number)
    ensures header == None || header == Some("") ==> r == Finite(0)
  {
    if header == None || header == Some("") then
      ParseIntOfZero();
      ParseInt("0")
    else
      ParseInt(header.value)
  }

  /** A header holding a decimal number, possibly signed and padded, is read as that number. */
  lemma ContentLengthReadsDecimal(ws: string, sign: string, n: nat)
    requires forall i :: 0 <= i < |ws| ==> IsStrWhiteSpace(ws[i])
    requires IsSign(sign)
    ensures ContentLength(Some(ws + sign + Format(n, 10)))
              == if sign == "-" then Finite(-(n as int)) else Finite(n)
  {
    var text := ws + sign + Format(n, 10);
    assert text != "" by { assert |text| >= |Format(n, 10)| > 0; }
    ParseIntReadsDecimal(ws, sign, n);
  }

  /** A header whose first significant character is not a digit is read as NaN. */
  lemma ContentLengthNonNumeric(c: char, rest: string)
    requires !IsDigit(c, 10) && !IsStrWhiteSpace(c) && c != '+' && c != '-'
    ensures ContentLength(Some([c] + rest)) == NaN
  {
    ParseIntNoDigits("", "", c, rest);
    assert "" + "" + [c] + rest == [c] + rest;
  }
}
