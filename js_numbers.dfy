/**
 * JavaScript numbers as far as the bandwidth counters need them, and the
 * global `parseInt` (section 19.2.5 of ECMA-262) called with no radix.
 *
 * A JavaScript number is a double; here it is either an exact integer or NaN,
 * which is all that `parseInt` and the counters' `+=` can produce.
 */
module JsNumbers {

  /** An integral JavaScript number, or NaN. */
  datatype Number = Finite(value: int) | NaN

  /** JavaScript `+` on two numbers: NaN on either side makes the sum NaN. */
  function Add(a: Number, b: Number): (r: Number)
    ensures r.Finite? <==> a.Finite? && b.Finite?
    ensures r.Finite? ==> r.value == a.value + b.value
  {
    if a.Finite? && b.Finite? then Finite(a.value + b.value) else NaN
  }

  /**
   * The code points `parseInt` skips before the number: StrWhiteSpaceChar of
   * ECMA-262, that is WhiteSpace (tab, vertical tab, form feed, space,
   * no-break space, zero width no-break space and the Zs category) and
   * LineTerminator (line feed, carriage return, line and paragraph separator).
   */
  predicate IsStrWhiteSpace(c: char) {
    c == '\t' || c == '\U{000B}' || c == '\U{000C}' || c == ' ' || c == '\U{00A0}' || c == '\U{FEFF}'
    || c == '\U{1680}' || ('\U{2000}' <= c <= '\U{200A}') || c == '\U{202F}' || c == '\U{205F}' || c == '\U{3000}'
    || c == '\n' || c == '\r' || c == '\U{2028}' || c == '\U{2029}'
  }

  /** The length of the longest prefix of `s` made of white space. */
  function LeadingWhiteSpace(s: string): (k: nat)
    ensures k <= |s|
    ensures forall i :: 0 <= i < k ==> IsStrWhiteSpace(s[i])
    ensures k == |s| || !IsStrWhiteSpace(s[k])
  {
    if s == [] || !IsStrWhiteSpace(s[0]) then 0 else 1 + LeadingWhiteSpace(s[1..])
  }

  /** The value of `c` as a digit in radix 36, or 36 when it is not one. */
  function DigitValue(c: char): (d: nat)
    ensures d <= 36
  {
    if '0' <= c <= '9' then c as int - '0' as int
    else if 'a' <= c <= 'z' then c as int - 'a' as int + 10
    else if 'A' <= c <= 'Z' then c as int - 'A' as int + 10
    else 36
  }

  predicate IsDigit(c: char, radix: nat) {
    DigitValue(c) < radix
  }

  /** The length of the longest prefix of `s` made of digits of `radix`. */
  function DigitRun(s: string, radix: nat): (k: nat)
    ensures k <= |s|
    ensures forall i :: 0 <= i < k ==> IsDigit(s[i], radix)
    ensures k == |s| || !IsDigit(s[k], radix)
  {
    if s == [] || !IsDigit(s[0], radix) then 0 else 1 + DigitRun(s[1..], radix)
  }

  /** The integer that the digits `z` denote in `radix`, most significant first. */
  function DigitsValue(z: string, radix: nat): nat {
    if z == [] then 0
    else DigitsValue(z[..|z| - 1], radix) * radix + DigitValue(z[|z| - 1])
  }

  /** True when `u` starts with the hexadecimal prefix `0x` or `0X`. */
  predicate HasHexPrefix(u: string) {
    |u| >= 2 && u[0] == '0' && (u[1] == 'x' || u[1] == 'X')
  }

  /** Negation of a JavaScript number; NaN stays NaN (and -0 is 0 here). */
  function Negate(a: Number): (r: Number)
    ensures r.Finite? <==> a.Finite?
    ensures r.Finite? ==> r.value == -a.value
  {
    if a.Finite? then Finite(-a.value) else NaN
  }

  /**
   * The unsigned part of `parseInt`: switch to radix 16 after a `0x`/`0X`
   * prefix, then read the longest run of digits. No digits gives NaN;
   * anything after the run is ignored.
   */
  function ParseMagnitude(u: string): (r: Number)
    ensures r.Finite? ==> r.value >= 0
  {
    var radix := if HasHexPrefix(u) then 16 else 10;
    var body := if HasHexPrefix(u) then u[2..] else u;
    var z := body[..DigitRun(body, radix)];
    if z == [] then NaN else Finite(DigitsValue(z, radix))
  }

  /**
   * `parseInt(s)` with no radix: skip leading white space, take an optional
   * sign, then read the magnitude.
   */
  function ParseInt(s: string): Number {
    var t := s[LeadingWhiteSpace(s)..];
    if |t| > 0 && t[0] == '-' then Negate(ParseMagnitude(t[1..]))
    else if |t| > 0 && t[0] == '+' then ParseMagnitude(t[1..])
    else ParseMagnitude(t)
  }

  /** The digit character for `d` in radix 36, lower case as JavaScript prints it. */
  function DigitChar(d: nat): (c: char)
    requires d < 36
    ensures DigitValue(c) == d
  {
    if d < 10 then ('0' as int + d) as char else ('a' as int + d - 10) as char
  }

  /** `n` written in `radix` with no leading zeros: `n.toString(radix)`. */
  function Format(n: nat, radix: nat): (z: string)
    requires 2 <= radix <= 36
    ensures |z| > 0
    ensures forall i :: 0 <= i < |z| ==> IsDigit(z[i], radix)
  {
    if n < radix then [DigitChar(n)]
    else
      QuotientShrinks(n, radix);
      Format(n / radix, radix) + [DigitChar(n % radix)]
  }

  /** Dividing by the radix makes a number smaller, and `Format` relies on it. */
  lemma QuotientShrinks(n: nat, radix: nat)
    requires 2 <= radix <= n
    ensures n / radix < n && n == n / radix * radix + n % radix
  {
  }

  /** Reading back the digits that `Format` writes gives the number itself. */
  lemma {:induction false} FormatValue(n: nat, radix: nat)
    requires 2 <= radix <= 36
    ensures DigitsValue(Format(n, radix), radix) == n
  {
    var z := Format(n, radix);
    if n >= radix {
      var q, d := n / radix, n % radix;
      QuotientShrinks(n, radix);
      FormatValue(q, radix);
      var front := Format(q, radix);
      assert z == front + [DigitChar(d)];
      assert z[..|z| - 1] == front && z[|z| - 1] == DigitChar(d);
      assert DigitsValue(z, radix) == DigitsValue(front, radix) * radix + d;
    }
  }

  /** The digit run of a formatted number followed by a non-digit is exactly that number's digits. */
  lemma DigitRunOfDigits(z: string, rest: string, radix: nat)
    requires forall i :: 0 <= i < |z| ==> IsDigit(z[i], radix)
    requires rest == [] || !IsDigit(rest[0], radix)
    ensures DigitRun(z + rest, radix) == |z|
  {
    var s := z + rest;
    assert forall i :: 0 <= i < |z| ==> s[i] == z[i];
    if rest != [] { assert s[|z|] == rest[0]; }
  }

  /** White space in front of text that does not start with white space is skipped exactly. */
  lemma LeadingWhiteSpaceOf(ws: string, t: string)
    requires forall i :: 0 <= i < |ws| ==> IsStrWhiteSpace(ws[i])
    requires t == [] || !IsStrWhiteSpace(t[0])
    ensures LeadingWhiteSpace(ws + t) == |ws|
  {
    var s := ws + t;
    assert forall i :: 0 <= i < |ws| ==> s[i] == ws[i];
    if t != [] { assert s[|ws|] == t[0]; }
  }

  /** An optional leading sign as `parseInt` accepts it. */
  predicate IsSign(sign: string) {
    sign == "" || sign == "+" || sign == "-"
  }

  /** The first character after the white space decides whether a sign is read. */
  lemma ParseIntSigned(ws: string, sign: string, u: string)
    requires forall i :: 0 <= i < |ws| ==> IsStrWhiteSpace(ws[i])
    requires IsSign(sign)
    requires u == [] || (!IsStrWhiteSpace(u[0]) && (sign == "" ==> u[0] != '+' && u[0] != '-'))
    ensures ParseInt(ws + sign + u)
              == if sign == "-" then Negate(ParseMagnitude(u)) else ParseMagnitude(u)
  {
    var t := sign + u;
    assert ws + sign + u == ws + t;
    LeadingWhiteSpaceOf(ws, t);
    assert (ws + t)[|ws|..] == t;
    if sign != "" { assert t[1..] == u; }
  }

  /** Digits read in `radix` from the start of `body`, when no prefix is involved. */
  lemma ReadDigits(body: string, z: string, rest: string, n: nat, radix: nat)
    requires 2 <= radix <= 36 && z == Format(n, radix) && body == z + rest
    requires rest == [] || !IsDigit(rest[0], radix)
    ensures body[..DigitRun(body, radix)] == z
    ensures DigitsValue(body[..DigitRun(body, radix)], radix) == n
  {
    DigitRunOfDigits(z, rest, radix);
    assert body[..|z|] == z;
    FormatValue(n, radix);
  }

  /** The magnitude reader reads back what `toString(16)` writes behind `0x`. */
  lemma ParseMagnitudeReadsHex(n: nat, rest: string)
    requires rest == [] || !IsDigit(rest[0], 16)
    ensures ParseMagnitude("0x" + Format(n, 16) + rest) == Finite(n)
  {
    var body := Format(n, 16) + rest;
    var u := "0x" + body;
    assert "0x" + Format(n, 16) + rest == u;
    assert HasHexPrefix(u);
    assert u[2..] == body;
    ReadDigits(body, Format(n, 16), rest, n, 16);
  }

  /** Decimal digits never start with `0x`, provided the text after them does not start with `x`. */
  lemma DecimalHasNoHexPrefix(n: nat, rest: string)
    requires rest == [] || (rest[0] != 'x' && rest[0] != 'X')
    ensures !HasHexPrefix(Format(n, 10) + rest)
  {
    var z := Format(n, 10);
    var u := z + rest;
    assert |u| >= 2 ==> u[1] == if |z| == 1 then rest[0] else z[1];
  }

  /** The magnitude reader reads back what `toString()` writes in decimal. */
  lemma ParseMagnitudeReadsDecimal(n: nat, rest: string)
    requires rest == [] || (!IsDigit(rest[0], 10) && rest[0] != 'x' && rest[0] != 'X')
    ensures ParseMagnitude(Format(n, 10) + rest) == Finite(n)
  {
    var u := Format(n, 10) + rest;
    DecimalHasNoHexPrefix(n, rest);
    ReadDigits(u, Format(n, 10), rest, n, 10);
    assert u[..DigitRun(u, 10)] != [];
  }

  /** Either radix at once: `0x` and hexadecimal digits, or decimal digits. */
  lemma ParseMagnitudeReadsFormat(hex: bool, n: nat, rest: string)
    requires rest == [] || (!IsDigit(rest[0], if hex then 16 else 10) && rest[0] != 'x' && rest[0] != 'X')
    ensures ParseMagnitude((if hex then "0x" else "") + Format(n, if hex then 16 else 10) + rest) == Finite(n)
  {
    if hex {
      ParseMagnitudeReadsHex(n, rest);
    } else {
      assert "" + Format(n, 10) + rest == Format(n, 10) + rest;
      ParseMagnitudeReadsDecimal(n, rest);
    }
  }

  /**
   * `parseInt` reads back what `toString` writes, in decimal or behind a `0x`
   * prefix in hexadecimal, after any white space and sign and before any
   * trailing text that does not continue the number.
   */
  lemma ParseIntReadsFormat(ws: string, sign: string, hex: bool, n: nat, rest: string)
    requires forall i :: 0 <= i < |ws| ==> IsStrWhiteSpace(ws[i])
    requires IsSign(sign)
    requires rest == [] || (!IsDigit(rest[0], if hex then 16 else 10) && rest[0] != 'x' && rest[0] != 'X')
    ensures ParseInt(ws + sign + (if hex then "0x" else "") + Format(n, if hex then 16 else 10) + rest)
              == if sign == "-" then Finite(-(n as int)) else Finite(n)
  {
    var z := Format(n, if hex then 16 else 10);
    var u := (if hex then "0x" else "") + z + rest;
    assert ws + sign + (if hex then "0x" else "") + z + rest == ws + sign + u;
    assert u[0] == if hex then '0' else z[0];
    assert IsDigit(u[0], 10) by { if !hex { assert IsDigit(z[0], 10); } }
    ParseIntSigned(ws, sign, u);
    ParseMagnitudeReadsFormat(hex, n, rest);
  }

  /** `parseInt` of text whose first significant character is not a digit is NaN. */
  lemma ParseIntNoDigits(ws: string, sign: string, c: char, rest: string)
    requires forall i :: 0 <= i < |ws| ==> IsStrWhiteSpace(ws[i])
    requires IsSign(sign)
    requires !IsDigit(c, 10) && !IsStrWhiteSpace(c) && (sign == "" ==> c != '+' && c != '-')
    ensures ParseInt(ws + sign + [c] + rest) == NaN
  {
    var u := [c] + rest;
    assert ws + sign + [c] + rest == ws + sign + u;
    ParseIntSigned(ws, sign, u);
    assert DigitRun(u, 10) == 0;
  }

  /** The default text `'0'` reads as zero. */
  lemma ParseIntOfZero()
    ensures ParseInt("0") == Finite(0)
  {
    ParseIntReadsFormat("", "", false, 0, "");
    assert "" + "" + "" + Format(0, 10) + "" == "0";
  }

  /** The decimal case alone, with nothing after the digits. */
  lemma ParseIntReadsDecimal(ws: string, sign: string, n: nat)
    requires forall i :: 0 <= i < |ws| ==> IsStrWhiteSpace(ws[i])
    requires IsSign(sign)
    ensures ParseInt(ws + sign + Format(n, 10)) == if sign == "-" then Finite(-(n as int)) else Finite(n)
  {
    var text := ws + sign + Format(n, 10);
    assert ws + sign + "" + Format(n, 10) + "" == text;
    ParseIntReadsFormat(ws, sign, false, n, "");
  }
}
