/**
  The reader against a writer for every value: any value without fractions,
  printed with any whitespace between its tokens, is read back as itself. And the
  tables of RFC 8259 character by character: whitespace, hex digits, escapes,
  numbers.
 */
module JsonText {
  import opened Common
  import opened Json

  // ----- characters -----

  /** Section 2: space, tab, line feed and carriage return. */
  lemma SpaceCodes(c: char)
    ensures IsSpace(c) <==> c as int in {0x20, 0x09, 0x0A, 0x0D}
  {
  }

  /** A hex digit in either case. */
  function HexDigit(d: nat, upper: bool): char
    requires d < 16
  {
    if upper then "0123456789ABCDEF"[d] else "0123456789abcdef"[d]
  }

  lemma HexDigitValue(d: nat, upper: bool)
    requires d < 16
    ensures HexValue(HexDigit(d, upper)) == Some(d)
  {
  }

  /** Section 7: an escape of four hex digits, each in either case, is the character with that code. */
  lemma UnicodeEscape(a: nat, b: nat, c: nat, d: nat, upper: (bool, bool, bool, bool), rest: string)
    requires a < 16 && b < 16 && c < 16 && d < 16
    ensures var code := 4096 * a + 256 * b + 16 * c + d;
            Escape("\\u" + [HexDigit(a, upper.0), HexDigit(b, upper.1), HexDigit(c, upper.2), HexDigit(d, upper.3)] + rest)
            == if 0xD800 <= code < 0xE000 then None else Some((code as char, 6))
  {
    var s := "\\u" + [HexDigit(a, upper.0), HexDigit(b, upper.1), HexDigit(c, upper.2), HexDigit(d, upper.3)] + rest;
    HexDigitValue(a, upper.0);
    HexDigitValue(b, upper.1);
    HexDigitValue(c, upper.2);
    HexDigitValue(d, upper.3);
    assert s[2..][0] == s[2] && s[2..][1] == s[3] && s[2..][2] == s[4] && s[2..][3] == s[5];
  }

  /** The short escapes, by the codes they stand for; no other letter may be escaped. */
  lemma ShortEscapes(c: char, rest: string)
    requires c != 'u'
    ensures Escape(['\\', c] + rest) ==
            match c
            case '\"' => Some((0x22 as char, 2))
            case '\\' => Some((0x5C as char, 2))
            case '/' => Some((0x2F as char, 2))
            case 'b' => Some((0x08 as char, 2))
            case 'f' => Some((0x0C as char, 2))
            case 'n' => Some((0x0A as char, 2))
            case 'r' => Some((0x0D as char, 2))
            case 't' => Some((0x09 as char, 2))
            case _ => None
  {
  }

  // ----- strings -----

  /** A character as it must be written inside a string. */
  function Quoted(c: char): string {
    if c == '\"' || c == '\\' then ['\\', c]
    else if c as int < 0x20 then "\\u" + ['0', '0', HexDigit(c as int / 16, false), HexDigit(c as int % 16, false)]
    else [c]
  }

  function QuotedText(s: string): string {
    if s == [] then [] else Quoted(s[0]) + QuotedText(s[1..])
  }

  lemma QuotedChar(c: char, rest: string)
    ensures StringTail(Quoted(c) + rest) ==
            var tail := StringTail(rest);
            if tail.None? then None else Some(([c] + tail.value.0, tail.value.1))
  {
    var s := Quoted(c) + rest;
    if c == '\"' || c == '\\' {
      ShortEscapes(c, rest);
      assert s[2..] == rest;
    } else if c as int < 0x20 {
      UnicodeEscape(0, 0, c as int / 16, c as int % 16, (false, false, false, false), rest);
      assert HexDigit(0, false) == '0';
      assert s == "\\u" + ['0', '0', HexDigit(c as int / 16, false), HexDigit(c as int % 16, false)] + rest;
      assert s[6..] == rest;
    } else {
      assert s[1..] == rest;
    }
  }

  /** Any name, written with escapes, is read back as itself. */
  lemma {:induction false} QuotedRead(s: string, rest: string)
    ensures StringTail(QuotedText(s) + "\"" + rest) == Some((s, rest))
  {
    var more := "\"" + rest;
    if s == [] {
      assert QuotedText(s) + "\"" + rest == more && more[1..] == rest;
    } else {
      QuotedRead(s[1..], rest);
      var tail := QuotedText(s[1..]) + "\"" + rest;
      QuotedChar(s[0], tail);
      assert QuotedText(s) + "\"" + rest == Quoted(s[0]) + tail;
      assert s == [s[0]] + s[1..];
    }
  }

  // ----- numbers -----

  lemma MinusStarts(s: string, v: Json, rest: string)
    requires StartsWith(s, '-') && Unsigned(s[1..]) == Some((v, rest))
    ensures ParseValue(s) == Some((Negated(v), rest))
  {
    NotAPrefix("true", s);
    NotAPrefix("false", s);
    NotAPrefix("null", s);
  }

  lemma ReadNegative(n: nat, s: string, rest: string)
    requires n > 0 && s == "-" + Decimal(n) + rest
    requires rest != [] ==> !IsDigit(rest[0]) && rest[0] != '.' && rest[0] != 'e' && rest[0] != 'E'
    ensures ParseValue(s) == Some((Int(0 - n), rest))
  {
    DecimalValue(n);
    assert s[1..] == Decimal(n) + rest && s[0] == '-';
    UnsignedOf(Decimal(n), rest);
    MinusStarts(s, Int(n), rest);
  }

  /** Any printed integer is read back, with its sign, whatever non-numeric text follows it. */
  lemma ReadSigned(n: int, rest: string)
    requires rest != [] ==> !IsDigit(rest[0]) && rest[0] != '.' && rest[0] != 'e' && rest[0] != 'E'
    ensures ParseValue(Signed(n) + rest) == Some((Int(n), rest))
  {
    if n >= 0 {
      ReadDecimal(n, rest);
    } else {
      ReadNegative(-n, Signed(n) + rest, rest);
    }
  }

  predicate Digits(s: string) {
    s != [] && forall i :: 0 <= i < |s| ==> IsDigit(s[i])
  }

  /** Nothing, or a point and digits. */
  predicate FractionText(s: string) {
    s == [] || (s[0] == '.' && Digits(s[1..]))
  }

  /** Nothing, or an `e` in either case, a sign or none, and digits. */
  predicate ExponentText(s: string) {
    || s == []
    || (s[0] in "eE" && (Digits(s[1..]) || (|s| > 1 && s[1] in "+-" && Digits(s[2..]))))
  }

  /** Section 6: sign, integer part without leading zeros, fraction and exponent. */
  predicate NumberText(sign: string, digits: string, fraction: string, exponent: string) {
    && (sign == "" || sign == "-")
    && Digits(digits) && (|digits| > 1 ==> digits[0] != '0')
    && FractionText(fraction) && ExponentText(exponent)
  }

  predicate NoDigit(s: string) {
    s != [] ==> !IsDigit(s[0])
  }

  lemma FractionRead(fraction: string, rest: string)
    requires FractionText(fraction) && NoDigit(rest) && (fraction == [] ==> !StartsWith(rest, '.'))
    ensures Fraction(fraction + rest) == Some(|fraction|) && (fraction + rest)[|fraction|..] == rest
  {
    if fraction == [] {
      assert fraction + rest == rest;
    } else {
      assert (fraction + rest)[1..] == fraction[1..] + rest;
      DigitRunOf(fraction[1..], rest);
    }
  }

  lemma ExponentRead(exponent: string, rest: string)
    requires ExponentText(exponent) && NoDigit(rest)
    requires exponent == [] ==> !StartsWith(rest, 'e') && !StartsWith(rest, 'E')
    ensures Exponent(exponent + rest) == Some(|exponent|) && (exponent + rest)[|exponent|..] == rest
  {
    var s := exponent + rest;
    if exponent == [] {
      assert s == rest;
    } else if Digits(exponent[1..]) {
      assert s[1..] == exponent[1..] + rest && s[1] == exponent[1];
      DigitRunOf(exponent[1..], rest);
    } else {
      assert s[2..] == exponent[2..] + rest && s[1..][0] == exponent[1];
      DigitRunOf(exponent[2..], rest);
    }
  }

  /** The value of a number text: an integer, unless there is a fraction or an exponent. */
  function NumberValue(sign: string, digits: string, tail: string): Json
    requires Digits(digits)
  {
    if tail != "" then Real(sign + (digits + tail))
    else if sign == "-" then Int(0 - Value(digits))
    else Int(Value(digits))
  }

  lemma ExponentHead(exponent: string, rest: string, after: string)
    requires ExponentText(exponent) && after == exponent + rest
    requires NoDigit(rest) && !StartsWith(rest, '.') && !StartsWith(rest, 'e') && !StartsWith(rest, 'E')
    ensures NoDigit(after) && !StartsWith(after, '.')
    ensures Exponent(after) == Some(|exponent|)
  {
    ExponentRead(exponent, rest);
  }

  lemma BothLengths(s: string, f: nat, e: nat, after: string)
    requires Fraction(s) == Some(f) && f <= |s| && s[f..] == after && Exponent(after) == Some(e)
    ensures FractionAndExponent(s) == Some(f + e)
  {
  }

  lemma TailRead(s: string, fraction: string, exponent: string, after: string, rest: string)
    requires FractionText(fraction) && ExponentText(exponent) && after == exponent + rest && s == fraction + after
    requires NoDigit(rest) && !StartsWith(rest, '.') && !StartsWith(rest, 'e') && !StartsWith(rest, 'E')
    ensures FractionAndExponent(s) == Some(|fraction| + |exponent|) && NoDigit(s)
  {
    ExponentHead(exponent, rest, after);
    FractionRead(fraction, after);
    BothLengths(s, |fraction|, |exponent|, after);
  }

  function MagnitudeValue(digits: string, tail: string): Json
    requires Digits(digits)
  {
    if tail == "" then Int(Value(digits)) else Real(digits + tail)
  }

  lemma UnsignedRead(s: string, digits: string, tail: string, after: string, rest: string)
    requires Digits(digits) && (|digits| > 1 ==> digits[0] != '0')
    requires after == tail + rest && s == digits + after && NoDigit(after)
    requires FractionAndExponent(after) == Some(|tail|)
    ensures Unsigned(s) == Some((MagnitudeValue(digits, tail), rest))
  {
    DigitRunOf(digits, after);
    Cut(digits, after);
    Cut(tail, rest);
    assert s[0] == digits[0];
  }

  /** A text that follows the number grammar is read, as far as it goes, if nothing numeric follows it. */
  lemma NumberRead(sign: string, digits: string, fraction: string, exponent: string, rest: string)
    requires NumberText(sign, digits, fraction, exponent)
    requires NoDigit(rest) && !StartsWith(rest, '.') && !StartsWith(rest, 'e') && !StartsWith(rest, 'E')
    ensures Number(sign + (digits + (fraction + (exponent + rest)))) ==
            Some((NumberValue(sign, digits, fraction + exponent), rest))
  {
    var tail := fraction + exponent;
    var after := tail + rest;
    assert fraction + (exponent + rest) == after;
    TailRead(after, fraction, exponent, exponent + rest, rest);
    var body := digits + after;
    UnsignedRead(body, digits, tail, after, rest);
    BodyRead(sign + body, sign, body, digits, tail, after, rest);
  }

  lemma MinusRead(s: string, body: string, digits: string, tail: string, rest: string)
    requires StartsWith(s, '-') && s[1..] == body && Digits(digits)
    requires Unsigned(body) == Some((MagnitudeValue(digits, tail), rest))
    ensures Number(s) == Some((NumberValue("-", digits, tail), rest))
  {
  }

  lemma PlusRead(s: string, digits: string, tail: string, rest: string)
    requires Digits(digits) && s != [] && IsDigit(s[0])
    requires Unsigned(s) == Some((MagnitudeValue(digits, tail), rest))
    ensures Number(s) == Some((NumberValue("", digits, tail), rest))
  {
    assert "" + (digits + tail) == digits + tail;
  }

  lemma BodyRead(s: string, sign: string, body: string, digits: string, tail: string, after: string, rest: string)
    requires (sign == "" || sign == "-") && s == sign + body && Digits(digits) && body == digits + after
    requires Unsigned(body) == Some((MagnitudeValue(digits, tail), rest))
    ensures Number(s) == Some((NumberValue(sign, digits, tail), rest))
  {
    if sign == "-" {
      assert s[1..] == body;
      MinusRead(s, body, digits, tail, rest);
    } else {
      assert s == body && IsDigit(digits[0]) && body[0] == digits[0];
      PlusRead(s, digits, tail, rest);
    }
  }

  lemma FractionShape(s: string)
    requires Fraction(s).Some?
    ensures FractionText(s[..Fraction(s).value])
  {
    if StartsWith(s, '.') {
      var n := DigitRun(s[1..]);
      assert s[..1 + n][1..] == s[1..][..n];
    }
  }

  lemma ExponentShape(s: string)
    requires Exponent(s).Some?
    ensures ExponentText(s[..Exponent(s).value])
  {
    if StartsWith(s, 'e') || StartsWith(s, 'E') {
      var sign := if StartsWith(s[1..], '+') || StartsWith(s[1..], '-') then 2 else 1;
      var n := DigitRun(s[sign..]);
      assert s[..sign + n][sign..] == s[sign..][..n];
      assert sign == 2 ==> s[1..][0] == s[1];
    }
  }

  lemma TailShape(s: string) returns (fraction: string, exponent: string)
    requires FractionAndExponent(s).Some?
    ensures FractionText(fraction) && ExponentText(exponent)
    ensures fraction + exponent == s[..FractionAndExponent(s).value]
  {
    var f := Fraction(s).value;
    var e := Exponent(s[f..]).value;
    FractionShape(s);
    ExponentShape(s[f..]);
    fraction, exponent := s[..f], s[f..][..e];
  }

  lemma IntegerShape(s: string, n: nat, digits: string, after: string)
    requires IntegerPart(s) == Some(n) && digits == s[..n] && after == s[n..]
    ensures Digits(digits) && (|digits| > 1 ==> digits[0] != '0') && s == digits + after
  {
    assert digits[0] == s[0];
  }

  lemma Glue(s: string, digits: string, fraction: string, exponent: string, after: string, rest: string)
    requires s == digits + after && after == (fraction + exponent) + rest
    ensures s == digits + (fraction + (exponent + rest))
  {
  }

  lemma ShapeOfParts(s: string, n: nat, k: nat, after: string, rest: string)
    returns (digits: string, fraction: string, exponent: string)
    requires IntegerPart(s) == Some(n) && after == s[n..] && FractionAndExponent(after) == Some(k) && rest == after[k..]
    ensures NumberText("", digits, fraction, exponent) && s == digits + (fraction + (exponent + rest))
  {
    digits := s[..n];
    IntegerShape(s, n, digits, after);
    fraction, exponent := TailShape(after);
    Glue(s, digits, fraction, exponent, after, rest);
  }

  lemma UnsignedParts(s: string) returns (n: nat, k: nat)
    requires Unsigned(s).Some?
    ensures IntegerPart(s) == Some(n) && FractionAndExponent(s[n..]) == Some(k) && Unsigned(s).value.1 == s[n..][k..]
  {
    n := IntegerPart(s).value;
    k := FractionAndExponent(s[n..]).value;
  }

  lemma UnsignedShape(s: string) returns (digits: string, fraction: string, exponent: string)
    requires Unsigned(s).Some?
    ensures NumberText("", digits, fraction, exponent)
    ensures s == digits + (fraction + (exponent + Unsigned(s).value.1))
  {
    var n, k := UnsignedParts(s);
    digits, fraction, exponent := ShapeOfParts(s, n, k, s[n..], Unsigned(s).value.1);
  }

  /** Whatever is read as a number follows the grammar. */
  lemma NumberShape(s: string) returns (sign: string, digits: string, fraction: string, exponent: string)
    requires Number(s).Some?
    ensures NumberText(sign, digits, fraction, exponent)
    ensures s == sign + (digits + (fraction + (exponent + Number(s).value.1)))
  {
    if StartsWith(s, '-') {
      sign := "-";
      digits, fraction, exponent := UnsignedShape(s[1..]);
    } else {
      sign := "";
      digits, fraction, exponent := UnsignedShape(s);
    }
  }
}
