/**
  A reader for JSON texts, following the grammar of sections 2 to 7 of RFC 8259.
  Each parsing function takes the text still to be read and returns what it
  recognised together with the text after it.
 */
module Json {
  import opened Common

  /** Numbers with a fraction or an exponent are kept as text. */
  datatype Json =
    | Null
    | Bool(b: bool)
    | Int(n: int)
    | Real(text: string)
    | String(s: string)
    | Array(items: seq<Json>)
    | Object(members: seq<(string, Json)>)

  // ----- section 2: structural characters and whitespace -----

  predicate IsSpace(c: char) {
    c == ' ' || c == '\t' || c == '\n' || c == '\r'
  }

  function SkipSpace(s: string): (r: string)
    ensures |r| <= |s|
    ensures s != [] && !IsSpace(s[0]) ==> r == s
  {
    if s != [] && IsSpace(s[0]) then SkipSpace(s[1..]) else s
  }

  predicate StartsWith(s: string, c: char) {
    s != [] && s[0] == c
  }

  // ----- section 7: strings -----

  /** A character that may stand for itself inside a string. */
  predicate Plain(c: char) {
    c >= ' ' && c != '\"' && c != '\\'
  }

  predicate Clean(s: string) {
    forall i :: 0 <= i < |s| ==> Plain(s[i])
  }

  function HexValue(c: char): Option<nat> {
    if '0' <= c <= '9' then Some(c as int - '0' as int)
    else if 'a' <= c <= 'f' then Some(c as int - 'a' as int + 10)
    else if 'A' <= c <= 'F' then Some(c as int - 'A' as int + 10)
    else None
  }

  /** Four hex digits naming a character outside the surrogate range. */
  function Hex4(s: string): Option<char>
    requires |s| >= 4
  {
    var a, b, c, d := HexValue(s[0]), HexValue(s[1]), HexValue(s[2]), HexValue(s[3]);
    if a.None? || b.None? || c.None? || d.None? then None
    else
      var code := ((a.value * 16 + b.value) * 16 + c.value) * 16 + d.value;
      if 0 <= code < 0xD800 || 0xE000 <= code < 0x1_0000 then Some(code as char) else None
  }

  /** The character an escape stands for and how many characters the escape takes. */
  function Escape(s: string): Option<(char, nat)>
    requires StartsWith(s, '\\')
    ensures Escape(s).Some? ==> 2 <= Escape(s).value.1 <= |s|
  {
    if |s| < 2 then None
    else
      match s[1]
      case '\"' => Some(('\"', 2))
      case '\\' => Some(('\\', 2))
      case '/' => Some(('/', 2))
      case 'b' => Some((8 as char, 2))
      case 'f' => Some((12 as char, 2))
      case 'n' => Some(('\n', 2))
      case 'r' => Some(('\r', 2))
      case 't' => Some(('\t', 2))
      case 'u' =>
        if |s| < 6 then None
        else
          var c := Hex4(s[2..]);
          if c.Some? then Some((c.value, 6)) else None
      case _ => None
  }

  /** The rest of a string after its opening quote. */
  function StringTail(s: string): (r: Option<(string, string)>)
    ensures r.Some? ==> |r.value.0| + |r.value.1| < |s|
  {
    if s == [] then None
    else if s[0] == '\"' then Some(([], s[1..]))
    else if s[0] == '\\' then
      var e := Escape(s);
      if e.None? then None
      else
        var tail := StringTail(s[e.value.1..]);
        if tail.None? then None else Some(([e.value.0] + tail.value.0, tail.value.1))
    else if s[0] < ' ' then None
    else
      var tail := StringTail(s[1..]);
      if tail.None? then None else Some(([s[0]] + tail.value.0, tail.value.1))
  }

  // ----- section 6: numbers -----

  function DigitRun(s: string): (n: nat)
    ensures n <= |s| && forall i :: 0 <= i < n ==> IsDigit(s[i])
    ensures n < |s| ==> !IsDigit(s[n])
  {
    if s != [] && IsDigit(s[0]) then 1 + DigitRun(s[1..]) else 0
  }

  function Value(digits: string): nat
    requires forall i :: 0 <= i < |digits| ==> IsDigit(digits[i])
  {
    if digits == [] then 0
    else
      var n := |digits| - 1;
      assert IsDigit(digits[n]);
      10 * Value(digits[..n]) + (digits[n] as int - '0' as int)
  }

  /** The length of an optional fraction, or nothing when a point has no digits after it. */
  function Fraction(s: string): (r: Option<nat>)
    ensures r.Some? ==> r.value <= |s|
  {
    if !StartsWith(s, '.') then Some(0)
    else
      var n := DigitRun(s[1..]);
      if n == 0 then None else Some(1 + n)
  }

  function Exponent(s: string): (r: Option<nat>)
    ensures r.Some? ==> r.value <= |s|
  {
    if !StartsWith(s, 'e') && !StartsWith(s, 'E') then Some(0)
    else
      var sign := if StartsWith(s[1..], '+') || StartsWith(s[1..], '-') then 2 else 1;
      var n := DigitRun(s[sign..]);
      if n == 0 then None else Some(sign + n)
  }

  /** The length of an optional fraction and an optional exponent. */
  function FractionAndExponent(s: string): (r: Option<nat>)
    ensures r.Some? ==> r.value <= |s|
  {
    var f := Fraction(s);
    if f.None? then None
    else
      var e := Exponent(s[f.value..]);
      if e.None? then None else Some(f.value + e.value)
  }

  /** Digits without a leading zero. */
  function IntegerPart(s: string): (r: Option<nat>)
    ensures r.Some? ==> 0 < r.value <= |s| && forall i :: 0 <= i < r.value ==> IsDigit(s[..r.value][i])
  {
    var n := DigitRun(s);
    if n == 0 || (n > 1 && s[0] == '0') then None else Some(n)
  }

  /** A number without its sign: an integer, or text when there is a fraction or an exponent. */
  function Unsigned(s: string): (r: Option<(Json, string)>)
    ensures r.Some? ==> |r.value.1| < |s| && (r.value.0.Int? || r.value.0.Real?)
  {
    var n := IntegerPart(s);
    if n.None? then None
    else
      var after := s[n.value..];
      var k := FractionAndExponent(after);
      if k.None? then None
      else if k.value == 0 then Some((Int(Value(s[..n.value])), after))
      else Some((Real(s[..n.value] + after[..k.value]), after[k.value..]))
  }

  function Negated(v: Json): Json {
    match v
    case Int(n) => Int(0 - n)
    case Real(text) => Real("-" + text)
    case other => other
  }

  function Number(s: string): (r: Option<(Json, string)>)
    ensures r.Some? ==> |r.value.1| < |s|
  {
    if StartsWith(s, '-') then
      var r := Unsigned(s[1..]);
      if r.None? then None else Some((Negated(r.value.0), r.value.1))
    else Unsigned(s)
  }

  // ----- sections 3 to 5: values, objects and arrays -----

  function ParseValue(s: string): (r: Option<(Json, string)>)
    ensures r.Some? ==> |r.value.1| < |s|
    decreases |s|, 0
  {
    if s == [] then None
    else if s[0] == '{' then
      var body := SkipSpace(s[1..]);
      if StartsWith(body, '}') then Some((Object([]), body[1..]))
      else
        var members := ParseMembers(body);
        if members.None? then None else Some((Object(members.value.0), members.value.1))
    else if s[0] == '[' then
      var body := SkipSpace(s[1..]);
      if StartsWith(body, ']') then Some((Array([]), body[1..]))
      else
        var items := ParseItems(body);
        if items.None? then None else Some((Array(items.value.0), items.value.1))
    else if s[0] == '\"' then
      var tail := StringTail(s[1..]);
      if tail.None? then None else Some((String(tail.value.0), tail.value.1))
    else if "true" <= s then Some((Bool(true), s[4..]))
    else if "false" <= s then Some((Bool(false), s[5..]))
    else if "null" <= s then Some((Null, s[4..]))
    else Number(s)
  }

  /** One member or more, up to and including the closing brace. */
  function ParseMembers(s: string): (r: Option<(seq<(string, Json)>, string)>)
    ensures r.Some? ==> |r.value.1| < |s|
    decreases |s|, 1
  {
    if !StartsWith(s, '\"') then None
    else
      var name := StringTail(s[1..]);
      if name.None? then None
      else
        var colon := SkipSpace(name.value.1);
        if !StartsWith(colon, ':') then None
        else
          var v := ParseValue(SkipSpace(colon[1..]));
          if v.None? then None
          else
            var after := SkipSpace(v.value.1);
            if StartsWith(after, '}') then Some(([(name.value.0, v.value.0)], after[1..]))
            else if !StartsWith(after, ',') then None
            else
              var more := ParseMembers(SkipSpace(after[1..]));
              if more.None? then None
              else Some(([(name.value.0, v.value.0)] + more.value.0, more.value.1))
  }

  /** One element or more, up to and including the closing bracket. */
  function ParseItems(s: string): (r: Option<(seq<Json>, string)>)
    ensures r.Some? ==> |r.value.1| < |s|
    decreases |s|, 1
  {
    var v := ParseValue(s);
    if v.None? then None
    else
      var after := SkipSpace(v.value.1);
      if StartsWith(after, ']') then Some(([v.value.0], after[1..]))
      else if !StartsWith(after, ',') then None
      else
        var more := ParseItems(SkipSpace(after[1..]));
        if more.None? then None else Some(([v.value.0] + more.value.0, more.value.1))
  }

  /** A whole text: one value with nothing but whitespace around it. */
  function Parse(s: string): Option<Json> {
    var v := ParseValue(SkipSpace(s));
    if v.None? || SkipSpace(v.value.1) != [] then None else Some(v.value.0)
  }

  // ----- what the reader makes of printed pieces -----

  lemma Assoc(a: string, b: string, c: string)
    ensures a + b + c == a + (b + c)
  {
  }

  /**
    A name written between quotes without escaping is read back as itself
    exactly when it holds no quote, no backslash and no control character.
   */
  lemma {:induction false} NameSurvivesExactly(name: string, rest: string)
    ensures StringTail(name + "\"" + rest) == Some((name, rest)) <==> Clean(name)
  {
    var s := name + "\"" + rest;
    if name == [] {
      assert s[1..] == rest;
    } else if Plain(name[0]) {
      assert s[1..] == name[1..] + "\"" + rest;
      NameSurvivesExactly(name[1..], rest);
      assert name == [name[0]] + name[1..];
      assert Clean(name) <==> Clean(name[1..]) by {
        assert forall i :: 0 <= i < |name| - 1 ==> name[1..][i] == name[i + 1];
        assert forall i :: 0 < i < |name| ==> name[i] == name[1..][i - 1];
      }
    } else if s[0] == '\\' {
      assert |name| + |rest| + 1 == |s|;
    }
  }

  /** An escape that takes in a quote is the escaped quote: no hex digit is one. */
  lemma EscapedQuote(s: string, d: nat)
    requires StartsWith(s, '\\') && 0 < d < |s| && s[d] == '\"'
    ensures Escape(s).Some? ==> Escape(s).value.0 == '\"' || Escape(s).value.1 <= d
  {
    if s[1] == 'u' && 2 <= d < 6 <= |s| {
      assert s[2..][d - 2] == s[d];
      assert HexValue(s[d]).None?;
    }
  }

  /** How a string goes on after its first character: the character that is decoded, and what is left to read. */
  lemma TailStep(s: string) returns (len: nat, c: char)
    requires s != [] && s[0] != '\"' && StringTail(s).Some?
    ensures 1 <= len <= |s| && StringTail(s[len..]).Some?
    ensures StringTail(s).value.0 == [c] + StringTail(s[len..]).value.0
    ensures if s[0] == '\\' then Escape(s) == Some((c, len)) else len == 1 && Plain(s[0])
  {
    if s[0] == '\\' {
      len, c := Escape(s).value.1, Escape(s).value.0;
    } else {
      len, c := 1, s[0];
    }
  }

  /** What is left of a name's text at place `q`. */
  function From(name: string, q: nat, rest: string): string
    requires q <= |name|
  {
    name[q..] + "\"" + rest
  }

  lemma FromNext(name: string, q: nat, len: nat, rest: string)
    requires q + len <= |name|
    ensures From(name, q, rest)[len..] == From(name, q + len, rest)
  {
  }

  /** One more character decoded as the name has it leaves the rest of the name to decode. */
  lemma Decoded(name: string, m: nat, c: char, tail: string)
    requires m < |name| && [c] + tail == name[m..]
    ensures c == name[m] && tail == name[m + 1..]
  {
    assert tail == ([c] + tail)[1..];
  }

  /** At place `q` of the name, the rest of the name from place `m` on is what is decoded. */
  predicate Decodes(name: string, q: nat, m: nat, rest: string)
    requires m <= q <= |name|
  {
    StringTail(From(name, q, rest)).Some? && StringTail(From(name, q, rest)).value.0 == name[m..]
  }

  /** An escape that reaches beyond a quote, or the end of the name, is the escaped quote. */
  lemma Crossed(name: string, q: nat, k: nat, rest: string, c: char, len: nat)
    requires q < k <= |name| && name[q] == '\\' && (k == |name| || name[k] == '\"') && k < q + len
    requires Escape(From(name, q, rest)) == Some((c, len))
    ensures c == '\"'
  {
    assert From(name, q, rest)[k - q] == '\"';
    EscapedQuote(From(name, q, rest), k - q);
  }

  /** One more character is decoded, and it is the name's next; an escape takes more than one character. */
  lemma Step(name: string, q: nat, m: nat, rest: string) returns (len: nat)
    requires m <= q < |name| && name[q] != '\"' && Decodes(name, q, m, rest)
    ensures len > 0 && if q + len <= |name| then Decodes(name, q + len, m + 1, rest) else name[m] == '\"'
    ensures if name[q] == '\\' then Escape(From(name, q, rest)) == Some((name[m], len)) else len == 1 && Plain(name[q])
  {
    var s := From(name, q, rest);
    var c;
    len, c := TailStep(s);
    Decoded(name, m, c, StringTail(s[len..]).value.0);
    if q + len <= |name| {
      FromNext(name, q, len, rest);
    } else {
      Crossed(name, q, |name|, rest, c, len);
    }
  }

  /**
    A name that holds a quote, first at `k`, is not decoded as itself: the quote
    ends the string there or, if escaped, comes out where the name has no quote
    yet.
   */
  lemma {:induction false} QuoteInName(name: string, q: nat, m: nat, k: nat, rest: string)
    requires m <= q <= k < |name| && name[k] == '\"' && forall i :: 0 <= i < k ==> name[i] != '\"'
    ensures !Decodes(name, q, m, rest)
    decreases k - q
  {
    if q == k {
      assert From(name, q, rest)[0] == '\"';
    } else if Decodes(name, q, m, rest) {
      var len := Step(name, q, m, rest);
      if q + len <= k {
        QuoteInName(name, q + len, m + 1, k, rest);
      } else {
        Crossed(name, q, k, rest, name[m], len);
      }
    }
  }

  lemma CleanCons(name: string, q: nat)
    requires q < |name|
    ensures Plain(name[q]) && Clean(name[q + 1..]) ==> Clean(name[q..])
  {
    assert name[q..] == [name[q]] + name[q + 1..];
  }

  /**
    A name without quotes is decoded as itself only if nothing was lost before
    and nothing is escaped from here on, because an escape takes more characters
    than it gives.
   */
  lemma {:induction false} NoQuoteInName(name: string, q: nat, m: nat, rest: string)
    requires m <= q <= |name| && (forall i :: 0 <= i < |name| ==> name[i] != '\"') && Decodes(name, q, m, rest)
    ensures q == m && Clean(name[q..])
    decreases |name| - q
  {
    if q < |name| {
      var len := Step(name, q, m, rest);
      CleanCons(name, q);
      NoQuoteInName(name, q + len, m + 1, rest);
    } else {
      assert From(name, q, rest)[0] == '\"';
    }
  }

  /** Whatever follows: a name written without escaping is decoded as itself exactly when it is clean. */
  lemma NameKeptExactly(name: string, rest: string)
    ensures var t := StringTail(name + "\"" + rest); t.Some? && t.value.0 == name <==> Clean(name)
  {
    assert name[0..] == name;
    NameSurvivesExactly(name, rest);
    if '\"' in name {
      var k := FirstQuote(name);
      QuoteInName(name, 0, 0, k, rest);
    } else if Decodes(name, 0, 0, rest) {
      NoQuoteInName(name, 0, 0, rest);
    }
  }

  lemma {:induction false} FirstQuote(name: string) returns (k: nat)
    requires '\"' in name
    ensures k < |name| && name[k] == '\"' && forall i :: 0 <= i < k ==> name[i] != '\"'
  {
    if name[0] == '\"' {
      k := 0;
    } else {
      assert name == [name[0]] + name[1..];
      var n := FirstQuote(name[1..]);
      k := n + 1;
      assert forall i :: 0 < i < k ==> name[i] == name[1..][i - 1];
    }
  }

  lemma {:induction false} DecimalValue(n: nat)
    ensures Value(Decimal(n)) == n
    ensures |Decimal(n)| > 1 ==> Decimal(n)[0] != '0'
    ensures n > 0 ==> Decimal(n)[0] != '0'
  {
    if n >= 10 {
      DecimalValue(n / 10);
      assert (Decimal(n / 10) + [Digit(n % 10)])[..|Decimal(n / 10)|] == Decimal(n / 10);
    } else {
      assert Decimal(n)[..0] == [];
    }
  }

  lemma {:induction false} DigitRunOf(digits: string, rest: string)
    requires forall i :: 0 <= i < |digits| ==> IsDigit(digits[i])
    requires rest != [] ==> !IsDigit(rest[0])
    ensures DigitRun(digits + rest) == |digits|
  {
    if digits == [] {
      assert digits + rest == rest;
    } else {
      assert (digits + rest)[1..] == digits[1..] + rest;
      DigitRunOf(digits[1..], rest);
    }
  }

  lemma NoTail(rest: string)
    requires rest != [] ==> rest[0] != '.' && rest[0] != 'e' && rest[0] != 'E'
    ensures FractionAndExponent(rest) == Some(0)
  {
    assert rest[0..] == rest;
  }

  lemma Cut(digits: string, rest: string)
    ensures (digits + rest)[0..] == digits + rest
    ensures (digits + rest)[..|digits|] == digits && (digits + rest)[|digits|..] == rest
  {
  }

  /** What a number is when its digits end where nothing numeric follows. */
  lemma UnsignedOf(digits: string, rest: string)
    requires digits != [] && (forall i :: 0 <= i < |digits| ==> IsDigit(digits[i]))
    requires |digits| > 1 ==> digits[0] != '0'
    requires rest != [] ==> !IsDigit(rest[0]) && rest[0] != '.' && rest[0] != 'e' && rest[0] != 'E'
    ensures Unsigned(digits + rest) == Some((Int(Value(digits)), rest))
  {
    DigitRunOf(digits, rest);
    NoTail(rest);
    Cut(digits, rest);
    assert (digits + rest)[0] == digits[0];
  }

  /** A printed number is read back, whatever non-numeric text follows it. */
  lemma ReadDecimal(n: nat, rest: string)
    requires rest != [] ==> !IsDigit(rest[0]) && rest[0] != '.' && rest[0] != 'e' && rest[0] != 'E'
    ensures ParseValue(Decimal(n) + rest) == Some((Int(n), rest))
  {
    DecimalValue(n);
    UnsignedOf(Decimal(n), rest);
    NoSign(Decimal(n) + rest);
    DigitStarts(Decimal(n) + rest);
  }

  lemma DigitStarts(s: string)
    requires s != [] && IsDigit(s[0])
    ensures ParseValue(s) == Number(s)
  {
    NotAPrefix("true", s);
    NotAPrefix("false", s);
    NotAPrefix("null", s);
  }

  lemma NoSign(s: string)
    requires !StartsWith(s, '-')
    ensures Number(s) == Unsigned(s)
  {
  }

  lemma NotAPrefix(word: string, s: string)
    requires word != [] && s != [] && word[0] != s[0]
    ensures !(word <= s)
  {
  }

  lemma ReadName(name: string, rest: string)
    requires Clean(name)
    ensures ParseValue("\"" + name + "\"" + rest) == Some((String(name), rest))
  {
    NameSurvivesExactly(name, rest);
    assert ("\"" + name + "\"" + rest)[1..] == name + "\"" + rest;
  }

  lemma ReadBool(b: bool, rest: string)
    ensures ParseValue((if b then "true" else "false") + rest) == Some((Bool(b), rest))
  {
    var s := (if b then "true" else "false") + rest;
    assert if b then s[4..] == rest else s[5..] == rest;
  }

  /** A printed member up to its value: quote, name, quote, colon, space, and then `body`. */
  function Member(name: string, body: string): string {
    "\"" + name + "\"" + (": " + body)
  }

  lemma MemberName(name: string, body: string)
    requires Clean(name)
    ensures StartsWith(Member(name, body), '\"')
    ensures StringTail(Member(name, body)[1..]) == Some((name, ": " + body))
  {
    assert Member(name, body)[1..] == name + "\"" + (": " + body);
    NameSurvivesExactly(name, ": " + body);
  }

  lemma AfterColon(body: string)
    requires body != [] && !IsSpace(body[0])
    ensures StartsWith(SkipSpace(": " + body), ':') && SkipSpace(SkipSpace(": " + body)[1..]) == body
  {
    assert (": " + body)[1..] == " " + body && (" " + body)[1..] == body;
  }

  lemma ReadLastMember(name: string, body: string, v: Json, rest: string)
    requires Clean(name) && body != [] && !IsSpace(body[0])
    requires ParseValue(body) == Some((v, rest))
    requires StartsWith(SkipSpace(rest), '}')
    ensures ParseMembers(Member(name, body)) == Some(([(name, v)], SkipSpace(rest)[1..]))
  {
    MemberName(name, body);
    AfterColon(body);
  }

  lemma AfterComma(next: string)
    requires StartsWith(next, '\"') || StartsWith(next, '{')
    ensures SkipSpace(", " + next) == ", " + next && SkipSpace((", " + next)[1..]) == next
  {
    assert (", " + next)[1..] == " " + next && (" " + next)[1..] == next;
  }

  /** A member in front of others: it is read if the others are. */
  lemma ReadMember(name: string, body: string, v: Json, next: string)
    requires Clean(name) && body != [] && !IsSpace(body[0])
    requires ParseValue(body) == Some((v, ", " + next)) && StartsWith(next, '\"')
    ensures var more := ParseMembers(next);
            ParseMembers(Member(name, body)) ==
            if more.None? then None else Some(([(name, v)] + more.value.0, more.value.1))
  {
    MemberName(name, body);
    AfterColon(body);
    AfterComma(next);
  }

  /** A member whose value is followed by neither a comma nor a closing brace. */
  lemma BrokenMember(name: string, body: string, v: Json, after: string)
    requires Clean(name) && body != [] && !IsSpace(body[0]) && ParseValue(body) == Some((v, after))
    requires after != [] && !IsSpace(after[0]) && after[0] != ',' && after[0] != '}'
    ensures ParseMembers(Member(name, body)).None?
  {
    MemberName(name, body);
    AfterColon(body);
  }

  lemma FirstMember(name: string, body: string, ms: seq<(string, Json)>, end: string)
    requires Clean(name) && body != [] && !IsSpace(body[0])
    requires ParseMembers(Member(name, body)) == Some((ms, end))
    ensures ms != [] && ParseValue(body).Some? && ms[0] == (name, ParseValue(body).value.0)
  {
    MemberName(name, body);
    AfterColon(body);
  }

  /** A string member read as the string that was written: then the string is clean. */
  lemma StringMemberKept(name: string, s: string, rest: string, ms: seq<(string, Json)>, end: string)
    requires Clean(name) && ParseMembers(Member(name, "\"" + s + "\"" + rest)) == Some((ms, end))
    requires ms != [] && ms[0] == (name, String(s))
    ensures Clean(s)
  {
    var body := "\"" + s + "\"" + rest;
    FirstMember(name, body, ms, end);
    assert body[1..] == s + "\"" + rest;
    NameKeptExactly(s, rest);
  }

  lemma ReadObject(body: string)
    requires StartsWith(body, '\"')
    ensures var members := ParseMembers(body);
            ParseValue("{ " + body) ==
            if members.None? then None else Some((Object(members.value.0), members.value.1))
  {
    assert ("{ " + body)[1..] == " " + body && (" " + body)[1..] == body;
  }
}
