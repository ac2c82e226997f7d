/**
  Any value without fractions, printed with any whitespace between its tokens,
  is read back as itself.
 */
module JsonRoundTrip {
  import opened Common
  import opened Json
  import opened JsonText

  /** No number in the value has a fraction or an exponent. */
  predicate Whole(v: Json) {
    match v
    case Real(_) => false
    case Array(items) => forall i :: 0 <= i < |items| ==> Whole(items[i])
    case Object(members) => forall i :: 0 <= i < |members| ==> Whole(members[i].1)
    case _ => true
  }

  predicate Spaces(w: string) {
    forall i :: 0 <= i < |w| ==> w[i] in " \t\n\r"
  }

  // ----- the writer -----

  /** A value with the same whitespace `w` between all its tokens. */
  function Text(v: Json, w: string): string
    decreases v, if v.Array? then |v.items| + 2 else if v.Object? then |v.members| + 2 else 0
  {
    match v
    case Null => "null"
    case Bool(b) => if b then "true" else "false"
    case Int(n) => Signed(n)
    case Real(text) => text
    case String(s) => "\"" + (QuotedText(s) + "\"")
    case Array(items) => "[" + (w + ItemsText(v, 0, w))
    case Object(members) => "{" + (w + MembersText(v, 0, w))
  }

  /** The elements from `i` on, and the closing bracket. */
  function ItemsText(v: Json, i: nat, w: string): string
    requires v.Array? && i <= |v.items|
    decreases v, |v.items| - i + 1
  {
    if i == |v.items| then "]"
    else if i + 1 == |v.items| then Text(v.items[i], w) + (w + "]")
    else Text(v.items[i], w) + (w + ("," + (w + ItemsText(v, i + 1, w))))
  }

  /** The members from `i` on, and the closing brace. */
  function MembersText(v: Json, i: nat, w: string): string
    requires v.Object? && i <= |v.members|
    decreases v, |v.members| - i + 1
  {
    if i == |v.members| then "}"
    else
      NameText(v.members[i].0, w) +
      (Text(v.members[i].1, w) +
       (w + (if i + 1 == |v.members| then "}" else "," + (w + MembersText(v, i + 1, w)))))
  }

  function NameText(name: string, w: string): string {
    "\"" + (QuotedText(name) + ("\"" + (w + (":" + w))))
  }

  // ----- the parts -----

  lemma {:induction false} SkipSpaces(w: string, s: string)
    requires Spaces(w) && (s != [] ==> !IsSpace(s[0]))
    ensures SkipSpace(w + s) == s
  {
    if w == [] {
      assert w + s == s;
    } else {
      assert (w + s)[1..] == w[1..] + s;
      SkipSpaces(w[1..], s);
    }
  }

  /** What a printed value can begin with. */
  predicate Head(c: char) {
    IsDigit(c) || c in "-tfn\"[{"
  }

  lemma TextHead(v: Json, w: string)
    requires Whole(v)
    ensures Text(v, w) != [] && Head(Text(v, w)[0]) && !IsSpace(Text(v, w)[0])
    ensures !StartsWith(Text(v, w), ']') && !StartsWith(Text(v, w), '}')
  {
  }

  /** Text that ends a number, if one comes before it. */
  predicate Ends(rest: string) {
    rest != [] ==> !IsDigit(rest[0]) && rest[0] != '.' && rest[0] != 'e' && rest[0] != 'E'
  }

  lemma SpaceEnds(w: string, c: char, rest: string)
    requires Spaces(w) && c in ",]}"
    ensures Ends(w + ([c] + rest))
    ensures SkipSpace(w + ([c] + rest)) == [c] + rest && ([c] + rest)[1..] == rest
  {
    SkipSpaces(w, [c] + rest);
  }

  lemma QuotedValue(text: string, s: string, rest: string)
    requires StartsWith(text, '\"') && StringTail(text[1..]) == Some((s, rest))
    ensures ParseValue(text) == Some((String(s), rest))
  {
  }

  lemma ReadQuoted(s: string, rest: string)
    ensures ParseValue("\"" + (QuotedText(s) + "\"") + rest) == Some((String(s), rest))
  {
    var text := "\"" + (QuotedText(s) + "\"") + rest;
    QuotedRead(s, rest);
    assert text[1..] == QuotedText(s) + "\"" + rest;
    QuotedValue(text, s, rest);
  }

  lemma ReadNull(rest: string)
    ensures ParseValue("null" + rest) == Some((Null, rest))
  {
    assert ("null" + rest)[4..] == rest;
  }

  /** The scalars. */
  lemma ReadScalar(v: Json, w: string, rest: string)
    requires Whole(v) && !v.Array? && !v.Object? && Ends(rest)
    ensures ParseValue(Text(v, w) + rest) == Some((v, rest))
  {
    match v
    case Null => ReadNull(rest);
    case Bool(b) => ReadBool(b, rest);
    case Int(n) => ReadSigned(n, rest);
    case String(s) => ReadQuoted(s, rest);
  }

  lemma CommaRead(w: string, next: string, after: string)
    requires Spaces(w) && next != [] && !IsSpace(next[0]) && after == w + ("," + (w + next))
    ensures Ends(after) && SkipSpace(after) == "," + (w + next) && SkipSpace(w + next) == next
  {
    SkipSpaces(w, next);
    SpaceEnds(w, ',', w + next);
  }

  lemma LastItem(x: Json, text: string, after: string, rest: string)
    requires ParseValue(text) == Some((x, after)) && SkipSpace(after) == "]" + rest
    ensures ParseItems(text) == Some(([x], rest))
  {
    assert ("]" + rest)[1..] == rest;
  }

  lemma NextItem(x: Json, text: string, after: string, w: string, next: string)
    requires ParseValue(text) == Some((x, after)) && SkipSpace(after) == "," + (w + next)
    requires SkipSpace(w + next) == next
    ensures ParseItems(text) == var more := ParseItems(next);
                                if more.None? then None else Some(([x] + more.value.0, more.value.1))
  {
    assert ("," + (w + next))[1..] == w + next;
  }

  /** A member's name is read, and the whitespace around its colon is passed over. */
  lemma NameRead(name: string, w: string, body: string)
    requires Spaces(w) && body != [] && !IsSpace(body[0])
    ensures StartsWith(NameText(name, w) + body, '\"')
    ensures StringTail((NameText(name, w) + body)[1..]) == Some((name, w + (":" + (w + body))))
    ensures SkipSpace(w + (":" + (w + body))) == ":" + (w + body)
    ensures SkipSpace((":" + (w + body))[1..]) == body
  {
    var rest := w + (":" + (w + body));
    QuotedRead(name, rest);
    NameSplit(name, w, body, rest);
    ColonRead(w, body);
  }

  lemma NameSplit(name: string, w: string, body: string, rest: string)
    requires rest == w + (":" + (w + body))
    ensures StartsWith(NameText(name, w) + body, '\"')
    ensures (NameText(name, w) + body)[1..] == QuotedText(name) + "\"" + rest
  {
    var mid := "\"" + (w + (":" + w));
    assert mid + body == "\"" + rest;
    assert NameText(name, w) + body == "\"" + (QuotedText(name) + (mid + body));
  }

  lemma ColonRead(w: string, body: string)
    requires Spaces(w) && body != [] && !IsSpace(body[0])
    ensures SkipSpace(w + (":" + (w + body))) == ":" + (w + body)
    ensures SkipSpace((":" + (w + body))[1..]) == body
  {
    SkipSpaces(w, ":" + (w + body));
    assert (":" + (w + body))[1..] == w + body;
    SkipSpaces(w, body);
  }

  lemma MemberParts(text: string, name: string, colon: string, body: string, v: Json, after: string)
    requires StartsWith(text, '\"') && StringTail(text[1..]).Some? && StringTail(text[1..]).value.0 == name
    requires SkipSpace(StringTail(text[1..]).value.1) == colon && StartsWith(colon, ':')
    requires SkipSpace(colon[1..]) == body && ParseValue(body) == Some((v, after))
    ensures StartsWith(SkipSpace(after), '}') ==> ParseMembers(text) == Some(([(name, v)], SkipSpace(after)[1..]))
    ensures StartsWith(SkipSpace(after), ',') ==>
              ParseMembers(text) == var more := ParseMembers(SkipSpace(SkipSpace(after)[1..]));
                                    if more.None? then None else Some(([(name, v)] + more.value.0, more.value.1))
  {
  }

  lemma LastMember(name: string, w: string, body: string, v: Json, after: string, rest: string)
    requires Spaces(w) && body != [] && !IsSpace(body[0])
    requires ParseValue(body) == Some((v, after)) && SkipSpace(after) == "}" + rest
    ensures ParseMembers(NameText(name, w) + body) == Some(([(name, v)], rest))
  {
    NameRead(name, w, body);
    MemberParts(NameText(name, w) + body, name, ":" + (w + body), body, v, after);
    assert ("}" + rest)[1..] == rest;
  }

  lemma NextMember(name: string, w: string, body: string, v: Json, after: string, next: string)
    requires Spaces(w) && body != [] && !IsSpace(body[0])
    requires ParseValue(body) == Some((v, after)) && SkipSpace(after) == "," + (w + next)
    requires SkipSpace(w + next) == next
    ensures ParseMembers(NameText(name, w) + body) ==
            var more := ParseMembers(next);
            if more.None? then None else Some(([(name, v)] + more.value.0, more.value.1))
  {
    NameRead(name, w, body);
    MemberParts(NameText(name, w) + body, name, ":" + (w + body), body, v, after);
    assert ("," + (w + next))[1..] == w + next;
  }

  // ----- the whole -----

  lemma Regroup(a: string, w: string, c: string, n: string, rest: string)
    ensures (a + (w + (c + (w + n)))) + rest == a + (w + (c + (w + (n + rest))))
  {
    Assoc(a, w + (c + (w + n)), rest);
    Assoc(w, c + (w + n), rest);
    Assoc(c, w + n, rest);
    Assoc(w, n, rest);
  }

  lemma RegroupLast(a: string, w: string, c: string, rest: string)
    ensures (a + (w + c)) + rest == a + (w + (c + rest))
  {
    Assoc(a, w + c, rest);
    Assoc(w, c, rest);
  }

  lemma Tail<T>(s: seq<T>, i: nat)
    requires i < |s|
    ensures s[i..] == [s[i]] + s[i + 1..]
    ensures i + 1 == |s| ==> s[i..] == [s[i]]
  {
  }

  lemma ItemsHead(v: Json, i: nat, w: string, rest: string)
    requires Whole(v) && v.Array? && i < |v.items|
    ensures var s := ItemsText(v, i, w) + rest; s != [] && !IsSpace(s[0]) && s[0] != ']'
  {
    TextHead(v.items[i], w);
  }

  lemma LastItemText(v: Json, i: nat, w: string, rest: string, after: string)
    requires v.Array? && i + 1 == |v.items| && after == w + ("]" + rest)
    ensures ItemsText(v, i, w) + rest == Text(v.items[i], w) + after
  {
    RegroupLast(Text(v.items[i], w), w, "]", rest);
  }

  lemma NextItemText(v: Json, i: nat, w: string, rest: string, next: string, after: string)
    requires v.Array? && i + 1 < |v.items|
    requires next == ItemsText(v, i + 1, w) + rest && after == w + ("," + (w + next))
    ensures ItemsText(v, i, w) + rest == Text(v.items[i], w) + after
  {
    Regroup(Text(v.items[i], w), w, ",", ItemsText(v, i + 1, w), rest);
  }

  lemma {:induction false} ReadItemsText(v: Json, i: nat, w: string, rest: string)
    requires Whole(v) && v.Array? && i < |v.items| && Spaces(w)
    ensures ParseItems(ItemsText(v, i, w) + rest) == Some((v.items[i..], rest))
    decreases v, |v.items| - i
  {
    var x := v.items[i];
    Tail(v.items, i);
    if i + 1 == |v.items| {
      var after := w + ("]" + rest);
      LastItemText(v, i, w, rest, after);
      SpaceEnds(w, ']', rest);
      ReadText(x, w, after);
      LastItem(x, Text(x, w) + after, after, rest);
    } else {
      var next := ItemsText(v, i + 1, w) + rest;
      var after := w + ("," + (w + next));
      NextItemText(v, i, w, rest, next, after);
      ItemsHead(v, i + 1, w, rest);
      CommaRead(w, next, after);
      ReadText(x, w, after);
      NextItem(x, Text(x, w) + after, after, w, next);
      ReadItemsText(v, i + 1, w, rest);
    }
  }

  lemma MembersHead(v: Json, i: nat, w: string, rest: string)
    requires v.Object? && i < |v.members|
    ensures StartsWith(MembersText(v, i, w) + rest, '\"')
  {
  }

  lemma BodyHead(x: Json, w: string, after: string, body: string)
    requires Whole(x) && body == Text(x, w) + after
    ensures body != [] && !IsSpace(body[0])
  {
    TextHead(x, w);
  }

  lemma LastMemberText(v: Json, i: nat, w: string, rest: string, after: string, body: string)
    requires v.Object? && i + 1 == |v.members| && after == w + ("}" + rest) && body == Text(v.members[i].1, w) + after
    ensures MembersText(v, i, w) + rest == NameText(v.members[i].0, w) + body
  {
    var text := Text(v.members[i].1, w);
    Assoc(NameText(v.members[i].0, w), text + (w + "}"), rest);
    RegroupLast(text, w, "}", rest);
  }

  lemma NextMemberText(v: Json, i: nat, w: string, rest: string, next: string, after: string, body: string)
    requires v.Object? && i + 1 < |v.members|
    requires next == MembersText(v, i + 1, w) + rest && after == w + ("," + (w + next))
    requires body == Text(v.members[i].1, w) + after
    ensures MembersText(v, i, w) + rest == NameText(v.members[i].0, w) + body
  {
    var text, more := Text(v.members[i].1, w), MembersText(v, i + 1, w);
    Assoc(NameText(v.members[i].0, w), text + (w + ("," + (w + more))), rest);
    Regroup(text, w, ",", more, rest);
  }

  lemma {:induction false} ReadMembersText(v: Json, i: nat, w: string, rest: string)
    requires Whole(v) && v.Object? && i < |v.members| && Spaces(w)
    ensures ParseMembers(MembersText(v, i, w) + rest) == Some((v.members[i..], rest))
    decreases v, |v.members| - i
  {
    var (name, x) := v.members[i];
    Tail(v.members, i);
    if i + 1 == |v.members| {
      var after := w + ("}" + rest);
      var body := Text(x, w) + after;
      LastMemberText(v, i, w, rest, after, body);
      SpaceEnds(w, '}', rest);
      BodyHead(x, w, after, body);
      ReadText(x, w, after);
      LastMember(name, w, body, x, after, rest);
    } else {
      var next := MembersText(v, i + 1, w) + rest;
      var after := w + ("," + (w + next));
      var body := Text(x, w) + after;
      NextMemberText(v, i, w, rest, next, after, body);
      MembersHead(v, i + 1, w, rest);
      CommaRead(w, next, after);
      BodyHead(x, w, after, body);
      ReadText(x, w, after);
      NextMember(name, w, body, x, after, next);
      ReadMembersText(v, i + 1, w, rest);
    }
  }

  lemma OpenArray(w: string, body: string)
    requires Spaces(w) && body != [] && !IsSpace(body[0])
    ensures body[0] == ']' ==> ParseValue("[" + (w + body)) == Some((Array([]), body[1..]))
    ensures body[0] != ']' ==>
              ParseValue("[" + (w + body)) == var items := ParseItems(body);
                if items.None? then None else Some((Array(items.value.0), items.value.1))
  {
    assert ("[" + (w + body))[1..] == w + body;
    SkipSpaces(w, body);
  }

  lemma OpenObject(w: string, body: string)
    requires Spaces(w) && body != [] && !IsSpace(body[0])
    ensures body[0] == '}' ==> ParseValue("{" + (w + body)) == Some((Object([]), body[1..]))
    ensures body[0] != '}' ==>
              ParseValue("{" + (w + body)) == var members := ParseMembers(body);
                if members.None? then None else Some((Object(members.value.0), members.value.1))
  {
    assert ("{" + (w + body))[1..] == w + body;
    SkipSpaces(w, body);
  }

  lemma {:induction false} ReadArrayText(v: Json, w: string, rest: string)
    requires Whole(v) && v.Array? && Spaces(w)
    ensures ParseValue(Text(v, w) + rest) == Some((v, rest))
    decreases v, |v.items| + 1
  {
    var body := ItemsText(v, 0, w) + rest;
    assert Text(v, w) + rest == "[" + (w + body);
    if v.items == [] {
      OpenArray(w, body);
      assert body == "]" + rest && body[1..] == rest;
    } else {
      ItemsHead(v, 0, w, rest);
      OpenArray(w, body);
      ReadItemsText(v, 0, w, rest);
    }
  }

  lemma {:induction false} ReadObjectText(v: Json, w: string, rest: string)
    requires Whole(v) && v.Object? && Spaces(w)
    ensures ParseValue(Text(v, w) + rest) == Some((v, rest))
    decreases v, |v.members| + 1
  {
    var body := MembersText(v, 0, w) + rest;
    assert Text(v, w) + rest == "{" + (w + body);
    if v.members == [] {
      OpenObject(w, body);
      assert body == "}" + rest && body[1..] == rest;
    } else {
      MembersHead(v, 0, w, rest);
      OpenObject(w, body);
      ReadMembersText(v, 0, w, rest);
    }
  }

  /** A printed value is read back, and nothing that follows it is consumed. */
  lemma {:induction false} ReadText(v: Json, w: string, rest: string)
    requires Whole(v) && Spaces(w) && Ends(rest)
    ensures ParseValue(Text(v, w) + rest) == Some((v, rest))
    decreases v, if v.Array? then |v.items| + 2 else if v.Object? then |v.members| + 2 else 0
  {
    if v.Array? {
      ReadArrayText(v, w, rest);
    } else if v.Object? {
      ReadObjectText(v, w, rest);
    } else {
      ReadScalar(v, w, rest);
    }
  }

  /** The reader undoes the writer, whatever whitespace stands between the tokens and around the text. */
  lemma WholeTextRead(v: Json, w: string)
    requires Whole(v) && Spaces(w)
    ensures Parse(w + (Text(v, w) + w)) == Some(v)
  {
    TextHead(v, w);
    SkipSpaces(w, Text(v, w) + w);
    ReadText(v, w, w);
    assert w + [] == w;
    SkipSpaces(w, []);
  }

  // ----- what is refused -----

  lemma BracketIsNoValue(rest: string)
    ensures ParseItems("]" + rest).None? && ParseMembers("}" + rest).None?
  {
    NotAPrefix("true", "]" + rest);
    NotAPrefix("false", "]" + rest);
    NotAPrefix("null", "]" + rest);
    assert IntegerPart("]" + rest).None?;
  }

  /** A comma must be followed by another element. */
  lemma TrailingCommaRefused(x: Json, w: string, rest: string)
    requires Whole(x) && Spaces(w)
    ensures ParseItems(Text(x, w) + (w + ("," + (w + ("]" + rest))))).None?
  {
    var next := "]" + rest;
    var after := w + ("," + (w + next));
    CommaRead(w, next, after);
    ReadText(x, w, after);
    NextItem(x, Text(x, w) + after, after, w, next);
    BracketIsNoValue(rest);
  }

  /** Nothing but whitespace may follow the value. */
  lemma MoreTextRefused(v: Json, w: string, more: string)
    requires Whole(v) && Spaces(w) && more != [] && !IsSpace(more[0]) && Ends(more)
    ensures Parse(w + (Text(v, w) + (w + more))).None?
  {
    TextHead(v, w);
    SkipSpaces(w, Text(v, w) + (w + more));
    ReadText(v, w, w + more);
    SkipSpaces(w, more);
  }
}
