/**
  Exactly which names survive being written without escaping: for one site, for
  a whole file, and a file that is lost.
 */
module NameSurvival {
  import opened AllocSites
  import opened Common
  import opened Json
  import opened Profile

  lemma Rest<T>(a: T, x: seq<T>, b: T, y: seq<T>)
    requires [a] + x == [b] + y
    ensures a == b && x == y
  {
    assert x == ([a] + x)[1..] && y == ([b] + y)[1..];
    assert a == ([a] + x)[0] && b == ([b] + y)[0];
  }

  /** If the last members are read as written, the function name is clean. */
  lemma FuncNameKept(x: AllocSite, end: string, rest: string)
    requires ParseMembers(Tail4(x, end)) ==
             Some(([("funcName", String(x.funcName))] + [("isRealloc", Bool(x.isRealloc))], rest))
    ensures Clean(x.funcName)
  {
    StringMemberKept("funcName", x.funcName, ", " + Tail5(x, end),
                     [("funcName", String(x.funcName))] + [("isRealloc", Bool(x.isRealloc))], rest);
  }

  lemma NamesKept(x: AllocSite, end: string, rest: string, last: seq<(string, Json)>)
    requires last == [("funcName", String(x.funcName))] + [("isRealloc", Bool(x.isRealloc))]
    requires ParseMembers(Tail3(x, end)) == Some(([("bbName", String(x.bbName))] + last, rest))
    ensures Clean(x.bbName) && Clean(x.funcName)
  {
    StringMemberKept("bbName", x.bbName, ", " + Tail4(x, end), [("bbName", String(x.bbName))] + last, rest);
    ReadNameMember("bbName", x.bbName, Tail4(x, end));
    var more := ParseMembers(Tail4(x, end));
    Rest(("bbName", String(x.bbName)), more.value.0, ("bbName", String(x.bbName)), last);
    FuncNameKept(x, end, rest);
  }

  /** If a site is read as the object it was written for, both its names are clean. */
  lemma ItemKept(x: AllocSite, end: string, rest: string)
    requires x.localID >= 0 && ParseValue(ItemText(x, end)) == Some((Object(MembersOf(x)), rest))
    ensures Clean(x.bbName) && Clean(x.funcName)
  {
    ReadHead(x, end);
    var last := [("funcName", String(x.funcName))] + [("isRealloc", Bool(x.isRealloc))];
    var more := ParseMembers(Tail3(x, end)).value.0;
    Rest(("id", Int(x.localID)), [("pkey", Int(x.pkey))] + more,
         ("id", Int(x.localID)), [("pkey", Int(x.pkey))] + ([("bbName", String(x.bbName))] + last));
    Rest(("pkey", Int(x.pkey)), more, ("pkey", Int(x.pkey)), [("bbName", String(x.bbName))] + last);
    NamesKept(x, end, rest, last);
  }

  /** A written site is read as its five members if and only if both its names are clean. */
  lemma SiteSurvivesExactly(x: AllocSite, end: string)
    requires x.localID >= 0
    ensures ParseValue(ItemText(x, end)) == Some((Object(MembersOf(x)), end)) <==> Clean(x.bbName) && Clean(x.funcName)
  {
    if Writable(x) {
      ReadItem(x, end);
    } else if ParseValue(ItemText(x, end)) == Some((Object(MembersOf(x)), end)) {
      ItemKept(x, end, end);
    }
  }

  lemma FirstItem(text: string, items: seq<Json>, rest: string)
    requires ParseItems(text) == Some((items, rest))
    ensures items != [] && ParseValue(text).Some? && ParseValue(text).value.0 == items[0]
  {
  }

  lemma {:induction false} LinesKept(xs: seq<AllocSite>, rest: string)
    requires xs != [] && (forall x :: x in xs ==> x.localID >= 0)
    requires ParseItems(Lines(xs) + "]\n") == Some((ObjectsOf(xs), rest))
    ensures forall x :: x in xs ==> Writable(x)
  {
    var x, others := xs[0], xs[1..];
    var after := Lines(others) + "]\n";
    assert x in xs;
    Assoc(Line(x, |xs| > 1), Lines(others), "]\n");
    LineAsItem(x, |xs| > 1, after);
    FirstItem(Lines(xs) + "]\n", ObjectsOf(xs), rest);
    ItemKept(x, (if |xs| > 1 then ",\n" else "\n") + after, ParseValue(Lines(xs) + "]\n").value.1);
    if others != [] {
      StartsWithBrace(others);
      ReadLine(x, after);
      Rest(Object(MembersOf(x)), ParseItems(after).value.0, Object(MembersOf(x)), ObjectsOf(others));
      assert forall y :: y in others ==> y in xs;
      LinesKept(others, rest);
    }
    assert xs == [x] + others;
  }

  lemma StartsWithBrace(xs: seq<AllocSite>)
    requires xs != [] && xs[0].localID >= 0
    ensures StartsWith(Lines(xs) + "]\n", '{')
  {
    Assoc(Line(xs[0], |xs| > 1), Lines(xs[1..]), "]\n");
    LineAsItem(xs[0], |xs| > 1, Lines(xs[1..]) + "]\n");
  }

  /**
    A written file is read as exactly what was written if and only if no name in
    it holds a quote, a backslash or a control character.
   */
  lemma FileSurvivesExactly(xs: seq<AllocSite>)
    requires xs != [] && forall x :: x in xs ==> x.localID >= 0
    ensures Parse(Render(xs)) == Some(Array(ObjectsOf(xs))) <==> forall x :: x in xs ==> Writable(x)
  {
    if forall x :: x in xs ==> Writable(x) {
      RoundTrip(xs);
    } else if Parse(Render(xs)) == Some(Array(ObjectsOf(xs))) {
      var body := Lines(xs) + "]\n";
      Assoc("[\n", Lines(xs), "]\n");
      StartsWithBrace(xs);
      ReadArray(body);
      assert Render(xs) == "[\n" + body;
      LinesKept(xs, ParseItems(body).value.1);
    }
  }

  // ----- a file that is lost -----

  lemma StopsAtQuote(x: AllocSite, end: string)
    requires x.bbName == "b\"c"
    ensures ParseMembers(Tail3(x, end)).None?
  {
    var after := "c\"" + (", " + Tail4(x, end));
    ReadName("b", after);
    QuoteSplits(", " + Tail4(x, end));
    BrokenMember("bbName", "\"" + x.bbName + "\"" + (", " + Tail4(x, end)), String("b"), after);
  }

  lemma QuoteSplits(rest: string)
    ensures "\"" + "b\"c" + "\"" + rest == "\"" + "b" + "\"" + ("c\"" + rest)
  {
  }

  /** One quote in a block name, and nothing can be read of the whole file, whatever else it lists. */
  lemma QuoteLosesFile(x: AllocSite, others: seq<AllocSite>)
    requires x.localID >= 0 && x.bbName == "b\"c"
    ensures Parse(Render([x] + others)).None?
    ensures FileItems(Some(Render([x] + others))) == []
  {
    var xs := [x] + others;
    var after := Lines(others) + "]\n";
    assert xs[1..] == others;
    Assoc(Line(x, |xs| > 1), Lines(others), "]\n");
    LineAsItem(x, |xs| > 1, after);
    var end := (if |xs| > 1 then ",\n" else "\n") + after;
    StopsAtQuote(x, end);
    ReadHead(x, end);
    var body := Lines(xs) + "]\n";
    assert ParseItems(body).None?;
    Assoc("[\n", Lines(xs), "]\n");
    ReadArray(body);
    assert Render(xs) == "[\n" + body;
  }
}
