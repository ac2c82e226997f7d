/**
  Fault profiles: the text the runtime writes at exit, and how the compiler pass
  reads such texts back into the map of faulting call sites.
 */
module Profile {
  import opened AllocSites
  import opened Common
  import opened FaultMaps
  import opened Json

  // ----- writing -----

  /** One site as it is streamed out, followed by `end`. */
  function ItemText(x: AllocSite, end: string): string {
    "{ \"id\": " + (Signed(x.localID) + (", \"pkey\": " + (Decimal(x.pkey) +
    (", \"bbName\": \"" + (x.bbName + ("\", \"funcName\": \"" + (x.funcName + ("\"" +
    (", \"isRealloc\": " + ((if x.isRealloc then "true" else "false") + (" }" + end)))))))))))
  }

  function Line(x: AllocSite, more: bool): string {
    ItemText(x, if more then "," else "") + "\n"
  }

  /** The sites, each on a line of its own, with a comma after all but the last. */
  function Lines(xs: seq<AllocSite>): string {
    if xs == [] then "" else Line(xs[0], |xs| > 1) + Lines(xs[1..])
  }

  /** Nothing at all is written for an empty set. */
  function Render(xs: seq<AllocSite>): string {
    if xs == [] then "" else "[\n" + Lines(xs) + "]\n"
  }

  lemma NextLine(xs: seq<AllocSite>, i: nat)
    requires i < |xs|
    ensures Lines(xs[i..]) == Line(xs[i], i + 1 < |xs|) + Lines(xs[i + 1..])
  {
    assert xs[i..][1..] == xs[i + 1..];
  }

  /** Writes the set in whatever order it enumerates its members. */
  method WriteJSON(os: string, faultSet: seq<AllocSite>) returns (r: string)
    ensures r == os + Render(faultSet)
  {
    if |faultSet| <= 0 {
      assert os + "" == os;
      return os;
    }
    r := os + "[\n";
    var itemsRemaining := |faultSet|;
    ghost var all := r + Lines(faultSet);
    assert faultSet[0..] == faultSet;
    for i := 0 to |faultSet|
      invariant itemsRemaining == |faultSet| - i
      invariant r + Lines(faultSet[i..]) == all
    {
      itemsRemaining := itemsRemaining - 1;
      var line := Line(faultSet[i], itemsRemaining != 0);
      NextLine(faultSet, i);
      Assoc(r, line, Lines(faultSet[i + 1..]));
      r := r + line;
    }
    assert r + "" == r;
    Assoc(os, "[\n", Lines(faultSet));
    Assoc(os, "[\n" + Lines(faultSet), "]\n");
    r := r + "]\n";
  }

  // ----- reading -----

  /** The last member of that name, as later duplicates replace earlier ones. */
  function Field(members: seq<(string, Json)>, name: string): Option<Json> {
    if members == [] then None
    else
      var n := |members| - 1;
      if members[n].0 == name then Some(members[n].1) else Field(members[..n], name)
  }

  function IntField(members: seq<(string, Json)>, name: string): Option<int> {
    match Field(members, name)
    case Some(Int(n)) => if -0x8000_0000_0000_0000 <= n < 0x8000_0000_0000_0000 then Some(n) else None
    case _ => None
  }

  function StringField(members: seq<(string, Json)>, name: string): Option<string> {
    match Field(members, name)
    case Some(String(s)) => Some(s)
    case _ => None
  }

  /** A site, if the value is an object with all four fields of the right kind and range. */
  function FromJSON(v: Json): Option<FaultingSite> {
    if !v.Object? then None
    else
      var id, pkey := IntField(v.members, "id"), IntField(v.members, "pkey");
      var bbName, funcName := StringField(v.members, "bbName"), StringField(v.members, "funcName");
      if id.None? || id.value < 0 || pkey.None? || pkey.value < 0 then None
      else if bbName.None? || bbName.value == "" || funcName.None? || funcName.value == "" then None
      else Some(FaultingSite(id.value, pkey.value % 0x1_0000_0000, bbName.value, funcName.value))
  }

  // ----- the round trip -----

  /** A site whose names can be written without escaping. */
  predicate Writable(x: AllocSite) {
    x.localID >= 0 && Clean(x.bbName) && Clean(x.funcName)
  }

  /** A site with both its names; an entry without them is refused. */
  predicate Named(x: AllocSite) {
    x.bbName != "" && x.funcName != ""
  }

  function MembersOf(x: AllocSite): seq<(string, Json)> {
    [("id", Int(x.localID))] + ([("pkey", Int(x.pkey))] + ([("bbName", String(x.bbName))] +
    ([("funcName", String(x.funcName))] + [("isRealloc", Bool(x.isRealloc))])))
  }

  /** The text of a site from its last, fourth, ... member on. */
  function Tail5(x: AllocSite, end: string): string {
    Member("isRealloc", (if x.isRealloc then "true" else "false") + (" }" + end))
  }

  function Tail4(x: AllocSite, end: string): string {
    Member("funcName", "\"" + x.funcName + "\"" + (", " + Tail5(x, end)))
  }

  function Tail3(x: AllocSite, end: string): string {
    Member("bbName", "\"" + x.bbName + "\"" + (", " + Tail4(x, end)))
  }

  function Tail2(x: AllocSite, end: string): string {
    Member("pkey", Decimal(x.pkey) + (", " + Tail3(x, end)))
  }

  function Tail1(x: AllocSite, end: string): string
    requires x.localID >= 0
  {
    Member("id", Decimal(x.localID) + (", " + Tail2(x, end)))
  }

  lemma Pieces45(x: AllocSite, end: string)
    ensures ", \"isRealloc\": " + ((if x.isRealloc then "true" else "false") + (" }" + end)) == ", " + Tail5(x, end)
    ensures "\", \"funcName\": \"" + (x.funcName + ("\"" + (", " + Tail5(x, end)))) == "\"" + (", " + Tail4(x, end))
  {
  }

  lemma Pieces3(x: AllocSite, end: string)
    ensures ", \"bbName\": \"" + (x.bbName + ("\"" + (", " + Tail4(x, end)))) == ", " + Tail3(x, end)
  {
    var rest := ", " + Tail4(x, end);
    OpenString(", ", "bbName", x.bbName, rest);
    assert ", " + "\"" + "bbName" + "\"" + ": " + "\"" == ", \"bbName\": \"";
  }

  /** A member holding a string, cut where the text is written in one go. */
  lemma OpenString(before: string, name: string, value: string, rest: string)
    ensures before + Member(name, "\"" + value + "\"" + rest)
            == (before + "\"" + name + "\"" + ": " + "\"") + (value + ("\"" + rest))
  {
  }

  lemma OpenNumber(before: string, name: string, value: string, rest: string)
    ensures before + Member(name, value + rest) == (before + "\"" + name + "\"" + ": ") + (value + rest)
  {
  }

  lemma Pieces12(x: AllocSite, end: string)
    requires x.localID >= 0
    ensures ", \"pkey\": " + (Decimal(x.pkey) + (", " + Tail3(x, end))) == ", " + Tail2(x, end)
    ensures "{ \"id\": " + (Decimal(x.localID) + (", " + Tail2(x, end))) == "{ " + Tail1(x, end)
  {
    OpenNumber(", ", "pkey", Decimal(x.pkey), ", " + Tail3(x, end));
    OpenNumber("{ ", "id", Decimal(x.localID), ", " + Tail2(x, end));
    assert ", " + "\"" + "pkey" + "\"" + ": " == ", \"pkey\": ";
    assert "{ " + "\"" + "id" + "\"" + ": " == "{ \"id\": ";
  }

  lemma ItemIsMembers(x: AllocSite, end: string)
    requires x.localID >= 0
    ensures ItemText(x, end) == "{ " + Tail1(x, end)
  {
    Pieces45(x, end);
    Pieces3(x, end);
    Pieces12(x, end);
  }

  /** A member holding a number, followed by more members. */
  lemma ReadNumberMember(name: string, n: nat, next: string)
    requires Clean(name) && StartsWith(next, '\"')
    ensures var more := ParseMembers(next);
            ParseMembers(Member(name, Decimal(n) + (", " + next))) ==
            if more.None? then None else Some(([(name, Int(n))] + more.value.0, more.value.1))
  {
    ReadDecimal(n, ", " + next);
    ReadMember(name, Decimal(n) + (", " + next), Int(n), next);
  }

  /** A member holding a name, followed by more members. */
  lemma ReadNameMember(name: string, s: string, next: string)
    requires Clean(name) && Clean(s) && StartsWith(next, '\"')
    ensures var more := ParseMembers(next);
            ParseMembers(Member(name, "\"" + s + "\"" + (", " + next))) ==
            if more.None? then None else Some(([(name, String(s))] + more.value.0, more.value.1))
  {
    ReadName(s, ", " + next);
    ReadMember(name, "\"" + s + "\"" + (", " + next), String(s), next);
  }

  lemma ReadTail5(x: AllocSite, end: string)
    ensures ParseMembers(Tail5(x, end)) == Some(([("isRealloc", Bool(x.isRealloc))], end))
    ensures StartsWith(Tail5(x, end), '\"')
  {
    ReadBool(x.isRealloc, " }" + end);
    assert (" }" + end)[1..] == "}" + end && ("}" + end)[1..] == end;
    ReadLastMember("isRealloc",
                   (if x.isRealloc then "true" else "false") + (" }" + end), Bool(x.isRealloc), " }" + end);
  }

  lemma ReadTail4(x: AllocSite, end: string)
    requires Writable(x)
    ensures ParseMembers(Tail4(x, end)) ==
            Some(([("funcName", String(x.funcName))] + [("isRealloc", Bool(x.isRealloc))], end))
  {
    ReadTail5(x, end);
    ReadNameMember("funcName", x.funcName, Tail5(x, end));
  }

  lemma ReadTail3(x: AllocSite, end: string)
    requires Writable(x)
    ensures ParseMembers(Tail3(x, end)) ==
            Some(([("bbName", String(x.bbName))] +
                  ([("funcName", String(x.funcName))] + [("isRealloc", Bool(x.isRealloc))]), end))
  {
    ReadTail4(x, end);
    ReadNameMember("bbName", x.bbName, Tail4(x, end));
  }

  /** The id and the key are read whatever comes after them. */
  lemma ReadHead(x: AllocSite, end: string)
    requires x.localID >= 0
    ensures var more := ParseMembers(Tail3(x, end));
            ParseValue(ItemText(x, end)) ==
            if more.None? then None
            else Some((Object([("id", Int(x.localID))] + ([("pkey", Int(x.pkey))] + more.value.0)), more.value.1))
  {
    ItemIsMembers(x, end);
    ReadNumberMember("pkey", x.pkey, Tail3(x, end));
    ReadNumberMember("id", x.localID, Tail2(x, end));
    ReadObject(Tail1(x, end));
  }

  /** A written site is read as an object with the five members, and nothing after it is consumed. */
  lemma ReadItem(x: AllocSite, end: string)
    requires Writable(x)
    ensures ParseValue(ItemText(x, end)) == Some((Object(MembersOf(x)), end))
  {
    ReadHead(x, end);
    ReadTail3(x, end);
  }

  lemma FieldAppend(ms: seq<(string, Json)>, last: (string, Json), name: string)
    ensures Field(ms + [last], name) == if last.0 == name then Some(last.1) else Field(ms, name)
  {
    assert (ms + [last])[..|ms|] == ms;
  }

  lemma FieldOfFive(a: (string, Json), b: (string, Json), c: (string, Json), d: (string, Json), e: (string, Json))
    requires a.0 != b.0 && a.0 != c.0 && a.0 != d.0 && a.0 != e.0
    requires b.0 != c.0 && b.0 != d.0 && b.0 != e.0 && c.0 != d.0 && c.0 != e.0 && d.0 != e.0
    ensures var ms := [a] + ([b] + ([c] + ([d] + [e])));
            && Field(ms, a.0) == Some(a.1) && Field(ms, b.0) == Some(b.1)
            && Field(ms, c.0) == Some(c.1) && Field(ms, d.0) == Some(d.1)
  {
    forall n | n in {a.0, b.0, c.0, d.0}
      ensures Field([a] + [b] + [c] + [d] + [e], n) ==
              if n == a.0 then Some(a.1) else if n == b.0 then Some(b.1) else if n == c.0 then Some(c.1) else Some(d.1)
    {
      FieldAppend([a] + [b] + [c] + [d], e, n);
      FieldAppend([a] + [b] + [c], d, n);
      FieldAppend([a] + [b], c, n);
      FieldAppend([a], b, n);
      FieldAppend([], a, n);
      assert [] + [a] == [a];
    }
    assert [a] + ([b] + ([c] + ([d] + [e]))) == [a] + [b] + [c] + [d] + [e];
  }

  /** The entry that the compiler pass makes of a written site, if it accepts it. */
  function EntryOf(x: AllocSite): Option<FaultingSite>
    requires x.localID >= 0
  {
    if Named(x) then Some(FaultingSite(x.localID, x.pkey, x.bbName, x.funcName)) else None
  }

  lemma FieldsOf(x: AllocSite)
    ensures Field(MembersOf(x), "id") == Some(Int(x.localID)) && Field(MembersOf(x), "pkey") == Some(Int(x.pkey))
    ensures Field(MembersOf(x), "bbName") == Some(String(x.bbName))
    ensures Field(MembersOf(x), "funcName") == Some(String(x.funcName))
  {
    assert "id"[0] == 'i' && "pkey"[0] == 'p' && "bbName"[0] == 'b' && "funcName"[0] == 'f';
    assert "isRealloc"[1] == 's' && "id"[1] == 'd';
    FieldOfFive(("id", Int(x.localID)), ("pkey", Int(x.pkey)), ("bbName", String(x.bbName)),
                ("funcName", String(x.funcName)), ("isRealloc", Bool(x.isRealloc)));
  }

  /** The members hold the site's identity and key, and are accepted exactly when neither name is empty. */
  lemma FromMembers(x: AllocSite)
    requires x.localID >= 0
    ensures FromJSON(Object(MembersOf(x))) == EntryOf(x)
  {
    FieldsOf(x);
  }

  function ObjectsOf(xs: seq<AllocSite>): seq<Json> {
    if xs == [] then [] else [Object(MembersOf(xs[0]))] + ObjectsOf(xs[1..])
  }

  lemma ItemSplit(x: AllocSite, end: string)
    requires x.localID >= 0
    ensures ItemText(x, end) == ItemText(x, "") + end
  {
  }

  /** The objects give back id, key, block name and function name of each named site in turn, and refuse the others. */
  predicate ReadBack(xs: seq<AllocSite>, items: seq<Json>) {
    && |items| == |xs|
    && forall i :: 0 <= i < |xs| ==> xs[i].localID >= 0 && FromJSON(items[i]) == EntryOf(xs[i])
  }

  lemma ReadItems(v: Json, text: string, after: string)
    requires ParseValue(text) == Some((v, after)) && StartsWith(SkipSpace(after), ',')
    ensures var more := ParseItems(SkipSpace(SkipSpace(after)[1..]));
            ParseItems(text) == if more.None? then None else Some(([v] + more.value.0, more.value.1))
  {
  }

  lemma ReadLastItem(v: Json, text: string, after: string)
    requires ParseValue(text) == Some((v, after)) && StartsWith(SkipSpace(after), ']')
    ensures ParseItems(text) == Some(([v], SkipSpace(after)[1..]))
  {
  }

  lemma LineAsItem(x: AllocSite, more: bool, rest: string)
    requires x.localID >= 0
    ensures Line(x, more) + rest == ItemText(x, (if more then ",\n" else "\n") + rest)
    ensures StartsWith(Line(x, more) + rest, '{')
  {
    var sep := if more then "," else "";
    ItemSplit(x, sep);
    ItemSplit(x, (if more then ",\n" else "\n") + rest);
    Assoc(ItemText(x, ""), sep, "\n");
    Assoc(ItemText(x, ""), sep + "\n", rest);
    assert sep + "\n" == if more then ",\n" else "\n";
  }

  lemma AfterBreak(c: string, next: string)
    requires c == "\n" || c == ",\n"
    requires next != [] && !IsSpace(next[0])
    ensures c == "\n" ==> SkipSpace(c + next) == next
    ensures c == ",\n" ==> SkipSpace(c + next) == c + next && SkipSpace((c + next)[1..]) == next
  {
    if c == "\n" {
      assert (c + next)[1..] == next;
    } else {
      assert (c + next)[1..] == "\n" + next && ("\n" + next)[1..] == next;
    }
  }

  lemma ReadLastLine(x: AllocSite)
    requires Writable(x)
    ensures ParseItems(Line(x, false) + "]\n") == Some(([Object(MembersOf(x))], "\n"))
  {
    LineAsItem(x, false, "]\n");
    ReadItem(x, "\n" + "]\n");
    AfterBreak("\n", "]\n");
    assert "]\n"[1..] == "\n";
    ReadLastItem(Object(MembersOf(x)), Line(x, false) + "]\n", "\n" + "]\n");
  }

  lemma ReadLine(x: AllocSite, after: string)
    requires Writable(x) && StartsWith(after, '{')
    ensures var more := ParseItems(after);
            ParseItems(Line(x, true) + after) ==
            if more.None? then None else Some(([Object(MembersOf(x))] + more.value.0, more.value.1))
  {
    LineAsItem(x, true, after);
    ReadItem(x, ",\n" + after);
    AfterBreak(",\n", after);
    ReadItems(Object(MembersOf(x)), Line(x, true) + after, ",\n" + after);
  }

  lemma {:induction false} ReadLines(xs: seq<AllocSite>)
    requires xs != [] && forall x :: x in xs ==> Writable(x)
    ensures ParseItems(Lines(xs) + "]\n") == Some((ObjectsOf(xs), "\n"))
    ensures StartsWith(Lines(xs) + "]\n", '{')
  {
    var x, rest := xs[0], xs[1..];
    var after := Lines(rest) + "]\n";
    assert x in xs;
    Assoc(Line(x, |xs| > 1), Lines(rest), "]\n");
    LineAsItem(x, |xs| > 1, after);
    if rest == [] {
      ReadLastLine(x);
      assert after == "]\n";
      assert ObjectsOf(xs) == [Object(MembersOf(x))];
    } else {
      ReadLines(rest);
      ReadLine(x, after);
    }
  }

  lemma ReadArray(body: string)
    requires StartsWith(body, '{')
    ensures var items := ParseItems(body);
            ParseValue("[\n" + body) == if items.None? then None else Some((Array(items.value.0), items.value.1))
    ensures SkipSpace("[\n" + body) == "[\n" + body
  {
    assert ("[\n" + body)[1..] == "\n" + body && ("\n" + body)[1..] == body;
  }

  /**
    The writer's text is a JSON array whose elements, in the order written, are
    the sites; reading them back gives the id, key and names of each site that
    has both its names, and refuses the others.
   */
  lemma RoundTrip(xs: seq<AllocSite>)
    requires xs != [] && forall x :: x in xs ==> Writable(x)
    ensures Parse(Render(xs)) == Some(Array(ObjectsOf(xs)))
    ensures ReadBack(xs, ObjectsOf(xs))
  {
    ReadLines(xs);
    ObjectsAt(xs);
    var body := Lines(xs) + "]\n";
    Assoc("[\n", Lines(xs), "]\n");
    ReadArray(body);
    assert Render(xs) == "[\n" + body;
    assert SkipSpace("\n") == "";
  }

  lemma {:induction false} ObjectsAt(xs: seq<AllocSite>)
    requires forall x :: x in xs ==> x.localID >= 0
    ensures ReadBack(xs, ObjectsOf(xs))
  {
    if xs != [] {
      assert xs[0] in xs;
      FromMembers(xs[0]);
      ObjectsAt(xs[1..]);
    }
  }

  // ----- merging profiles -----

  /** Add an entry, keeping one that is already there. */
  function AddSite(m: FaultMap, v: Json): FaultMap {
    match FromJSON(v)
    case None => m
    case Some(f) =>
      var sites := if f.funcName in m then m[f.funcName] else map[];
      m[f.funcName := if f.localID in sites then sites else sites[f.localID := f]]
  }

  function AddAll(m: FaultMap, items: seq<Json>): FaultMap {
    if items == [] then m else AddSite(AddAll(m, items[..|items| - 1]), items[|items| - 1])
  }

  /** The array in a file; a file that cannot be read or holds no array contributes nothing. */
  function FileItems(file: Option<string>): seq<Json> {
    match file
    case None => []
    case Some(text) =>
      match Parse(text)
      case Some(Array(items)) => items
      case _ => []
  }

  function Merged(files: seq<Option<string>>): FaultMap {
    if files == [] then map[] else AddAll(Merged(files[..|files| - 1]), FileItems(files[|files| - 1]))
  }

  /** Some readable file lists a valid entry for this function and id. */
  predicate Listed(items: seq<Json>, funcName: string, localID: nat) {
    exists v :: v in items && FromJSON(v).Some?
                && FromJSON(v).value.funcName == funcName && FromJSON(v).value.localID == localID
  }

  lemma NextItem(m: FaultMap, items: seq<Json>, j: nat)
    requires j < |items|
    ensures AddAll(m, items[..j + 1]) == AddSite(AddAll(m, items[..j]), items[j])
  {
    assert items[..j + 1][..j] == items[..j];
  }

  lemma NextFile(files: seq<Option<string>>, i: nat)
    requires i < |files|
    ensures Merged(files[..i + 1]) == AddAll(Merged(files[..i]), FileItems(files[i]))
  {
    assert files[..i + 1][..i] == files[..i];
  }

  method AddFault(m: FaultMap, alloc: Json) returns (r: FaultMap)
    ensures r == AddSite(m, alloc)
  {
    r := m;
    var parsed := FromJSON(alloc);
    if parsed.Some? {
      var f := parsed.value;
      if f.funcName !in r {
        r := r[f.funcName := map[]];
      }
      if f.localID !in r[f.funcName] {
        var sites: map<nat, FaultingSite> := r[f.funcName][f.localID := f];
        r := r[f.funcName := sites];
      }
    }
  }

  method GetFaultingAllocMap(files: seq<Option<string>>) returns (m: FaultMap)
    ensures m == Merged(files)
  {
    m := map[];
    for i := 0 to |files|
      invariant m == Merged(files[..i])
    {
      var items := FileItems(files[i]);
      ghost var start := m;
      for j := 0 to |items|
        invariant m == AddAll(start, items[..j])
      {
        NextItem(start, items, j);
        m := AddFault(m, items[j]);
      }
      assert items[..|items|] == items;
      NextFile(files, i);
    }
    assert files[..|files|] == files;
  }

  lemma {:induction false} AddAllKeys(m: FaultMap, items: seq<Json>, funcName: string, localID: nat)
    ensures Faulty(AddAll(m, items), funcName, localID) <==>
            Faulty(m, funcName, localID) || Listed(items, funcName, localID)
  {
    if items != [] {
      var n := |items| - 1;
      AddAllKeys(m, items[..n], funcName, localID);
      assert items == items[..n] + [items[n]];
    }
  }

  /** Some readable file of the list lists the entry. */
  predicate ListedInFiles(files: seq<Option<string>>, funcName: string, localID: nat) {
    exists file :: file in files && Listed(FileItems(file), funcName, localID)
  }

  lemma OneMoreFile(files: seq<Option<string>>, file: Option<string>, funcName: string, localID: nat)
    ensures ListedInFiles(files + [file], funcName, localID) <==>
            ListedInFiles(files, funcName, localID) || Listed(FileItems(file), funcName, localID)
  {
    assert file in files + [file];
    forall g | g in files ensures g in files + [file] {
    }
  }

  /** One more file adds what it lists. */
  lemma MergedKeysNext(files: seq<Option<string>>, file: Option<string>, m: FaultMap, funcName: string, localID: nat)
    requires m == Merged(files)
    ensures Faulty(Merged(files + [file]), funcName, localID) <==>
            Faulty(m, funcName, localID) || Listed(FileItems(file), funcName, localID)
  {
    assert (files + [file])[..|files|] == files;
    AddAllKeys(m, FileItems(file), funcName, localID);
  }

  /** The merged map has an entry for a call site exactly when some file lists one. */
  lemma {:induction false} MergedKeys(files: seq<Option<string>>, funcName: string, localID: nat)
    ensures Faulty(Merged(files), funcName, localID) <==> ListedInFiles(files, funcName, localID)
  {
    if files != [] {
      var before, last := files[..|files| - 1], files[|files| - 1];
      assert files == before + [last];
      MergedKeys(before, funcName, localID);
      MergedKeysNext(before, last, Merged(before), funcName, localID);
      OneMoreFile(before, last, funcName, localID);
    }
  }

  /** So the order of the files, and how often each is given, does not matter to which sites are faulty. */
  lemma MergeOrderIrrelevant(files: seq<Option<string>>, others: seq<Option<string>>, funcName: string, localID: nat)
    requires forall file :: file in files <==> file in others
    ensures Faulty(Merged(files), funcName, localID) <==> Faulty(Merged(others), funcName, localID)
  {
    MergedKeys(files, funcName, localID);
    MergedKeys(others, funcName, localID);
  }

  lemma FoundByReading(xs: seq<AllocSite>, items: seq<Json>, funcName: string, localID: nat)
    requires ReadBack(xs, items)
    ensures Listed(items, funcName, localID) <==>
            exists x :: x in xs && Named(x) && x.funcName == funcName && x.localID == localID
  {
    if Listed(items, funcName, localID) {
      var v :| v in items && FromJSON(v).Some?
               && FromJSON(v).value.funcName == funcName && FromJSON(v).value.localID == localID;
      var i :| 0 <= i < |items| && items[i] == v;
      assert xs[i] in xs;
    }
    if x :| x in xs && Named(x) && x.funcName == funcName && x.localID == localID {
      var i :| 0 <= i < |xs| && xs[i] == x;
      assert items[i] in items;
    }
  }

  lemma WrittenFile(xs: seq<AllocSite>)
    requires forall x :: x in xs ==> Writable(x)
    ensures FileItems(Some(Render(xs))) == ObjectsOf(xs) && ReadBack(xs, ObjectsOf(xs))
  {
    if xs != [] {
      RoundTrip(xs);
    } else {
      assert Parse("").None?;
    }
  }

  /** What a run wrote, be it nothing at all, marks exactly the function and id pairs of the named sites it wrote. */
  lemma WrittenSitesAreFaulty(xs: seq<AllocSite>, funcName: string, localID: nat)
    requires forall x :: x in xs ==> Writable(x)
    ensures Faulty(Merged([Some(Render(xs))]), funcName, localID) <==>
            exists x :: x in xs && Named(x) && x.funcName == funcName && x.localID == localID
  {
    var file := Some(Render(xs));
    WrittenFile(xs);
    FoundByReading(xs, FileItems(file), funcName, localID);
    MergedKeys([file], funcName, localID);
    assert file in [file];
  }
}
