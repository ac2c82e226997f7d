/**
  Single entries of a profile: which objects are accepted and as what, and which
  of several entries for one call site the merged map keeps.
 */
module ProfileEntries {
  import opened AllocSites
  import opened Common
  import opened FaultMaps
  import opened Json
  import opened Profile

  // ----- which objects are accepted -----

  /** The object has a member with this name, and the last one with it has this value. */
  ghost predicate LastNamed(members: seq<(string, Json)>, name: string, v: Json) {
    exists n :: 0 <= n < |members| && members[n] == (name, v)
                && forall k :: n < k < |members| ==> members[k].0 != name
  }

  lemma {:induction false} FieldIsLast(members: seq<(string, Json)>, name: string, v: Json)
    ensures Field(members, name) == Some(v) <==> LastNamed(members, name, v)
  {
    if members != [] {
      var n := |members| - 1;
      FieldIsLast(members[..n], name, v);
      if members[n].0 == name {
        assert LastNamed(members, name, v) <==> members[n].1 == v;
      } else {
        if i :| 0 <= i < |members| && members[i] == (name, v) && forall k :: i < k < |members| ==> members[k].0 != name {
          assert members[..n][i] == (name, v);
        }
        if i :| 0 <= i < n && members[..n][i] == (name, v) && forall k :: i < k < n ==> members[..n][k].0 != name {
          assert members[i] == (name, v);
          assert forall k :: i < k < n ==> members[..n][k] == members[k];
        }
      }
    }
  }

  lemma FieldsAre(members: seq<(string, Json)>, id: int, pkey: int, bbName: string, funcName: string)
    ensures Field(members, "id") == Some(Int(id)) <==> LastNamed(members, "id", Int(id))
    ensures Field(members, "pkey") == Some(Int(pkey)) <==> LastNamed(members, "pkey", Int(pkey))
    ensures Field(members, "bbName") == Some(String(bbName)) <==> LastNamed(members, "bbName", String(bbName))
    ensures Field(members, "funcName") == Some(String(funcName)) <==> LastNamed(members, "funcName", String(funcName))
  {
    FieldIsLast(members, "id", Int(id));
    FieldIsLast(members, "pkey", Int(pkey));
    FieldIsLast(members, "bbName", String(bbName));
    FieldIsLast(members, "funcName", String(funcName));
  }

  /** The object's id, key and names, in range and not empty. */
  ghost predicate Holds(members: seq<(string, Json)>, id: int, pkey: int, bbName: string, funcName: string) {
    && LastNamed(members, "id", Int(id)) && 0 <= id < 0x8000_0000_0000_0000
    && LastNamed(members, "pkey", Int(pkey)) && 0 <= pkey < 0x8000_0000_0000_0000
    && LastNamed(members, "bbName", String(bbName)) && bbName != ""
    && LastNamed(members, "funcName", String(funcName)) && funcName != ""
  }

  /** A value is accepted, and as what: exactly an object with all four fields; the key is cut to 32 bits. */
  lemma AcceptedExactly(v: Json, f: FaultingSite)
    ensures FromJSON(v) == Some(f) <==>
            exists pkey: int ::
              v.Object? && Holds(v.members, f.localID, pkey, f.bbName, f.funcName) && f.pkey == pkey % 0x1_0000_0000
  {
    if FromJSON(v) == Some(f) {
      var pkey := IntField(v.members, "pkey").value;
      FieldsAre(v.members, f.localID, pkey, f.bbName, f.funcName);
      assert Holds(v.members, f.localID, pkey, f.bbName, f.funcName);
    }
    if pkey: int :| v.Object? && Holds(v.members, f.localID, pkey, f.bbName, f.funcName)
                    && f.pkey == pkey % 0x1_0000_0000 {
      FieldsAre(v.members, f.localID, pkey, f.bbName, f.funcName);
    }
  }

  // ----- which entry is kept -----

  predicate EntryFor(v: Json, funcName: string, localID: nat) {
    FromJSON(v).Some? && FromJSON(v).value.funcName == funcName && FromJSON(v).value.localID == localID
  }

  /** The entry at place `k` is the first valid one for this function and id. */
  predicate FirstFor(items: seq<Json>, k: nat, funcName: string, localID: nat) {
    && k < |items| && EntryFor(items[k], funcName, localID)
    && forall j :: 0 <= j < k ==> !EntryFor(items[j], funcName, localID)
  }

  lemma AddedEntry(m: FaultMap, v: Json, funcName: string, localID: nat)
    ensures Faulty(m, funcName, localID) ==>
              Faulty(AddSite(m, v), funcName, localID) && AddSite(m, v)[funcName][localID] == m[funcName][localID]
    ensures !Faulty(m, funcName, localID) ==>
              (Faulty(AddSite(m, v), funcName, localID) <==> EntryFor(v, funcName, localID))
    ensures !Faulty(m, funcName, localID) && EntryFor(v, funcName, localID) ==>
              AddSite(m, v)[funcName][localID] == FromJSON(v).value
  {
  }

  /** An entry that is there stays; otherwise the first valid one of the list is kept. */
  lemma {:induction false} AddAllEntry(m: FaultMap, items: seq<Json>, funcName: string, localID: nat) returns (k: nat)
    requires Faulty(AddAll(m, items), funcName, localID)
    ensures Faulty(m, funcName, localID) ==> AddAll(m, items)[funcName][localID] == m[funcName][localID]
    ensures !Faulty(m, funcName, localID) ==>
              && FirstFor(items, k, funcName, localID)
              && AddAll(m, items)[funcName][localID] == FromJSON(items[k]).value
  {
    k := 0;
    if items != [] {
      var n := |items| - 1;
      AddedEntry(AddAll(m, items[..n]), items[n], funcName, localID);
      AddAllKeys(m, items[..n], funcName, localID);
      if Faulty(AddAll(m, items[..n]), funcName, localID) {
        k := AddAllEntry(m, items[..n], funcName, localID);
        assert forall j :: 0 <= j < n ==> items[..n][j] == items[j];
      } else {
        k := n;
        assert forall j :: 0 <= j < n ==> items[j] in items[..n];
      }
    }
  }

  lemma NotListedBefore(files: seq<Option<string>>, n: nat, funcName: string, localID: nat, m: nat)
    requires m < n <= |files| && !Faulty(Merged(files[..n]), funcName, localID)
    ensures !Listed(FileItems(files[m]), funcName, localID)
  {
    MergedKeys(files[..n], funcName, localID);
    assert files[m] == files[..n][m] && files[m] in files[..n];
  }

  /** What file `n` adds is what the merged map has at the end. */
  lemma {:induction false} EntryStays(files: seq<Option<string>>, n: nat, end: nat, funcName: string, localID: nat)
    requires n <= end <= |files| && Faulty(Merged(files[..n]), funcName, localID)
    ensures Faulty(Merged(files[..end]), funcName, localID)
    ensures Merged(files[..end])[funcName][localID] == Merged(files[..n])[funcName][localID]
    decreases end - n
  {
    if n < end {
      var items := FileItems(files[n]);
      NextFile(files, n);
      AddAllKeys(Merged(files[..n]), items, funcName, localID);
      var k := AddAllEntry(Merged(files[..n]), items, funcName, localID);
      EntryStays(files, n + 1, end, funcName, localID);
    }
  }

  /** The file that brings the first entry. */
  lemma {:induction false} FirstFile(files: seq<Option<string>>, end: nat, funcName: string, localID: nat) returns (n: nat)
    requires end <= |files| && Faulty(Merged(files[..end]), funcName, localID)
    ensures n < end && !Faulty(Merged(files[..n]), funcName, localID)
    ensures Faulty(Merged(files[..n + 1]), funcName, localID)
  {
    if Faulty(Merged(files[..end - 1]), funcName, localID) {
      n := FirstFile(files, end - 1, funcName, localID);
    } else {
      n := end - 1;
    }
  }

  lemma NoneListedBefore(files: seq<Option<string>>, n: nat, funcName: string, localID: nat)
    requires n <= |files| && !Faulty(Merged(files[..n]), funcName, localID)
    ensures forall m :: 0 <= m < n ==> !Listed(FileItems(files[m]), funcName, localID)
  {
    forall m | 0 <= m < n ensures !Listed(FileItems(files[m]), funcName, localID) {
      NotListedBefore(files, n, funcName, localID, m);
    }
  }

  /** The file that brings the first entry brings the one that is kept. */
  lemma KeptFrom(files: seq<Option<string>>, n: nat, items: seq<Json>, before: FaultMap, funcName: string, localID: nat)
    returns (k: nat)
    requires n < |files| && items == FileItems(files[n]) && before == Merged(files[..n])
    requires !Faulty(before, funcName, localID) && Faulty(AddAll(before, items), funcName, localID)
    ensures FirstFor(items, k, funcName, localID)
    ensures Faulty(Merged(files[..|files|]), funcName, localID)
    ensures Merged(files[..|files|])[funcName][localID] == FromJSON(items[k]).value
  {
    NextFile(files, n);
    k := AddAllEntry(before, items, funcName, localID);
    EntryStays(files, n + 1, |files|, funcName, localID);
  }

  /** The file's entries, as they are merged in. */
  lemma ItemsOfFile(files: seq<Option<string>>, n: nat) returns (items: seq<Json>)
    requires n < |files|
    ensures items == FileItems(files[n]) && Merged(files[..n + 1]) == AddAll(Merged(files[..n]), items)
  {
    items := FileItems(files[n]);
    NextFile(files, n);
  }

  /**
    The merged map keeps, for a function and id, the first valid entry of the
    first file that lists one; later entries and files do not replace it.
   */
  lemma FirstListedKept(files: seq<Option<string>>, funcName: string, localID: nat)
    returns (n: nat, items: seq<Json>, k: nat)
    requires Faulty(Merged(files), funcName, localID)
    ensures n < |files| && items == FileItems(files[n]) && FirstFor(items, k, funcName, localID)
    ensures forall m :: 0 <= m < n ==> !Listed(FileItems(files[m]), funcName, localID)
    ensures Merged(files)[funcName][localID] == FromJSON(items[k]).value
  {
    assert files[..|files|] == files;
    n := FirstFile(files, |files|, funcName, localID);
    items := ItemsOfFile(files, n);
    k := KeptFrom(files, n, items, Merged(files[..n]), funcName, localID);
    NoneListedBefore(files, n, funcName, localID);
  }

  /** A site with a negative id is written all the same, and then refused by the reader. */
  lemma NegativeIdRefused(x: AllocSite)
    requires x.localID < 0
    ensures FromJSON(Object(MembersOf(x))).None?
  {
    FieldsOf(x);
  }
}
