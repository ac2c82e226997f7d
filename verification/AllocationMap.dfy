/**
  The ordered map from base pointers to sites, and the predecessor search that
  answers "which allocation owns this address?".

  The ordered container is a sequence of entries in strictly increasing key
  order; an iterator is an index into it, with 0 as begin and the length as end.
  `Contents` is the finite map it stands for.
 */
module AllocationMap {
  import opened AllocSites

  datatype Entry = Entry(key: Ptr, site: AllocSite)

  type SiteMap = map<Ptr, AllocSite>

  /** Insertion that keeps a key that is already present. */
  function Emplace<K, V>(m: map<K, V>, k: K, v: V): (r: map<K, V>)
    ensures r.Keys == m.Keys + {k}
    ensures forall j :: j in m ==> r[j] == m[j]
    ensures k !in m ==> r[k] == v
  {
    if k in m then m else m[k := v]
  }

  // ----- the ordered container -----

  ghost predicate Sorted(es: seq<Entry>) {
    forall i, j :: 0 <= i < j < |es| ==> es[i].key < es[j].key
  }

  ghost function Contents(es: seq<Entry>): SiteMap {
    if es == [] then map[] else Contents(es[1..])[es[0].key := es[0].site]
  }

  lemma {:induction false} ContentsAt(es: seq<Entry>, i: nat)
    requires Sorted(es) && i < |es|
    ensures es[i].key in Contents(es) && Contents(es)[es[i].key] == es[i].site
  {
    if i > 0 {
      ContentsAt(es[1..], i - 1);
    }
  }

  lemma {:induction false} ContentsIndex(es: seq<Entry>, k: Ptr) returns (i: nat)
    requires k in Contents(es)
    ensures i < |es| && es[i].key == k
  {
    if k == es[0].key {
      i := 0;
    } else {
      i := ContentsIndex(es[1..], k);
      i := i + 1;
    }
  }

  lemma {:induction false} ContentsAbsent(es: seq<Entry>, k: Ptr)
    requires forall i :: 0 <= i < |es| ==> es[i].key != k
    ensures k !in Contents(es)
  {
    if k in Contents(es) {
      var i := ContentsIndex(es, k);
    }
  }

  /** The first index whose key is not below `p`. */
  function LowerBound(es: seq<Entry>, p: Ptr): (i: nat)
    ensures i <= |es|
    ensures Sorted(es) ==> forall j :: 0 <= j < |es| ==> (es[j].key < p <==> j < i)
  {
    if es == [] || es[0].key >= p then 0 else 1 + LowerBound(es[1..], p)
  }

  function EmplaceEntry(es: seq<Entry>, p: Ptr, site: AllocSite): seq<Entry> {
    if es == [] || p < es[0].key then [Entry(p, site)] + es
    else if p == es[0].key then es
    else [es[0]] + EmplaceEntry(es[1..], p, site)
  }

  function EraseEntry(es: seq<Entry>, p: Ptr): seq<Entry> {
    if es == [] || p < es[0].key then es
    else if p == es[0].key then es[1..]
    else [es[0]] + EraseEntry(es[1..], p)
  }

  lemma {:induction false} EmplaceEntrySorted(es: seq<Entry>, p: Ptr, site: AllocSite)
    requires Sorted(es)
    ensures Sorted(EmplaceEntry(es, p, site))
    ensures forall e :: e in EmplaceEntry(es, p, site) ==> e.key == p || e in es
  {
    if es != [] && p > es[0].key {
      EmplaceEntrySorted(es[1..], p, site);
    }
  }

  lemma {:induction false} EraseEntrySorted(es: seq<Entry>, p: Ptr)
    requires Sorted(es)
    ensures Sorted(EraseEntry(es, p))
    ensures forall e :: e in EraseEntry(es, p) ==> e in es
  {
    if es != [] && p > es[0].key {
      EraseEntrySorted(es[1..], p);
      SortedCons(es[0], es[1..], EraseEntry(es[1..], p));
    }
  }

  lemma SortedCons(first: Entry, tail: seq<Entry>, rest: seq<Entry>)
    requires Sorted([first] + tail) && Sorted(rest) && forall e :: e in rest ==> e in tail
    ensures Sorted([first] + rest) && forall e :: e in [first] + rest ==> e in [first] + tail
  {
    var all := [first] + tail;
    forall j | 0 <= j < |rest| ensures first.key < rest[j].key {
      assert rest[j] in tail;
      var k :| 0 <= k < |tail| && tail[k] == rest[j];
      assert all[0].key < all[k + 1].key;
    }
  }

  lemma {:induction false} EmplaceEntryContents(es: seq<Entry>, p: Ptr, site: AllocSite)
    requires Sorted(es)
    ensures Contents(EmplaceEntry(es, p, site)) == Emplace(Contents(es), p, site)
  {
    if es == [] || p < es[0].key {
      assert ([Entry(p, site)] + es)[1..] == es;
      ContentsAbsent(es, p);
    } else if p != es[0].key {
      EmplaceEntryContents(es[1..], p, site);
      assert ([es[0]] + EmplaceEntry(es[1..], p, site))[1..] == EmplaceEntry(es[1..], p, site);
    }
  }

  lemma {:induction false} EraseEntryContents(es: seq<Entry>, p: Ptr)
    requires Sorted(es)
    ensures Contents(EraseEntry(es, p)) == Contents(es) - {p}
  {
    if es == [] || p < es[0].key {
      ContentsAbsent(es, p);
    } else if p == es[0].key {
      ContentsAbsent(es[1..], p);
    } else {
      EraseEntryContents(es[1..], p);
      assert ([es[0]] + EraseEntry(es[1..], p))[1..] == EraseEntry(es[1..], p);
    }
  }

  // ----- the search, on the finite map -----

  ghost function Least(s: set<Ptr>): (r: Ptr)
    requires s != {}
    ensures r in s && forall x :: x in s ==> r <= x
  {
    var x :| x in s;
    if s == {x} then x
    else
      assert s == {x} + (s - {x});
      var y := Least(s - {x});
      if x < y then x else y
  }

  ghost function Greatest(s: set<Ptr>): (r: Ptr)
    requires s != {}
    ensures r in s && forall x :: x in s ==> x <= r
  {
    var x :| x in s;
    if s == {x} then x
    else
      assert s == {x} + (s - {x});
      var y := Greatest(s - {x});
      if x > y then x else y
  }

  /**
    The search as the handler performs it: an exact key answers at once;
    otherwise step back once from the lower bound (unless that is the first
    entry) and test only the entry found there.
   */
  ghost function Lookup(m: SiteMap, p: Ptr): (site: AllocSite) {
    if m == map[] then ERROR
    else if p in m then m[p]
    else
      var below := set k | k in m && k < p;
      var it := if below != {} then Greatest(below) else Least(m.Keys);
      if m[it].ContainsPtr(p) then m[it] else ERROR
  }

  /** `below` holds exactly the keys of the entries before the lower bound. */
  lemma KeysBelow(es: seq<Entry>, p: Ptr, k: Ptr)
    requires Sorted(es)
    ensures k in Contents(es) && k < p <==> exists j: nat :: j < LowerBound(es, p) && es[j].key == k
  {
    if k in Contents(es) {
      var j := ContentsIndex(es, k);
    }
    if j: nat :| j < LowerBound(es, p) && es[j].key == k {
      ContentsAt(es, j);
    }
  }

  lemma ExactKey(es: seq<Entry>, p: Ptr)
    requires Sorted(es)
    ensures var i := LowerBound(es, p);
            p in Contents(es) <==> i < |es| && es[i].key == p
  {
    var i := LowerBound(es, p);
    if p in Contents(es) {
      var j := ContentsIndex(es, p);
      assert j == i;
    }
    if i < |es| {
      ContentsAt(es, i);
    }
  }

  lemma FirstKey(es: seq<Entry>)
    requires Sorted(es) && es != []
    ensures es[0].key in Contents(es) && Least(Contents(es).Keys) == es[0].key
  {
    ContentsAt(es, 0);
    var j := ContentsIndex(es, Least(Contents(es).Keys));
  }

  /** Where one step back from the lower bound lands, in terms of keys. */
  lemma StepBack(es: seq<Entry>, p: Ptr)
    requires Sorted(es)
    ensures var i := LowerBound(es, p);
            var below := set k | k in Contents(es) && k < p;
            && (i == 0 <==> below == {})
            && (i > 0 ==> Greatest(below) == es[i - 1].key)
  {
    var i := LowerBound(es, p);
    var below := set k | k in Contents(es) && k < p;
    forall k: Ptr ensures k in below <==> exists j: nat :: j < i && es[j].key == k {
      KeysBelow(es, p, k);
    }
    if i > 0 {
      var last := es[i - 1].key;
      assert last in below;
      var j: nat :| j < i && es[j].key == Greatest(below);
      assert j <= i - 1;
    }
  }

  /** The reference: look at every range. */
  ghost function Scan(m: SiteMap, p: Ptr): (site: AllocSite) {
    if k :| k in m && m[k].ContainsPtr(p) then m[k] else ERROR
  }

  /** Keys are site pointers, and no range reaches the next key; only the last range can wrap. */
  ghost predicate Ordered(m: SiteMap) {
    && (forall k :: k in m ==> m[k].ptr == k && m[k].IsValid())
    && (forall j, k :: j in m && k in m && j < k ==> j + m[j].size <= k)
  }

  /** No range wraps either. */
  ghost predicate WellFormed(m: SiteMap) {
    Ordered(m) && forall k :: k in m ==> m[k].NonWrapping()
  }

  /** At most one range holds an address. */
  lemma OwnerUnique(m: SiteMap, p: Ptr, j: Ptr, k: Ptr)
    requires Ordered(m)
    requires j in m && m[j].ContainsPtr(p)
    requires k in m && m[k].ContainsPtr(p)
    ensures j == k
  {
    ContainsPtrMeaning(m[j], p);
    ContainsPtrMeaning(m[k], p);
  }

  lemma LookupFinds(m: SiteMap, p: Ptr, k: Ptr)
    requires Ordered(m)
    requires k in m && m[k].ContainsPtr(p)
    ensures Lookup(m, p) == m[k]
  {
    ContainsPtrMeaning(m[k], p);
    if p !in m {
      var below := set j | j in m && j < p;
      assert k in below;
      assert Greatest(below) == k;
    }
  }

  /** An address in no range is not found, unless it is the base of a range that wraps. */
  lemma LookupMisses(m: SiteMap, p: Ptr)
    requires forall k :: k in m ==> !m[k].ContainsPtr(p) && m[k].ptr == k && m[k].IsValid()
    requires p in m ==> m[p].NonWrapping()
    ensures Lookup(m, p) == ERROR
  {
    if p in m {
      ContainsPtrMeaning(m[p], p);
      assert false;
    }
  }

  /** The exact-key test answers for the base of a range that wraps, though no range holds that address. */
  lemma LookupBeyondScan(m: SiteMap, p: Ptr)
    requires Ordered(m) && p in m && !m[p].NonWrapping()
    ensures Lookup(m, p) == m[p] && m[p].IsValid()
    ensures forall k :: k in m ==> !m[k].ContainsPtr(p)
    ensures Scan(m, p) == ERROR
  {
    forall k | k in m ensures !m[k].ContainsPtr(p) {
      ContainsPtrMeaning(m[k], p);
    }
  }

  /**
    The fast search and the full scan agree on every address but one: the base
    of a range that wraps, if the map has such a range.
   */
  lemma LookupIsScanExactly(m: SiteMap, p: Ptr)
    requires Ordered(m)
    ensures Lookup(m, p) == Scan(m, p) <==> !(p in m && !m[p].NonWrapping())
  {
    if p in m && !m[p].NonWrapping() {
      LookupBeyondScan(m, p);
    } else if exists k :: k in m && m[k].ContainsPtr(p) {
      forall k | k in m && m[k].ContainsPtr(p) ensures Lookup(m, p) == m[k] {
        LookupFinds(m, p, k);
      }
    } else {
      LookupMisses(m, p);
    }
  }

  /** On ranges that do not wrap the search returns the one site that the scan finds, or the error site. */
  lemma LookupRefinesScan(m: SiteMap, p: Ptr)
    requires WellFormed(m)
    ensures Lookup(m, p) == Scan(m, p)
    ensures Lookup(m, p).IsValid() <==> exists k :: k in m && m[k].ContainsPtr(p)
  {
    LookupIsScanExactly(m, p);
  }

  /** A map with a range that wraps: sixteen bytes, eight below the end of the address space. */
  lemma WrappingRangeFound(at: Identity)
    requires at.localID >= 0
    ensures var base: Ptr := ADDRESS_SPACE - 8;
            var m := map[base := NewSite(base, 16, at, false)];
            Ordered(m) && Lookup(m, base) == m[base] && Scan(m, base) == ERROR && Lookup(m, base) != Scan(m, base)
  {
    var base: Ptr := ADDRESS_SPACE - 8;
    var m := map[base := NewSite(base, 16, at, false)];
    assert base in m;
    LookupBeyondScan(m, base);
  }
}
