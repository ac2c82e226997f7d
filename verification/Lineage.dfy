/**
  When does a fault on a block mark every site the block's memory came through?
  Because an existing chain is kept and never extended, the answer depends on
  what each reallocating site already has recorded.
 */
module Lineage {
  import opened AllocSites
  import opened Provenance
  import opened ProvenanceRuns

  function Sites(lineage: seq<Identity>): set<Identity> {
    set id | id in lineage
  }

  /** Every live block's whole lineage is in what a fault on it would mark. */
  ghost predicate Complete(heap: Heap, chains: map<Identity, SiteSet>) {
    forall p :: p in heap ==> Sites(heap[p].lineage) <= Family(chains, heap[p].at)
  }

  /**
    The test before a step: a tracked realloc finds its site without a chain, or
    with a family that already holds the block's whole lineage.
   */
  ghost predicate KeepsLineage(heap: Heap, chains: map<Identity, SiteSet>, e: Event) {
    e.Realloc? && e.oldPtr in heap ==>
      e.at !in chains || Sites(heap[e.oldPtr].lineage) <= Family(chains, e.at)
  }

  /** A test on the tables alone, which is enough: the old site's family is covered. */
  ghost predicate CoversFamily(heap: Heap, chains: map<Identity, SiteSet>, e: Event) {
    e.Realloc? && e.oldPtr in heap ==>
      e.at !in chains || Family(chains, heap[e.oldPtr].at) <= Family(chains, e.at)
  }

  /** Reallocating a block at its own site, as a growing buffer does, always passes. */
  lemma SelfReallocCovers(heap: Heap, chains: map<Identity, SiteSet>, e: Event)
    requires e.Realloc? && e.oldPtr in heap && heap[e.oldPtr].at == e.at
    ensures CoversFamily(heap, chains, e)
  {
  }

  lemma {:induction false} LastOfLineage(es: seq<Event>, p: Ptr)
    requires p in LiveAfter(es)
    ensures LiveAfter(es)[p].at in LiveAfter(es)[p].lineage
  {
    var n := |es| - 1;
    if p in LiveAfter(es[..n]) {
      LastOfLineage(es[..n], p);
    }
  }

  /** A tracked realloc from `prev` to `site`, seen at the level of the tables. */
  lemma CompleteRealloc(heap: Heap, chains: map<Identity, SiteSet>, e: Event, prev: AllocSite, site: AllocSite)
    requires e.Realloc? && e.oldPtr in heap && prev.Id() == heap[e.oldPtr].at && site.Id() == e.at
    requires Complete(heap, chains)
    ensures Complete(HeapStep(heap, e), ExtendChain(chains, prev, site)) <==> KeepsLineage(heap, chains, e)
  {
    var grown, after := ExtendChain(chains, prev, site), HeapStep(heap, e);
    var from := heap[e.oldPtr];
    forall p | p in after && p != e.newPtr ensures Sites(after[p].lineage) <= Family(grown, after[p].at) {
      assert after[p] == heap[p];
      FamilyGrows(chains, grown, heap[p].at);
    }
    assert after[e.newPtr].lineage == from.lineage + [e.at];
    assert Sites(after[e.newPtr].lineage) == Sites(from.lineage) + {e.at};
    if e.at !in chains {
      assert ChainOf(grown, e.at).Keys == Family(chains, from.at);
    } else {
      assert grown == chains;
    }
  }

  /** Any other step adds no block with a past. */
  lemma CompleteOther(heap: Heap, chains: map<Identity, SiteSet>, e: Event)
    requires Complete(heap, chains) && !(e.Realloc? && e.oldPtr in heap)
    ensures Complete(HeapStep(heap, e), chains)
  {
    var after := HeapStep(heap, e);
    forall p | p in after ensures Sites(after[p].lineage) <= Family(chains, after[p].at) {
      assert (p in heap && after[p] == heap[p]) || after[p].lineage == [after[p].at];
    }
  }

  /** One step keeps completeness exactly when it passes the test. */
  lemma CompleteStep(es: seq<Event>)
    requires AdmissibleRun(es) && es != []
    requires Complete(LiveAfter(es[..|es| - 1]), Run(es[..|es| - 1]).chains)
    ensures Complete(LiveAfter(es), Run(es).chains) <==>
            KeepsLineage(LiveAfter(es[..|es| - 1]), Run(es[..|es| - 1]).chains, es[|es| - 1])
  {
    var n := |es| - 1;
    var heap, chains, e := LiveAfter(es[..n]), Run(es[..n]).chains, es[n];
    ChainsAfter(es);
    assert LiveAfter(es) == HeapStep(heap, e);
    if e.Realloc? && e.oldPtr in heap {
      CompleteRealloc(heap, chains, e, TableOf(heap)[e.oldPtr], NewSite(e.newPtr, e.newSize, e.at, true));
    } else {
      CompleteOther(heap, chains, e);
    }
  }

  lemma FamilyGrows(before: map<Identity, SiteSet>, after: map<Identity, SiteSet>, id: Identity)
    requires Extends(before, after)
    ensures Family(before, id) <= Family(after, id)
  {
  }

  ghost predicate CompleteAt(es: seq<Event>, i: nat)
    requires WellFormedRun(es) && i <= |es|
  {
    Complete(LiveAfter(es[..i]), Run(es[..i]).chains)
  }

  ghost predicate KeepsAt(es: seq<Event>, i: nat)
    requires WellFormedRun(es) && i < |es|
  {
    KeepsLineage(LiveAfter(es[..i]), Run(es[..i]).chains, es[i])
  }

  ghost predicate CoversAt(es: seq<Event>, i: nat)
    requires WellFormedRun(es) && i < |es|
  {
    CoversFamily(LiveAfter(es[..i]), Run(es[..i]).chains, es[i])
  }

  lemma CompleteStepAt(es: seq<Event>, i: nat)
    requires AdmissibleRun(es) && i < |es| && CompleteAt(es, i)
    ensures CompleteAt(es, i + 1) <==> KeepsAt(es, i)
  {
    PrefixAdmissible(es, i + 1);
    assert es[..i + 1][..i] == es[..i];
    CompleteStep(es[..i + 1]);
  }

  /**
    Exactly when lineages are complete: at every point of a run every live block
    is covered if and only if every realloc of the run passed the test.
   */
  lemma LineageCompleteExactly(es: seq<Event>)
    requires AdmissibleRun(es)
    ensures (forall i: nat :: i <= |es| ==> CompleteAt(es, i)) <==> (forall i: nat :: i < |es| ==> KeepsAt(es, i))
  {
    if forall i: nat :: i < |es| ==> KeepsAt(es, i) {
      forall i: nat | i <= |es| ensures CompleteAt(es, i) {
        CompleteUpTo(es, i);
      }
    } else {
      var i: nat :| i < |es| && !KeepsAt(es, i);
      if CompleteAt(es, i) {
        CompleteStepAt(es, i);
        assert !CompleteAt(es, i + 1);
      }
    }
  }

  lemma {:induction false} CompleteUpTo(es: seq<Event>, i: nat)
    requires AdmissibleRun(es) && i <= |es|
    requires forall j: nat :: j < i ==> KeepsAt(es, j)
    ensures CompleteAt(es, i)
  {
    if i > 0 {
      CompleteUpTo(es, i - 1);
      assert KeepsAt(es, i - 1);
      CompleteStepAt(es, i - 1);
    }
  }

  /**
    Lineage completeness: if every realloc of the run found its site without a
    chain, or with a family covering the old site's family, then a fault inside
    any live block marks every site of the block's lineage.
   */
  lemma FaultMarksWholeLineage(es: seq<Event>, p: Ptr, addr: Ptr, pkey: UInt32)
    requires AdmissibleRun(es)
    requires forall i: nat :: i < |es| ==> CoversAt(es, i)
    requires Within(LiveAfter(es), p, addr)
    ensures Sites(LiveAfter(es)[p].lineage) <= FaultStep(Run(es), addr, pkey).faults.Keys
  {
    CoveredUpTo(es, |es|);
    assert es[..|es|] == es;
    TableIsLiveBlocks(es);
    forall id | id in LiveAfter(es)[p].lineage ensures id in FaultStep(Run(es), addr, pkey).faults {
      assert id in Sites(LiveAfter(es)[p].lineage);
      FaultStepMarks(Run(es), LiveAfter(es), addr, pkey, id);
    }
  }

  lemma {:induction false} CoveredUpTo(es: seq<Event>, i: nat)
    requires AdmissibleRun(es) && i <= |es|
    requires forall j: nat :: j < i ==> CoversAt(es, j)
    ensures CompleteAt(es, i)
  {
    if i > 0 {
      CoveredUpTo(es, i - 1);
      assert CoversAt(es, i - 1);
      CompleteStepAt(es, i - 1);
    }
  }

  ghost predicate DistinctSites(a: Identity, b: Identity, r: Identity) {
    a.localID >= 0 && b.localID >= 0 && r.localID >= 0 && a != b && a != r && b != r
  }

  /** Sites `a` and `b` allocate; both blocks are then reallocated at `r`. */
  function SharedSite(a: Identity, b: Identity, r: Identity): seq<Event> {
    [Alloc(16, 16, a), Realloc(64, 16, 16, r), Alloc(128, 16, b), Realloc(256, 16, 128, r)]
  }

  lemma SharedSiteHeaps(a: Identity, b: Identity, r: Identity)
    requires DistinctSites(a, b, r)
    ensures var es := SharedSite(a, b, r);
            && LiveAfter(es[..0]) == map[]
            && LiveAfter(es[..1]) == map[16 := Block(16, a, false, [a])]
            && LiveAfter(es[..2]) == map[64 := Block(16, r, true, [a, r])]
            && LiveAfter(es[..3]) == map[64 := Block(16, r, true, [a, r]), 128 := Block(16, b, false, [b])]
            && LiveAfter(es) == map[64 := Block(16, r, true, [a, r]), 256 := Block(16, r, true, [b, r])]
  {
    var es := SharedSite(a, b, r);
    assert es[..0] == [] && es[..4] == es;
    LiveStep(es, 0);
    LiveStep(es, 1);
    LiveStep(es, 2);
    LiveStep(es, 3);
    assert [a] + [r] == [a, r] && [b] + [r] == [b, r];
    assert LiveAfter(es[..2]) == map[64 := Block(16, r, true, [a, r])];
    assert LiveAfter(es) == LiveAfter(es[..2])[256 := Block(16, r, true, [b, r])];
  }

  lemma SharedSiteChain(a: Identity, b: Identity, r: Identity)
    requires DistinctSites(a, b, r)
    ensures AdmissibleRun(SharedSite(a, b, r))
    ensures ChainOf(Run(SharedSite(a, b, r)).chains, r).Keys == {a}
  {
    var es := SharedSite(a, b, r);
    SharedSiteHeaps(a, b, r);
    assert AdmissibleRun(es);
    assert es[..4] == es;
    PrefixAdmissible(es, 2);
    assert es[..2][..1] == es[..1] && es[..1][..0] == es[..0];
    PrefixAdmissible(es, 1);
    ChainsAfter(es[..1]);
    ChainsAfter(es[..2]);
    assert ChainOf(Run(es[..2]).chains, r).Keys == {a};
    TablesOnlyGrow(es, 2, 4);
  }

  /**
    The premise is needed: the chain recorded for the first block is kept, so
    the origin of the second is lost.
   */
  lemma SharedSiteLosesOrigin(a: Identity, b: Identity, r: Identity)
    requires DistinctSites(a, b, r)
    ensures var es := SharedSite(a, b, r);
            && AdmissibleRun(es)
            && Within(LiveAfter(es), 256, 256)
            && b in LiveAfter(es)[256].lineage
            && b !in FaultStep(Run(es), 256, 1).faults
  {
    var es := SharedSite(a, b, r);
    SharedSiteHeaps(a, b, r);
    SharedSiteChain(a, b, r);
    TableIsLiveBlocks(es);
    FaultStepMarks(Run(es), LiveAfter(es), 256, 1, b);
    NothingMarkedYet(es);
  }

  lemma {:induction false} NothingMarkedYet(es: seq<Event>)
    requires WellFormedRun(es) && forall i :: 0 <= i < |es| ==> !es[i].Fault?
    ensures Run(es).faults == map[]
  {
    if es != [] {
      NothingMarkedYet(es[..|es| - 1]);
    }
  }
}
