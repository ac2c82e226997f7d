/**
  What whole runs of hooks and faults guarantee about the realloc chains and
  the fault set.
 */
module ProvenanceRuns {
  import opened AllocSites
  import opened AllocationMap
  import opened Provenance

  // ----- tables only grow -----

  ghost predicate Extends<K(!new), V>(before: map<K, V>, after: map<K, V>) {
    forall k :: k in before ==> k in after && after[k] == before[k]
  }

  lemma ExtendsThrough<K(!new), V>(a: map<K, V>, b: map<K, V>, c: map<K, V>)
    requires Extends(a, b) && Extends(b, c)
    ensures Extends(a, c)
  {
  }

  lemma StepExtends(s: State, e: Event)
    requires e.WellFormed()
    ensures Extends(s.chains, Step(s, e).chains)
    ensures Extends(s.faults, Step(s, e).faults)
  {
  }

  /** No step, frees included, changes a recorded chain or a marked site; nothing is ever unmarked. */
  lemma {:induction false} TablesOnlyGrow(es: seq<Event>, i: nat, j: nat)
    requires WellFormedRun(es) && i <= j <= |es|
    ensures Extends(Run(es[..i]).chains, Run(es[..j]).chains)
    ensures Extends(Run(es[..i]).faults, Run(es[..j]).faults)
    decreases j - i
  {
    if i < j {
      TablesOnlyGrow(es, i, j - 1);
      RunStep(es, j - 1);
      StepExtends(Run(es[..j - 1]), es[j - 1]);
      ExtendsThrough(Run(es[..i]).chains, Run(es[..j - 1]).chains, Run(es[..j]).chains);
      ExtendsThrough(Run(es[..i]).faults, Run(es[..j - 1]).faults, Run(es[..j]).faults);
    }
  }

  // ----- ancestry -----

  /** Event `j` reallocated a live block of site `a` at site `b`. */
  ghost predicate Edge(es: seq<Event>, j: nat, a: Identity, b: Identity) {
    && j < |es| && es[j].Realloc?
    && es[j].oldPtr in LiveAfter(es[..j])
    && LiveAfter(es[..j])[es[j].oldPtr].at == a
    && es[j].at == b
  }

  /** A non-empty path of realloc edges from `a` to `b`, in the order they happened. */
  ghost predicate Path(es: seq<Event>, steps: seq<nat>, a: Identity, b: Identity)
    decreases |steps|
  {
    && steps != []
    && var n := |steps| - 1;
       if n == 0 then Edge(es, steps[0], a, b)
       else exists mid ::
              Edge(es, steps[n], mid, b) && steps[n - 1] < steps[n] && Path(es, steps[..n], a, mid)
  }

  ghost predicate Ancestor(es: seq<Event>, a: Identity, b: Identity) {
    exists steps :: Path(es, steps, a, b)
  }

  lemma EdgeExtends(es: seq<Event>, i: nat, j: nat, a: Identity, b: Identity)
    requires i <= |es| && Edge(es[..i], j, a, b)
    ensures j < i && Edge(es, j, a, b)
  {
    assert es[..i][..j] == es[..j];
  }

  lemma {:induction false} PathExtends(es: seq<Event>, i: nat, steps: seq<nat>, a: Identity, b: Identity)
    requires i <= |es| && Path(es[..i], steps, a, b)
    ensures steps[|steps| - 1] < i && Path(es, steps, a, b)
    decreases |steps|
  {
    var n := |steps| - 1;
    if n == 0 {
      EdgeExtends(es, i, steps[0], a, b);
    } else {
      var mid :| Edge(es[..i], steps[n], mid, b) && steps[n - 1] < steps[n] && Path(es[..i], steps[..n], a, mid);
      EdgeExtends(es, i, steps[n], mid, b);
      PathExtends(es, i, steps[..n], a, mid);
    }
  }

  lemma AncestorExtends(es: seq<Event>, i: nat, a: Identity, b: Identity)
    requires i <= |es| && Ancestor(es[..i], a, b)
    ensures Ancestor(es, a, b)
  {
    var steps :| Path(es[..i], steps, a, b);
    PathExtends(es, i, steps, a, b);
  }

  lemma PathSnoc(es: seq<Event>, steps: seq<nat>, n: nat, a: Identity, mid: Identity, b: Identity)
    requires Path(es, steps, a, mid) && steps[|steps| - 1] < n && Edge(es, n, mid, b)
    ensures Path(es, steps + [n], a, b)
  {
    var longer := steps + [n];
    assert longer[..|steps|] == steps;
    assert Edge(es, longer[|steps|], mid, b) && Path(es, longer[..|steps|], a, mid);
  }

  /** A path to the reallocated site continues through the last event. */
  lemma AncestorThroughLast(es: seq<Event>, a: Identity, mid: Identity, b: Identity)
    requires es != [] && Edge(es, |es| - 1, mid, b)
    requires a == mid || Ancestor(es[..|es| - 1], a, mid)
    ensures Ancestor(es, a, b)
  {
    var n := |es| - 1;
    if a == mid {
      assert Path(es, [n], a, b);
    } else {
      var steps :| Path(es[..n], steps, a, mid);
      PathExtends(es, n, steps, a, mid);
      PathSnoc(es, steps, n, a, mid, b);
    }
  }

  lemma ChainStep(s: State, heap: Heap, e: Event)
    requires e.WellFormed() && HeapWellFormed(heap) && s.allocs == TableOf(heap) && Admissible(heap, e)
    ensures Step(s, e).chains ==
            if e.Realloc? && e.oldPtr in heap then
              ExtendChain(s.chains, TableOf(heap)[e.oldPtr], NewSite(e.newPtr, e.newSize, e.at, true))
            else s.chains
  {
    if e.Realloc? {
      LookupInTable(heap, e.oldPtr);
      if e.oldPtr in heap {
        assert Within(heap, e.oldPtr, e.oldPtr);
      }
    }
  }

  /** What one step can add to the chains: only a tracked realloc adds, and only at its own site. */
  lemma ChainsAfter(es: seq<Event>)
    requires AdmissibleRun(es) && es != []
    ensures HeapWellFormed(LiveAfter(es[..|es| - 1]))
    ensures var n := |es| - 1;
            var before, after := Run(es[..n]).chains, Run(es).chains;
            var heap := LiveAfter(es[..n]);
            if es[n].Realloc? && es[n].oldPtr in heap then
              after == ExtendChain(before, TableOf(heap)[es[n].oldPtr],
                                   NewSite(es[n].newPtr, es[n].newSize, es[n].at, true))
            else after == before
  {
    var n := |es| - 1;
    PrefixAdmissible(es, n);
    TableIsLiveBlocks(es[..n]);
    ChainStep(Run(es[..n]), LiveAfter(es[..n]), es[n]);
  }

  /** Ancestry soundness: a recorded ancestor reached the site through reallocs of this run. */
  lemma {:induction false} ChainsAreAncestors(es: seq<Event>, o: Identity, n: Identity)
    requires AdmissibleRun(es)
    requires o in ChainOf(Run(es).chains, n)
    ensures Ancestor(es, o, n)
    ensures ChainOf(Run(es).chains, n)[o].Id() == o
  {
    var last := |es| - 1;
    PrefixAdmissible(es, last);
    ChainsAfter(es);
    var before := Run(es[..last]).chains;
    if n in before {
      ChainsAreAncestors(es[..last], o, n);
      AncestorExtends(es, last, o, n);
    } else {
      var mid := LiveAfter(es[..last])[es[last].oldPtr].at;
      assert es[..last] == es[..|es| - 1];
      assert Edge(es, last, mid, n);
      if o in ChainOf(before, mid) {
        ChainsAreAncestors(es[..last], o, mid);
      }
      AncestorThroughLast(es, o, mid, n);
    }
  }

  // ----- the fault set -----

  /** Event `i` is a fault inside a live block whose site, or a recorded ancestor of it, is `id`. */
  ghost predicate Marks(es: seq<Event>, i: nat, id: Identity)
    requires WellFormedRun(es)
  {
    && i < |es| && es[i].Fault?
    && exists p :: Within(LiveAfter(es[..i]), p, es[i].addr)
                   && id in Family(Run(es[..i]).chains, LiveAfter(es[..i])[p].at)
  }

  ghost predicate FirstMark(es: seq<Event>, i: nat, id: Identity)
    requires WellFormedRun(es)
  {
    Marks(es, i, id) && forall j :: 0 <= j < i ==> !Marks(es, j, id)
  }

  lemma MarksPrefix(es: seq<Event>, n: nat, i: nat, id: Identity)
    requires WellFormedRun(es) && i < n <= |es|
    ensures Marks(es[..n], i, id) <==> Marks(es, i, id)
  {
    assert es[..n][..i] == es[..i];
  }

  /** What a fault at `addr` does to membership of `id` in the fault set. */
  lemma FaultStepMarks(s: State, heap: Heap, addr: Ptr, pkey: UInt32, id: Identity)
    requires HeapWellFormed(heap) && s.allocs == TableOf(heap)
    ensures var after := FaultStep(s, addr, pkey).faults;
            && (id in after <==>
                  id in s.faults || exists p :: Within(heap, p, addr) && id in Family(s.chains, heap[p].at))
            && (id in s.faults ==> after[id] == s.faults[id])
            && (id in after && id !in s.faults ==>
                  && after[id].pkey == pkey
                  && (id == after[id].Id()
                      || exists n :: id in ChainOf(s.chains, n) && ChainOf(s.chains, n)[id].Id() == after[id].Id()))
  {
    LookupInTable(heap, addr);
    if p :| Within(heap, p, addr) {
      TableWellFormed(heap);
      forall q | Within(heap, q, addr) ensures q == p {
        OwnerUnique(s.allocs, addr, p, q);
      }
      assert Lookup(s.allocs, addr).Id() == heap[p].at;
    } else {
      assert Untracked(heap, addr);
    }
  }

  /** The last event adds to the fault set exactly what it marks, and overwrites nothing. */
  lemma FaultsAfter(es: seq<Event>, id: Identity)
    requires AdmissibleRun(es) && es != []
    ensures var n := |es| - 1;
            var before, after := Run(es[..n]).faults, Run(es).faults;
            && (id in after <==> id in before || Marks(es, n, id))
            && (id in before ==> after[id] == before[id])
            && (id in after && id !in before ==>
                  after[id].pkey == es[n].pkey && after[id].Id() == id)
  {
    var n := |es| - 1;
    PrefixAdmissible(es, n);
    TableIsLiveBlocks(es[..n]);
    if es[n].Fault? {
      var s := Run(es[..n]);
      FaultStepMarks(s, LiveAfter(es[..n]), es[n].addr, es[n].pkey, id);
      forall m | id in ChainOf(s.chains, m) ensures ChainOf(s.chains, m)[id].Id() == id {
        ChainsAreAncestors(es[..n], id, m);
      }
    }
  }

  /**
    End to end, over every admissible run: the fault set holds exactly the
    identities marked by some fault of the run, each under its own identity.
   */
  lemma {:induction false} FaultSetIsExactlyTheMarks(es: seq<Event>, id: Identity)
    requires AdmissibleRun(es)
    ensures id in Run(es).faults <==> exists i: nat :: Marks(es, i, id)
    ensures id in Run(es).faults ==> Run(es).faults[id].Id() == id
  {
    if es != [] {
      var n := |es| - 1;
      PrefixAdmissible(es, n);
      FaultSetIsExactlyTheMarks(es[..n], id);
      FaultsAfter(es, id);
      forall i | 0 <= i < n ensures Marks(es[..n], i, id) <==> Marks(es, i, id) {
        MarksPrefix(es, n, i, id);
      }
      if id in Run(es[..n]).faults {
        var i: nat :| Marks(es[..n], i, id);
        assert Marks(es, i, id);
      }
    }
  }

  lemma UnmarkedBefore(es: seq<Event>, i: nat, id: Identity)
    requires AdmissibleRun(es) && FirstMark(es, i, id)
    ensures AdmissibleRun(es[..i]) && id !in Run(es[..i]).faults
  {
    PrefixAdmissible(es, i);
    FaultSetIsExactlyTheMarks(es[..i], id);
    forall j: nat ensures !Marks(es[..i], j, id) {
      if j < i {
        MarksPrefix(es, i, j, id);
      }
    }
  }

  /** First fault wins: a marked site keeps the key of the first fault that marked it, directly or through a chain. */
  lemma FirstFaultWins(es: seq<Event>, i: nat, id: Identity)
    requires AdmissibleRun(es) && FirstMark(es, i, id)
    ensures id in Run(es).faults && Run(es).faults[id].pkey == es[i].pkey
  {
    UnmarkedBefore(es, i, id);
    var next := es[..i + 1];
    PrefixAdmissible(es, i + 1);
    assert next[..i] == es[..i] && next[i] == es[i];
    MarksPrefix(es, i + 1, i, id);
    FaultsAfter(next, id);
    TablesOnlyGrow(es, i + 1, |es|);
    assert es[..|es|] == es;
  }

  /** Every marked site is the site of a faulting block or an ancestor of it through reallocs of the run. */
  lemma MarkedSitesAreAncestors(es: seq<Event>, i: nat, id: Identity)
    requires AdmissibleRun(es) && Marks(es, i, id)
    ensures exists p :: Within(LiveAfter(es[..i]), p, es[i].addr)
                        && (id == LiveAfter(es[..i])[p].at || Ancestor(es[..i], id, LiveAfter(es[..i])[p].at))
  {
    PrefixAdmissible(es, i);
    var p :| Within(LiveAfter(es[..i]), p, es[i].addr)
             && id in Family(Run(es[..i]).chains, LiveAfter(es[..i])[p].at);
    var site := LiveAfter(es[..i])[p].at;
    if id != site {
      ChainsAreAncestors(es[..i], id, site);
    }
  }

  /** A fault that hits no live block changes nothing at all. */
  lemma StrayFaultChangesNothing(es: seq<Event>)
    requires AdmissibleRun(es) && es != [] && es[|es| - 1].Fault?
    requires Untracked(LiveAfter(es[..|es| - 1]), es[|es| - 1].addr)
    ensures Run(es) == Run(es[..|es| - 1])
  {
    var n := |es| - 1;
    PrefixAdmissible(es, n);
    TableIsLiveBlocks(es[..n]);
    LookupInTable(LiveAfter(es[..n]), es[n].addr);
  }

  /** Which calls may come next: a fault or a free always, the others exactly when the memory returned is free to use. */
  lemma RunsGoOn(es: seq<Event>, e: Event)
    requires AdmissibleRun(es)
    ensures AdmissibleRun(es + [e]) <==>
            match e
            case Alloc(ptr, size, at) => at.localID >= 0 && Fits(LiveAfter(es), ptr, size)
            case Realloc(ptr, size, from, at) =>
              at.localID >= 0 && Fits(LiveAfter(es) - {from}, ptr, size)
              && (from in LiveAfter(es) || Untracked(LiveAfter(es), from))
            case Dealloc(_) => true
            case Fault(_, _) => true
  {
    var longer := es + [e];
    assert longer[..|es|] == es && longer[|es|] == e;
    forall i | 0 <= i < |es| ensures longer[..i] == es[..i] && longer[i] == es[i] {
    }
    assert AdmissibleRun(longer) ==> e.WellFormed() && Admissible(LiveAfter(longer[..|es|]), longer[|es|]);
    if e.WellFormed() && Admissible(LiveAfter(es), e) {
      forall i | 0 <= i < |longer| ensures longer[i].WellFormed() && Admissible(LiveAfter(longer[..i]), longer[i]) {
        if i < |es| {
          assert longer[..i] == es[..i];
        }
      }
    }
  }
}
