/**
  What the fault set of a locked execution holds: every member is a site that a
  handler found for a faulting address, or an ancestor of one through reallocs of
  the serial order, and it keeps the key of the fault that marked it first.
 */
module LockedFaults {
  import opened AllocSites
  import opened AllocationMap
  import opened Provenance
  import opened ProvenanceRuns
  import opened CriticalSections
  import opened Locks
  import opened LockProofs
  import opened LockResults
  import opened AtomicMarking

  // ----- ancestry -----

  /** `id` is the site, or an ancestor of it through reallocs that have taken effect, in their serial order. */
  ghost predicate InLineOf(c: LockState, id: Identity, site: Identity) {
    id == site || (LogInRange(c.core) && AdmissibleRun(Serial(c.core)) && Ancestor(Serial(c.core), id, site))
  }

  lemma ChainIsInLine(c: LockState, id: Identity, site: Identity)
    requires Inv(c.core) && id in ChainOf(c.core.chains, site)
    ensures InLineOf(c, id, site)
  {
    ChainsAreAncestors(Serial(c.core), id, site);
  }

  lemma ReadIsInLine(c: LockState, k: nat, id: Identity)
    requires Inv(c.core) && ReadsOk(c) && k < |c.found| && id in c.found[k].ancestors
    ensures InLineOf(c, id, c.found[k].site)
  {
    ChainIsInLine(c, id, c.found[k].site);
  }

  /** Ancestry soundness under the locks, at every moment, with hooks and handlers in flight or not. */
  lemma MarkedSitesAreInLine(cs: seq<LockState>, i: nat, id: Identity)
    returns (j: nat, site: Identity, pkey: UInt32)
    requires LockedExecution(cs) && i < |cs| && id in cs[i].faults
    ensures j < i && Finds(cs[j], site, pkey) && InLineOf(cs[i], id, site)
  {
    LockedExecutionKeepsInv(cs, i);
    if id in cs[i].begun {
      var k :| 0 <= k < |cs[i].begun| && cs[i].begun[k] == id;
      site := id;
      j, pkey := BegunWasFound(cs, i, k);
    } else {
      var k :| 0 <= k < |cs[i].found| && id in cs[i].found[k].ancestors;
      ReadIsInLine(cs[i], k, id);
      site, pkey := cs[i].found[k].site, cs[i].found[k].pkey;
      j := ReadWasFound(cs, i, k);
    }
  }

  /** Every recorded ancestor is filed under its own identity. */
  lemma ChainsKeyed(c: LockState, site: Identity)
    requires Inv(c.core)
    ensures forall id :: id in ChainOf(c.core.chains, site) ==> ChainOf(c.core.chains, site)[id].Id() == id
  {
    forall id | id in ChainOf(c.core.chains, site) ensures ChainOf(c.core.chains, site)[id].Id() == id {
      ChainsAreAncestors(Serial(c.core), id, site);
    }
  }

  // ----- the key of a marking -----

  /** Every ancestor still to be marked in the current fault-set section gets this key, under its own identity. */
  predicate MarksWith(p: Program, pkey: UInt32) {
    || p == [] || p[0] == Release(FaultSet)
    || ((p[0].MarkAncestor? ==> p[0].site.pkey == pkey && p[0].site.Id() == p[0].id) && MarksWith(p[1..], pkey))
  }

  function LastKey(found: seq<ChainRead>): UInt32 {
    if found == [] then 0 else found[|found| - 1].pkey
  }

  /** The ancestors still to be marked get the key their chain was read for. */
  ghost predicate SectionKeyed(c: LockState) {
    FaultSet in c.owners ==> MarksWith(ProgOf(c, c.owners[FaultSet]), LastKey(c.found))
  }

  lemma {:induction false} NothingOwed(p: Program, pkey: UInt32)
    requires Owed(p) == {}
    ensures MarksWith(p, pkey)
  {
    if p != [] && p[0] != Release(FaultSet) {
      NothingOwed(p[1..], pkey);
    }
  }

  lemma {:induction false} AncestorsMarkWith(order: seq<Identity>, chain: SiteSet, pkey: UInt32, rest: Program)
    requires forall id :: id in order ==> id in chain && chain[id].Id() == id
    requires MarksWith(rest, pkey)
    ensures MarksWith(AncestorMarks(order, chain, pkey) + rest, pkey)
  {
    if order == [] {
      assert AncestorMarks(order, chain, pkey) + rest == rest;
    } else {
      var head := MarkAncestor(order[0], chain[order[0]].WithPkey(pkey));
      var tail := AncestorMarks(order[1..], chain, pkey) + rest;
      AncestorsMarkWith(order[1..], chain, pkey, rest);
      Cons(head, tail);
      assert AncestorMarks(order, chain, pkey) + rest == [head] + tail;
    }
  }

  /** Reading a chain: what it puts ahead carries the key it was read for. */
  lemma ReadKeepsKeys(c: LockState, d: LockState, t: ThreadId)
    requires AllDisciplined(c) && Inv(c.core) && Act(c, d, t) && ProgOf(c, t)[0].FindChain?
    ensures MarksWith(ProgOf(d, t), LastKey(d.found))
  {
    var p := ProgOf(c, t);
    assert Disciplined(Held(c, t), LocalOf(c.core.threads, t), p);
    var chain := ChainOf(c.core.chains, p[0].id);
    var order :| Enumerates(order, chain.Keys) && ProgOf(d, t) == AncestorMarks(order, chain, p[0].pkey) + p[1..];
    NothingOwed(p[1..], p[0].pkey);
    ChainsKeyed(c, p[0].id);
    AncestorsMarkWith(order, chain, p[0].pkey, p[1..]);
    assert LastKey(d.found) == p[0].pkey;
  }

  /** The acting thread has the fault-set mutex. */
  lemma OwnerKeepsKeys(c: LockState, d: LockState, t: ThreadId)
    requires AllDisciplined(c) && Inv(c.core) && SectionKeyed(c) && Act(c, d, t) && FaultSet in Held(c, t)
    ensures SectionKeyed(d)
  {
    var p := ProgOf(c, t);
    assert Disciplined(Held(c, t), LocalOf(c.core.threads, t), p);
    ActLocks(c, d, t);
    if p[0].FindChain? {
      ReadKeepsKeys(c, d, t);
    } else if p[0] != Release(FaultSet) {
      assert ProgOf(d, t) == p[1..] && d.found == c.found;
    }
  }

  /** It has not, and either takes it or leaves the markings alone. */
  lemma OtherKeepsKeys(c: LockState, d: LockState, t: ThreadId)
    requires AllDisciplined(c) && SectionKeyed(c) && Act(c, d, t) && FaultSet !in Held(c, t)
    ensures SectionKeyed(d)
  {
    var p := ProgOf(c, t);
    assert Disciplined(Held(c, t), LocalOf(c.core.threads, t), p);
    ActLocks(c, d, t);
    LogsByAct(c, d, t);
    assert d.found == c.found;
    if p[0] == Acquire(FaultSet) {
      NothingOwed(p[1..], LastKey(c.found));
    } else if FaultSet in c.owners {
      ActFrame(c, d, t, c.owners[FaultSet]);
    }
  }

  lemma StepKeepsKeys(c: LockState, d: LockState)
    requires AllDisciplined(c) && Inv(c.core) && SectionKeyed(c) && LockNext(c, d)
    ensures SectionKeyed(d)
  {
    if t :| Act(c, d, t) {
      if FaultSet in Held(c, t) {
        OwnerKeepsKeys(c, d, t);
      } else {
        OtherKeepsKeys(c, d, t);
      }
    } else if t, op :| Call(c, d, t, op) {
      CallKeeps(c, d, t, op);
      assert FaultSet in c.owners && c.owners[FaultSet] == t ==> FaultSet in Held(c, t);
    } else {
      var t, handler :| Signal(c, d, t, handler);
      assert FaultSet in c.owners && c.owners[FaultSet] == t ==> FaultSet in Held(c, t);
    }
  }

  lemma {:induction false} ExecutionKeyed(cs: seq<LockState>, i: nat)
    requires LockedExecution(cs) && i < |cs|
    ensures SectionKeyed(cs[i])
  {
    if i > 0 {
      ExecutionKeyed(cs, i - 1);
      StepAt(cs, i);
      LockedExecutionKeepsInv(cs, i - 1);
      StepKeepsKeys(cs[i - 1], cs[i]);
    }
  }

  // ----- the first mark of a site -----

  lemma ActKeepsFaults(c: LockState, d: LockState, t: ThreadId)
    requires Act(c, d, t)
    ensures Extends(c.faults, d.faults)
  {
  }

  lemma FaultsKept(c: LockState, d: LockState)
    requires LockNext(c, d)
    ensures Extends(c.faults, d.faults)
  {
    if t :| Act(c, d, t) {
      ActKeepsFaults(c, d, t);
    }
  }

  lemma StepKeepsFaults(cs: seq<LockState>, i: nat, id: Identity)
    requires LockedExecution(cs) && i < |cs| && id in cs[i].faults
    ensures i > 0 && (id in cs[i - 1].faults ==> cs[i - 1].faults[id] == cs[i].faults[id])
  {
    StepAt(cs, i);
    FaultsKept(cs[i - 1], cs[i]);
  }

  /** The step that first marks a site, directly or as an ancestor. */
  lemma {:induction false} FirstInsertion(cs: seq<LockState>, i: nat, id: Identity) returns (j: nat)
    requires LockedExecution(cs) && i < |cs| && id in cs[i].faults
    ensures j < i && id !in cs[j].faults && id in cs[j + 1].faults && cs[j + 1].faults[id] == cs[i].faults[id]
  {
    StepKeepsFaults(cs, i, id);
    if id in cs[i - 1].faults {
      j := FirstInsertion(cs, i - 1, id);
    } else {
      j := i - 1;
    }
  }

  /** The thread is about to insert this site into the fault set. */
  ghost predicate AboutToMark(c: LockState, t: ThreadId, id: Identity, site: AllocSite) {
    && ProgOf(c, t) != []
    && ((ProgOf(c, t)[0] == MarkSite(site) && site.Id() == id) || ProgOf(c, t)[0] == MarkAncestor(id, site))
  }

  lemma MarkedByStep(c: LockState, d: LockState, id: Identity) returns (t: ThreadId)
    requires LockNext(c, d) && id !in c.faults && id in d.faults
    ensures AboutToMark(c, t, id, d.faults[id])
  {
    if u :| Act(c, d, u) {
      t := u;
    } else {
      assert false;
    }
  }

  /** An ancestor about to be marked is in the chain read last, and gets that read's key. */
  lemma AncestorOfLastRead(c: LockState, t: ThreadId)
    requires LockInv(c) && SectionKeyed(c) && ProgOf(c, t) != [] && ProgOf(c, t)[0].MarkAncestor?
    ensures c.found != []
    ensures ProgOf(c, t)[0].id in c.found[|c.found| - 1].ancestors
    ensures ProgOf(c, t)[0].site.pkey == c.found[|c.found| - 1].pkey
    ensures ProgOf(c, t)[0].site.Id() == ProgOf(c, t)[0].id
  {
    var p := ProgOf(c, t);
    assert Disciplined(Held(c, t), LocalOf(c.core.threads, t), p);
    assert FaultSet in Held(c, t);
    assert p[0].id in Owed(p);
  }

  /**
    First mark wins, under the locks: each member of the fault set is what the
    step that first marked it inserted, under its own identity. Its key is the key
    of a fault for which a handler had found a site, and the member is that site
    or an ancestor of it.
   */
  lemma FirstMarkKeepsItsKey(cs: seq<LockState>, i: nat, id: Identity) returns (j: nat, h: nat, site: Identity)
    requires LockedExecution(cs) && i < |cs| && id in cs[i].faults
    ensures h < j < i
    ensures id !in cs[j].faults && id in cs[j + 1].faults && cs[j + 1].faults[id] == cs[i].faults[id]
    ensures cs[i].faults[id].Id() == id && Finds(cs[h], site, cs[i].faults[id].pkey)
    ensures InLineOf(cs[j], id, site)
  {
    j := FirstInsertion(cs, i, id);
    StepAt(cs, j + 1);
    var t := MarkedByStep(cs[j], cs[j + 1], id);
    var head, pkey := ProgOf(cs[j], t)[0], cs[i].faults[id].pkey;
    if head.MarkSite? {
      site := id;
      assert head in ProgOf(cs[j], t) && MarksFor(head, id, pkey);
      h := MarkWasFound(cs, j, t, id, pkey);
    } else {
      LockedExecutionKeepsInv(cs, j);
      ExecutionKeyed(cs, j);
      AncestorOfLastRead(cs[j], t);
      var k := |cs[j].found| - 1;
      site := cs[j].found[k].site;
      ReadIsInLine(cs[j], k, id);
      h := ReadWasFound(cs, j, k);
    }
  }
}
