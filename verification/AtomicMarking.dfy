/**
  Marking under the locks: every site marked was found for a faulting address,
  its chain was read in full while both mutexes were held, and whenever the
  fault-set mutex is free the whole of what was read is marked.
 */
module AtomicMarking {
  import opened AllocSites
  import opened AllocationMap
  import opened Provenance
  import opened CriticalSections
  import opened Locks
  import opened LockProofs
  import opened LockResults

  // ----- the chain that was read -----

  /** One thread holds both the fault-set and the realloc-map mutex. */
  ghost predicate BothHeld(c: LockState) {
    FaultSet in c.owners && ReallocMap in c.owners && c.owners[FaultSet] == c.owners[ReallocMap]
  }

  /** Step `j` made the `k`-th read, and what it read is the site's chain at that moment, all of it. */
  ghost predicate ReadAt(cs: seq<LockState>, j: nat, k: nat, read: ChainRead) {
    && j + 1 < |cs| && |cs[j].found| == k && cs[j + 1].found == cs[j].found + [read]
    && BothHeld(cs[j])
    && read.ancestors == ChainOf(cs[j].core.chains, read.site).Keys
  }

  /** A log in a run of states: empty at first, and every step leaves it alone or adds one entry. */
  ghost predicate GrowsByOne<T>(logs: seq<seq<T>>) {
    && logs != [] && logs[0] == []
    && forall m :: 0 < m < |logs| ==> logs[m] == logs[m - 1] || AddsOne(logs[m - 1], logs[m])
  }

  ghost predicate AddsOne<T>(before: seq<T>, after: seq<T>) {
    |after| == |before| + 1 && after[..|before|] == before
  }

  /** Every entry of the log was added by some step. */
  lemma {:induction false} Origin<T>(logs: seq<seq<T>>, i: nat, k: nat) returns (j: nat)
    requires GrowsByOne(logs) && i < |logs| && k < |logs[i]|
    ensures j < i && |logs[j]| == k && AddsOne(logs[j], logs[j + 1]) && logs[j + 1][k] == logs[i][k]
  {
    assert logs[i] == logs[i - 1] || AddsOne(logs[i - 1], logs[i]);
    if k < |logs[i - 1]| {
      j := Origin(logs, i - 1, k);
      assert logs[i][k] == logs[i][..|logs[i - 1]|][k] == logs[i - 1][k];
    } else {
      j := i - 1;
    }
  }

  /** How one step changes the two logs of a marking. */
  lemma LogsByAct(c: LockState, d: LockState, t: ThreadId)
    requires Act(c, d, t)
    ensures d.found == c.found
            || (ProgOf(c, t)[0].FindChain?
                && var id, pkey := ProgOf(c, t)[0].id, ProgOf(c, t)[0].pkey;
                   d.found == c.found + [ChainRead(id, pkey, ChainOf(c.core.chains, id).Keys)])
    ensures d.begun == c.begun
            || (ProgOf(c, t)[0].MarkSite? && d.begun == c.begun + [ProgOf(c, t)[0].site.Id()])
  {
  }

  lemma FindChainHolds(c: LockState, t: ThreadId)
    requires AllDisciplined(c) && ProgOf(c, t) != [] && ProgOf(c, t)[0].FindChain?
    ensures BothHeld(c)
  {
    assert Disciplined(Held(c, t), LocalOf(c.core.threads, t), ProgOf(c, t));
    assert FaultSet in Held(c, t) && ReallocMap in Held(c, t);
  }

  lemma ReadByStep(c: LockState, d: LockState) returns (t: ThreadId, read: ChainRead)
    requires AllDisciplined(c) && LockNext(c, d) && d.found != c.found
    ensures BothHeld(c) && d.found == c.found + [read]
    ensures read.ancestors == ChainOf(c.core.chains, read.site).Keys
    ensures WillMark(ProgOf(c, t), read.site, read.pkey)
  {
    if u :| Act(c, d, u) {
      LogsByAct(c, d, u);
      FindChainHolds(c, u);
      var head := ProgOf(c, u)[0];
      t, read := u, ChainRead(head.id, head.pkey, ChainOf(c.core.chains, head.id).Keys);
      assert head in ProgOf(c, u);
    } else {
      assert false;
    }
  }

  lemma StepAt(cs: seq<LockState>, m: nat)
    requires LockedExecution(cs) && 0 < m < |cs|
    ensures AllDisciplined(cs[m - 1]) && LockNext(cs[m - 1], cs[m])
  {
    LockedExecutionKeepsInv(cs, m - 1);
    assert StepFrom(cs, m - 1);
  }

  lemma ReadAtStep(cs: seq<LockState>, m: nat) returns (t: ThreadId, read: ChainRead)
    requires LockedExecution(cs) && m + 1 < |cs| && cs[m + 1].found != cs[m].found
    ensures BothHeld(cs[m]) && cs[m + 1].found == cs[m].found + [read]
    ensures read.ancestors == ChainOf(cs[m].core.chains, read.site).Keys
    ensures WillMark(ProgOf(cs[m], t), read.site, read.pkey)
  {
    StepAt(cs, m + 1);
    t, read := ReadByStep(cs[m], cs[m + 1]);
  }

  lemma FoundGrows(cs: seq<LockState>, m: nat)
    requires LockedExecution(cs) && 0 < m < |cs|
    ensures cs[m].found == cs[m - 1].found || AddsOne(cs[m - 1].found, cs[m].found)
  {
    if cs[m].found != cs[m - 1].found {
      var t, read := ReadAtStep(cs, m - 1);
    }
  }

  /** Every read recorded was made by some step of the execution. */
  lemma ReadHappened(cs: seq<LockState>, i: nat, k: nat) returns (j: nat)
    requires LockedExecution(cs) && i < |cs| && k < |cs[i].found|
    ensures j < i && ReadAt(cs, j, k, cs[i].found[k])
  {
    var logs := seq(|cs|, m requires 0 <= m < |cs| => cs[m].found);
    forall m | 0 < m < |cs| ensures logs[m] == logs[m - 1] || AddsOne(logs[m - 1], logs[m]) {
      FoundGrows(cs, m);
    }
    j := Origin(logs, i, k);
    var t, read := ReadAtStep(cs, j);
  }

  // ----- the site that was found -----

  /** An instruction of the marking of this site for a fault on this key: the direct mark, or the reading of the chain. */
  predicate MarksFor(x: Instr, id: Identity, pkey: UInt32) {
    || (x.MarkSite? && x.site.Id() == id && x.site.pkey == pkey)
    || x == FindChain(id, pkey)
  }

  /** The program has the marking of this site, or the rest of it, ahead. */
  ghost predicate WillMark(p: Program, id: Identity, pkey: UInt32) {
    exists x :: x in p && MarksFor(x, id, pkey)
  }

  /** A handler looks up the address of a fault on this key, under the mutex of the table, and finds this site. */
  ghost predicate Finds(c: LockState, id: Identity, pkey: UInt32) {
    exists t: ThreadId, addr ::
      && ProgOf(c, t) != [] && ProgOf(c, t)[0] == FindSite(addr, pkey)
      && AllocMap in c.owners && c.owners[AllocMap] == t
      && Lookup(c.core.allocs, addr).IsValid() && Lookup(c.core.allocs, addr).Id() == id
  }

  lemma FindSiteFinds(c: LockState, t: ThreadId, site: AllocSite)
    requires AllDisciplined(c) && ProgOf(c, t) != [] && ProgOf(c, t)[0].FindSite?
    requires site == Lookup(c.core.allocs, ProgOf(c, t)[0].addr) && site.IsValid()
    ensures Finds(c, site.Id(), ProgOf(c, t)[0].pkey)
  {
    assert Disciplined(Held(c, t), LocalOf(c.core.threads, t), ProgOf(c, t));
    assert AllocMap in Held(c, t);
    assert ProgOf(c, t)[0] == FindSite(ProgOf(c, t)[0].addr, ProgOf(c, t)[0].pkey);
  }

  lemma FindAdds(c: LockState, d: LockState, t: ThreadId, x: Instr, id: Identity, key: UInt32)
    requires Act(c, d, t) && ProgOf(c, t)[0].FindSite? && x in ProgOf(d, t) && MarksFor(x, id, key)
    ensures x in ProgOf(c, t)[1..]
            || (ProgOf(c, t)[0].pkey == key
                && var site := Lookup(c.core.allocs, ProgOf(c, t)[0].addr);
                   site.IsValid() && id == site.Id())
  {
    var site, pkey := Lookup(c.core.allocs, ProgOf(c, t)[0].addr), ProgOf(c, t)[0].pkey;
    assert x in Marking(site, pkey) ==> x == MarkSite(site.WithPkey(pkey)) || x == FindChain(site.Id(), pkey);
  }

  lemma ChainAdds(c: LockState, d: LockState, t: ThreadId, x: Instr, id: Identity, key: UInt32)
    requires Act(c, d, t) && ProgOf(c, t)[0].FindChain? && x in ProgOf(d, t) && MarksFor(x, id, key)
    ensures x in ProgOf(c, t)[1..]
  {
    var p := ProgOf(c, t);
    var chain := ChainOf(c.core.chains, p[0].id);
    var order :| Enumerates(order, chain.Keys) && ProgOf(d, t) == AncestorMarks(order, chain, p[0].pkey) + p[1..];
    assert x !in AncestorMarks(order, chain, p[0].pkey);
  }

  /** What an act puts in front of the rest of the program, as far as markings go. */
  lemma ActAdds(c: LockState, d: LockState, t: ThreadId, x: Instr, id: Identity, key: UInt32)
    requires Act(c, d, t) && x in ProgOf(d, t) && MarksFor(x, id, key)
    ensures x in ProgOf(c, t)[1..]
            || (ProgOf(c, t)[0].FindSite? && ProgOf(c, t)[0].pkey == key
                && var site := Lookup(c.core.allocs, ProgOf(c, t)[0].addr);
                   site.IsValid() && id == site.Id())
  {
    if ProgOf(c, t)[0].FindSite? {
      FindAdds(c, d, t, x, id, key);
    } else if ProgOf(c, t)[0].FindChain? {
      ChainAdds(c, d, t, x, id, key);
    }
  }

  lemma MarksAheadOfAct(c: LockState, d: LockState, t: ThreadId, id: Identity, pkey: UInt32)
    requires AllDisciplined(c) && Act(c, d, t) && WillMark(ProgOf(d, t), id, pkey)
    ensures WillMark(ProgOf(c, t), id, pkey) || Finds(c, id, pkey)
  {
    var x :| x in ProgOf(d, t) && MarksFor(x, id, pkey);
    ActAdds(c, d, t, x, id, pkey);
    if x in ProgOf(c, t)[1..] {
      assert x in ProgOf(c, t);
    } else {
      FindSiteFinds(c, t, Lookup(c.core.allocs, ProgOf(c, t)[0].addr));
    }
  }

  lemma MarksAheadOfSignal(c: LockState, d: LockState, t: ThreadId, u: ThreadId, handler: Program,
                           id: Identity, pkey: UInt32)
    requires Signal(c, d, u, handler) && WillMark(ProgOf(d, t), id, pkey)
    ensures WillMark(ProgOf(c, t), id, pkey)
  {
    var x :| x in ProgOf(d, t) && MarksFor(x, id, pkey);
    assert x !in handler;
    assert x in ProgOf(c, t);
  }

  lemma MarksAheadOfCall(c: LockState, d: LockState, t: ThreadId, u: ThreadId, op: Event, id: Identity, pkey: UInt32)
    requires Call(c, d, u, op) && WillMark(ProgOf(d, t), id, pkey)
    ensures WillMark(ProgOf(c, t), id, pkey)
  {
    var x :| x in ProgOf(d, t) && MarksFor(x, id, pkey);
    assert x in ProgOf(c, t);
  }

  /** A marking is ahead only where it was, or where a lookup has just put it. */
  lemma MarksAhead(c: LockState, d: LockState, t: ThreadId, id: Identity, pkey: UInt32)
    requires AllDisciplined(c) && LockNext(c, d) && WillMark(ProgOf(d, t), id, pkey)
    ensures WillMark(ProgOf(c, t), id, pkey) || Finds(c, id, pkey)
  {
    if u :| Act(c, d, u) {
      if u == t {
        MarksAheadOfAct(c, d, t, id, pkey);
      } else {
        ActFrame(c, d, u, t);
      }
    } else if u, op :| Call(c, d, u, op) {
      MarksAheadOfCall(c, d, t, u, op, id, pkey);
    } else {
      var u, handler :| Signal(c, d, u, handler);
      MarksAheadOfSignal(c, d, t, u, handler, id, pkey);
    }
  }

  lemma MarksAheadAt(cs: seq<LockState>, i: nat, t: ThreadId, id: Identity, pkey: UInt32)
    requires LockedExecution(cs) && i < |cs| && WillMark(ProgOf(cs[i], t), id, pkey)
    ensures i > 0 && (WillMark(ProgOf(cs[i - 1], t), id, pkey) || Finds(cs[i - 1], id, pkey))
  {
    if i > 0 {
      StepAt(cs, i);
      MarksAhead(cs[i - 1], cs[i], t, id, pkey);
    }
  }

  lemma {:induction false} MarkWasFound(cs: seq<LockState>, i: nat, t: ThreadId, id: Identity, pkey: UInt32)
    returns (j: nat)
    requires LockedExecution(cs) && i < |cs| && WillMark(ProgOf(cs[i], t), id, pkey)
    ensures j < i && Finds(cs[j], id, pkey)
  {
    MarksAheadAt(cs, i, t, id, pkey);
    if Finds(cs[i - 1], id, pkey) {
      j := i - 1;
    } else {
      j := MarkWasFound(cs, i - 1, t, id, pkey);
    }
  }

  lemma MarkByStep(c: LockState, d: LockState) returns (t: ThreadId, id: Identity, pkey: UInt32)
    requires LockNext(c, d) && d.begun != c.begun
    ensures d.begun == c.begun + [id] && WillMark(ProgOf(c, t), id, pkey)
  {
    if u :| Act(c, d, u) {
      LogsByAct(c, d, u);
      var head := ProgOf(c, u)[0];
      t, id, pkey := u, head.site.Id(), head.site.pkey;
      assert head in ProgOf(c, u);
    } else {
      assert false;
    }
  }

  lemma MarkAtStep(cs: seq<LockState>, m: nat) returns (t: ThreadId, id: Identity, pkey: UInt32)
    requires LockedExecution(cs) && m + 1 < |cs| && cs[m + 1].begun != cs[m].begun
    ensures cs[m + 1].begun == cs[m].begun + [id] && WillMark(ProgOf(cs[m], t), id, pkey)
  {
    StepAt(cs, m + 1);
    t, id, pkey := MarkByStep(cs[m], cs[m + 1]);
  }

  lemma BegunGrows(cs: seq<LockState>, m: nat)
    requires LockedExecution(cs) && 0 < m < |cs|
    ensures cs[m].begun == cs[m - 1].begun || AddsOne(cs[m - 1].begun, cs[m].begun)
  {
    if cs[m].begun != cs[m - 1].begun {
      var t, id, pkey := MarkAtStep(cs, m - 1);
    }
  }

  /** Every site marked directly was the owner of a faulting address when a handler looked it up. */
  lemma BegunWasFound(cs: seq<LockState>, i: nat, k: nat) returns (j: nat, pkey: UInt32)
    requires LockedExecution(cs) && i < |cs| && k < |cs[i].begun|
    ensures j < i && Finds(cs[j], cs[i].begun[k], pkey)
  {
    var logs := seq(|cs|, m requires 0 <= m < |cs| => cs[m].begun);
    forall m | 0 < m < |cs| ensures logs[m] == logs[m - 1] || AddsOne(logs[m - 1], logs[m]) {
      BegunGrows(cs, m);
    }
    var m := Origin(logs, i, k);
    var t, id, key := MarkAtStep(cs, m);
    j := MarkWasFound(cs, m, t, id, key);
    pkey := key;
  }

  /** So was every site whose chain was read, for a fault on the key recorded with the read. */
  lemma ReadWasFound(cs: seq<LockState>, i: nat, k: nat) returns (j: nat)
    requires LockedExecution(cs) && i < |cs| && k < |cs[i].found|
    ensures j < i && Finds(cs[j], cs[i].found[k].site, cs[i].found[k].pkey)
  {
    var m := ReadHappened(cs, i, k);
    var t, read := ReadAtStep(cs, m);
    assert read == cs[m + 1].found[k];
    j := MarkWasFound(cs, m, t, read.site, read.pkey);
  }

  // ----- the result -----

  /**
    The `k`-th marking: its site was found for a faulting address, its chain was
    read, the site and all that was read are in the fault set, and a chain found
    then is the site's chain to this day.
   */
  ghost predicate MarkedWhole(cs: seq<LockState>, i: nat, k: nat)
    requires i < |cs| && k < |cs[i].begun| == |cs[i].found|
  {
    var site, read := cs[i].begun[k], cs[i].found[k];
    && read.site == site
    && {site} + read.ancestors <= cs[i].faults.Keys
    && (exists j :: 0 <= j < i && Finds(cs[j], site, read.pkey))
    && (exists j :: 0 <= j < i && ReadAt(cs, j, k, read))
    && (read.ancestors == {} || read.ancestors == ChainOf(cs[i].core.chains, site).Keys)
  }

  lemma WholeWhenFree(c: LockState)
    requires MarkInv(c) && ReadsOk(c) && FaultSet !in c.owners
    ensures |c.begun| == |c.found|
    ensures forall k :: 0 <= k < |c.begun| ==>
              && c.found[k].site == c.begun[k] && {c.begun[k]} + c.found[k].ancestors <= c.faults.Keys
              && (c.found[k].ancestors == {} || c.found[k].ancestors == ChainOf(c.core.chains, c.begun[k]).Keys)
    ensures forall id :: id in c.faults ==>
              exists k :: 0 <= k < |c.begun| && (id == c.begun[k] || id in c.found[k].ancestors)
  {
    forall k | 0 <= k < |c.begun|
      ensures c.found[k].site == c.begun[k] && {c.begun[k]} + c.found[k].ancestors <= c.faults.Keys
    {
      assert InFaults(c, c.found[k].ancestors - {});
    }
    forall id | id in c.faults
      ensures exists k :: 0 <= k < |c.begun| && (id == c.begun[k] || id in c.found[k].ancestors)
    {
      if id in c.begun {
        var k :| 0 <= k < |c.begun| && c.begun[k] == id;
      }
    }
  }

  /**
    Whenever the fault-set mutex is free, every fault marked so far is marked
    whole: its site, which a handler had found for the address of a fault on its
    key, and every
    member of the chain the site had at the moment it was read, under both
    mutexes; a chain found then is the site's chain to this day. The fault set
    holds nothing else.
   */
  lemma NoFaultHalfMarked(cs: seq<LockState>, i: nat)
    requires LockedExecution(cs) && i < |cs| && FaultSet !in cs[i].owners
    ensures |cs[i].begun| == |cs[i].found|
    ensures forall k :: 0 <= k < |cs[i].begun| ==> MarkedWhole(cs, i, k)
    ensures forall id :: id in cs[i].faults ==>
              exists k :: 0 <= k < |cs[i].begun| && (id == cs[i].begun[k] || id in cs[i].found[k].ancestors)
  {
    LockedExecutionKeepsInv(cs, i);
    WholeWhenFree(cs[i]);
    forall k | 0 <= k < |cs[i].begun| ensures MarkedWhole(cs, i, k) {
      var j := ReadWasFound(cs, i, k);
      var r := ReadHappened(cs, i, k);
    }
  }

  // ----- no fault is forgotten -----

  /** The program has the chain of this site still to read, for a fault on this key. */
  predicate ReadAhead(p: Program, id: Identity, pkey: UInt32) {
    FindChain(id, pkey) in p
  }

  /** A chain to be read stays to be read until it is. */
  lemma ReadAheadOfAct(c: LockState, d: LockState, t: ThreadId, id: Identity, pkey: UInt32)
    requires Act(c, d, t) && ReadAhead(ProgOf(c, t), id, pkey)
    ensures ReadAhead(ProgOf(d, t), id, pkey) || d.found == c.found + [ChainRead(id, pkey, ChainOf(c.core.chains, id).Keys)]
  {
    var p := ProgOf(c, t);
    if p[0] != FindChain(id, pkey) {
      assert FindChain(id, pkey) in p[1..];
    }
  }

  lemma ReadAheadStays(c: LockState, d: LockState, t: ThreadId, id: Identity, pkey: UInt32)
    requires AllDisciplined(c) && LockNext(c, d) && ReadAhead(ProgOf(c, t), id, pkey)
    ensures ReadAhead(ProgOf(d, t), id, pkey) || d.found == c.found + [ChainRead(id, pkey, ChainOf(c.core.chains, id).Keys)]
  {
    if u :| Act(c, d, u) {
      if u == t {
        ReadAheadOfAct(c, d, t, id, pkey);
      } else {
        ActFrame(c, d, u, t);
      }
    } else if u, handler :| Signal(c, d, u, handler) {
      assert FindChain(id, pkey) in ProgOf(d, t);
    } else {
      var u, op :| Call(c, d, u, op);
    }
  }

  lemma ReadAheadAt(cs: seq<LockState>, i: nat, t: ThreadId, id: Identity, pkey: UInt32)
    requires LockedExecution(cs) && 0 < i < |cs| && ReadAhead(ProgOf(cs[i - 1], t), id, pkey)
    ensures ReadAhead(ProgOf(cs[i], t), id, pkey)
            || cs[i].found == cs[i - 1].found + [ChainRead(id, pkey, ChainOf(cs[i - 1].core.chains, id).Keys)]
  {
    StepAt(cs, i);
    ReadAheadStays(cs[i - 1], cs[i], t, id, pkey);
  }

  /** The `k`-th chain read is this site's, for a fault on this key. */
  predicate IsRead(c: LockState, k: nat, id: Identity, pkey: UInt32) {
    k < |c.found| && c.found[k].site == id && c.found[k].pkey == pkey
  }

  /** A read since `from` reads were made is this site's, for a fault on this key. */
  ghost predicate ReadSince(c: LockState, from: nat, id: Identity, pkey: UInt32) {
    exists k: nat :: from <= k && IsRead(c, k, id, pkey)
  }

  lemma ReadSinceStays(c: LockState, d: LockState, from: nat, id: Identity, pkey: UInt32)
    requires (d.found == c.found || AddsOne(c.found, d.found)) && ReadSince(c, from, id, pkey)
    ensures ReadSince(d, from, id, pkey)
  {
    var k: nat :| from <= k && IsRead(c, k, id, pkey);
    assert d.found[k] == d.found[..|c.found|][k];
    assert IsRead(d, k, id, pkey);
  }

  lemma ReadAheadOrRead(cs: seq<LockState>, from: nat, i: nat, t: ThreadId, id: Identity, pkey: UInt32)
    requires LockedExecution(cs) && 0 < i < |cs| && from <= |cs[i - 1].found|
    requires ReadAhead(ProgOf(cs[i - 1], t), id, pkey)
    ensures ReadAhead(ProgOf(cs[i], t), id, pkey) || ReadSince(cs[i], from, id, pkey)
  {
    ReadAheadAt(cs, i, t, id, pkey);
    if !ReadAhead(ProgOf(cs[i], t), id, pkey) {
      assert IsRead(cs[i], |cs[i - 1].found|, id, pkey);
    }
  }

  lemma {:induction false} ReadInTheEnd(cs: seq<LockState>, j: nat, i: nat, t: ThreadId, id: Identity, pkey: UInt32)
    requires LockedExecution(cs) && j <= i < |cs| && ReadAhead(ProgOf(cs[j], t), id, pkey)
    ensures |cs[j].found| <= |cs[i].found|
    ensures ReadAhead(ProgOf(cs[i], t), id, pkey) || ReadSince(cs[i], |cs[j].found|, id, pkey)
    decreases i
  {
    if j < i {
      ReadInTheEnd(cs, j, i - 1, t, id, pkey);
      FoundGrows(cs, i);
      if ReadSince(cs[i - 1], |cs[j].found|, id, pkey) {
        ReadSinceStays(cs[i - 1], cs[i], |cs[j].found|, id, pkey);
      } else {
        ReadAheadOrRead(cs, |cs[j].found|, i, t, id, pkey);
      }
    }
  }

  /** A lookup that finds a site puts the marking of it ahead. */
  lemma FindQueues(c: LockState, d: LockState, t: ThreadId)
    requires Act(c, d, t) && ProgOf(c, t)[0].FindSite? && Lookup(c.core.allocs, ProgOf(c, t)[0].addr).IsValid()
    ensures ReadAhead(ProgOf(d, t), Lookup(c.core.allocs, ProgOf(c, t)[0].addr).Id(), ProgOf(c, t)[0].pkey)
    ensures d.found == c.found
  {
    var site, pkey := Lookup(c.core.allocs, ProgOf(c, t)[0].addr), ProgOf(c, t)[0].pkey;
    assert Marking(site, pkey)[3] == FindChain(site.Id(), pkey);
    assert FindChain(site.Id(), pkey) in Marking(site, pkey);
  }

  /**
    The other half: a site that a handler finds does get marked. When the fault
    set is free and its chain is no longer to be read, as when the thread has
    finished, one of the markings since is the site's own, for the key of the
    fault, and it is whole.
   */
  lemma FoundSiteIsMarked(cs: seq<LockState>, j: nat, i: nat, t: ThreadId) returns (k: nat)
    requires LockedExecution(cs) && j < i < |cs|
    requires Act(cs[j], cs[j + 1], t) && ProgOf(cs[j], t)[0].FindSite?
    requires Lookup(cs[j].core.allocs, ProgOf(cs[j], t)[0].addr).IsValid()
    requires !ReadAhead(ProgOf(cs[i], t), Lookup(cs[j].core.allocs, ProgOf(cs[j], t)[0].addr).Id(), ProgOf(cs[j], t)[0].pkey)
    requires FaultSet !in cs[i].owners
    ensures |cs[j].found| <= k < |cs[i].begun| == |cs[i].found|
    ensures cs[i].begun[k] == Lookup(cs[j].core.allocs, ProgOf(cs[j], t)[0].addr).Id()
    ensures cs[i].found[k].pkey == ProgOf(cs[j], t)[0].pkey
    ensures MarkedWhole(cs, i, k)
  {
    var id, pkey := Lookup(cs[j].core.allocs, ProgOf(cs[j], t)[0].addr).Id(), ProgOf(cs[j], t)[0].pkey;
    FindQueues(cs[j], cs[j + 1], t);
    ReadInTheEnd(cs, j + 1, i, t, id, pkey);
    k :| |cs[j].found| <= k && IsRead(cs[i], k, id, pkey);
    NoFaultHalfMarked(cs, i);
    assert MarkedWhole(cs, i, k);
  }
}
