/**
  The locking discipline: the programs of hooks and signal handlers follow it,
  every step of an execution keeps it, and it makes every instruction that
  touches a table run under that table's mutex.
 */
module LockProofs {
  import opened AllocSites
  import opened AllocationMap
  import opened Provenance
  import opened CriticalSections
  import opened Locks

  // ----- composing disciplined programs -----

  lemma Cons(i: Instr, rest: Program)
    ensures ([i] + rest)[0] == i && ([i] + rest)[1..] == rest
  {
  }

  /** A program that holds the fault-set mutex releases it before its end, so what follows is not scanned. */
  lemma {:induction false} ScanStops(held: set<Mutex>, l: Local, p: Program, q: Program)
    requires Disciplined(held, l, p) && FaultSet in held
    ensures OwesSite(p + q) == OwesSite(p) && Owed(p + q) == Owed(p) && OwesNoChain(p + q) == OwesNoChain(p)
    ensures forall id :: OwesChain(p + q, id) == OwesChain(p, id)
    decreases |p|
  {
    var rest := p[1..];
    assert (p + q)[1..] == rest + q && (p + q)[0] == p[0];
    if p[0] != Release(FaultSet) {
      match p[0]
      case Acquire(m) => ScanStops(held + {m}, l, rest, q);
      case Release(m) => ScanStops(held - {m}, l, rest, q);
      case Section(_) => assert false;
      case FindSite(_, _) => assert false;
      case _ => ScanStops(held, l, rest, q);
    }
  }

  /** A handler's program may be put in front of any program of a thread that holds nothing. */
  lemma {:induction false} Prepend(held: set<Mutex>, l: Local, p: Program, q: Program)
    requires Disciplined(held, Idle, p) && Disciplined({}, l, q)
    ensures Disciplined(held, l, p + q)
    decreases |p|
  {
    if p == [] {
      assert p + q == q;
    } else {
      var rest := p[1..];
      assert (p + q)[1..] == rest + q && (p + q)[0] == p[0];
      match p[0]
      case Acquire(m) =>
        Prepend(held + {m}, l, rest, q);
        if m == FaultSet { ScanStops(held + {m}, Idle, rest, q); }
      case Release(m) => Prepend(held - {m}, l, rest, q);
      case FindSite(_, _) => Prepend({}, l, rest, q);
      case MarkSite(_) | FindChain(_, _) | MarkAncestor(_, _) =>
        Prepend(held, l, rest, q);
        ScanStops(held, Idle, rest, q);
      case Section(_) => assert false;
      case _ => Prepend(held, l, rest, q);
    }
  }

  lemma PrependAcquireRelease(m: Mutex, act: Instr, p: Program)
    requires m != FaultSet && m != ReallocMap
    requires (act.ReadSite? && m == AllocMap) || ((act.StorePending? || act.TakePending?) && m == PkeyTid)
    requires Disciplined({}, Idle, p)
    ensures Disciplined({}, Idle, [Acquire(m), act, Release(m)] + p)
  {
    var p2 := [Release(m)] + p;
    Cons(Release(m), p);
    assert {m} - {m} == {};
    assert Disciplined({m}, Idle, p2);
    var p1 := [act] + p2;
    Cons(act, p2);
    assert Disciplined({m}, Idle, p1);
    var p0 := [Acquire(m)] + p1;
    Cons(Acquire(m), p1);
    assert {} + {m} == {m};
    assert Disciplined({}, Idle, p0);
    assert p0 == [Acquire(m), act, Release(m)] + p;
  }

  lemma HandlersDisciplined(p: Program)
    requires IsHandler(p)
    ensures Disciplined({}, Idle, p)
  {
    if |p| == 8 {
      var tail := [Acquire(PkeyTid), p[6], Release(PkeyTid)];
      assert tail + [] == tail;
      PrependAcquireRelease(PkeyTid, p[6], []);
      var mid := [Acquire(AllocMap), p[3], Release(AllocMap)] + tail;
      PrependAcquireRelease(AllocMap, p[3], tail);
      var p1 := [p[1]] + mid;
      Cons(p[1], mid);
      assert Disciplined({AllocMap}, Idle, p1);
      Cons(Acquire(AllocMap), p1);
      assert {} + {AllocMap} == {AllocMap};
      assert p == [Acquire(AllocMap)] + p1;
    } else {
      PrependAcquireRelease(PkeyTid, p[1], []);
      assert p == [Acquire(PkeyTid), p[1], Release(PkeyTid)] + [];
    }
  }

  /** The end of a marking, from the reading of the chain on. */
  lemma ReadingDisciplined(id: Identity, pkey: UInt32) returns (p: Program)
    ensures p == [FindChain(id, pkey), Release(ReallocMap), Release(FaultSet)]
    ensures Disciplined({FaultSet, ReallocMap}, Idle, p) && Owed(p) == {} && !OwesSite(p) && OwesChain(p, id)
  {
    var p5 := [Release(FaultSet)];
    assert {FaultSet} - {FaultSet} == {};
    assert Disciplined({FaultSet}, Idle, p5) && Owed(p5) == {} && !OwesSite(p5) && OwesNoChain(p5);
    var p4 := [Release(ReallocMap)] + p5;
    Cons(Release(ReallocMap), p5);
    assert {FaultSet, ReallocMap} - {ReallocMap} == {FaultSet};
    assert p4[0] == Release(ReallocMap) && p4[1..] == p5;
    assert Disciplined({FaultSet, ReallocMap}, Idle, p4);
    assert Owed(p4) == {} && !OwesSite(p4) && OwesNoChain(p4);
    p := [FindChain(id, pkey)] + p4;
    Cons(FindChain(id, pkey), p4);
  }

  lemma MarkingDisciplined(site: AllocSite, pkey: UInt32)
    ensures Disciplined({}, Idle, Marking(site, pkey))
  {
    var p3 := ReadingDisciplined(site.Id(), pkey);
    var p2 := [Acquire(ReallocMap)] + p3;
    Cons(Acquire(ReallocMap), p3);
    assert {FaultSet} + {ReallocMap} == {FaultSet, ReallocMap};
    assert Disciplined({FaultSet}, Idle, p2) && Owed(p2) == {} && !OwesSite(p2) && OwesChain(p2, site.Id());
    var mark := MarkSite(site.WithPkey(pkey));
    var p1 := [mark] + p2;
    Cons(mark, p2);
    assert Disciplined({FaultSet}, Idle, p1) && Owed(p1) == {} && OwesSite(p1);
    Cons(Acquire(FaultSet), p1);
    assert {} + {FaultSet} == {FaultSet};
    assert Marking(site, pkey) == [Acquire(FaultSet)] + p1;
  }

  /** The ancestor marks put in front of the rest of a marking. */
  lemma {:induction false} MarksDisciplined(held: set<Mutex>, l: Local, order: seq<Identity>, chain: SiteSet,
                                            pkey: UInt32, rest: Program)
    requires forall id :: id in order ==> id in chain
    requires Disciplined(held, l, rest) && FaultSet in held && ReallocMap in held
    requires !OwesSite(rest) && OwesNoChain(rest) && Owed(rest) == {}
    ensures var p := AncestorMarks(order, chain, pkey) + rest;
            && Disciplined(held, l, p) && !OwesSite(p) && OwesNoChain(p)
            && Owed(p) == set id | id in order
  {
    if order == [] {
      assert AncestorMarks(order, chain, pkey) + rest == rest;
    } else {
      var head := MarkAncestor(order[0], chain[order[0]].WithPkey(pkey));
      var tail := AncestorMarks(order[1..], chain, pkey) + rest;
      MarksDisciplined(held, l, order[1..], chain, pkey, rest);
      Cons(head, tail);
      assert AncestorMarks(order, chain, pkey) + rest == [head] + tail;
    }
  }

  /** The next critical section of a hook in front of a program that finds it finished. */
  lemma SectionDisciplined(l: Local, rest: Program)
    requires Disciplined({}, Idle, rest)
    ensures Disciplined({}, l, NextSection(l) + rest)
  {
    if l.Idle? {
      assert NextSection(l) + rest == rest;
    } else {
      var m := MutexOf(l);
      var p := [Section(m)] + rest;
      Cons(Section(m), rest);
      assert Disciplined({m}, l, p);
      Cons(Acquire(m), p);
      assert {} + {m} == {m};
      assert NextSection(l) + rest == [Acquire(m)] + p;
    }
  }

  // ----- every step keeps the discipline -----

  lemma OthersKeep(c: LockState, d: LockState, t: ThreadId)
    requires AllDisciplined(c)
    requires forall u: ThreadId :: u != t ==>
               Held(d, u) == Held(c, u) && ProgOf(d, u) == ProgOf(c, u)
               && LocalOf(d.core.threads, u) == LocalOf(c.core.threads, u)
    requires Disciplined(Held(d, t), LocalOf(d.core.threads, t), ProgOf(d, t))
    ensures AllDisciplined(d)
  {
    forall u: ThreadId ensures Disciplined(Held(d, u), LocalOf(d.core.threads, u), ProgOf(d, u)) {
      assert Disciplined(Held(c, u), LocalOf(c.core.threads, u), ProgOf(c, u));
    }
  }

  lemma CallKeeps(c: LockState, d: LockState, t: ThreadId, op: Event)
    requires AllDisciplined(c) && Call(c, d, t, op)
    ensures AllDisciplined(d) && Held(c, t) == {}
  {
    assert Disciplined(Held(c, t), LocalOf(c.core.threads, t), ProgOf(c, t));
    assert Held(d, t) == Held(c, t);
    var l := LocalOf(d.core.threads, t);
    SectionDisciplined(l, []);
    assert NextSection(l) + [] == NextSection(l);
    forall u: ThreadId | u != t ensures Held(d, u) == Held(c, u) {}
    OthersKeep(c, d, t);
  }

  lemma SignalKeeps(c: LockState, d: LockState, t: ThreadId, handler: Program)
    requires AllDisciplined(c) && Signal(c, d, t, handler)
    ensures AllDisciplined(d)
  {
    assert Disciplined(Held(c, t), LocalOf(c.core.threads, t), ProgOf(c, t));
    HandlersDisciplined(handler);
    Prepend({}, LocalOf(c.core.threads, t), handler, ProgOf(c, t));
    forall u: ThreadId ensures Held(d, u) == Held(c, u) {}
    OthersKeep(c, d, t);
  }

  lemma AcquireHolds(c: LockState, d: LockState, t: ThreadId, m: Mutex)
    requires m !in c.owners && d.owners == c.owners[m := t]
    ensures Held(d, t) == Held(c, t) + {m}
    ensures forall u: ThreadId :: u != t ==> Held(d, u) == Held(c, u)
  {
  }

  lemma ReleaseHolds(c: LockState, d: LockState, t: ThreadId, m: Mutex)
    requires m in Held(c, t) && d.owners == c.owners - {m}
    ensures Held(d, t) == Held(c, t) - {m}
    ensures forall u: ThreadId :: u != t ==> Held(d, u) == Held(c, u)
  {
  }

  lemma ActSection(c: LockState, d: LockState, t: ThreadId)
    requires AllDisciplined(c) && Act(c, d, t) && ProgOf(c, t)[0].Section?
    ensures Disciplined(Held(c, t), LocalOf(d.core.threads, t), ProgOf(d, t))
  {
    var p, held := ProgOf(c, t), Held(c, t);
    assert Disciplined(held, LocalOf(c.core.threads, t), p);
    var m, rest, after := p[0].m, p[1..], LocalOf(d.core.threads, t);
    SectionDisciplined(after, rest);
    var tail := NextSection(after) + rest;
    Cons(Release(m), tail);
    assert ProgOf(d, t) == [Release(m)] + tail;
    assert held - {m} == {};
  }

  lemma ActFindSite(c: LockState, d: LockState, t: ThreadId)
    requires AllDisciplined(c) && Act(c, d, t) && ProgOf(c, t)[0].FindSite?
    ensures Disciplined(Held(c, t), LocalOf(c.core.threads, t), ProgOf(d, t))
  {
    var p, held, l := ProgOf(c, t), Held(c, t), LocalOf(c.core.threads, t);
    assert Disciplined(held, l, p);
    var site := Lookup(c.core.allocs, p[0].addr);
    var mark := if site.IsValid() then Marking(site, p[0].pkey) else [];
    MarkingDisciplined(site, p[0].pkey);
    Prepend({}, l, mark, p[1..]);
    Cons(Release(AllocMap), mark + p[1..]);
    assert ProgOf(d, t) == [Release(AllocMap)] + (mark + p[1..]);
    assert held - {AllocMap} == {};
  }

  lemma ActFindChain(c: LockState, d: LockState, t: ThreadId)
    requires AllDisciplined(c) && Act(c, d, t) && ProgOf(c, t)[0].FindChain?
    ensures Disciplined(Held(c, t), LocalOf(c.core.threads, t), ProgOf(d, t))
    ensures var chain := ChainOf(c.core.chains, ProgOf(c, t)[0].id);
            && !OwesSite(ProgOf(d, t)) && OwesNoChain(ProgOf(d, t))
            && Owed(ProgOf(d, t)) == chain.Keys
  {
    var p, held, l := ProgOf(c, t), Held(c, t), LocalOf(c.core.threads, t);
    assert Disciplined(held, l, p);
    var chain := ChainOf(c.core.chains, p[0].id);
    var order :| Enumerates(order, chain.Keys) && ProgOf(d, t) == AncestorMarks(order, chain, p[0].pkey) + p[1..];
    MarksDisciplined(held, l, order, chain, p[0].pkey, p[1..]);
  }

  lemma ExecFrame(c: Config, t: ThreadId, u: ThreadId)
    requires CanExec(c, t) && u != t
    ensures LocalOf(Exec(c, t).threads, u) == LocalOf(c.threads, u)
  {
  }

  /** An act moves locks only by acquiring and releasing. */
  lemma ActLocks(c: LockState, d: LockState, t: ThreadId)
    requires Act(c, d, t)
    ensures d.owners == match ProgOf(c, t)[0]
                        case Acquire(m) => c.owners[m := t]
                        case Release(m) => c.owners - {m}
                        case _ => c.owners
  {
  }

  lemma ActProgs(c: LockState, d: LockState, t: ThreadId)
    requires Act(c, d, t)
    ensures d.progs.Keys == c.progs.Keys && forall u :: u in c.progs && u != t ==> d.progs[u] == c.progs[u]
  {
    assert t in c.progs;
  }

  /** An act changes no other thread's hook, and moves locks only by acquiring and releasing. */
  lemma ActOwners(c: LockState, d: LockState, t: ThreadId)
    requires Act(c, d, t)
    ensures d.owners == match ProgOf(c, t)[0]
                        case Acquire(m) => c.owners[m := t]
                        case Release(m) => c.owners - {m}
                        case _ => c.owners
    ensures d.progs.Keys == c.progs.Keys && forall u :: u in c.progs && u != t ==> d.progs[u] == c.progs[u]
    ensures forall u: ThreadId :: u != t ==> LocalOf(d.core.threads, u) == LocalOf(c.core.threads, u)
  {
    ActLocks(c, d, t);
    ActProgs(c, d, t);
    if ProgOf(c, t)[0].Section? {
      forall u: ThreadId | u != t ensures LocalOf(d.core.threads, u) == LocalOf(c.core.threads, u) {
        ExecFrame(c.core, t, u);
      }
    } else {
      assert d.core == c.core;
    }
  }

  /** An act changes no other thread's program, hook or locks. */
  lemma ActFrame(c: LockState, d: LockState, t: ThreadId, u: ThreadId)
    requires AllDisciplined(c) && Act(c, d, t) && u != t
    ensures Held(d, u) == Held(c, u)
    ensures ProgOf(d, u) == ProgOf(c, u)
    ensures LocalOf(d.core.threads, u) == LocalOf(c.core.threads, u)
  {
    ActOwners(c, d, t);
    assert Disciplined(Held(c, t), LocalOf(c.core.threads, t), ProgOf(c, t));
    match ProgOf(c, t)[0]
    case Acquire(m) => AcquireHolds(c, d, t, m);
    case Release(m) => ReleaseHolds(c, d, t, m);
    case _ =>
  }

  lemma ActHolds(c: LockState, d: LockState, t: ThreadId)
    requires AllDisciplined(c) && Act(c, d, t)
    ensures Held(d, t) == match ProgOf(c, t)[0]
                          case Acquire(m) => Held(c, t) + {m}
                          case Release(m) => Held(c, t) - {m}
                          case _ => Held(c, t)
  {
    ActOwners(c, d, t);
    assert Disciplined(Held(c, t), LocalOf(c.core.threads, t), ProgOf(c, t));
    match ProgOf(c, t)[0]
    case Acquire(m) => AcquireHolds(c, d, t, m);
    case Release(m) => ReleaseHolds(c, d, t, m);
    case _ =>
  }

  /** An act that puts nothing in front of the rest of the program. */
  lemma ActPlain(c: LockState, d: LockState, t: ThreadId)
    requires AllDisciplined(c) && Act(c, d, t)
    requires !ProgOf(c, t)[0].Section? && !ProgOf(c, t)[0].FindSite? && !ProgOf(c, t)[0].FindChain?
    ensures ProgOf(d, t) == ProgOf(c, t)[1..] && LocalOf(d.core.threads, t) == LocalOf(c.core.threads, t)
  {
    assert d.core == c.core;
  }

  lemma ActThread(c: LockState, d: LockState, t: ThreadId)
    requires AllDisciplined(c) && Act(c, d, t)
    ensures Disciplined(Held(d, t), LocalOf(d.core.threads, t), ProgOf(d, t))
  {
    assert Disciplined(Held(c, t), LocalOf(c.core.threads, t), ProgOf(c, t));
    ActHolds(c, d, t);
    match ProgOf(c, t)[0]
    case Section(_) => ActSection(c, d, t);
    case FindSite(_, _) => ActFindSite(c, d, t);
    case FindChain(_, _) => ActFindChain(c, d, t);
    case _ => ActPlain(c, d, t);
  }

  /** The acting thread's program stays disciplined, and no other thread is affected. */
  lemma ActKeeps(c: LockState, d: LockState, t: ThreadId)
    requires AllDisciplined(c) && Act(c, d, t)
    ensures AllDisciplined(d)
  {
    ActThread(c, d, t);
    forall u: ThreadId | u != t
      ensures Held(d, u) == Held(c, u) && ProgOf(d, u) == ProgOf(c, u)
              && LocalOf(d.core.threads, u) == LocalOf(c.core.threads, u)
    {
      ActFrame(c, d, t, u);
    }
    OthersKeep(c, d, t);
  }

  // ----- tables and their mutexes -----

  datatype Table = Allocs | Chains | Faults | Pending

  /** The tables an instruction reads or writes; marking an ancestor also walks over the chain just found. */
  function Tables(i: Instr, l: Local): set<Table> {
    match i
    case Section(_) => if l.Busy? && l.phase.Chain? then {Chains} else {Allocs}
    case FindSite(_, _) => {Allocs}
    case ReadSite(_) => {Allocs}
    case MarkSite(_) => {Faults}
    case FindChain(_, _) => {Chains}
    case MarkAncestor(_, _) => {Faults, Chains}
    case StorePending(_, _) => {Pending}
    case TakePending(_) => {Pending}
    case Acquire(_) => {}
    case Release(_) => {}
  }

  function WithAllocs(c: LockState, x: SiteMap): LockState {
    c.(core := c.core.(allocs := x))
  }

  function WithChains(c: LockState, x: map<Identity, SiteSet>): LockState {
    c.(core := c.core.(chains := x))
  }

  /** An act writes no table but those of its instruction. */
  lemma TablesWritten(c: LockState, d: LockState, t: ThreadId)
    requires Act(c, d, t)
    ensures var tables := Tables(ProgOf(c, t)[0], LocalOf(c.core.threads, t));
            && (Allocs !in tables ==> d.core.allocs == c.core.allocs)
            && (Chains !in tables ==> d.core.chains == c.core.chains)
            && (Faults !in tables ==> d.faults == c.faults)
            && (Pending !in tables ==> d.pkeyByTid == c.pkeyByTid)
  {
    match ProgOf(c, t)[0]
    case Section(_) => assert c.core.threads[t] == LocalOf(c.core.threads, t);
    case _ =>
  }

  lemma ChainSectionUnread(c: LockState, d: LockState, t: ThreadId, x: SiteMap)
    requires Act(c, d, t) && ProgOf(c, t)[0].Section? && c.core.threads[t].phase.Chain?
    ensures Act(WithAllocs(c, x), WithAllocs(d, x), t)
  {
    assert CanExec(WithAllocs(c, x).core, t);
    assert Exec(WithAllocs(c, x).core, t) == Exec(c.core, t).(allocs := x);
  }

  lemma AllocSectionUnread(c: LockState, d: LockState, t: ThreadId, x: map<Identity, SiteSet>)
    requires Act(c, d, t) && ProgOf(c, t)[0].Section? && !c.core.threads[t].phase.Chain?
    ensures Act(WithChains(c, x), WithChains(d, x), t)
  {
    assert CanExec(WithChains(c, x).core, t);
    assert Exec(WithChains(c, x).core, t) == Exec(c.core, t).(chains := x);
  }

  lemma LookupUnread(c: LockState, d: LockState, t: ThreadId, x: map<Identity, SiteSet>)
    requires Act(c, d, t) && ProgOf(c, t)[0].FindSite?
    ensures Act(WithChains(c, x), WithChains(d, x), t)
  {
    assert ProgOf(WithChains(c, x), t) == ProgOf(c, t);
    assert WithChains(c, x).core.allocs == c.core.allocs;
  }

  lemma MarksUnread(c: LockState, d: LockState, t: ThreadId, x: map<Identity, SiteSet>)
    requires Act(c, d, t)
    requires !ProgOf(c, t)[0].Section? && !ProgOf(c, t)[0].FindSite? && !ProgOf(c, t)[0].FindChain?
    ensures Act(WithChains(c, x), WithChains(d, x), t)
  {
  }

  lemma FoundChainUnread(c: LockState, d: LockState, t: ThreadId, x: SiteMap)
    requires Act(c, d, t) && ProgOf(c, t)[0].FindChain?
    ensures Act(WithAllocs(c, x), WithAllocs(d, x), t)
  {
    assert ProgOf(WithAllocs(c, x), t) == ProgOf(c, t);
    assert WithAllocs(c, x).core.chains == c.core.chains;
  }

  lemma OthersUnread(c: LockState, d: LockState, t: ThreadId, x: SiteMap)
    requires Act(c, d, t)
    requires !ProgOf(c, t)[0].Section? && !ProgOf(c, t)[0].FindSite? && !ProgOf(c, t)[0].FindChain?
    ensures Act(WithAllocs(c, x), WithAllocs(d, x), t)
  {
  }

  lemma AllocsUnread(c: LockState, d: LockState, t: ThreadId, x: SiteMap)
    requires Act(c, d, t) && Allocs !in Tables(ProgOf(c, t)[0], LocalOf(c.core.threads, t))
    ensures Act(WithAllocs(c, x), WithAllocs(d, x), t)
  {
    if ProgOf(c, t)[0].Section? {
      ChainSectionUnread(c, d, t, x);
    } else if ProgOf(c, t)[0].FindChain? {
      FoundChainUnread(c, d, t, x);
    } else {
      OthersUnread(c, d, t, x);
    }
  }

  lemma ChainsUnread(c: LockState, d: LockState, t: ThreadId, x: map<Identity, SiteSet>)
    requires Act(c, d, t) && Chains !in Tables(ProgOf(c, t)[0], LocalOf(c.core.threads, t))
    ensures Act(WithChains(c, x), WithChains(d, x), t)
  {
    if ProgOf(c, t)[0].Section? {
      AllocSectionUnread(c, d, t, x);
    } else if ProgOf(c, t)[0].FindSite? {
      LookupUnread(c, d, t, x);
    } else {
      MarksUnread(c, d, t, x);
    }
  }

  lemma FaultsUnread(c: LockState, d: LockState, t: ThreadId, x: SiteSet)
    requires Act(c, d, t) && Faults !in Tables(ProgOf(c, t)[0], LocalOf(c.core.threads, t))
    ensures Act(c.(faults := x), d.(faults := x), t)
  {
  }

  lemma PendingUnread(c: LockState, d: LockState, t: ThreadId, x: map<ThreadId, PendingPKeyInfo>)
    requires Act(c, d, t) && Pending !in Tables(ProgOf(c, t)[0], LocalOf(c.core.threads, t))
    ensures Act(c.(pkeyByTid := x), d.(pkeyByTid := x), t)
  {
  }

  /** The hook is about to update the chains. */
  predicate Chaining(c: LockState, t: ThreadId) {
    match LocalOf(c.core.threads, t)
    case Busy(_, Chain(_), _) => true
    case _ => false
  }

  /** What a thread is about to do, table by table, as the sections of the code have it. */
  predicate Touches(c: LockState, t: ThreadId, table: Table)
    requires ProgOf(c, t) != []
  {
    var i := ProgOf(c, t)[0];
    match table
    case Allocs => i.FindSite? || i.ReadSite? || (i.Section? && !Chaining(c, t))
    case Chains => i.FindChain? || i.MarkAncestor? || (i.Section? && Chaining(c, t))
    case Faults => i.MarkSite? || i.MarkAncestor?
    case Pending => i.StorePending? || i.TakePending?
  }

  lemma TouchesTables(c: LockState, t: ThreadId, table: Table)
    requires ProgOf(c, t) != []
    ensures Touches(c, t, table) <==> table in Tables(ProgOf(c, t)[0], LocalOf(c.core.threads, t))
  {
    match LocalOf(c.core.threads, t)
    case Busy(_, Chain(_), _) =>
    case _ =>
  }

  /** A thread about to touch a table holds that table's mutex; marking an ancestor, which walks over a chain, holds two. */
  lemma NoDataRace(c: LockState, t: ThreadId)
    requires AllDisciplined(c) && ProgOf(c, t) != []
    ensures Touches(c, t, Allocs) ==> AllocMap in Held(c, t)
    ensures Touches(c, t, Chains) ==> ReallocMap in Held(c, t)
    ensures Touches(c, t, Faults) ==> FaultSet in Held(c, t)
    ensures Touches(c, t, Pending) ==> PkeyTid in Held(c, t)
  {
    assert Disciplined(Held(c, t), LocalOf(c.core.threads, t), ProgOf(c, t));
    match LocalOf(c.core.threads, t)
    case Busy(_, Chain(_), _) =>
    case _ =>
  }

  lemma TablesGuarded(c: LockState, t: ThreadId)
    requires AllDisciplined(c) && ProgOf(c, t) != []
    ensures var tables := Tables(ProgOf(c, t)[0], LocalOf(c.core.threads, t));
            && (Allocs in tables ==> AllocMap in Held(c, t))
            && (Chains in tables ==> ReallocMap in Held(c, t))
            && (Faults in tables ==> FaultSet in Held(c, t))
            && (Pending in tables ==> PkeyTid in Held(c, t))
  {
    NoDataRace(c, t);
    TouchesTables(c, t, Allocs);
    TouchesTables(c, t, Chains);
    TouchesTables(c, t, Faults);
    TouchesTables(c, t, Pending);
  }

  /** Without a table's mutex a thread does not change the table. */
  lemma WritesGuarded(c: LockState, d: LockState, t: ThreadId)
    requires AllDisciplined(c) && Act(c, d, t)
    ensures d.core.allocs != c.core.allocs ==> AllocMap in Held(c, t)
    ensures d.core.chains != c.core.chains ==> ReallocMap in Held(c, t)
    ensures d.faults != c.faults ==> FaultSet in Held(c, t)
    ensures d.pkeyByTid != c.pkeyByTid ==> PkeyTid in Held(c, t)
  {
    TablesGuarded(c, t);
    TablesWritten(c, d, t);
  }

  /** Without a table's mutex what a thread does would be the same whatever the table held. */
  lemma ReadsGuarded(c: LockState, d: LockState, t: ThreadId, allocs: SiteMap, chains: map<Identity, SiteSet>,
                     faults: SiteSet, pending: map<ThreadId, PendingPKeyInfo>)
    requires AllDisciplined(c) && Act(c, d, t)
    ensures AllocMap !in Held(c, t) ==> Act(WithAllocs(c, allocs), WithAllocs(d, allocs), t)
    ensures ReallocMap !in Held(c, t) ==> Act(WithChains(c, chains), WithChains(d, chains), t)
    ensures FaultSet !in Held(c, t) ==> Act(c.(faults := faults), d.(faults := faults), t)
    ensures PkeyTid !in Held(c, t) ==> Act(c.(pkeyByTid := pending), d.(pkeyByTid := pending), t)
  {
    TablesGuarded(c, t);
    if AllocMap !in Held(c, t) {
      AllocsUnread(c, d, t, allocs);
    }
    if ReallocMap !in Held(c, t) {
      ChainsUnread(c, d, t, chains);
    }
    if FaultSet !in Held(c, t) {
      FaultsUnread(c, d, t, faults);
    }
    if PkeyTid !in Held(c, t) {
      PendingUnread(c, d, t, pending);
    }
  }
}
