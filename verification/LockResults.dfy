/**
  The invariant of locked executions and its consequences: deadlock freedom,
  mutual exclusion, and serialisability of the hooks under real locks.
 */
module LockResults {
  import opened AllocSites
  import opened AllocationMap
  import opened Provenance
  import opened ProvenanceRuns
  import opened CriticalSections
  import opened SerialOrder
  import opened Locks
  import opened LockProofs

  // ----- marking -----

  /** All that is said about marking, for a given program of the fault-set owner. */
  ghost predicate MarkInv(c: LockState) {
    MarkingOk(c) && FaultsExplained(c) && OwedExplained(c)
  }

  lemma {:induction false} ChainAhead(p: Program, id: Identity)
    requires OwesChain(p, id)
    ensures !OwesNoChain(p)
    decreases |p|
  {
    if !p[0].FindChain? {
      ChainAhead(p[1..], id);
    }
  }

  /** Steps that touch neither the marks nor the fault-set owner's place in a marking. */
  lemma MarksUntouched(c: LockState, d: LockState)
    requires MarkInv(c)
    requires d.faults == c.faults && d.begun == c.begun && d.found == c.found
    requires FaultSet in d.owners <==> FaultSet in c.owners
    requires FaultSet in c.owners ==>
               var p, q := ProgOf(c, c.owners[FaultSet]), ProgOf(d, d.owners[FaultSet]);
               && Owed(q) == Owed(p) && OwesSite(q) == OwesSite(p) && OwesNoChain(q) == OwesNoChain(p)
               && forall id :: OwesChain(p, id) ==> OwesChain(q, id)
    ensures MarkInv(d)
  {
    if FaultSet in c.owners {
      MarksSame(c, d, Owed(ProgOf(c, c.owners[FaultSet])));
    } else {
      MarksSame(c, d, {});
    }
  }

  lemma MarksSame(c: LockState, d: LockState, owed: set<Identity>)
    requires d.faults == c.faults && d.begun == c.begun && d.found == c.found
    ensures Paired(c) ==> Paired(d)
    ensures Marked(c, owed) ==> Marked(d, owed)
    ensures FaultsExplained(c) ==> FaultsExplained(d)
  {
    if Marked(c, owed) {
      forall k | 0 <= k < |d.found| ensures InFaults(d, d.found[k].ancestors - owed) {
        assert InFaults(c, c.found[k].ancestors - owed);
      }
    }
  }

  lemma QuietAct(c: LockState, d: LockState, t: ThreadId)
    requires AllDisciplined(c) && MarkInv(c) && Act(c, d, t)
    requires !ProgOf(c, t)[0].MarkSite? && !ProgOf(c, t)[0].FindChain? && !ProgOf(c, t)[0].MarkAncestor?
    requires ProgOf(c, t)[0] != Acquire(FaultSet) && ProgOf(c, t)[0] != Release(FaultSet)
    ensures MarkInv(d)
  {
    var p := ProgOf(c, t);
    assert Disciplined(Held(c, t), LocalOf(c.core.threads, t), p);
    ActOwners(c, d, t);
    if FaultSet in c.owners && c.owners[FaultSet] == t {
      assert FaultSet in Held(c, t);
      assert ProgOf(d, t) == p[1..];
    }
    MarksUntouched(c, d);
  }

  lemma AcquireFaultSet(c: LockState, d: LockState, t: ThreadId)
    requires AllDisciplined(c) && MarkInv(c) && Act(c, d, t) && ProgOf(c, t)[0] == Acquire(FaultSet)
    ensures MarkInv(d)
  {
    assert Disciplined(Held(c, t), LocalOf(c.core.threads, t), ProgOf(c, t));
    var rest := ProgOf(c, t)[1..];
    assert d.owners[FaultSet] == t && ProgOf(d, t) == rest;
    assert Marked(d, Owed(rest));
  }

  lemma ReleaseFaultSet(c: LockState, d: LockState, t: ThreadId)
    requires AllDisciplined(c) && MarkInv(c) && Act(c, d, t) && ProgOf(c, t)[0] == Release(FaultSet)
    ensures MarkInv(d)
  {
    var p := ProgOf(c, t);
    assert Disciplined(Held(c, t), LocalOf(c.core.threads, t), p);
    assert FaultSet in Held(c, t);
    assert Owed(p) == {} && OwesNoChain(p);
    assert Marked(d, {});
  }

  lemma MarkSiteStep(c: LockState, d: LockState, t: ThreadId)
    requires AllDisciplined(c) && MarkInv(c) && Act(c, d, t) && ProgOf(c, t)[0].MarkSite?
    ensures MarkInv(d)
  {
    var p := ProgOf(c, t);
    var rest := p[1..];
    assert Disciplined(Held(c, t), LocalOf(c.core.threads, t), p);
    assert FaultSet in Held(c, t);
    assert d.owners[FaultSet] == t && ProgOf(d, t) == rest;
    ChainAhead(rest, p[0].site.Id());
    assert OwesSite(p) && Owed(p) == Owed(rest);
    assert d.begun[|c.found|] == p[0].site.Id();
    assert Marked(d, Owed(rest)) by {
      forall k | 0 <= k < |d.begun| ensures d.begun[k] in d.faults {
        assert k < |c.begun| ==> c.begun[k] in c.faults;
      }
      forall k | 0 <= k < |d.found| ensures InFaults(d, d.found[k].ancestors - Owed(rest)) {
        assert InFaults(c, c.found[k].ancestors - Owed(p));
      }
    }
    assert p[0].site.Id() in d.begun;
  }

  lemma ReadMarked(c: LockState, d: LockState, read: ChainRead)
    requires Marked(c, {}) && d.faults == c.faults && d.begun == c.begun && d.found == c.found + [read]
    ensures Marked(d, read.ancestors)
  {
    forall k | 0 <= k < |d.found| ensures InFaults(d, d.found[k].ancestors - read.ancestors) {
      assert k < |c.found| ==> d.found[k] == c.found[k] && InFaults(c, c.found[k].ancestors - {});
    }
  }

  lemma ReadExplained(c: LockState, d: LockState, read: ChainRead)
    requires FaultsExplained(c) && d.faults == c.faults && d.begun == c.begun && d.found == c.found + [read]
    ensures FaultsExplained(d)
  {
    forall id | id in d.faults
      ensures id in d.begun || exists k :: 0 <= k < |d.found| && id in d.found[k].ancestors
    {
      if k :| 0 <= k < |c.found| && id in c.found[k].ancestors {
        assert id in d.found[k].ancestors;
      }
    }
  }

  lemma ReadPaired(c: LockState, d: LockState, read: ChainRead)
    requires Paired(c) && |c.begun| == |c.found| + 1 && c.begun[|c.found|] == read.site
    requires d.begun == c.begun && d.found == c.found + [read]
    ensures Paired(d) && |d.begun| == |d.found|
  {
  }

  /** The chain is read: the last mark is paired with it, and its members become owed. */
  lemma PairRead(c: LockState, d: LockState, t: ThreadId, read: ChainRead, p: Program, q: Program)
    requires MarkInv(c) && p == ProgOf(c, t) && q == ProgOf(d, t)
    requires FaultSet in c.owners && c.owners[FaultSet] == t && d.owners == c.owners
    requires d.faults == c.faults && d.begun == c.begun && d.found == c.found + [read]
    requires !OwesSite(p) && !OwesNoChain(p) && Owed(p) == {} && forall id :: OwesChain(p, id) ==> id == read.site
    requires !OwesSite(q) && OwesNoChain(q) && Owed(q) == read.ancestors
    ensures MarkInv(d)
  {
    ReadPaired(c, d, read);
    ReadMarked(c, d, read);
    ReadExplained(c, d, read);
  }

  lemma FindChainStep(c: LockState, d: LockState, t: ThreadId)
    requires AllDisciplined(c) && MarkInv(c) && Act(c, d, t) && ProgOf(c, t)[0].FindChain?
    ensures MarkInv(d)
  {
    var p := ProgOf(c, t);
    assert Disciplined(Held(c, t), LocalOf(c.core.threads, t), p);
    assert FaultSet in Held(c, t);
    ActFindChain(c, d, t);
    PairRead(c, d, t, ChainRead(p[0].id, p[0].pkey, ChainOf(c.core.chains, p[0].id).Keys), p, ProgOf(d, t));
  }

  lemma MarkAncestorStep(c: LockState, d: LockState, t: ThreadId)
    requires AllDisciplined(c) && MarkInv(c) && Act(c, d, t) && ProgOf(c, t)[0].MarkAncestor?
    ensures MarkInv(d)
  {
    var p := ProgOf(c, t);
    var rest := p[1..];
    assert Disciplined(Held(c, t), LocalOf(c.core.threads, t), p);
    assert FaultSet in Held(c, t);
    assert d.owners[FaultSet] == t && ProgOf(d, t) == rest;
    assert Owed(p) == {p[0].id} + Owed(rest) && OwesNoChain(p);
    assert Marked(d, Owed(rest)) by {
      forall k | 0 <= k < |d.found| ensures InFaults(d, d.found[k].ancestors - Owed(rest)) {
        assert InFaults(c, c.found[k].ancestors - Owed(p));
      }
    }
    assert p[0].id in Owed(p);
  }

  lemma ActMarks(c: LockState, d: LockState, t: ThreadId)
    requires AllDisciplined(c) && MarkInv(c) && Act(c, d, t)
    ensures MarkInv(d)
  {
    var i := ProgOf(c, t)[0];
    if i == Acquire(FaultSet) {
      AcquireFaultSet(c, d, t);
    } else if i == Release(FaultSet) {
      ReleaseFaultSet(c, d, t);
    } else if i.MarkSite? {
      MarkSiteStep(c, d, t);
    } else if i.FindChain? {
      FindChainStep(c, d, t);
    } else if i.MarkAncestor? {
      MarkAncestorStep(c, d, t);
    } else {
      QuietAct(c, d, t);
    }
  }

  // ----- every step keeps the invariant -----

  lemma ReadsKept(c: LockState, d: LockState)
    requires ReadsOk(c) && d.found == c.found && Extends(c.core.chains, d.core.chains)
    ensures ReadsOk(d)
  {
    forall k | 0 <= k < |d.found|
      ensures d.found[k].ancestors == {} || d.found[k].ancestors == ChainOf(d.core.chains, d.found[k].site).Keys
    {
      assert c.found[k].ancestors == {} || c.found[k].ancestors == ChainOf(c.core.chains, c.found[k].site).Keys;
    }
  }

  lemma ActReads(c: LockState, d: LockState, t: ThreadId)
    requires ReadsOk(c) && Act(c, d, t)
    ensures ReadsOk(d)
  {
    if !ProgOf(c, t)[0].FindChain? {
      ReadsKept(c, d);
    }
  }

  lemma ActKeepsCore(c: LockState, d: LockState, t: ThreadId)
    requires Inv(c.core) && Act(c, d, t)
    ensures Inv(d.core)
  {
    if ProgOf(c, t)[0].Section? {
      assert CanExec(c.core, t) && d.core == Exec(c.core, t);
      StepKeepsInv(c.core, d.core);
    } else {
      assert d.core == c.core;
    }
  }

  /** A thread that starts a hook or a handler holds nothing, so no marking is disturbed. */
  lemma StartKeepsMarks(c: LockState, d: LockState, t: ThreadId)
    requires MarkInv(c) && Held(c, t) == {}
    requires d.faults == c.faults && d.begun == c.begun && d.found == c.found && d.owners == c.owners
    requires forall u :: u != t ==> ProgOf(d, u) == ProgOf(c, u)
    ensures MarkInv(d)
  {
    assert FaultSet in c.owners && c.owners[FaultSet] == t ==> FaultSet in Held(c, t);
    MarksUntouched(c, d);
  }

  lemma CallKeepsLockInv(c: LockState, d: LockState, t: ThreadId, op: Event)
    requires LockInv(c) && Call(c, d, t, op)
    ensures LockInv(d)
  {
    CallKeeps(c, d, t, op);
    StartKeepsMarks(c, d, t);
    ReadsKept(c, d);
    StepKeepsInv(c.core, d.core);
  }

  lemma SignalKeepsLockInv(c: LockState, d: LockState, t: ThreadId, handler: Program)
    requires LockInv(c) && Signal(c, d, t, handler)
    ensures LockInv(d)
  {
    SignalKeeps(c, d, t, handler);
    StartKeepsMarks(c, d, t);
    ReadsKept(c, d);
  }

  lemma StepKeepsLockInv(c: LockState, d: LockState)
    requires LockInv(c) && LockNext(c, d)
    ensures LockInv(d)
  {
    if t :| Act(c, d, t) {
      ActKeeps(c, d, t);
      ActMarks(c, d, t);
      ActReads(c, d, t);
      ActKeepsCore(c, d, t);
    } else if t, op :| Call(c, d, t, op) {
      CallKeepsLockInv(c, d, t, op);
    } else {
      var t, handler :| Signal(c, d, t, handler);
      SignalKeepsLockInv(c, d, t, handler);
    }
  }

  lemma {:induction false} LockedExecutionKeepsInv(cs: seq<LockState>, i: nat)
    requires LockedExecution(cs) && i < |cs|
    ensures LockInv(cs[i])
  {
    if i > 0 {
      LockedExecutionKeepsInv(cs, i - 1);
      assert StepFrom(cs, i - 1);
      StepKeepsLockInv(cs[i - 1], cs[i]);
    }
  }

  // ----- deadlock freedom -----

  ghost predicate CanAct(c: LockState, t: ThreadId) {
    exists d :: Act(c, d, t)
  }

  lemma {:induction false} Enumerate(s: set<Identity>) returns (order: seq<Identity>)
    ensures Enumerates(order, s)
    decreases s
  {
    if s == {} {
      order := [];
    } else {
      var x :| x in s;
      var rest := Enumerate(s - {x});
      order := [x] + rest;
      assert forall id :: id in order <==> id == x || id in rest;
    }
  }

  /** Only a taken mutex can stop a thread. */
  lemma ActUnlessBlocked(c: LockState, t: ThreadId)
    requires LockInv(c) && ProgOf(c, t) != []
    requires ProgOf(c, t)[0].Acquire? ==> ProgOf(c, t)[0].m !in c.owners
    ensures CanAct(c, t)
  {
    var p := ProgOf(c, t);
    assert Disciplined(Held(c, t), LocalOf(c.core.threads, t), p);
    var rest := p[1..];
    var next := c.(progs := c.progs[t := rest]);
    match p[0]
    case Acquire(m) => assert Act(c, next.(owners := c.owners[m := t]), t);
    case Release(m) => assert Act(c, next.(owners := c.owners - {m}), t);
    case Section(m) =>
      assert t in c.core.threads && ThreadOk(c.core.allocs, c.core.threads[t]);
      var core := Exec(c.core, t);
      assert Act(c, next.(core := core,
                          progs := c.progs[t := [Release(m)] + NextSection(LocalOf(core.threads, t)) + rest]), t);
    case FindSite(addr, pkey) =>
      var site := Lookup(c.core.allocs, addr);
      assert Act(c, next.(progs := c.progs[t :=
        [Release(AllocMap)] + (if site.IsValid() then Marking(site, pkey) else []) + rest]), t);
    case ReadSite(_) => assert Act(c, next, t);
    case MarkSite(site) =>
      assert Act(c, next.(faults := Emplace(c.faults, site.Id(), site), begun := c.begun + [site.Id()]), t);
    case FindChain(id, pkey) =>
      var chain := ChainOf(c.core.chains, id);
      var order := Enumerate(chain.Keys);
      assert Act(c, next.(found := c.found + [ChainRead(id, pkey, chain.Keys)],
                          progs := c.progs[t := AncestorMarks(order, chain, pkey) + rest]), t);
    case MarkAncestor(id, site) => assert Act(c, next.(faults := Emplace(c.faults, id, site)), t);
    case StorePending(tid, info) => assert Act(c, next.(pkeyByTid := Emplace(c.pkeyByTid, tid, info)), t);
    case TakePending(tid) => assert Act(c, next.(pkeyByTid := c.pkeyByTid - {tid}), t);
  }

  /** Follow the owners of wanted mutexes upwards in rank until someone can act. */
  lemma {:induction false} FindRunnable(c: LockState, t: ThreadId) returns (u: ThreadId)
    requires LockInv(c) && ProgOf(c, t) != []
    ensures ProgOf(c, u) != [] && CanAct(c, u)
    decreases if ProgOf(c, t)[0].Acquire? then 4 - Rank(ProgOf(c, t)[0].m) else 0
  {
    var p := ProgOf(c, t);
    if p[0].Acquire? && p[0].m in c.owners {
      var v := c.owners[p[0].m];
      assert Disciplined(Held(c, v), LocalOf(c.core.threads, v), ProgOf(c, v));
      assert p[0].m in Held(c, v);
      u := FindRunnable(c, v);
    } else {
      ActUnlessBlocked(c, t);
      u := t;
    }
  }

  /** Deadlock freedom: while any thread is unfinished, some unfinished thread can step. */
  lemma DeadlockFree(cs: seq<LockState>, i: nat, t: ThreadId)
    requires LockedExecution(cs) && i < |cs| && ProgOf(cs[i], t) != []
    ensures exists u :: ProgOf(cs[i], u) != [] && CanAct(cs[i], u)
  {
    LockedExecutionKeepsInv(cs, i);
    var u := FindRunnable(cs[i], t);
  }

  // ----- serialisability under the locks -----

  /**
    Hooks under the real locks, with signal handlers interrupting them anywhere
    they may: whenever no hook is in flight, the tables are those of an
    admissible serial run of exactly the calls made.
   */
  lemma LockedHooksAreSerialisable(cs: seq<LockState>, i: nat)
    requires LockedExecution(cs) && i < |cs| && Quiescent(cs[i].core)
    ensures var core := cs[i].core;
            && LogInRange(core)
            && (forall n: nat :: n < |core.calls| ==> n in core.log)
            && (forall j, k :: 0 <= j < k < |core.log| ==> core.log[j] != core.log[k])
            && AdmissibleRun(Serial(core))
            && core.allocs == Run(Serial(core)).allocs
            && core.chains == Run(Serial(core)).chains
  {
    LockedExecutionKeepsInv(cs, i);
    QuiescentIsSerial(cs[i].core);
  }

  lemma HeldByOne(c: LockState, t: ThreadId, u: ThreadId)
    requires t != u
    ensures Held(c, t) !! Held(c, u)
  {
  }

  /** At every moment at most one thread is about to touch a table. */
  lemma MutualExclusion(cs: seq<LockState>, i: nat, t: ThreadId, u: ThreadId, table: Table)
    requires LockedExecution(cs) && i < |cs| && t != u
    requires ProgOf(cs[i], t) != [] && ProgOf(cs[i], u) != []
    ensures !(Touches(cs[i], t, table) && Touches(cs[i], u, table))
  {
    LockedExecutionKeepsInv(cs, i);
    NoDataRace(cs[i], t);
    NoDataRace(cs[i], u);
    HeldByOne(cs[i], t, u);
  }

  // ----- what may happen next -----

  /** Executions begin with every mutex free and go on by any step. */
  lemma ExecutionsGoOn(cs: seq<LockState>, d: LockState)
    ensures LockedExecution([LockState(Config(map[], map[], map[], [], []), map[], map[], map[], map[], [], [])])
    ensures LockedExecution(cs) && LockNext(cs[|cs| - 1], d) ==> LockedExecution(cs + [d])
  {
    if LockedExecution(cs) && LockNext(cs[|cs| - 1], d) {
      var longer := cs + [d];
      forall i | 0 <= i < |longer| - 1 ensures StepFrom(longer, i) {
        assert i < |cs| - 1 ==> StepFrom(cs, i);
      }
    }
  }

  /** A thread with nothing left to do may call any hook that may start, and first asks for the table's mutex. */
  lemma HookMayBeCalled(c: LockState, t: ThreadId, op: Event)
    requires ProgOf(c, t) == [] && CanBegin(c.core, t, op)
    ensures LockNext(c, c.(core := Begin(c.core, t, op), progs := c.progs[t := [Acquire(AllocMap), Section(AllocMap)]]))
  {
    assert Call(c, c.(core := Begin(c.core, t, op), progs := c.progs[t := [Acquire(AllocMap), Section(AllocMap)]]), t, op);
  }

  /** The two programs of the protocol are handlers, and a thread that holds no mutex may be interrupted by either. */
  lemma HandlersMayInterrupt(c: LockState, t: ThreadId, addr: Ptr, pkey: UInt32, tid: ThreadId, info: PendingPKeyInfo)
    requires Held(c, t) == {}
    ensures LockNext(c, c.(progs := c.progs[t := SegvHandler(addr, pkey, tid, info) + ProgOf(c, t)]))
    ensures LockNext(c, c.(progs := c.progs[t := TrapHandler(tid) + ProgOf(c, t)]))
    ensures FindSite(addr, pkey) in SegvHandler(addr, pkey, tid, info)
    ensures StorePending(tid, info) in SegvHandler(addr, pkey, tid, info) && TakePending(tid) in TrapHandler(tid)
  {
    var segv, trap := SegvHandler(addr, pkey, tid, info), TrapHandler(tid);
    assert segv[1] == FindSite(addr, pkey) && segv[6] == StorePending(tid, info) && trap[1] == TakePending(tid);
    assert Signal(c, c.(progs := c.progs[t := segv + ProgOf(c, t)]), t, segv);
    assert Signal(c, c.(progs := c.progs[t := trap + ProgOf(c, t)]), t, trap);
  }
}
