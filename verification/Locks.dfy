/**
  The locks themselves. Threads run hooks and signal handlers as programs of
  acquire, release and act instructions over the handler's four mutexes; a
  handler may interrupt a thread wherever that thread holds none of them.

  The hook acts are the critical sections of `CriticalSections`, so everything
  proved there holds of these executions too.
 */
module Locks {
  import opened AllocSites
  import opened AllocationMap
  import opened Provenance
  import opened CriticalSections

  datatype Mutex = FaultSet | ReallocMap | AllocMap | PkeyTid

  /** The order in which nested acquisitions are made. */
  function Rank(m: Mutex): nat {
    match m
    case FaultSet => 0
    case ReallocMap => 1
    case AllocMap => 2
    case PkeyTid => 3
  }

  datatype Instr =
    | Acquire(m: Mutex)
    | Release(m: Mutex)
    | Section(m: Mutex)
    | FindSite(addr: Ptr, pkey: UInt32)
    | ReadSite(addr: Ptr)
    | MarkSite(site: AllocSite)
    | FindChain(id: Identity, pkey: UInt32)
    | MarkAncestor(id: Identity, site: AllocSite)
    | StorePending(tid: ThreadId, info: PendingPKeyInfo)
    | TakePending(tid: ThreadId)

  type Program = seq<Instr>

  /** What one marking, with the key of its fault, read as the ancestors of the site it marked. */
  datatype ChainRead = ChainRead(site: Identity, pkey: UInt32, ancestors: set<Identity>)

  /**
    `core` is the state of the hooks; `begun` lists the sites marked directly,
    `found` what was then read as their ancestors.
   */
  datatype LockState = LockState(
    core: Config,
    faults: SiteSet,
    pkeyByTid: map<ThreadId, PendingPKeyInfo>,
    owners: map<Mutex, ThreadId>,
    progs: map<ThreadId, Program>,
    begun: seq<Identity>,
    found: seq<ChainRead>)

  const UNLOCKED: LockState := LockState(START, map[], map[], map[], map[], [], [])

  function ProgOf(c: LockState, t: ThreadId): Program {
    if t in c.progs then c.progs[t] else []
  }

  function Held(c: LockState, t: ThreadId): set<Mutex> {
    set m | m in c.owners && c.owners[m] == t
  }

  // ----- the programs -----

  function MutexOf(l: Local): Mutex {
    if l.Busy? && l.phase.Chain? then ReallocMap else AllocMap
  }

  /** The next critical section of a hook; the section instruction also drops the lock. */
  function NextSection(l: Local): Program {
    if l.Idle? then [] else [Acquire(MutexOf(l)), Section(MutexOf(l))]
  }

  /** The marking part of addFaultAlloc: both guards live to the end of the function. */
  function Marking(site: AllocSite, pkey: UInt32): Program {
    [Acquire(FaultSet), MarkSite(site.WithPkey(pkey)), Acquire(ReallocMap), FindChain(site.Id(), pkey),
     Release(ReallocMap), Release(FaultSet)]
  }

  function SegvHandler(addr: Ptr, pkey: UInt32, tid: ThreadId, info: PendingPKeyInfo): Program {
    [Acquire(AllocMap), FindSite(addr, pkey),
     Acquire(AllocMap), ReadSite(addr), Release(AllocMap),
     Acquire(PkeyTid), StorePending(tid, info), Release(PkeyTid)]
  }

  function TrapHandler(pid: ThreadId): Program {
    [Acquire(PkeyTid), TakePending(pid), Release(PkeyTid)]
  }

  predicate IsHandler(p: Program) {
    || (|p| == 8 && p[1].FindSite? && p[6].StorePending?
        && p == SegvHandler(p[1].addr, p[1].pkey, p[6].tid, p[6].info))
    || (|p| == 3 && p[1].TakePending? && p == TrapHandler(p[1].tid))
  }

  // ----- the steps -----

  ghost predicate Enumerates(order: seq<Identity>, s: set<Identity>) {
    && (forall id :: id in order <==> id in s)
    && (forall i, j :: 0 <= i < j < |order| ==> order[i] != order[j])
  }

  function AncestorMarks(order: seq<Identity>, chain: SiteSet, pkey: UInt32): Program
    requires forall id :: id in order ==> id in chain
  {
    seq(|order|, i requires 0 <= i < |order| => MarkAncestor(order[i], chain[order[i]].WithPkey(pkey)))
  }

  /** Thread `t` executes the instruction at the head of its program; it can release only what it holds. */
  ghost predicate Act(c: LockState, d: LockState, t: ThreadId) {
    && ProgOf(c, t) != []
    && var rest := ProgOf(c, t)[1..];
       var next := c.(progs := c.progs[t := rest]);
       match ProgOf(c, t)[0]
       case Acquire(m) => m !in c.owners && d == next.(owners := c.owners[m := t])
       case Release(m) => m in c.owners && c.owners[m] == t && d == next.(owners := c.owners - {m})
       case Section(m) =>
         && CanExec(c.core, t)
         && var core := Exec(c.core, t);
            d == next.(core := core,
                       progs := c.progs[t := [Release(m)] + NextSection(LocalOf(core.threads, t)) + rest])
       case FindSite(addr, pkey) =>
         var site := Lookup(c.core.allocs, addr);
         d == next.(progs := c.progs[t :=
           [Release(AllocMap)] + (if site.IsValid() then Marking(site, pkey) else []) + rest])
       case ReadSite(_) => d == next
       case MarkSite(site) =>
         d == next.(faults := Emplace(c.faults, site.Id(), site), begun := c.begun + [site.Id()])
       case FindChain(id, pkey) =>
         var chain := ChainOf(c.core.chains, id);
         exists order :: Enumerates(order, chain.Keys)
           && d == next.(found := c.found + [ChainRead(id, pkey, chain.Keys)],
                         progs := c.progs[t := AncestorMarks(order, chain, pkey) + rest])
       case MarkAncestor(id, site) => d == next.(faults := Emplace(c.faults, id, site))
       case StorePending(tid, info) => d == next.(pkeyByTid := Emplace(c.pkeyByTid, tid, info))
       case TakePending(tid) => d == next.(pkeyByTid := c.pkeyByTid - {tid})
  }

  /** An idle thread calls a hook. */
  ghost predicate Call(c: LockState, d: LockState, t: ThreadId, op: Event) {
    && ProgOf(c, t) == [] && CanBegin(c.core, t, op)
    && var core := Begin(c.core, t, op);
       d == c.(core := core, progs := c.progs[t := NextSection(LocalOf(core.threads, t))])
  }

  /** A signal handler starts on top of whatever the thread was doing. */
  ghost predicate Signal(c: LockState, d: LockState, t: ThreadId, handler: Program) {
    && IsHandler(handler) && Held(c, t) == {}
    && d == c.(progs := c.progs[t := handler + ProgOf(c, t)])
  }

  ghost predicate LockNext(c: LockState, d: LockState) {
    || (exists t :: Act(c, d, t))
    || (exists t, op :: Call(c, d, t, op))
    || (exists t, handler :: Signal(c, d, t, handler))
  }

  ghost predicate StepFrom(cs: seq<LockState>, i: nat)
    requires i + 1 < |cs|
  {
    LockNext(cs[i], cs[i + 1])
  }

  ghost predicate LockedExecution(cs: seq<LockState>) {
    && cs != [] && cs[0] == UNLOCKED
    && forall i :: 0 <= i < |cs| - 1 ==> StepFrom(cs, i)
  }

  // ----- the discipline the programs follow -----

  /** The direct mark still ahead in the current fault-set section. */
  predicate OwesSite(p: Program) {
    p != [] && p[0] != Release(FaultSet) && (p[0].MarkSite? || OwesSite(p[1..]))
  }

  /** The chain still to be read in the current fault-set section. */
  predicate OwesChain(p: Program, id: Identity) {
    p != [] && p[0] != Release(FaultSet) && (if p[0].FindChain? then p[0].id == id else OwesChain(p[1..], id))
  }

  predicate OwesNoChain(p: Program) {
    p == [] || p[0] == Release(FaultSet) || (!p[0].FindChain? && OwesNoChain(p[1..]))
  }

  /** The ancestors still to be marked in the current fault-set section. */
  function Owed(p: Program): set<Identity> {
    if p == [] || p[0] == Release(FaultSet) then {}
    else (if p[0].MarkAncestor? then {p[0].id} else {}) + Owed(p[1..])
  }

  /**
    With locks `held` and the hook in state `l`, the program acquires in rank
    order, touches each table only under its mutex, marks in the right order,
    and ends with every lock released and the hook finished.
   */
  predicate Disciplined(held: set<Mutex>, l: Local, p: Program)
    decreases |p|
  {
    if p == [] then held == {} && l.Idle?
    else
      var rest := p[1..];
      match p[0]
      case Acquire(m) =>
        && (forall h :: h in held ==> Rank(h) < Rank(m))
        && (m == FaultSet ==> OwesSite(rest) && Owed(rest) == {})
        && Disciplined(held + {m}, l, rest)
      case Release(m) => m in held && Disciplined(held - {m}, l, rest)
      case Section(m) => held == {m} && m == MutexOf(l) && l.Busy? && Disciplined({}, Idle, rest)
      case FindSite(_, _) => held == {AllocMap} && Disciplined({}, l, rest)
      case ReadSite(_) => AllocMap in held && Disciplined(held, l, rest)
      case MarkSite(site) =>
        && FaultSet in held && !OwesSite(rest) && OwesChain(rest, site.Id()) && Owed(rest) == {}
        && Disciplined(held, l, rest)
      case FindChain(_, _) =>
        && FaultSet in held && ReallocMap in held
        && !OwesSite(rest) && OwesNoChain(rest) && Owed(rest) == {}
        && Disciplined(held, l, rest)
      case MarkAncestor(_, _) =>
        && FaultSet in held && ReallocMap in held && !OwesSite(rest) && OwesNoChain(rest)
        && Disciplined(held, l, rest)
      case StorePending(_, _) => PkeyTid in held && Disciplined(held, l, rest)
      case TakePending(_) => PkeyTid in held && Disciplined(held, l, rest)
  }

  ghost predicate AllDisciplined(c: LockState) {
    forall t: ThreadId :: Disciplined(Held(c, t), LocalOf(c.core.threads, t), ProgOf(c, t))
  }

  ghost predicate InFaults(c: LockState, ids: set<Identity>) {
    ids <= c.faults.Keys
  }

  /** Everything read as an ancestor is marked, apart from `owed`. */
  ghost predicate Marked(c: LockState, owed: set<Identity>) {
    && (forall k :: 0 <= k < |c.begun| ==> c.begun[k] in c.faults)
    && (forall k :: 0 <= k < |c.found| ==> InFaults(c, c.found[k].ancestors - owed))
  }

  /** Each direct mark has its chain read, in order; the last may still be waiting for it. */
  ghost predicate Paired(c: LockState) {
    && |c.found| <= |c.begun| <= |c.found| + 1
    && forall k :: 0 <= k < |c.found| ==> c.found[k].site == c.begun[k]
  }

  /** Where the marking of faults stands. */
  ghost predicate MarkingOk(c: LockState) {
    && Paired(c)
    && if FaultSet in c.owners then
         var p := ProgOf(c, c.owners[FaultSet]);
         && Marked(c, Owed(p))
         && (OwesSite(p) ==> |c.begun| == |c.found|)
         && (!OwesSite(p) && !OwesNoChain(p) ==>
               |c.begun| == |c.found| + 1 && OwesChain(p, c.begun[|c.found|]))
         && (OwesNoChain(p) ==> |c.begun| == |c.found|)
       else
         Marked(c, {}) && |c.begun| == |c.found|
  }

  /** Nothing is in the fault set but what some marking put there. */
  ghost predicate FaultsExplained(c: LockState) {
    forall id :: id in c.faults ==>
      id in c.begun || exists k :: 0 <= k < |c.found| && id in c.found[k].ancestors
  }

  /** Ancestors marked or still to be marked all come from a chain that was read. */
  ghost predicate OwedExplained(c: LockState) {
    FaultSet in c.owners ==>
      Owed(ProgOf(c, c.owners[FaultSet])) <= if c.found == [] then {} else c.found[|c.found| - 1].ancestors
  }

  /** What was read for a site is its chain as it still stands, or nothing because it had none yet. */
  ghost predicate ReadsOk(c: LockState) {
    forall k :: 0 <= k < |c.found| ==>
      c.found[k].ancestors == {} || c.found[k].ancestors == ChainOf(c.core.chains, c.found[k].site).Keys
  }

  ghost predicate LockInv(c: LockState) {
    && Inv(c.core)
    && AllDisciplined(c)
    && MarkingOk(c)
    && FaultsExplained(c)
    && OwedExplained(c)
    && ReadsOk(c)
  }
}
