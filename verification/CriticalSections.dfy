/**
  Hooks running concurrently, one critical section at a time.

  A hook is not one atomic action: reallocHook reads the table, extends the
  chains, removes the old entry and inserts the new one under four separate
  acquisitions of a lock, and other threads' hooks may run in between. Here each
  critical section is a step of its own, for any number of threads.

  `log` lists the calls in the order in which they take effect: an alloc or a
  dealloc at its only section, a realloc at its chain update, or at its insertion
  when the old pointer turned out to be untracked.
 */
module CriticalSections {
  import opened AllocSites
  import opened AllocationMap
  import opened Provenance

  /** The critical section a realloc hook enters next; the other hooks have only `Start`. */
  datatype Phase = Start | Fallback | Chain(prev: AllocSite) | Remove | Insert

  datatype Local = Idle | Busy(op: Event, phase: Phase, call: nat)

  datatype Config = Config(
    allocs: SiteMap,
    chains: map<Identity, SiteSet>,
    threads: map<ThreadId, Local>,
    calls: seq<Event>,
    log: seq<nat>)

  const START: Config := Config(map[], map[], map[], [], [])

  function LocalOf(threads: map<ThreadId, Local>, t: ThreadId): Local {
    if t in threads then threads[t] else Idle
  }

  // ----- what a call touches -----

  predicate HasNew(op: Event) {
    op.Alloc? || op.Realloc?
  }

  predicate HasOld(op: Event) {
    op.Realloc? || op.Dealloc?
  }

  function NewPtr(op: Event): Ptr
    requires HasNew(op)
  {
    match op
    case Alloc(ptr, _, _) => ptr
    case Realloc(ptr, _, _, _) => ptr
  }

  function NewSize(op: Event): Int64
    requires HasNew(op)
  {
    match op
    case Alloc(_, size, _) => size
    case Realloc(_, size, _, _) => size
  }

  function OldPtr(op: Event): Ptr
    requires HasOld(op)
  {
    match op
    case Realloc(_, _, from, _) => from
    case Dealloc(ptr) => ptr
  }

  predicate InNew(op: Event, p: Ptr)
    requires HasNew(op)
  {
    NewPtr(op) <= p < NewPtr(op) + NewSize(op)
  }

  predicate Apart(p: int, n: int, q: int, m: int) {
    p + n <= q || q + m <= p
  }

  /** Two calls in flight share no new memory, no old pointer, and neither's old pointer is in the other's new range. */
  predicate Compatible(a: Event, b: Event) {
    && (HasNew(a) && HasNew(b) ==> Apart(NewPtr(a), NewSize(a), NewPtr(b), NewSize(b)))
    && (HasNew(a) && HasOld(b) ==> !InNew(a, OldPtr(b)))
    && (HasOld(a) && HasNew(b) ==> !InNew(b, OldPtr(a)))
    && (HasOld(a) && HasOld(b) ==> OldPtr(a) != OldPtr(b))
  }

  /** The call's new range is clear of every table entry but the one being reallocated. */
  ghost predicate Clear(allocs: SiteMap, op: Event)
    requires HasNew(op)
  {
    forall k :: k in allocs && !(op.Realloc? && k == op.oldPtr) ==>
      Apart(k, allocs[k].size, NewPtr(op), NewSize(op))
  }

  ghost predicate NoRangeHolds(allocs: SiteMap, p: Ptr) {
    forall k :: k in allocs ==> !(k <= p < k + allocs[k].size)
  }

  /**
    When a hook may start: the allocator handed out memory that is clear of the
    table and of every call in flight, and a reallocated pointer is the base of
    a table entry or lies in none.
   */
  ghost predicate Admits(c: Config, op: Event) {
    && op.WellFormed() && !op.Fault?
    && (HasNew(op) ==> NewPtr(op) + NewSize(op) < ADDRESS_SPACE && Clear(c.allocs, op))
    && (op.Realloc? ==> op.oldPtr in c.allocs || NoRangeHolds(c.allocs, op.oldPtr))
    && (forall t :: t in c.threads && c.threads[t].Busy? ==> Compatible(op, c.threads[t].op))
  }

  // ----- the steps -----

  ghost predicate CanBegin(c: Config, t: ThreadId, op: Event) {
    LocalOf(c.threads, t).Idle? && Admits(c, op)
  }

  function Begin(c: Config, t: ThreadId, op: Event): Config {
    c.(threads := c.threads[t := Busy(op, Start, |c.calls|)], calls := c.calls + [op])
  }

  /** The site a call inserts; a fallback insertion is not marked as a realloc. */
  function SiteFor(op: Event, isRealloc: bool): AllocSite
    requires HasNew(op) && op.WellFormed()
  {
    NewSite(NewPtr(op), NewSize(op), op.at, isRealloc)
  }

  /** A local state the code can be in. */
  predicate Sensible(l: Local) {
    l.Busy? ==>
      && l.op.WellFormed() && !l.op.Fault?
      && (!l.phase.Start? ==> l.op.Realloc?)
  }

  ghost predicate CanExec(c: Config, t: ThreadId) {
    t in c.threads && c.threads[t].Busy? && Sensible(c.threads[t])
  }

  /** Thread `t` runs its next critical section. */
  ghost function Exec(c: Config, t: ThreadId): Config
    requires CanExec(c, t)
  {
    var l := c.threads[t];
    var finished := c.(threads := c.threads[t := Idle]);
    match l.phase
    case Start =>
      (match l.op
       case Alloc(ptr, _, _) =>
         finished.(allocs := Emplace(c.allocs, ptr, SiteFor(l.op, false)), log := c.log + [l.call])
       case Dealloc(ptr) =>
         finished.(allocs := c.allocs - {ptr}, log := c.log + [l.call])
       case Realloc(_, _, from, _) =>
         var prev := Lookup(c.allocs, from);
         c.(threads := c.threads[t := l.(phase := if prev.IsValid() then Chain(prev) else Fallback)]))
    case Fallback =>
      finished.(allocs := Emplace(c.allocs, NewPtr(l.op), SiteFor(l.op, false)), log := c.log + [l.call])
    case Chain(prev) =>
      c.(chains := ExtendChain(c.chains, prev, SiteFor(l.op, true)),
         threads := c.threads[t := l.(phase := Remove)],
         log := c.log + [l.call])
    case Remove =>
      c.(allocs := c.allocs - {l.op.oldPtr}, threads := c.threads[t := l.(phase := Insert)])
    case Insert =>
      finished.(allocs := Emplace(c.allocs, NewPtr(l.op), SiteFor(l.op, true)))
  }

  ghost predicate Next(c: Config, d: Config) {
    || (exists t, op :: CanBegin(c, t, op) && d == Begin(c, t, op))
    || (exists t :: CanExec(c, t) && d == Exec(c, t))
  }

  /** An execution: any interleaving of hook starts and critical sections. */
  ghost predicate Execution(cs: seq<Config>) {
    && cs != [] && cs[0] == START
    && forall i :: 0 <= i < |cs| - 1 ==> Next(cs[i], cs[i + 1])
  }

  // ----- the invariant -----

  ghost predicate TableOk(allocs: SiteMap) {
    forall k :: k in allocs ==> allocs[k].ptr == k && allocs[k].IsValid() && allocs[k].NonWrapping()
  }

  ghost predicate ThreadOk(allocs: SiteMap, l: Local) {
    && Sensible(l)
    && (l.Busy? ==>
          && (HasNew(l.op) ==> NewPtr(l.op) + NewSize(l.op) < ADDRESS_SPACE && Clear(allocs, l.op))
          && match l.phase
             case Start => l.op.Realloc? ==> l.op.oldPtr in allocs || NoRangeHolds(allocs, l.op.oldPtr)
             case Fallback => NoRangeHolds(allocs, l.op.oldPtr)
             case Chain(prev) => l.op.oldPtr in allocs && allocs[l.op.oldPtr] == prev
             case Remove => true
             case Insert => l.op.oldPtr !in allocs)
  }

  ghost predicate AllOk(allocs: SiteMap, threads: map<ThreadId, Local>) {
    && TableOk(allocs)
    && (forall t :: t in threads ==> ThreadOk(allocs, threads[t]))
    && (forall t, u :: t in threads && u in threads && t != u && threads[t].Busy? && threads[u].Busy? ==>
          Compatible(threads[t].op, threads[u].op))
  }

  predicate Landed(l: Local) {
    l.Busy? && Sensible(l) && (l.phase.Remove? || l.phase.Insert?)
  }

  /** Reallocs that have taken effect in the serial order and have still to insert their entry. */
  ghost function Arriving(threads: map<ThreadId, Local>): set<Event> {
    set t | t in threads && Landed(threads[t]) :: threads[t].op
  }

  /** Those of them that have still to remove the old entry. */
  ghost function Leaving(threads: map<ThreadId, Local>): set<Event> {
    set t | t in threads && Landed(threads[t]) && threads[t].phase.Remove? :: threads[t].op
  }

  /** The shared table is the serial one up to the removals and insertions still to come. */
  ghost predicate Agrees(serial: SiteMap, shared: SiteMap, arriving: set<Event>, leaving: set<Event>) {
    && leaving <= arriving
    && (forall op :: op in arriving ==>
          && op.Realloc? && op.WellFormed()
          && op.newPtr in serial && serial[op.newPtr] == SiteFor(op, true))
    && (forall k :: k in serial ==>
          (exists op :: op in arriving && op.newPtr == k) || (k in shared && shared[k] == serial[k]))
    && (forall k :: k in shared ==>
          (exists op :: op in leaving && op.oldPtr == k) || (k in serial && serial[k] == shared[k]))
    && (forall op :: op in leaving && op.oldPtr in serial ==> op.oldPtr == op.newPtr)
  }

  predicate LogInRange(c: Config) {
    forall i :: 0 <= i < |c.log| ==> c.log[i] < |c.calls|
  }

  /** The calls in the order in which they took effect. */
  function Serial(c: Config): seq<Event>
    requires LogInRange(c)
  {
    seq(|c.log|, i requires 0 <= i < |c.log| => c.calls[c.log[i]])
  }

  /** The thread's call is in flight and has not taken effect. */
  ghost predicate Waiting(threads: map<ThreadId, Local>, t: ThreadId, call: nat) {
    t in threads && threads[t].Busy? && threads[t].call == call && !Landed(threads[t])
  }

  /** Every call is logged at most once, and is logged unless it is waiting. */
  ghost predicate LogOk(c: Config) {
    && LogInRange(c)
    && (forall i, j :: 0 <= i < j < |c.log| ==> c.log[i] != c.log[j])
    && (forall n: nat :: n < |c.calls| ==> n in c.log || exists t :: Waiting(c.threads, t, n))
    && (forall t :: t in c.threads && c.threads[t].Busy? ==>
          c.threads[t].call < |c.calls| && c.calls[c.threads[t].call] == c.threads[t].op)
    && (forall t, n: nat :: Waiting(c.threads, t, n) ==> n !in c.log)
    && (forall t, u :: t in c.threads && u in c.threads && t != u && c.threads[t].Busy? && c.threads[u].Busy? ==>
          c.threads[t].call != c.threads[u].call)
  }

  ghost predicate Inv(c: Config) {
    && LogOk(c)
    && AllOk(c.allocs, c.threads)
    && AdmissibleRun(Serial(c))
    && c.chains == Run(Serial(c)).chains
    && Agrees(Run(Serial(c)).allocs, c.allocs, Arriving(c.threads), Leaving(c.threads))
  }

  ghost predicate Quiescent(c: Config) {
    forall t :: t in c.threads ==> c.threads[t].Idle?
  }
}
