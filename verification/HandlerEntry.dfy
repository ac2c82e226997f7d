/**
  Why no signal handler may enter while its thread holds a mutex the handler
  needs: the thread would ask for a mutex it holds itself, and no continuation,
  whatever the other threads do, ever lets it go on.
 */
module HandlerEntry {
  import opened AllocSites
  import opened AllocationMap
  import opened Provenance
  import opened CriticalSections
  import opened Locks
  import opened LockProofs
  import opened LockResults

  /** What may follow a state, from any state on. */
  ghost predicate Continuation(cs: seq<LockState>) {
    cs != [] && forall i :: 0 <= i < |cs| - 1 ==> StepFrom(cs, i)
  }

  /** The executions are the continuations of the start. */
  lemma ContinuationIs(cs: seq<LockState>)
    ensures LockedExecution(cs) <==> Continuation(cs) && cs[0] == UNLOCKED
  {
  }

  /** An instruction that neither gives `m` back nor can put a release of it ahead. */
  predicate Keeps(i: Instr, m: Mutex) {
    i != Release(m) && !i.Section? && !(i.FindSite? && m == AllocMap)
  }

  /** The program acquires `m` before it gives `m` back, whatever the tables hold. */
  predicate AsksAgain(p: Program, m: Mutex) {
    p != [] && (p[0] == Acquire(m) || (Keeps(p[0], m) && AsksAgain(p[1..], m)))
  }

  lemma {:induction false} AsksBehind(front: Program, back: Program, m: Mutex)
    requires AsksAgain(back, m) && forall i :: 0 <= i < |front| ==> Keeps(front[i], m)
    ensures AsksAgain(front + back, m)
  {
    if front == [] {
      assert front + back == back;
    } else {
      AsksBehind(front[1..], back, m);
      assert (front + back)[1..] == front[1..] + back;
    }
  }

  lemma {:induction false} AsksInFront(front: Program, back: Program, m: Mutex)
    requires AsksAgain(front, m)
    ensures AsksAgain(front + back, m)
  {
    assert (front + back)[1..] == front[1..] + back;
    if front[0] != Acquire(m) {
      AsksInFront(front[1..], back, m);
    }
  }

  /** The thread holds `m` and will ask for it again. */
  ghost predicate WaitsForItself(c: LockState, t: ThreadId, m: Mutex) {
    m in Held(c, t) && AsksAgain(ProgOf(c, t), m)
  }

  /** The marking of a site asks for both its mutexes before it gives either back. */
  lemma MarkingAsks(site: AllocSite, pkey: UInt32, m: Mutex)
    requires m == FaultSet || m == ReallocMap
    ensures AsksAgain(Marking(site, pkey), m)
  {
    var p := Marking(site, pkey);
    assert p[1..][1..] == p[2..];
    assert p[2] == Acquire(ReallocMap);
  }

  lemma FindKeepsWaiting(c: LockState, d: LockState, t: ThreadId, m: Mutex)
    requires Act(c, d, t) && ProgOf(c, t)[0].FindSite? && m != AllocMap && AsksAgain(ProgOf(c, t)[1..], m)
    ensures AsksAgain(ProgOf(d, t), m)
  {
    var p := ProgOf(c, t);
    var site, pkey := Lookup(c.core.allocs, p[0].addr), p[0].pkey;
    var mark := if site.IsValid() then Marking(site, pkey) else [];
    assert ProgOf(d, t) == [Release(AllocMap)] + (mark + p[1..]);
    if site.IsValid() && m != PkeyTid {
      MarkingAsks(site, pkey, m);
      AsksInFront(mark, p[1..], m);
    } else {
      AsksBehind(mark, p[1..], m);
    }
    AsksBehind([Release(AllocMap)], mark + p[1..], m);
  }

  lemma ChainKeepsWaiting(c: LockState, d: LockState, t: ThreadId, m: Mutex)
    requires Act(c, d, t) && ProgOf(c, t)[0].FindChain? && AsksAgain(ProgOf(c, t)[1..], m)
    ensures AsksAgain(ProgOf(d, t), m)
  {
    var p := ProgOf(c, t);
    var chain := ChainOf(c.core.chains, p[0].id);
    var order :| Enumerates(order, chain.Keys) && ProgOf(d, t) == AncestorMarks(order, chain, p[0].pkey) + p[1..];
    AsksBehind(AncestorMarks(order, chain, p[0].pkey), p[1..], m);
  }

  /** No act of the thread's own brings it past the acquisition. */
  lemma OwnActKeepsWaiting(c: LockState, d: LockState, t: ThreadId, m: Mutex)
    requires WaitsForItself(c, t, m) && Act(c, d, t)
    ensures WaitsForItself(d, t, m)
  {
    var p := ProgOf(c, t);
    ActLocks(c, d, t);
    assert p[0] != Acquire(m);
    if p[0].FindSite? {
      FindKeepsWaiting(c, d, t, m);
    } else if p[0].FindChain? {
      ChainKeepsWaiting(c, d, t, m);
    }
  }

  lemma OtherActKeepsWaiting(c: LockState, d: LockState, t: ThreadId, u: ThreadId, m: Mutex)
    requires WaitsForItself(c, t, m) && Act(c, d, u) && u != t
    ensures WaitsForItself(d, t, m) && ProgOf(d, t) == ProgOf(c, t)
  {
    ActLocks(c, d, u);
    ActProgs(c, d, u);
  }

  lemma StepKeepsWaiting(c: LockState, d: LockState, t: ThreadId, m: Mutex)
    requires WaitsForItself(c, t, m) && LockNext(c, d)
    ensures WaitsForItself(d, t, m)
    ensures ProgOf(c, t)[0] == Acquire(m) ==> ProgOf(d, t) == ProgOf(c, t)
  {
    if u :| Act(c, d, u) {
      if u == t {
        OwnActKeepsWaiting(c, d, t, m);
      } else {
        OtherActKeepsWaiting(c, d, t, u, m);
      }
    } else if u, op :| Call(c, d, u, op) {
      assert u != t;
    } else {
      var u, handler :| Signal(c, d, u, handler);
      assert u != t;
    }
  }

  lemma {:induction false} WaitsForever(cs: seq<LockState>, i: nat, t: ThreadId, m: Mutex)
    requires Continuation(cs) && i < |cs| && WaitsForItself(cs[0], t, m)
    ensures WaitsForItself(cs[i], t, m)
    ensures ProgOf(cs[0], t)[0] == Acquire(m) ==> ProgOf(cs[i], t) == ProgOf(cs[0], t)
  {
    if i > 0 {
      WaitsForever(cs, i - 1, t, m);
      assert StepFrom(cs, i - 1);
      StepKeepsWaiting(cs[i - 1], cs[i], t, m);
    }
  }

  // ----- the results -----

  /** At the acquisition of a mutex that its own thread holds, a thread never acts again. */
  lemma NeverActsAgain(cs: seq<LockState>, i: nat, t: ThreadId, m: Mutex)
    requires Continuation(cs) && i < |cs|
    requires m in Held(cs[0], t) && ProgOf(cs[0], t) != [] && ProgOf(cs[0], t)[0] == Acquire(m)
    ensures ProgOf(cs[i], t) == ProgOf(cs[0], t) && m in Held(cs[i], t) && !CanAct(cs[i], t)
  {
    WaitsForever(cs, i, t, m);
  }

  lemma HandlerAsks(handler: Program, m: Mutex)
    requires IsHandler(handler) && Acquire(m) in handler
    ensures AsksAgain(handler, m)
  {
    if |handler| == 8 && m == PkeyTid {
      var front, back := handler[..5], handler[5..];
      assert back[0] == Acquire(PkeyTid);
      AsksBehind(front, back, m);
      assert front + back == handler;
    }
  }

  /**
    A handler entered while its thread holds a mutex that the handler acquires:
    in no continuation does the thread give the mutex back or finish, and if it is
    the first mutex the handler asks for, the thread never acts again at all.
   */
  lemma HandlerUnderLockIsStuck(cs: seq<LockState>, i: nat, t: ThreadId, m: Mutex, handler: Program, rest: Program)
    requires Continuation(cs) && i < |cs|
    requires IsHandler(handler) && Acquire(m) in handler
    requires ProgOf(cs[0], t) == handler + rest && m in Held(cs[0], t)
    ensures m in Held(cs[i], t) && ProgOf(cs[i], t) != []
    ensures handler[0] == Acquire(m) ==> ProgOf(cs[i], t) == handler + rest && !CanAct(cs[i], t)
  {
    HandlerAsks(handler, m);
    AsksInFront(handler, rest, m);
    WaitsForever(cs, i, t, m);
    if handler[0] == Acquire(m) {
      NeverActsAgain(cs, i, t, m);
    }
  }

  lemma FoundUnderLockWaits(c: LockState, d: LockState, t: ThreadId, m: Mutex, site: AllocSite)
    requires m == FaultSet || m == ReallocMap
    requires m in Held(c, t) && Act(c, d, t) && ProgOf(c, t)[0].FindSite?
    requires site == Lookup(c.core.allocs, ProgOf(c, t)[0].addr) && site.IsValid()
    ensures WaitsForItself(d, t, m)
  {
    var mark, rest := Marking(site, ProgOf(c, t)[0].pkey), ProgOf(c, t)[1..];
    MarkingAsks(site, ProgOf(c, t)[0].pkey, m);
    AsksInFront(mark, rest, m);
    assert ProgOf(d, t) == [Release(AllocMap)] + (mark + rest);
    AsksBehind([Release(AllocMap)], mark + rest, m);
    ActLocks(c, d, t);
  }

  lemma Later(cs: seq<LockState>)
    requires Continuation(cs) && |cs| > 1
    ensures Continuation(cs[1..])
  {
    forall k | 0 <= k < |cs[1..]| - 1 ensures StepFrom(cs[1..], k) {
      assert StepFrom(cs, k + 1);
    }
  }

  /**
    The two mutexes of a marking are needed once the site of the address is
    found: from that lookup on, a thread that holds one of them is stuck too.
   */
  lemma MarkingUnderLockIsStuck(cs: seq<LockState>, i: nat, t: ThreadId, m: Mutex)
    requires Continuation(cs) && 0 < i < |cs|
    requires m == FaultSet || m == ReallocMap
    requires m in Held(cs[0], t) && Act(cs[0], cs[1], t) && ProgOf(cs[0], t)[0].FindSite?
    requires Lookup(cs[0].core.allocs, ProgOf(cs[0], t)[0].addr).IsValid()
    ensures m in Held(cs[i], t) && ProgOf(cs[i], t) != []
  {
    FoundUnderLockWaits(cs[0], cs[1], t, m, Lookup(cs[0].core.allocs, ProgOf(cs[0], t)[0].addr));
    Later(cs);
    WaitsForever(cs[1..], i - 1, t, m);
  }
}
