/**
  The pending rights under the locks: who puts an entry into the table, who
  takes it out, and that it is kept as it is in between.
 */
module LockedPending {
  import opened AllocSites
  import opened AllocationMap
  import opened Provenance
  import opened CriticalSections
  import opened Locks
  import opened LockProofs
  import opened AtomicMarking

  /** The thread is about to execute this instruction on the table, with the table's mutex. */
  ghost predicate AtPending(c: LockState, t: ThreadId, x: Instr) {
    ProgOf(c, t) != [] && ProgOf(c, t)[0] == x && PkeyTid in Held(c, t)
  }

  // ----- one step -----

  lemma PendingHolds(c: LockState, t: ThreadId)
    requires AllDisciplined(c) && ProgOf(c, t) != []
    requires ProgOf(c, t)[0].StorePending? || ProgOf(c, t)[0].TakePending?
    ensures AtPending(c, t, ProgOf(c, t)[0])
  {
    assert Disciplined(Held(c, t), LocalOf(c.core.threads, t), ProgOf(c, t));
  }

  /** Rights are stored only for a thread id that has none pending, and taken whoever they are for. */
  lemma PendingByAct(c: LockState, d: LockState, t: ThreadId)
    requires Act(c, d, t)
    ensures match ProgOf(c, t)[0]
            case StorePending(tid, info) =>
              d.pkeyByTid == if tid in c.pkeyByTid then c.pkeyByTid else c.pkeyByTid[tid := info]
            case TakePending(tid) =>
              tid !in d.pkeyByTid && forall u :: u != tid ==>
                (u in d.pkeyByTid <==> u in c.pkeyByTid) && (u in c.pkeyByTid ==> d.pkeyByTid[u] == c.pkeyByTid[u])
            case _ => d.pkeyByTid == c.pkeyByTid
  {
  }

  /** A new entry is what some thread was about to store, under the mutex. */
  lemma StoredByStep(c: LockState, d: LockState, tid: ThreadId) returns (t: ThreadId)
    requires AllDisciplined(c) && LockNext(c, d) && tid !in c.pkeyByTid && tid in d.pkeyByTid
    ensures AtPending(c, t, StorePending(tid, d.pkeyByTid[tid]))
  {
    if u :| Act(c, d, u) {
      t := u;
      PendingByAct(c, d, t);
      PendingHolds(c, t);
    } else {
      assert false;
    }
  }

  /** An entry is lost only to a thread that was about to take it, under the mutex. */
  lemma TakenByStep(c: LockState, d: LockState, tid: ThreadId) returns (t: ThreadId)
    requires AllDisciplined(c) && LockNext(c, d) && tid in c.pkeyByTid
    ensures (tid in d.pkeyByTid && d.pkeyByTid[tid] == c.pkeyByTid[tid])
            || (tid !in d.pkeyByTid && AtPending(c, t, TakePending(tid)))
  {
    t := tid;
    if u :| Act(c, d, u) {
      t := u;
      PendingByAct(c, d, t);
      if ProgOf(c, t)[0].TakePending? {
        PendingHolds(c, t);
      }
    }
  }

  // ----- whole executions -----

  /** The entry has been in the table, unchanged, since it was stored at step `j`. */
  ghost predicate KeptSince(cs: seq<LockState>, j: nat, i: nat, tid: ThreadId, info: PendingPKeyInfo)
    requires i < |cs|
  {
    forall k :: j < k <= i ==> tid in cs[k].pkeyByTid && cs[k].pkeyByTid[tid] == info
  }

  lemma EntryStep(cs: seq<LockState>, i: nat, tid: ThreadId) returns (t: ThreadId)
    requires LockedExecution(cs) && i < |cs| && tid in cs[i].pkeyByTid
    ensures i > 0
    ensures tid in cs[i - 1].pkeyByTid ==> cs[i - 1].pkeyByTid[tid] == cs[i].pkeyByTid[tid]
    ensures tid !in cs[i - 1].pkeyByTid ==> AtPending(cs[i - 1], t, StorePending(tid, cs[i].pkeyByTid[tid]))
  {
    t := tid;
    StepAt(cs, i);
    if tid in cs[i - 1].pkeyByTid {
      var u := TakenByStep(cs[i - 1], cs[i], tid);
    } else {
      t := StoredByStep(cs[i - 1], cs[i], tid);
    }
  }

  /**
    Every pending entry was stored, under the mutex, when its thread id had none,
    and has been kept as it was stored ever since: later faults do not replace it.
   */
  lemma {:induction false} EntryWasStored(cs: seq<LockState>, i: nat, tid: ThreadId) returns (j: nat, t: ThreadId)
    requires LockedExecution(cs) && i < |cs| && tid in cs[i].pkeyByTid
    ensures j < i && tid !in cs[j].pkeyByTid && AtPending(cs[j], t, StorePending(tid, cs[i].pkeyByTid[tid]))
    ensures KeptSince(cs, j, i, tid, cs[i].pkeyByTid[tid])
  {
    t := EntryStep(cs, i, tid);
    if tid in cs[i - 1].pkeyByTid {
      j, t := EntryWasStored(cs, i - 1, tid);
    } else {
      j := i - 1;
    }
  }

  /** An entry that is no longer there was taken, under the mutex, by a thread that was about to take that one. */
  lemma {:induction false} EntryWasTaken(cs: seq<LockState>, i: nat, m: nat, tid: ThreadId) returns (j: nat, t: ThreadId)
    requires LockedExecution(cs) && i <= m < |cs| && tid in cs[i].pkeyByTid && tid !in cs[m].pkeyByTid
    ensures i <= j < m && AtPending(cs[j], t, TakePending(tid)) && tid !in cs[j + 1].pkeyByTid
    ensures forall k :: i <= k <= j ==> tid in cs[k].pkeyByTid && cs[k].pkeyByTid[tid] == cs[i].pkeyByTid[tid]
    decreases m - i
  {
    StepAt(cs, i + 1);
    t := TakenByStep(cs[i], cs[i + 1], tid);
    if tid in cs[i + 1].pkeyByTid {
      j, t := EntryWasTaken(cs, i + 1, m, tid);
    } else {
      j := i;
    }
  }

  // ----- where stores and takes come from -----

  predicate OnTable(x: Instr) {
    x.StorePending? || x.TakePending?
  }

  lemma ChainAddsNone(c: LockState, d: LockState, t: ThreadId, x: Instr)
    requires Act(c, d, t) && OnTable(x) && x in ProgOf(d, t) && ProgOf(c, t)[0].FindChain?
    ensures x in ProgOf(c, t)[1..]
  {
    var p := ProgOf(c, t);
    var chain := ChainOf(c.core.chains, p[0].id);
    var order :| Enumerates(order, chain.Keys) && ProgOf(d, t) == AncestorMarks(order, chain, p[0].pkey) + p[1..];
    assert x !in AncestorMarks(order, chain, p[0].pkey);
  }

  lemma SectionAddsNone(c: LockState, d: LockState, t: ThreadId, x: Instr)
    requires Act(c, d, t) && OnTable(x) && x in ProgOf(d, t)
    requires ProgOf(c, t)[0].Section? || ProgOf(c, t)[0].FindSite?
    ensures x in ProgOf(c, t)[1..]
  {
  }

  /** An act adds no store and no take to any program. */
  lemma ActAddsNone(c: LockState, d: LockState, t: ThreadId, x: Instr)
    requires AllDisciplined(c) && Act(c, d, t) && OnTable(x) && x in ProgOf(d, t)
    ensures x in ProgOf(c, t)
  {
    if ProgOf(c, t)[0].FindChain? {
      ChainAddsNone(c, d, t, x);
    } else if ProgOf(c, t)[0].Section? || ProgOf(c, t)[0].FindSite? {
      SectionAddsNone(c, d, t, x);
    } else {
      ActPlain(c, d, t);
    }
  }

  /** A store is in a handler for a protection-key fault, a take in one for a trap. */
  ghost predicate HandlerWith(handler: Program, x: Instr) {
    match x
    case StorePending(tid, info) => exists addr, pkey :: handler == SegvHandler(addr, pkey, tid, info)
    case TakePending(pid) => handler == TrapHandler(pid)
    case _ => false
  }

  lemma HandlerHolds(handler: Program, x: Instr)
    requires IsHandler(handler) && OnTable(x) && x in handler
    ensures HandlerWith(handler, x)
  {
  }

  lemma AheadOfSignal(c: LockState, d: LockState, t: ThreadId, u: ThreadId, handler: Program, x: Instr)
    requires Signal(c, d, u, handler) && OnTable(x) && x in ProgOf(d, t) && x !in ProgOf(c, t)
    ensures u == t && HandlerWith(handler, x)
  {
    assert x in handler;
    HandlerHolds(handler, x);
  }

  lemma AheadOfCall(c: LockState, d: LockState, t: ThreadId, u: ThreadId, op: Event, x: Instr)
    requires Call(c, d, u, op) && OnTable(x) && x in ProgOf(d, t)
    ensures x in ProgOf(c, t)
  {
  }

  /** A store or a take is ahead only where it was, or where a signal has just put its handler. */
  lemma AheadByStep(c: LockState, d: LockState, t: ThreadId, x: Instr)
    requires AllDisciplined(c) && LockNext(c, d) && OnTable(x) && x in ProgOf(d, t) && x !in ProgOf(c, t)
    ensures exists handler :: Signal(c, d, t, handler) && HandlerWith(handler, x)
  {
    if u :| Act(c, d, u) {
      if u == t {
        ActAddsNone(c, d, t, x);
      } else {
        ActFrame(c, d, u, t);
      }
    } else if u, op :| Call(c, d, u, op) {
      AheadOfCall(c, d, t, u, op, x);
    } else {
      var u, handler :| Signal(c, d, u, handler);
      AheadOfSignal(c, d, t, u, handler, x);
    }
  }

  /**
    Every store and every take ahead of a thread was brought by a signal
    delivered to that thread: the fault's own handler, for the thread id and the
    rights it stores, or a trap's.
   */
  lemma {:induction false} BroughtBySignal(cs: seq<LockState>, i: nat, t: ThreadId, x: Instr)
    returns (h: nat, handler: Program)
    requires LockedExecution(cs) && i < |cs| && OnTable(x) && x in ProgOf(cs[i], t)
    ensures h < i && Signal(cs[h], cs[h + 1], t, handler) && HandlerWith(handler, x)
  {
    StepAt(cs, i);
    if x in ProgOf(cs[i - 1], t) {
      h, handler := BroughtBySignal(cs, i - 1, t, x);
    } else {
      AheadByStep(cs[i - 1], cs[i], t, x);
      h := i - 1;
      handler :| Signal(cs[h], cs[i], t, handler) && HandlerWith(handler, x);
    }
  }
}
