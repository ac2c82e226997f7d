/**
  Serialisability of the hooks: every interleaving of critical sections leaves
  the tables as some serial run of the same calls does, and that serial run is
  one the allocator could have produced, so all that is proved of serial runs
  carries over.
 */
module SerialOrder {
  import opened AllocSites
  import opened AllocationMap
  import opened Provenance
  import opened CriticalSections

  // ----- the shared table and the calls in flight -----

  /** An insertion never finds its key taken. */
  lemma NewPtrAbsent(allocs: SiteMap, l: Local)
    requires TableOk(allocs) && ThreadOk(allocs, l) && l.Busy? && HasNew(l.op)
    requires l.op.Alloc? || l.phase.Fallback? || l.phase.Insert?
    ensures NewPtr(l.op) !in allocs
  {
    var p := NewPtr(l.op);
    assert p in allocs ==> allocs[p].IsValid();
  }

  lemma InsertKeepsThread(allocs: SiteMap, op: Event, isRealloc: bool, l: Local)
    requires HasNew(op) && op.WellFormed() && ThreadOk(allocs, l)
    requires l.Busy? ==> Compatible(op, l.op)
    ensures ThreadOk(allocs[NewPtr(op) := SiteFor(op, isRealloc)], l)
  {
  }

  lemma RemoveKeepsThread(allocs: SiteMap, op: Event, l: Local)
    requires HasOld(op) && ThreadOk(allocs, l)
    requires l.Busy? ==> Compatible(op, l.op)
    ensures ThreadOk(allocs - {OldPtr(op)}, l)
  {
  }

  /** Replacing one thread's state keeps the whole in order when the rest already is. */
  lemma ReplaceThread(allocs: SiteMap, before: SiteMap, threads: map<ThreadId, Local>, t: ThreadId, l: Local)
    requires AllOk(before, threads) && TableOk(allocs) && ThreadOk(allocs, l)
    requires forall u :: u in threads && u != t ==> ThreadOk(allocs, threads[u])
    requires l.Busy? ==> forall u :: u in threads && u != t && threads[u].Busy? ==> Compatible(l.op, threads[u].op)
    ensures AllOk(allocs, threads[t := l])
  {
    var after := threads[t := l];
    forall u, v | u in after && v in after && u != v && after[u].Busy? && after[v].Busy?
      ensures Compatible(after[u].op, after[v].op)
    {
      if v == t {
        assert Compatible(after[v].op, after[u].op);
      }
    }
  }

  lemma BeginKeepsAll(c: Config, t: ThreadId, op: Event)
    requires AllOk(c.allocs, c.threads) && CanBegin(c, t, op)
    ensures AllOk(c.allocs, Begin(c, t, op).threads)
  {
    ReplaceThread(c.allocs, c.allocs, c.threads, t, Busy(op, Start, |c.calls|));
  }

  lemma InsertKeepsAll(allocs: SiteMap, threads: map<ThreadId, Local>, t: ThreadId, isRealloc: bool)
    requires AllOk(allocs, threads) && t in threads && threads[t].Busy?
    requires threads[t].op.Alloc? || threads[t].phase.Fallback? || threads[t].phase.Insert?
    ensures var op := threads[t].op;
            && NewPtr(op) !in allocs
            && AllOk(allocs[NewPtr(op) := SiteFor(op, isRealloc)], threads[t := Idle])
  {
    var op := threads[t].op;
    NewPtrAbsent(allocs, threads[t]);
    var after := allocs[NewPtr(op) := SiteFor(op, isRealloc)];
    forall u | u in threads && u != t ensures ThreadOk(after, threads[u]) {
      InsertKeepsThread(allocs, op, isRealloc, threads[u]);
    }
    ReplaceThread(after, allocs, threads, t, Idle);
  }

  lemma RemoveKeepsAll(allocs: SiteMap, threads: map<ThreadId, Local>, t: ThreadId, l: Local)
    requires AllOk(allocs, threads) && t in threads && threads[t].Busy? && HasOld(threads[t].op)
    requires ThreadOk(allocs - {OldPtr(threads[t].op)}, l)
    requires l.Busy? ==> l.op == threads[t].op
    ensures AllOk(allocs - {OldPtr(threads[t].op)}, threads[t := l])
  {
    var op := threads[t].op;
    var after := allocs - {OldPtr(op)};
    forall u | u in threads && u != t ensures ThreadOk(after, threads[u]) {
      RemoveKeepsThread(allocs, op, threads[u]);
    }
    ReplaceThread(after, allocs, threads, t, l);
  }

  /** What the first section of a realloc reads is the site it will chain from, or nothing. */
  lemma ReadDecides(allocs: SiteMap, l: Local)
    requires TableOk(allocs) && ThreadOk(allocs, l) && l.Busy? && l.op.Realloc? && l.phase.Start?
    ensures var prev := Lookup(allocs, l.op.oldPtr);
            if l.op.oldPtr in allocs then prev == allocs[l.op.oldPtr] && prev.IsValid()
            else prev == ERROR && NoRangeHolds(allocs, l.op.oldPtr)
  {
    var p := l.op.oldPtr;
    if p !in allocs {
      forall k | k in allocs ensures !allocs[k].ContainsPtr(p) {
        ContainsPtrMeaning(allocs[k], p);
      }
      LookupMisses(allocs, p);
    }
  }

  lemma ExecKeepsAll(c: Config, t: ThreadId)
    requires AllOk(c.allocs, c.threads) && CanExec(c, t)
    ensures AllOk(Exec(c, t).allocs, Exec(c, t).threads)
  {
    var l := c.threads[t];
    match l.phase
    case Start =>
      if l.op.Alloc? {
        InsertKeepsAll(c.allocs, c.threads, t, false);
      } else if l.op.Dealloc? {
        RemoveKeepsAll(c.allocs, c.threads, t, Idle);
      } else {
        ReadDecides(c.allocs, l);
        ReplaceThread(c.allocs, c.allocs, c.threads, t, Exec(c, t).threads[t]);
      }
    case Fallback =>
      InsertKeepsAll(c.allocs, c.threads, t, false);
    case Chain(_) =>
      ReplaceThread(c.allocs, c.allocs, c.threads, t, l.(phase := Remove));
    case Remove =>
      RemoveKeepsAll(c.allocs, c.threads, t, l.(phase := Insert));
    case Insert =>
      InsertKeepsAll(c.allocs, c.threads, t, true);
  }

  // ----- the shared table against the serial one -----

  lemma ArrivingThread(threads: map<ThreadId, Local>, op: Event) returns (t: ThreadId)
    requires op in Arriving(threads)
    ensures t in threads && Landed(threads[t]) && threads[t].op == op
    ensures op in Leaving(threads) ==> exists u ::
              u in threads && Landed(threads[u]) && threads[u].phase.Remove? && threads[u].op == op
  {
    t :| t in threads && Landed(threads[t]) && threads[t].op == op;
  }

  /** A waiting call shares nothing with any call that has landed. */
  lemma WaitingApart(shared: SiteMap, threads: map<ThreadId, Local>, t: ThreadId, other: Event)
    requires AllOk(shared, threads) && t in threads && threads[t].Busy? && !Landed(threads[t])
    requires other in Arriving(threads)
    ensures Compatible(threads[t].op, other)
  {
    var u := ArrivingThread(threads, other);
  }

  /** A thread whose call has not landed can change state without showing in either set. */
  lemma NotLanding(threads: map<ThreadId, Local>, t: ThreadId, l: Local)
    requires !Landed(LocalOf(threads, t)) && !Landed(l)
    ensures Arriving(threads[t := l]) == Arriving(threads) && Leaving(threads[t := l]) == Leaving(threads)
  {
    var after := threads[t := l];
    forall op | op in Arriving(threads)
      ensures op in Arriving(after) && (op in Leaving(threads) ==> op in Leaving(after))
    {
      var u := ArrivingThread(threads, op);
      assert u != t && after[u] == threads[u];
      if op in Leaving(threads) {
        u :| u in threads && Landed(threads[u]) && threads[u].phase.Remove? && threads[u].op == op;
        assert u != t && after[u] == threads[u];
      }
    }
  }

  lemma Landing(threads: map<ThreadId, Local>, t: ThreadId)
    requires t in threads && threads[t].Busy? && threads[t].phase.Chain? && Sensible(threads[t])
    ensures var op := threads[t].op;
            var after := threads[t := threads[t].(phase := Remove)];
            && Arriving(after) == Arriving(threads) + {op}
            && Leaving(after) == Leaving(threads) + {op}
  {
    var after := threads[t := threads[t].(phase := Remove)];
    assert threads == after[t := threads[t]];
    assert forall u :: u in threads && u != t ==> after[u] == threads[u];
    assert Landed(after[t]) && after[t].phase.Remove?;
    forall op | op in Arriving(threads)
      ensures op in Arriving(after) && (op in Leaving(threads) ==> op in Leaving(after))
    {
      var u := ArrivingThread(threads, op);
      assert u != t && after[u] == threads[u];
      if op in Leaving(threads) {
        u :| u in threads && Landed(threads[u]) && threads[u].phase.Remove? && threads[u].op == op;
        assert u != t && after[u] == threads[u];
      }
    }
  }

  /** No two threads in flight run the same landed call. */
  lemma LandedAlone(shared: SiteMap, threads: map<ThreadId, Local>, t: ThreadId, u: ThreadId)
    requires AllOk(shared, threads) && t in threads && Landed(threads[t])
    requires u in threads && threads[u].Busy? && threads[u].op == threads[t].op
    ensures u == t
  {
    assert !Compatible(threads[t].op, threads[t].op);
  }

  /** After the removal the call is still arriving, but no longer leaving. */
  lemma Removed(shared: SiteMap, threads: map<ThreadId, Local>, t: ThreadId)
    requires AllOk(shared, threads) && t in threads && Landed(threads[t]) && threads[t].phase.Remove?
    ensures var op := threads[t].op;
            var after := threads[t := threads[t].(phase := Insert)];
            && op in Leaving(threads)
            && Arriving(after) == Arriving(threads)
            && Leaving(after) == Leaving(threads) - {op}
  {
    var after := threads[t := threads[t].(phase := Insert)];
    assert Landed(after[t]);
    forall u | u in threads && threads[u].Busy? && threads[u].op == threads[t].op ensures u == t {
      LandedAlone(shared, threads, t, u);
    }
    forall op | op in Arriving(threads) ensures op in Arriving(after) {
      var u := ArrivingThread(threads, op);
      assert after[u].op == op;
    }
    forall op | op in Leaving(threads) && op != threads[t].op ensures op in Leaving(after) {
      var u :| u in threads && Landed(threads[u]) && threads[u].phase.Remove? && threads[u].op == op;
      assert after[u] == threads[u];
    }
  }

  lemma Inserted(shared: SiteMap, threads: map<ThreadId, Local>, t: ThreadId)
    requires AllOk(shared, threads) && t in threads && Landed(threads[t]) && threads[t].phase.Insert?
    ensures var op := threads[t].op;
            var after := threads[t := Idle];
            && op in Arriving(threads) && op !in Leaving(threads)
            && Arriving(after) == Arriving(threads) - {op}
            && Leaving(after) == Leaving(threads)
  {
    var after := threads[t := Idle];
    forall u | u in threads && threads[u].Busy? && threads[u].op == threads[t].op ensures u == t {
      LandedAlone(shared, threads, t, u);
    }
    forall op | op in Arriving(threads) && op != threads[t].op ensures op in Arriving(after) {
      var u := ArrivingThread(threads, op);
      assert after[u] == threads[u];
    }
    forall op | op in Leaving(threads) ensures op in Leaving(after) {
      var u :| u in threads && Landed(threads[u]) && threads[u].phase.Remove? && threads[u].op == op;
      assert after[u] == threads[u];
    }
  }

  // ----- how the two tables move -----

  /** Alloc and fallback insertions take effect on both tables at once. */
  lemma AgreesInsertBoth(serial: SiteMap, shared: SiteMap, arriving: set<Event>, leaving: set<Event>,
                         p: Ptr, site: AllocSite)
    requires Agrees(serial, shared, arriving, leaving)
    requires forall op :: op in arriving ==> op.newPtr != p && op.oldPtr != p
    ensures Agrees(serial[p := site], shared[p := site], arriving, leaving)
  {
  }

  lemma AgreesRemoveBoth(serial: SiteMap, shared: SiteMap, arriving: set<Event>, leaving: set<Event>, p: Ptr)
    requires Agrees(serial, shared, arriving, leaving)
    requires forall op :: op in arriving ==> op.newPtr != p
    ensures Agrees(serial - {p}, shared - {p}, arriving, leaving)
  {
  }

  lemma ChainInSerial(serial: SiteMap, shared: SiteMap, arriving: set<Event>, e: Event, after: SiteMap, k: Ptr)
    requires e.Realloc? && e.WellFormed() && after == (serial - {e.oldPtr})[e.newPtr := SiteFor(e, true)] && k in after
    requires k in serial ==> (exists op :: op in arriving && op.Realloc? && op.newPtr == k)
                             || (k in shared && shared[k] == serial[k])
    ensures (exists op :: op in arriving + {e} && op.Realloc? && op.newPtr == k)
            || (k in shared && shared[k] == after[k])
  {
    if k == e.newPtr {
      assert e in arriving + {e};
    } else if op :| op in arriving && op.Realloc? && op.newPtr == k {
      assert op in arriving + {e};
    }
  }

  lemma ChainInShared(serial: SiteMap, shared: SiteMap, leaving: set<Event>, e: Event, after: SiteMap, k: Ptr)
    requires e.Realloc? && e.WellFormed() && after == (serial - {e.oldPtr})[e.newPtr := SiteFor(e, true)] && k in shared
    requires e.newPtr in shared ==> e.newPtr == e.oldPtr
    requires (exists op :: op in leaving && op.Realloc? && op.oldPtr == k) || (k in serial && serial[k] == shared[k])
    ensures (exists op :: op in leaving + {e} && op.Realloc? && op.oldPtr == k) || (k in after && after[k] == shared[k])
  {
    if k == e.oldPtr {
      assert e in leaving + {e};
    } else if op :| op in leaving && op.Realloc? && op.oldPtr == k {
      assert op in leaving + {e};
    }
  }

  /** The chain update: the whole realloc takes effect serially, the shared table is still untouched. */
  lemma AgreesChain(serial: SiteMap, shared: SiteMap, arriving: set<Event>, leaving: set<Event>, e: Event)
    requires Agrees(serial, shared, arriving, leaving)
    requires e.Realloc? && e.WellFormed() && e.newPtr !in serial - {e.oldPtr}
    requires e.newPtr in shared ==> e.newPtr == e.oldPtr
    requires forall op :: op in arriving ==>
               op.newPtr != e.newPtr && op.oldPtr != e.newPtr && op.newPtr != e.oldPtr && op.oldPtr != e.oldPtr
    ensures Agrees((serial - {e.oldPtr})[e.newPtr := SiteFor(e, true)], shared, arriving + {e}, leaving + {e})
  {
    var after := (serial - {e.oldPtr})[e.newPtr := SiteFor(e, true)];
    forall k | k in after
      ensures (exists op :: op in arriving + {e} && op.newPtr == k) || (k in shared && shared[k] == after[k])
    {
      ChainInSerial(serial, shared, arriving, e, after, k);
    }
    forall k | k in shared
      ensures (exists op :: op in leaving + {e} && op.oldPtr == k) || (k in after && after[k] == shared[k])
    {
      ChainInShared(serial, shared, leaving, e, after, k);
    }
  }

  lemma AgreesRemoveShared(serial: SiteMap, shared: SiteMap, arriving: set<Event>, leaving: set<Event>, e: Event)
    requires Agrees(serial, shared, arriving, leaving) && e in leaving
    ensures Agrees(serial, shared - {e.oldPtr}, arriving, leaving - {e})
  {
    forall k | k in shared - {e.oldPtr}
      ensures (exists op :: op in leaving - {e} && op.oldPtr == k) || (k in serial && serial[k] == shared[k])
    {
      if op :| op in leaving && op.oldPtr == k {
        assert op in leaving - {e};
      }
    }
  }

  lemma AgreesInsertShared(serial: SiteMap, shared: SiteMap, arriving: set<Event>, leaving: set<Event>, e: Event)
    requires Agrees(serial, shared, arriving, leaving) && e in arriving && e !in leaving
    ensures Agrees(serial, shared[e.newPtr := SiteFor(e, true)], arriving - {e}, leaving)
  {
    var grown := shared[e.newPtr := SiteFor(e, true)];
    forall k | k in serial
      ensures (exists op :: op in arriving - {e} && op.newPtr == k) || (k in grown && grown[k] == serial[k])
    {
      if op :| op in arriving && op.newPtr == k {
        assert op != e ==> op in arriving - {e};
      }
    }
  }

  // ----- a call that takes effect continues the serial run -----

  lemma ExtendRun(es: seq<Event>, op: Event)
    requires AdmissibleRun(es) && op.WellFormed() && Admissible(LiveAfter(es), op)
    ensures AdmissibleRun(es + [op])
    ensures Run(es + [op]) == Step(Run(es), op)
  {
    var longer := es + [op];
    assert longer[..|es|] == es;
    forall i | 0 <= i < |longer| ensures longer[i].WellFormed() && Admissible(LiveAfter(longer[..i]), longer[i]) {
      if i < |es| {
        assert longer[..i] == es[..i];
      }
    }
  }

  /** What is clear of the shared table, and of the blocks being moved, is clear of the serial one. */
  lemma ClearSerially(serial: SiteMap, shared: SiteMap, arriving: set<Event>, leaving: set<Event>, op: Event)
    requires Agrees(serial, shared, arriving, leaving) && forall e :: e in arriving ==> Compatible(op, e)
    requires HasNew(op) && Clear(shared, op)
    ensures Clear(serial, op)
  {
  }

  lemma OldSerially(serial: SiteMap, shared: SiteMap, arriving: set<Event>, leaving: set<Event>, op: Event, p: Ptr)
    requires Agrees(serial, shared, arriving, leaving) && forall e :: e in arriving ==> Compatible(op, e)
    requires HasOld(op) && p == OldPtr(op)
    ensures p in serial <==> p in shared
    ensures p in shared ==> serial[p] == shared[p]
    ensures NoRangeHolds(shared, p) ==> NoRangeHolds(serial, p)
  {
  }

  lemma AllApart(shared: SiteMap, threads: map<ThreadId, Local>, t: ThreadId, op: Event)
    requires AllOk(shared, threads) && t in threads && threads[t].Busy? && !Landed(threads[t]) && op == threads[t].op
    ensures forall e :: e in Arriving(threads) ==> Compatible(op, e)
  {
    forall e | e in Arriving(threads) ensures Compatible(op, e) {
      WaitingApart(shared, threads, t, e);
    }
  }

  /** The call's new range is clear of the serial table, and its old pointer looks the same there. */
  lemma SerialView(serial: SiteMap, shared: SiteMap, threads: map<ThreadId, Local>, t: ThreadId)
    requires AllOk(shared, threads) && Agrees(serial, shared, Arriving(threads), Leaving(threads))
    requires t in threads && threads[t].Busy? && !Landed(threads[t])
    ensures HasNew(threads[t].op) ==> Clear(serial, threads[t].op)
    ensures HasOld(threads[t].op) ==>
              var p := OldPtr(threads[t].op);
              && (p in serial <==> p in shared)
              && (p in shared ==> serial[p] == shared[p])
              && (NoRangeHolds(shared, p) ==> NoRangeHolds(serial, p))
  {
    var op := threads[t].op;
    AllApart(shared, threads, t, op);
    if HasNew(op) {
      ClearSerially(serial, shared, Arriving(threads), Leaving(threads), op);
    }
    if HasOld(op) {
      OldSerially(serial, shared, Arriving(threads), Leaving(threads), op, OldPtr(op));
    }
  }

  /** A call about to take effect is one the allocator could have made at this point of the serial run. */
  lemma AdmissibleNow(es: seq<Event>, shared: SiteMap, threads: map<ThreadId, Local>, t: ThreadId)
    requires AdmissibleRun(es)
    requires AllOk(shared, threads) && Agrees(Run(es).allocs, shared, Arriving(threads), Leaving(threads))
    requires t in threads && threads[t].Busy? && !Landed(threads[t])
    requires threads[t].op.Realloc? ==> !threads[t].phase.Start?
    ensures Admissible(LiveAfter(es), threads[t].op)
  {
    var op := threads[t].op;
    var heap, table := LiveAfter(es), Run(es).allocs;
    SerialView(table, shared, threads, t);
    TableIsLiveBlocks(es);
    TableWellFormed(heap);
    if HasNew(op) {
      forall p | p in heap && !(op.Realloc? && p == op.oldPtr)
        ensures p + heap[p].size <= NewPtr(op) || NewPtr(op) + NewSize(op) <= p
      {
        assert p in table && Apart(p, table[p].size, NewPtr(op), NewSize(op));
      }
    }
    if op.Realloc? && op.oldPtr !in heap {
      assert NoRangeHolds(table, op.oldPtr);
      forall p | p in heap ensures !Within(heap, p, op.oldPtr) {
        assert p in table && table[p].size == heap[p].size;
      }
    }
  }

  lemma SerialAppend(c: Config, d: Config, call: nat)
    requires LogInRange(c) && call < |c.calls|
    requires d.calls == c.calls && d.log == c.log + [call]
    ensures LogInRange(d) && Serial(d) == Serial(c) + [c.calls[call]]
  {
  }

  // ----- every step keeps the invariant -----

  ghost predicate TablesOk(c: Config) {
    && LogInRange(c)
    && AllOk(c.allocs, c.threads)
    && AdmissibleRun(Serial(c))
    && c.chains == Run(Serial(c)).chains
    && Agrees(Run(Serial(c)).allocs, c.allocs, Arriving(c.threads), Leaving(c.threads))
  }

  lemma BeginKeepsTables(c: Config, t: ThreadId, op: Event)
    requires TablesOk(c) && CanBegin(c, t, op)
    ensures TablesOk(Begin(c, t, op))
  {
    var d := Begin(c, t, op);
    assert Serial(d) == Serial(c);
    BeginKeepsAll(c, t, op);
    NotLanding(c.threads, t, d.threads[t]);
  }

  /** A waiting call continues the serial run. */
  lemma Continues(c: Config, t: ThreadId, es: seq<Event>, op: Event)
    requires TablesOk(c) && es == Serial(c) && t in c.threads && c.threads[t].Busy? && op == c.threads[t].op
    requires !Landed(c.threads[t]) && (op.Realloc? ==> !c.threads[t].phase.Start?)
    ensures op.WellFormed() && Admissible(LiveAfter(es), op)
    ensures AdmissibleRun(es + [op]) && Run(es + [op]) == Step(Run(es), op)
  {
    assert ThreadOk(c.allocs, c.threads[t]);
    AdmissibleNow(es, c.allocs, c.threads, t);
    ExtendRun(es, op);
  }

  /** An insertion that takes effect at once does so on both tables. */
  lemma InsertTakesEffect(c: Config, t: ThreadId, es: seq<Event>, op: Event, site: AllocSite)
    requires TablesOk(c) && es == Serial(c) && t in c.threads && c.threads[t].Busy? && op == c.threads[t].op
    requires op.Alloc? || (op.Realloc? && c.threads[t].phase.Fallback?)
    requires op.WellFormed() && Admissible(LiveAfter(es), op) && site == SiteFor(op, false)
    ensures NewPtr(op) !in c.allocs && Step(Run(es), op).chains == Run(es).chains
    ensures Agrees(Step(Run(es), op).allocs, c.allocs[NewPtr(op) := site], Arriving(c.threads), Leaving(c.threads))
  {
    assert ThreadOk(c.allocs, c.threads[t]);
    AllApart(c.allocs, c.threads, t, op);
    SerialView(Run(es).allocs, c.allocs, c.threads, t);
    NewPtrAbsent(c.allocs, c.threads[t]);
    SerialAbsent(es, op);
    SerialFallback(es, op);
    AgreesInsertBoth(Run(es).allocs, c.allocs, Arriving(c.threads), Leaving(c.threads), NewPtr(op), site);
  }

  lemma RemoveTakesEffect(c: Config, t: ThreadId, es: seq<Event>, op: Event)
    requires TablesOk(c) && es == Serial(c) && t in c.threads && c.threads[t].Busy? && op == c.threads[t].op
    requires op.Dealloc? && !Landed(c.threads[t])
    ensures Agrees(Step(Run(es), op).allocs, c.allocs - {op.ptr}, Arriving(c.threads), Leaving(c.threads))
  {
    AllApart(c.allocs, c.threads, t, op);
    AgreesRemoveBoth(Run(es).allocs, c.allocs, Arriving(c.threads), Leaving(c.threads), op.ptr);
  }

  /** Sections that end an alloc, a dealloc or a fallback realloc take effect there and then. */
  lemma EffectKeepsTables(c: Config, t: ThreadId)
    requires TablesOk(c) && CanExec(c, t) && c.threads[t].call < |c.calls|
    requires c.calls[c.threads[t].call] == c.threads[t].op
    requires c.threads[t].phase.Fallback? || (c.threads[t].phase.Start? && !c.threads[t].op.Realloc?)
    ensures TablesOk(Exec(c, t))
  {
    var l, es := c.threads[t], Serial(c);
    ExecKeepsAll(c, t);
    SerialAppend(c, Exec(c, t), l.call);
    Continues(c, t, es, l.op);
    NotLanding(c.threads, t, Idle);
    if l.op.Dealloc? {
      RemoveTakesEffect(c, t, es, l.op);
    } else {
      InsertTakesEffect(c, t, es, l.op, SiteFor(l.op, false));
    }
  }

  /** A new block's base is not a key of the serial table, unless it is the block being reallocated. */
  lemma SerialAbsent(es: seq<Event>, op: Event)
    requires AdmissibleRun(es) && HasNew(op) && op.WellFormed() && Admissible(LiveAfter(es), op)
    ensures op.Alloc? || op.oldPtr !in Run(es).allocs ==> NewPtr(op) !in Run(es).allocs
    ensures op.Realloc? ==> op.newPtr !in Run(es).allocs - {op.oldPtr}
  {
    TableIsLiveBlocks(es);
    var heap := LiveAfter(es);
    var block := Block(NewSize(op), op.at, false, []);
    if op.Realloc? {
      RemoveBlock(heap, op.oldPtr);
      AddBlock(heap - {op.oldPtr}, op.newPtr, block);
    } else {
      AddBlock(heap, NewPtr(op), block);
    }
  }

  /** What a realloc does serially, by whether its old pointer is tracked. */
  lemma SerialFallback(es: seq<Event>, op: Event)
    requires AdmissibleRun(es) && op.WellFormed() && Admissible(LiveAfter(es), op)
    ensures op.Realloc? && op.oldPtr !in Run(es).allocs ==>
              Step(Run(es), op) == Run(es).(allocs := Emplace(Run(es).allocs, op.newPtr, SiteFor(op, false)))
    ensures op.Realloc? && op.oldPtr in Run(es).allocs ==>
              Step(Run(es), op) == Run(es).(
                chains := ExtendChain(Run(es).chains, Run(es).allocs[op.oldPtr], SiteFor(op, true)),
                allocs := Emplace(Run(es).allocs - {op.oldPtr}, op.newPtr, SiteFor(op, true)))
  {
    if op.Realloc? {
      TableIsLiveBlocks(es);
      LookupInTable(LiveAfter(es), op.oldPtr);
      if op.oldPtr in LiveAfter(es) {
        assert Within(LiveAfter(es), op.oldPtr, op.oldPtr);
      }
    }
  }

  lemma ReadKeepsTables(c: Config, t: ThreadId)
    requires TablesOk(c) && CanExec(c, t) && c.threads[t].phase.Start? && c.threads[t].op.Realloc?
    ensures TablesOk(Exec(c, t))
  {
    var d := Exec(c, t);
    assert Serial(d) == Serial(c);
    ExecKeepsAll(c, t);
    NotLanding(c.threads, t, d.threads[t]);
  }

  /** The chain update takes effect on the serial table, and starts the move on the shared one. */
  lemma ChainTakesEffect(c: Config, t: ThreadId, es: seq<Event>, op: Event, site: AllocSite)
    requires TablesOk(c) && es == Serial(c) && t in c.threads && c.threads[t].Busy? && op == c.threads[t].op
    requires op.Realloc? && c.threads[t].phase.Chain? && op.WellFormed() && Admissible(LiveAfter(es), op)
    requires site == SiteFor(op, true)
    ensures Step(Run(es), op).chains == ExtendChain(Run(es).chains, c.threads[t].phase.prev, site)
    ensures Agrees(Step(Run(es), op).allocs, c.allocs, Arriving(c.threads) + {op}, Leaving(c.threads) + {op})
  {
    assert ThreadOk(c.allocs, c.threads[t]);
    AllApart(c.allocs, c.threads, t, op);
    SerialView(Run(es).allocs, c.allocs, c.threads, t);
    SerialAbsent(es, op);
    SerialFallback(es, op);
    ClearKey(c.allocs, op);
    AgreesChain(Run(es).allocs, c.allocs, Arriving(c.threads), Leaving(c.threads), op);
  }

  lemma ChainKeepsTables(c: Config, t: ThreadId)
    requires TablesOk(c) && CanExec(c, t) && c.threads[t].call < |c.calls|
    requires c.calls[c.threads[t].call] == c.threads[t].op && c.threads[t].phase.Chain?
    ensures TablesOk(Exec(c, t))
  {
    var l, es := c.threads[t], Serial(c);
    ExecKeepsAll(c, t);
    SerialAppend(c, Exec(c, t), l.call);
    Continues(c, t, es, l.op);
    ChainTakesEffect(c, t, es, l.op, SiteFor(l.op, true));
    Landing(c.threads, t);
  }

  lemma ClearKey(allocs: SiteMap, op: Event)
    requires TableOk(allocs) && op.Realloc? && op.WellFormed() && Clear(allocs, op)
    ensures op.newPtr in allocs ==> op.newPtr == op.oldPtr
  {
    assert op.newPtr in allocs ==> allocs[op.newPtr].IsValid();
  }

  lemma TailKeepsTables(c: Config, t: ThreadId)
    requires TablesOk(c) && CanExec(c, t) && Landed(c.threads[t])
    ensures TablesOk(Exec(c, t))
  {
    var l, d := c.threads[t], Exec(c, t);
    var serial := Run(Serial(c)).allocs;
    assert Serial(d) == Serial(c);
    ExecKeepsAll(c, t);
    if l.phase.Remove? {
      Removed(c.allocs, c.threads, t);
      AgreesRemoveShared(serial, c.allocs, Arriving(c.threads), Leaving(c.threads), l.op);
    } else {
      Inserted(c.allocs, c.threads, t);
      NewPtrAbsent(c.allocs, l);
      AgreesInsertShared(serial, c.allocs, Arriving(c.threads), Leaving(c.threads), l.op);
    }
  }

  lemma BeginKeepsLog(c: Config, t: ThreadId, op: Event)
    requires LogOk(c) && CanBegin(c, t, op)
    ensures LogOk(Begin(c, t, op))
  {
    var d := Begin(c, t, op);
    forall n: nat | n < |d.calls| ensures n in d.log || exists u :: Waiting(d.threads, u, n) {
      if n == |c.calls| {
        assert Waiting(d.threads, t, n);
      } else if n !in c.log {
        var u :| Waiting(c.threads, u, n);
        assert Waiting(d.threads, u, n);
      }
    }
    forall u, n: nat | Waiting(d.threads, u, n) ensures n !in d.log {
      assert u == t || Waiting(c.threads, u, n);
    }
  }

  /** Thread `t` moves on: its call either stays as it was, or is logged and stops waiting. */
  lemma MoveKeepsLog(c: Config, d: Config, t: ThreadId, call: nat)
    requires LogOk(c) && t in c.threads && c.threads[t].Busy? && call == c.threads[t].call
    requires d.calls == c.calls && t in d.threads && d.threads == c.threads[t := d.threads[t]]
    requires d.threads[t].Busy? ==> d.threads[t].call == call && d.threads[t].op == c.threads[t].op
    requires if d.log == c.log then Waiting(c.threads, t, call) ==> Waiting(d.threads, t, call)
             else d.log == c.log + [call] && Waiting(c.threads, t, call)
    requires Waiting(d.threads, t, call) ==> d.log == c.log && Waiting(c.threads, t, call)
    ensures LogOk(d)
  {
    assert forall u, n: nat :: u != t ==> (Waiting(d.threads, u, n) <==> Waiting(c.threads, u, n));
    forall n: nat | n < |d.calls| ensures n in d.log || exists u :: Waiting(d.threads, u, n) {
      if n !in c.log {
        var u :| Waiting(c.threads, u, n);
        assert u == t ==> n == call;
        assert u != t ==> Waiting(d.threads, u, n);
      }
    }
    forall u, n: nat | Waiting(d.threads, u, n) ensures n !in d.log {
      assert Waiting(c.threads, u, n);
    }
  }

  lemma ExecKeepsLog(c: Config, t: ThreadId)
    requires LogOk(c) && CanExec(c, t)
    ensures LogOk(Exec(c, t))
  {
    MoveKeepsLog(c, Exec(c, t), t, c.threads[t].call);
  }

  lemma StepKeepsInv(c: Config, d: Config)
    requires Inv(c) && Next(c, d)
    ensures Inv(d)
  {
    assert TablesOk(c);
    if t, op :| CanBegin(c, t, op) && d == Begin(c, t, op) {
      BeginKeepsLog(c, t, op);
      BeginKeepsTables(c, t, op);
    } else {
      var t :| CanExec(c, t) && d == Exec(c, t);
      ExecKeepsLog(c, t);
      var l := c.threads[t];
      if Landed(l) {
        TailKeepsTables(c, t);
      } else if l.phase.Chain? {
        ChainKeepsTables(c, t);
      } else if l.phase.Start? && l.op.Realloc? {
        ReadKeepsTables(c, t);
      } else {
        EffectKeepsTables(c, t);
      }
    }
  }

  lemma {:induction false} ExecutionKeepsInv(cs: seq<Config>, i: nat)
    requires Execution(cs) && i < |cs|
    ensures Inv(cs[i])
  {
    if i > 0 {
      ExecutionKeepsInv(cs, i - 1);
      assert Next(cs[i - 1], cs[i - 1 + 1]);
      StepKeepsInv(cs[i - 1], cs[i]);
    }
  }

  // ----- the results -----

  lemma QuiescentIsSerial(c: Config)
    requires Inv(c) && Quiescent(c)
    ensures forall n: nat :: n < |c.calls| ==> n in c.log
    ensures c.allocs == Run(Serial(c)).allocs
  {
    assert Arriving(c.threads) == {} && Leaving(c.threads) == {};
    assert forall t, n: nat :: !Waiting(c.threads, t, n);
  }

  /**
    Serialisability: whenever no hook is in flight, the shared tables are those
    of a serial run of exactly the calls made, each once, and that run is
    admissible, whatever the interleaving was.
   */
  lemma HooksAreSerialisable(cs: seq<Config>, i: nat)
    requires Execution(cs) && i < |cs| && Quiescent(cs[i])
    ensures LogInRange(cs[i])
    ensures forall n: nat :: n < |cs[i].calls| ==> n in cs[i].log
    ensures forall j, k :: 0 <= j < k < |cs[i].log| ==> cs[i].log[j] != cs[i].log[k]
    ensures AdmissibleRun(Serial(cs[i]))
    ensures cs[i].allocs == Run(Serial(cs[i])).allocs
    ensures cs[i].chains == Run(Serial(cs[i])).chains
  {
    ExecutionKeepsInv(cs, i);
    QuiescentIsSerial(cs[i]);
  }

  /** Even with hooks in flight, the table never holds two overlapping live blocks but for those being moved. */
  lemma InFlightTable(cs: seq<Config>, i: nat, j: Ptr, k: Ptr)
    requires Execution(cs) && i < |cs|
    requires j in cs[i].allocs && k in cs[i].allocs && j < k
    requires forall op :: op in Leaving(cs[i].threads) ==> op.oldPtr != j && op.oldPtr != k
    ensures j + cs[i].allocs[j].size <= k
  {
    ExecutionKeepsInv(cs, i);
    TableIsLiveBlocks(Serial(cs[i]));
  }

  /** Thread `t` is about to run the section in which a realloc takes effect: the chain update, or the fallback. */
  ghost predicate AtEffect(c: Config, t: ThreadId, call: nat) {
    && CanExec(c, t) && c.threads[t].call == call && c.threads[t].op.Realloc?
    && (c.threads[t].phase.Chain? || c.threads[t].phase.Fallback?)
  }

  lemma LoggedAtEffect(c: Config, t: ThreadId, call: nat)
    requires LogOk(c) && CanExec(c, t) && call < |c.calls| && c.calls[call].Realloc?
    requires call !in c.log && call in Exec(c, t).log
    ensures AtEffect(c, t, call)
  {
    assert c.calls[c.threads[t].call] == c.threads[t].op;
  }

  lemma EffectIsLogged(c: Config, t: ThreadId, call: nat)
    requires LogOk(c) && AtEffect(c, t, call)
    ensures call !in c.log && call in Exec(c, t).log
  {
    assert Waiting(c.threads, t, call);
    assert Exec(c, t).log == c.log + [call];
  }

  /** One step logs a realloc exactly when it is that realloc's effect section. */
  lemma ReallocLoggedByStep(c: Config, d: Config, call: nat)
    requires LogOk(c) && Next(c, d) && call < |c.calls| && c.calls[call].Realloc?
    ensures call !in c.log && call in d.log <==> exists t :: AtEffect(c, t, call) && d == Exec(c, t)
  {
    if call !in c.log && call in d.log {
      var t :| CanExec(c, t) && d == Exec(c, t);
      LoggedAtEffect(c, t, call);
    }
    if t :| AtEffect(c, t, call) && d == Exec(c, t) {
      EffectIsLogged(c, t, call);
    }
  }

  /**
    Reallocs stand in the serial order at their chain update (at the fallback
    insertion when the old pointer is untracked): a realloc enters the log in
    the very step that runs that section.
   */
  lemma ReallocsOrderedByChainUpdate(cs: seq<Config>, i: nat, call: nat)
    requires Execution(cs) && i + 1 < |cs| && call < |cs[i].calls| && cs[i].calls[call].Realloc?
    ensures call !in cs[i].log && call in cs[i + 1].log <==>
            exists t :: AtEffect(cs[i], t, call) && cs[i + 1] == Exec(cs[i], t)
  {
    ExecutionKeepsInv(cs, i);
    assert Next(cs[i], cs[i + 1]);
    ReallocLoggedByStep(cs[i], cs[i + 1], call);
  }

  lemma {:induction false} LogOnlyGrows(cs: seq<Config>, i: nat, j: nat)
    requires Execution(cs) && i <= j < |cs|
    ensures cs[i].log <= cs[j].log && cs[i].calls <= cs[j].calls
    decreases j - i
  {
    if i < j {
      LogOnlyGrows(cs, i, j - 1);
      assert Next(cs[j - 1], cs[j - 1 + 1]);
    }
  }

  /**
    The serial order respects real time: a call that was no longer waiting when
    another started takes effect before it.
   */
  lemma SerialOrderRespectsRealTime(cs: seq<Config>, i: nat, j: nat, first: nat, second: nat)
    requires Execution(cs) && i <= j < |cs|
    requires first < |cs[i].calls| && forall t :: !Waiting(cs[i].threads, t, first)
    requires |cs[i].calls| <= second && second in cs[j].log
    ensures exists m, n :: 0 <= m < n < |cs[j].log| && cs[j].log[m] == first && cs[j].log[n] == second
  {
    ExecutionKeepsInv(cs, i);
    LogOnlyGrows(cs, i, j);
    assert first in cs[i].log;
    var m :| 0 <= m < |cs[i].log| && cs[i].log[m] == first;
    var n :| 0 <= n < |cs[j].log| && cs[j].log[n] == second;
    assert cs[j].log[m] == first;
    assert second !in cs[i].log;
    assert cs[j].log[..|cs[i].log|] == cs[i].log;
  }
}
