/**
  The single-step protocol. A protection-key fault opens the faulting key for
  one instruction and sets the trap flag; the trap that follows gives the key its
  rights back. An instruction may fault several times, on different keys, before
  it completes and traps.

  The pending rights are stored under the faulting thread's id but taken under
  the process id. The two agree only for the thread-group leader, so the
  protocol's guarantee is stated for runs in which only that thread faults.
 */
module SingleStep {
  import opened AllocSites
  import opened AllocationMap
  import opened Provenance
  import opened Handler
  import opened Pkru

  const TF: bv64 := 0x100

  function SetTrap(flags: bv64): bv64 {
    flags | TF
  }

  function ClearTrap(flags: bv64): bv64 {
    flags & !TF
  }

  type Pending = map<ThreadId, PendingPKeyInfo>

  /** The saved machine context of the thread, and the table of pending rights. */
  datatype StepState = StepState(pkru: bv32, eflags: bv64, pending: Pending)

  predicate TrapFlag(s: StepState) {
    s.eflags & TF != 0
  }

  function SegvStep(s: StepState, tid: ThreadId, key: bv32): StepState {
    StepState(PkeySet(s.pkru, key, PKEY_ENABLE_ACCESS),
              SetTrap(s.eflags),
              Emplace(s.pending, tid, PendingPKeyInfo(key, PkeyGet(s.pkru, key))))
  }

  function TrapStep(s: StepState, pid: ThreadId): StepState {
    StepState(if pid in s.pending then PkeySet(s.pkru, s.pending[pid].pkey, s.pending[pid].accessRights) else s.pkru,
              ClearTrap(s.eflags),
              s.pending - {pid})
  }

  /** What the leader does: it faults on a key, traps, or runs on and may write the register. */
  datatype StepEvent = Segv(key: bv32) | Trap | Runs(pkru: bv32)

  function StepOf(s: StepState, me: ThreadId, e: StepEvent): StepState {
    match e
    case Segv(key) => SegvStep(s, me, key)
    case Trap => TrapStep(s, me)
    case Runs(pkru) => s.(pkru := pkru)
  }

  function StepRun(s: StepState, me: ThreadId, es: seq<StepEvent>): StepState {
    if es == [] then s else StepOf(StepRun(s, me, es[..|es| - 1]), me, es[|es| - 1])
  }

  // ----- windows: from the first fault of an instruction to its trap -----

  /** The register when the window unlocked, and the keys faulted on since. */
  datatype Window = Closed | Open(orig: bv32, keys: seq<bv32>)

  function WindowAfter(s: StepState, me: ThreadId, es: seq<StepEvent>): Window {
    if es == [] then Closed
    else
      var before := es[..|es| - 1];
      var w := WindowAfter(s, me, before);
      match es[|es| - 1]
      case Segv(key) => if w.Closed? then Open(StepRun(s, me, before).pkru, [key]) else w.(keys := w.keys + [key])
      case Trap => Closed
      case Runs(_) => w
  }

  /**
    The leader's runs: between a fault and its trap the thread completes one
    instruction that accesses memory, so it does not write the register then.
   */
  ghost predicate LeaderRun(s: StepState, me: ThreadId, es: seq<StepEvent>) {
    && me !in s.pending && !TrapFlag(s)
    && forall i :: 0 <= i < |es| && es[i].Runs? ==> WindowAfter(s, me, es[..i]).Closed?
  }

  /** The register while a window is open: every key faulted on is accessible, the rest untouched. */
  ghost predicate LanesOpened(pkru: bv32, orig: bv32, keys: seq<bv32>) {
    forall lane :: ValidKey(lane) ==>
      PkeyGet(pkru, lane) == if lane in keys then PKEY_ENABLE_ACCESS else PkeyGet(orig, lane)
  }

  /** The register after the trap: the first key has its rights back, the later ones stay accessible. */
  ghost predicate LanesClosed(pkru: bv32, orig: bv32, keys: seq<bv32>)
    requires keys != []
  {
    forall lane :: ValidKey(lane) ==>
      PkeyGet(pkru, lane) == if lane in keys[1..] && lane != keys[0] then PKEY_ENABLE_ACCESS else PkeyGet(orig, lane)
  }

  /** What a window says about the state: no entry and no flag, or the first key's rights pending under the flag. */
  ghost predicate WindowHolds(s: StepState, me: ThreadId, w: Window) {
    match w
    case Closed => me !in s.pending && !TrapFlag(s)
    case Open(orig, keys) =>
      && keys != []
      && me in s.pending && TrapFlag(s)
      && s.pending[me] == PendingPKeyInfo(keys[0], PkeyGet(orig, keys[0]))
      && LanesOpened(s.pkru, orig, keys)
  }

  /** The trap flag is bit 8 of the flags. */
  lemma FlagSet(flags: bv64)
    ensures SetTrap(flags) & 0x100 == 0x100
    ensures ClearTrap(flags) & 0x100 == 0
    ensures SetTrap(flags) & TF != 0 && ClearTrap(flags) & TF == 0
  {
  }

  lemma SetKeepsOthers(flags: bv64, mask: bv64)
    requires mask & 0x100 == 0
    ensures SetTrap(flags) & mask == flags & mask
  {
  }

  lemma ClearKeepsOthers(flags: bv64, mask: bv64)
    requires mask & 0x100 == 0
    ensures ClearTrap(flags) & mask == flags & mask
  {
  }

  lemma SegvOpens(s: StepState, me: ThreadId, w: Window, key: bv32)
    requires WindowHolds(s, me, w)
    ensures WindowHolds(SegvStep(s, me, key), me,
                        if w.Closed? then Open(s.pkru, [key]) else w.(keys := w.keys + [key]))
  {
    FlagSet(s.eflags);
    var unlocked := SegvStep(s, me, key).pkru;
    forall lane | ValidKey(lane)
      ensures PkeyGet(unlocked, lane) == if lane == key then PKEY_ENABLE_ACCESS else PkeyGet(s.pkru, lane)
    {
      SetLane(s.pkru, key, PKEY_ENABLE_ACCESS, lane);
    }
  }

  lemma TrapCloses(s: StepState, me: ThreadId, w: Window)
    requires WindowHolds(s, me, w)
    ensures WindowHolds(TrapStep(s, me), me, Closed)
    ensures w.Closed? ==> TrapStep(s, me).pkru == s.pkru
    ensures w.Open? ==> LanesClosed(TrapStep(s, me).pkru, w.orig, w.keys)
  {
    FlagSet(s.eflags);
    if w.Open? {
      var closed := TrapStep(s, me).pkru;
      var first := w.keys[0];
      forall lane | ValidKey(lane)
        ensures PkeyGet(closed, lane) ==
                if lane in w.keys[1..] && lane != first then PKEY_ENABLE_ACCESS else PkeyGet(w.orig, lane)
      {
        SetLane(s.pkru, first, PkeyGet(w.orig, first), lane);
        GetRange(w.orig, lane);
        assert lane in w.keys <==> lane == first || lane in w.keys[1..];
      }
    }
  }

  lemma {:induction false} RunHolds(s: StepState, me: ThreadId, es: seq<StepEvent>)
    requires LeaderRun(s, me, es)
    ensures WindowHolds(StepRun(s, me, es), me, WindowAfter(s, me, es))
  {
    if es != [] {
      var n := |es| - 1;
      assert forall i :: 0 <= i <= n ==> es[..n][..i] == es[..i];
      RunHolds(s, me, es[..n]);
      var before, w := StepRun(s, me, es[..n]), WindowAfter(s, me, es[..n]);
      match es[n]
      case Segv(key) => SegvOpens(before, me, w, key);
      case Trap => TrapCloses(before, me, w);
      case Runs(_) =>
    }
  }

  // ----- the results -----

  lemma FaultSetsTrap(s: StepState, me: ThreadId, key: bv32)
    ensures StepOf(s, me, Segv(key)).eflags == SetTrap(s.eflags)
  {
  }

  lemma TrapClearsTrap(s: StepState, me: ThreadId)
    ensures StepOf(s, me, Trap).eflags == ClearTrap(s.eflags)
  {
  }

  /** An event sets the trap flag, clears it or leaves the flags alone. */
  predicate FlagsMayBecome(before: bv64, after: bv64) {
    after == before || after == SetTrap(before) || after == ClearTrap(before)
  }

  lemma EventFlags(s: StepState, me: ThreadId, e: StepEvent)
    ensures FlagsMayBecome(s.eflags, StepOf(s, me, e).eflags)
  {
    match e
    case Segv(key) => FaultSetsTrap(s, me, key);
    case Trap => TrapClearsTrap(s, me);
    case Runs(_) =>
  }

  lemma OthersStay(before: bv64, after: bv64, mask: bv64)
    requires mask & 0x100 == 0 && FlagsMayBecome(before, after)
    ensures after & mask == before & mask
  {
    SetKeepsOthers(before, mask);
    ClearKeepsOthers(before, mask);
  }

  /** Whatever faults and traps, every flag of the interrupted thread but bit 8 is as it was. */
  lemma {:induction false} OtherFlagsKept(s: StepState, me: ThreadId, es: seq<StepEvent>, mask: bv64)
    requires mask & 0x100 == 0
    ensures StepRun(s, me, es).eflags & mask == s.eflags & mask
  {
    if es != [] {
      var n := |es| - 1;
      OtherFlagsKept(s, me, es[..n], mask);
      EventFlags(StepRun(s, me, es[..n]), me, es[n]);
      OthersStay(StepRun(s, me, es[..n]).eflags, StepRun(s, me, es).eflags, mask);
    }
  }

  /** After any event the trap flag is set by a fault, cleared by a trap, and otherwise as before. */
  lemma FlagAfter(s: StepState, me: ThreadId, e: StepEvent)
    ensures StepOf(s, me, e).eflags & 0x100 ==
            match e
            case Segv(_) => 0x100
            case Trap => 0
            case Runs(_) => s.eflags & 0x100
  {
    FlagSet(s.eflags);
  }

  /** A fault may find the register at any value: outside a window the thread writes what it likes. */
  lemma AnyRegister(s: StepState, me: ThreadId, es: seq<StepEvent>, pkru: bv32, flags: bv64, pending: Pending)
    requires LeaderRun(s, me, es) && WindowAfter(s, me, es).Closed?
    requires flags == StepRun(s, me, es).eflags && pending == StepRun(s, me, es).pending
    ensures LeaderRun(s, me, es + [Runs(pkru)]) && WindowAfter(s, me, es + [Runs(pkru)]).Closed?
    ensures StepRun(s, me, es + [Runs(pkru)]) == StepState(pkru, flags, pending)
  {
    var longer := es + [Runs(pkru)];
    assert longer[..|es|] == es;
    assert forall i :: 0 <= i < |es| ==> longer[..i] == es[..i];
  }

  /** In every leader run a pending entry exists exactly while the trap flag is set. */
  lemma PendingExactlyWhileStepping(s: StepState, me: ThreadId, es: seq<StepEvent>)
    requires LeaderRun(s, me, es)
    ensures me in StepRun(s, me, es).pending <==> TrapFlag(StepRun(s, me, es))
    ensures TrapFlag(StepRun(s, me, es)) <==> WindowAfter(s, me, es).Open?
  {
    RunHolds(s, me, es);
  }

  /**
    After the faults of one instruction, on any 32-bit keys, and the trap that
    follows, the register is the original one except that valid keys faulted on
    later than the first, and other than it, stay accessible.
   */
  lemma TrapRestores(s: StepState, me: ThreadId, es: seq<StepEvent>)
    requires LeaderRun(s, me, es + [Trap])
    requires WindowAfter(s, me, es).Open?
    ensures WindowAfter(s, me, es).keys != []
    ensures LanesClosed(StepRun(s, me, es + [Trap]).pkru, WindowAfter(s, me, es).orig, WindowAfter(s, me, es).keys)
  {
    var longer := es + [Trap];
    assert longer[..|es|] == es;
    assert forall i :: 0 <= i < |es| ==> longer[..i] == es[..i];
    RunHolds(s, me, es);
    TrapCloses(StepRun(s, me, es), me, WindowAfter(s, me, es));
  }

  /** The keys of a window whose rights the trap does not give back: later than the first, valid, and closed before. */
  ghost predicate StaysOpen(w: Window, key: bv32) {
    && w.Open? && w.keys != []
    && key in w.keys[1..] && key != w.keys[0] && ValidKey(key) && PkeyGet(w.orig, key) != PKEY_ENABLE_ACCESS
  }

  lemma ClosedIsOriginal(pkru: bv32, w: Window)
    requires w.Open? && w.keys != [] && LanesClosed(pkru, w.orig, w.keys)
    ensures pkru == w.orig <==> forall key :: !StaysOpen(w, key)
  {
    if forall key :: !StaysOpen(w, key) {
      forall lane | ValidKey(lane) ensures PkeyGet(pkru, lane) == PkeyGet(w.orig, lane) {
        assert !StaysOpen(w, lane);
      }
      LanesDetermine(pkru, w.orig);
    }
  }

  /**
    Over runs: the trap restores the register bit for bit exactly when no key
    faulted on later than the first was closed when the window opened.
   */
  lemma RestoredExactly(s: StepState, me: ThreadId, es: seq<StepEvent>)
    requires LeaderRun(s, me, es + [Trap])
    requires WindowAfter(s, me, es).Open?
    ensures StepRun(s, me, es + [Trap]).pkru == WindowAfter(s, me, es).orig <==>
            forall key :: !StaysOpen(WindowAfter(s, me, es), key)
  {
    TrapRestores(s, me, es);
    ClosedIsOriginal(StepRun(s, me, es + [Trap]).pkru, WindowAfter(s, me, es));
  }

  /** One fault and its trap leave the register as it was, whatever the key. */
  lemma OneFaultRestores(s: StepState, me: ThreadId, es: seq<StepEvent>, key: bv32)
    requires LeaderRun(s, me, es + [Segv(key), Trap]) && WindowAfter(s, me, es).Closed?
    ensures StepRun(s, me, es + [Segv(key), Trap]).pkru == StepRun(s, me, es).pkru
  {
    var one := es + [Segv(key)];
    assert es + [Segv(key), Trap] == one + [Trap];
    assert one[..|es|] == es;
    RestoredExactly(s, me, one);
  }

  /** A leader run that is not restored: keys 1 and 2 are closed, and one instruction faults on both. */
  lemma SecondKeyStaysOpen(me: ThreadId)
    ensures var s := StepState(0x28, 0, map[]);
            var es := [Segv(1), Segv(2)];
            && LeaderRun(s, me, es + [Trap])
            && WindowAfter(s, me, es) == Open(s.pkru, [1, 2])
            && StepRun(s, me, es + [Trap]).pkru == 0x08
            && StepRun(s, me, es + [Trap]).pkru != s.pkru
  {
    var s := StepState(0x28, 0, map[]);
    var es := [Segv(1), Segv(2)];
    assert es[..1] == [Segv(1)] && es[..1][..0] == [];
    assert StepRun(s, me, []) == s && WindowAfter(s, me, []) == Closed;
    assert StepRun(s, me, es[..1]) == SegvStep(s, me, 1) && WindowAfter(s, me, es[..1]) == Open(s.pkru, [1]);
    assert StepRun(s, me, es) == SegvStep(SegvStep(s, me, 1), me, 2);
    assert WindowAfter(s, me, es) == Open(s.pkru, [1] + [2]);
    assert (es + [Trap])[..2] == es;
    assert StepRun(s, me, es + [Trap]) == TrapStep(StepRun(s, me, es), me);
    assert StepRun(s, me, es).pending[me] == PendingPKeyInfo(1, 2);
  }

  /**
    For any thread: one fault by `tid` and the trap after it, in a process `pid`
    with nothing pending for either. The register comes back exactly when the
    thread is the leader or there was nothing to take away, and a thread that is
    not the leader leaves its entry behind.
   */
  lemma LeaderOnly(s: StepState, tid: ThreadId, pid: ThreadId, key: bv32)
    requires tid !in s.pending && pid !in s.pending
    ensures var after := TrapStep(SegvStep(s, tid, key), pid);
            && (after.pkru == s.pkru <==>
                  tid == pid || !ValidKey(key) || PkeyGet(s.pkru, key) == PKEY_ENABLE_ACCESS)
            && (tid in after.pending <==> tid != pid)
  {
    if tid == pid {
      GiveBack(s.pkru, key);
    } else {
      OpenIsIdle(s.pkru, key);
    }
  }

  /** Thread 2 of process 1 faults on key 1, which is closed: the key stays open and the entry stays behind. */
  lemma FollowerStaysOpen()
    ensures var s := StepState(0x08, 0, map[]);
            var after := TrapStep(SegvStep(s, 2, 1), 1);
            after.pkru == 0 && s.pkru != 0 && after.pending == map[2 := PendingPKeyInfo(1, 2)]
  {
  }

  // ----- the signal handlers -----

  /** The part of a signal's machine context that the handlers rewrite. */
  class MachineContext {
    var pkru: bv32
    var eflags: bv64

    constructor (pkru: bv32, eflags: bv64)
      ensures this.pkru == pkru && this.eflags == eflags
    {
      this.pkru, this.eflags := pkru, eflags;
    }
  }

  ghost function View(h: AllocSiteHandler, ctx: MachineContext): StepState
    reads h, ctx
  {
    StepState(ctx.pkru, ctx.eflags, h.pkeyByTid)
  }

  lemma KeptOrAdded(before: Pending, after: Pending, tid: ThreadId, info: PendingPKeyInfo)
    requires after.Keys == before.Keys + {tid} && (forall t :: t in before ==> after[t] == before[t])
    requires tid !in before ==> after[tid] == info
    ensures after == Emplace(before, tid, info)
  {
    var r := Emplace(before, tid, info);
    assert after.Keys == r.Keys;
    assert forall t :: t in after.Keys ==> after[t] == r[t];
    assert after == r;
  }

  method DisableThreadMPK(h: AllocSiteHandler, ctx: MachineContext, pkey: bv32, tid: ThreadId)
    modifies h`pkeyByTid, ctx`pkru
    ensures h.pkeyByTid == Emplace(old(h.pkeyByTid), tid, PendingPKeyInfo(pkey, PkeyGet(old(ctx.pkru), pkey)))
    ensures ctx.pkru == PkeySet(old(ctx.pkru), pkey, PKEY_ENABLE_ACCESS)
  {
    var info := PendingPKeyInfo(pkey, PkeyGet(ctx.pkru, pkey));
    ghost var before := h.pkeyByTid;
    h.StorePendingPKeyInfo(tid, info);
    KeptOrAdded(before, h.pkeyByTid, tid, info);
    ctx.pkru := PkeySet(ctx.pkru, pkey, PKEY_ENABLE_ACCESS);
  }

  method EnableThreadMPK(ctx: MachineContext, info: PendingPKeyInfo)
    modifies ctx`pkru
    ensures ctx.pkru == PkeySet(old(ctx.pkru), info.pkey, info.accessRights)
    ensures OnlyLane(old(ctx.pkru), ctx.pkru, info.pkey, info.accessRights)
  {
    SetsOnlyLane(ctx.pkru, info.pkey, info.accessRights);
    ctx.pkru := PkeySet(ctx.pkru, info.pkey, info.accessRights);
  }

  /** A protection-key fault at `addr`: record it, open the key, and step one instruction. */
  method PkuSegvHandler(h: AllocSiteHandler, ctx: MachineContext, addr: Ptr, pkey: bv32, tid: ThreadId)
    requires h.Valid()
    modifies h`faultSet, h`pkeyByTid, ctx
    ensures h.Valid()
    ensures h.Model() == FaultStep(old(h.Model()), addr, pkey as int)
    ensures View(h, ctx) == SegvStep(old(View(h, ctx)), tid, pkey)
  {
    h.AddFaultAlloc(addr, pkey as int);
    DisableThreadMPK(h, ctx, pkey, tid);
    ctx.eflags := SetTrap(ctx.eflags);
  }

  method PkuTrapHandler(h: AllocSiteHandler, ctx: MachineContext, pid: ThreadId)
    modifies h`pkeyByTid, ctx
    ensures View(h, ctx) == TrapStep(old(View(h, ctx)), pid)
  {
    var found, info := h.GetAndRemove(pid);
    if found {
      EnableThreadMPK(ctx, info);
    }
    ctx.eflags := ClearTrap(ctx.eflags);
  }
}
