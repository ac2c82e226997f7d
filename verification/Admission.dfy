/**
  When a hook may start, spelled out call by call, and what a lookup finds of a
  block while a reallocation is moving it.
 */
module Admission {
  import opened AllocSites
  import opened AllocationMap
  import opened Provenance
  import opened CriticalSections
  import opened SerialOrder

  /** The new range is inside the address space and clear of every entry but the one at `except`. */
  ghost predicate FreeFor(allocs: SiteMap, ptr: Ptr, size: Int64, at: Identity, except: set<Ptr>) {
    && ptr != 0 && size > 0 && at.localID >= 0 && ptr + size < 0x1_0000_0000_0000_0000
    && forall k :: k in allocs && k !in except ==> k + allocs[k].size <= ptr || ptr + size <= k
  }

  /** With no call in flight a hook may start exactly when the memory it reports is free to use. */
  lemma MayStartAlone(c: Config, t: ThreadId, op: Event)
    requires Quiescent(c)
    ensures CanBegin(c, t, op) <==>
            match op
            case Alloc(ptr, size, at) => FreeFor(c.allocs, ptr, size, at, {})
            case Realloc(ptr, size, from, at) =>
              && FreeFor(c.allocs, ptr, size, at, {from})
              && (from in c.allocs || forall k :: k in c.allocs ==> from < k || k + c.allocs[k].size <= from)
            case Dealloc(_) => true
            case Fault(_, _) => false
  {
  }

  predicate OutOf(ptr: Ptr, size: Int64, prev: Ptr) {
    prev < ptr || ptr + size <= prev
  }

  predicate Disjoint(ptr: Ptr, size: Int64, other: Ptr, otherSize: Int64) {
    ptr + size <= other || other + otherSize <= ptr
  }

  /** What two calls in flight may not have in common, call by call. */
  predicate KeepClear(a: Event, b: Event) {
    match a
    case Alloc(p, n, _) => (
      match b
      case Alloc(q, m, _) => Disjoint(p, n, q, m)
      case Realloc(q, m, from, _) => Disjoint(p, n, q, m) && OutOf(p, n, from)
      case Dealloc(q) => OutOf(p, n, q)
      case Fault(_, _) => true)
    case Realloc(p, n, prev, _) => (
      match b
      case Alloc(q, m, _) => Disjoint(p, n, q, m) && OutOf(q, m, prev)
      case Realloc(q, m, from, _) => Disjoint(p, n, q, m) && OutOf(p, n, from) && OutOf(q, m, prev) && prev != from
      case Dealloc(q) => OutOf(p, n, q) && prev != q
      case Fault(_, _) => true)
    case Dealloc(p) => (
      match b
      case Alloc(q, m, _) => OutOf(q, m, p)
      case Realloc(q, m, from, _) => OutOf(q, m, p) && from != p
      case Dealloc(q) => p != q
      case Fault(_, _) => true)
    case Fault(_, _) => true
  }

  lemma CompatibleIs(a: Event, b: Event)
    ensures Compatible(a, b) <==> KeepClear(a, b)
  {
  }

  /** While one call is in flight another may start exactly when it could before, and the two keep clear of each other. */
  lemma MayStartBeside(c: Config, t: ThreadId, a: Event, u: ThreadId, b: Event)
    requires CanBegin(c, t, a) && t != u
    ensures CanBegin(Begin(c, t, a), u, b) <==> CanBegin(c, u, b) && KeepClear(b, a)
  {
    var d := Begin(c, t, a);
    assert d.threads[t].Busy? && d.threads[t].op == a && t in d.threads;
    assert LocalOf(d.threads, u) == LocalOf(c.threads, u);
    CompatibleIs(b, a);
    if CanBegin(d, u, b) {
      forall v | v in c.threads && c.threads[v].Busy? ensures Compatible(b, c.threads[v].op) {
        assert v != t && d.threads[v] == c.threads[v];
      }
    }
  }

  /**
    A reallocation removes the old entry and inserts the new one in two sections.
    In between, no address of the block that was moved is found in the table.
   */
  lemma NotFoundWhileMoved(cs: seq<Config>, i: nat, t: ThreadId, addr: Ptr)
    requires Execution(cs) && i < |cs| && t in cs[i].threads
    requires cs[i].threads[t].Busy? && cs[i].threads[t].phase.Insert?
    requires cs[i].threads[t].op.Realloc?
    requires var op := cs[i].threads[t].op; op.newPtr <= addr < op.newPtr + op.newSize
    ensures Lookup(cs[i].allocs, addr) == ERROR
  {
    ExecutionKeepsInv(cs, i);
    var allocs, l := cs[i].allocs, cs[i].threads[t];
    assert ThreadOk(allocs, l);
    forall k | k in allocs ensures !allocs[k].ContainsPtr(addr) {
      ContainsPtrMeaning(allocs[k], addr);
      assert Apart(k, allocs[k].size, l.op.newPtr, l.op.newSize);
    }
    LookupMisses(allocs, addr);
  }

  /** One thread allocates a block at 64 and reallocates it to 128, section by section. */
  function Moving(at: Identity): seq<Config>
    requires at.localID >= 0
  {
    var a, r := Alloc(64, 16, at), Realloc(128, 16, 64, at);
    var before := AllocSite(64, 16, at.localID, at.bbName, at.funcName, 0, false);
    var after := AllocSite(128, 16, at.localID, at.bbName, at.funcName, 0, true);
    var chains := map[at := map[at := before]];
    [Config(map[], map[], map[], [], []),
     Config(map[], map[], map[1 := Busy(a, Start, 0)], [a], []),
     Config(map[64 := before], map[], map[1 := Idle], [a], [0]),
     Config(map[64 := before], map[], map[1 := Busy(r, Start, 1)], [a, r], [0]),
     Config(map[64 := before], map[], map[1 := Busy(r, Chain(before), 1)], [a, r], [0]),
     Config(map[64 := before], chains, map[1 := Busy(r, Remove, 1)], [a, r], [0, 1]),
     Config(map[], chains, map[1 := Busy(r, Insert, 1)], [a, r], [0, 1]),
     Config(map[128 := after], chains, map[1 := Idle], [a, r], [0, 1])]
  }

  lemma MovingStarts(cs: seq<Config>, at: Identity)
    requires at.localID >= 0 && cs == Moving(at)
    ensures cs[0] == START && Next(cs[0], cs[1]) && Next(cs[1], cs[2]) && Next(cs[2], cs[3])
  {
    assert CanBegin(cs[0], 1, Alloc(64, 16, at)) && cs[1] == Begin(cs[0], 1, Alloc(64, 16, at));
    assert CanExec(cs[1], 1) && cs[2] == Exec(cs[1], 1);
    assert CanBegin(cs[2], 1, Realloc(128, 16, 64, at)) && cs[3] == Begin(cs[2], 1, Realloc(128, 16, 64, at));
  }

  lemma MovingReads(cs: seq<Config>, at: Identity)
    requires at.localID >= 0 && cs == Moving(at)
    ensures Next(cs[3], cs[4])
  {
    LookupFinds(cs[3].allocs, 64, 64);
    assert CanExec(cs[3], 1) && cs[4] == Exec(cs[3], 1);
  }

  lemma MovingEnds(cs: seq<Config>, at: Identity)
    requires at.localID >= 0 && cs == Moving(at)
    ensures Next(cs[4], cs[5]) && Next(cs[5], cs[6]) && Next(cs[6], cs[7])
  {
    assert CanExec(cs[4], 1) && cs[5] == Exec(cs[4], 1);
    assert CanExec(cs[5], 1) && cs[6] == Exec(cs[5], 1);
    assert CanExec(cs[6], 1) && cs[7] == Exec(cs[6], 1);
  }

  /** It is an execution: the table is empty between the removal and the insertion. */
  lemma MovingIsExecution(at: Identity)
    requires at.localID >= 0
    ensures Execution(Moving(at)) && Quiescent(Moving(at)[7])
  {
    var cs := Moving(at);
    MovingStarts(cs, at);
    MovingReads(cs, at);
    MovingEnds(cs, at);
  }
}
