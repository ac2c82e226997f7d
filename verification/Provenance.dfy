/**
  The provenance state machine: the effect of the three hooks and of a
  compartment fault on the shared tables, and what whole runs of them guarantee.

  `Run` is what the code computes. `LiveAfter` is an independent account of the
  heap, written from the allocator's point of view: which blocks are live, which
  call site made each, and through which sites its memory has travelled.
 */
module Provenance {
  import opened AllocSites
  import opened AllocationMap

  /** A set of sites keyed by identity; inserting a present identity keeps the old member. */
  type SiteSet = map<Identity, AllocSite>

  datatype State = State(
    allocs: SiteMap,
    faults: SiteSet,
    chains: map<Identity, SiteSet>)

  const INITIAL: State := State(map[], map[], map[])

  /** The sites recorded as realloc ancestors of `id`. */
  function ChainOf(chains: map<Identity, SiteSet>, id: Identity): SiteSet {
    if id in chains then chains[id] else map[]
  }

  /** A site together with its recorded ancestors: what a fault on it marks. */
  function Family(chains: map<Identity, SiteSet>, id: Identity): set<Identity> {
    {id} + ChainOf(chains, id).Keys
  }

  // ----- the steps -----

  /** Give `to` the ancestors of `from` and `from` itself, unless `to` already has a chain. */
  function ExtendChain(chains: map<Identity, SiteSet>, from: AllocSite, to: AllocSite): map<Identity, SiteSet> {
    Emplace(chains, to.Id(), Emplace(ChainOf(chains, from.Id()), from.Id(), from))
  }

  /** Insert every member of `more` with the faulting key, keeping members already present. */
  function MarkAll(faults: SiteSet, more: SiteSet, pkey: UInt32): SiteSet {
    map id | id in faults.Keys + more.Keys ::
      if id in faults then faults[id] else more[id].WithPkey(pkey)
  }

  datatype Event =
    | Alloc(ptr: Ptr, size: Int64, at: Identity)
    | Realloc(newPtr: Ptr, newSize: Int64, oldPtr: Ptr, at: Identity)
    | Dealloc(ptr: Ptr)
    | Fault(addr: Ptr, pkey: UInt32)
  {
    /** The arguments the site constructor asserts about. */
    predicate WellFormed() {
      match this
      case Alloc(ptr, size, at) => ptr != 0 && size > 0 && at.localID >= 0
      case Realloc(ptr, size, _, at) => ptr != 0 && size > 0 && at.localID >= 0
      case Dealloc(_) => true
      case Fault(_, _) => true
    }
  }

  ghost function ReallocStep(s: State, e: Event): State
    requires e.Realloc? && e.WellFormed()
  {
    var prev := Lookup(s.allocs, e.oldPtr);
    if !prev.IsValid() then
      s.(allocs := Emplace(s.allocs, e.newPtr, NewSite(e.newPtr, e.newSize, e.at, false)))
    else
      var site := NewSite(e.newPtr, e.newSize, e.at, true);
      s.(chains := ExtendChain(s.chains, prev, site),
         allocs := Emplace(s.allocs - {e.oldPtr}, e.newPtr, site))
  }

  ghost function FaultStep(s: State, addr: Ptr, pkey: UInt32): State {
    var site := Lookup(s.allocs, addr);
    if !site.IsValid() then s
    else
      var direct := Emplace(s.faults, site.Id(), site.WithPkey(pkey));
      s.(faults := MarkAll(direct, ChainOf(s.chains, site.Id()), pkey))
  }

  ghost function Step(s: State, e: Event): State
    requires e.WellFormed()
  {
    match e
    case Alloc(ptr, size, at) => s.(allocs := Emplace(s.allocs, ptr, NewSite(ptr, size, at, false)))
    case Realloc(_, _, _, _) => ReallocStep(s, e)
    case Dealloc(ptr) => s.(allocs := s.allocs - {ptr})
    case Fault(addr, pkey) => FaultStep(s, addr, pkey)
  }

  // ----- runs -----

  ghost predicate WellFormedRun(es: seq<Event>) {
    forall i :: 0 <= i < |es| ==> es[i].WellFormed()
  }

  ghost function Run(es: seq<Event>): State
    requires WellFormedRun(es)
  {
    if es == [] then INITIAL else Step(Run(es[..|es| - 1]), es[|es| - 1])
  }

  /** One step of a run seen between two of its prefixes. */
  lemma RunStep(es: seq<Event>, i: nat)
    requires WellFormedRun(es) && i < |es|
    ensures Run(es[..i + 1]) == Step(Run(es[..i]), es[i])
  {
    assert es[..i + 1][..i] == es[..i];
  }

  // ----- the allocator's account of the heap -----

  /** A live block: its size, the site that made it, and the sites its memory came through. */
  datatype Block = Block(size: Int64, at: Identity, viaRealloc: bool, lineage: seq<Identity>)

  type Heap = map<Ptr, Block>

  ghost predicate Within(heap: Heap, p: Ptr, addr: Ptr) {
    p in heap && p <= addr < p + heap[p].size
  }

  ghost predicate Untracked(heap: Heap, addr: Ptr) {
    forall p :: p in heap ==> !Within(heap, p, addr)
  }

  /** Room for a new block: non-null, non-empty, inside the address space, clear of live blocks. */
  ghost predicate Fits(heap: Heap, ptr: Ptr, size: Int64) {
    && ptr != 0 && size > 0 && ptr + size < ADDRESS_SPACE
    && forall p :: p in heap ==> p + heap[p].size <= ptr || ptr + size <= p
  }

  /**
    What the allocator promises about a call: new blocks fit, and a reallocated
    pointer is the base of a live block or lies in no tracked block. A freed
    pointer may be anything: one that is no live base leaves the table alone.
   */
  ghost predicate Admissible(heap: Heap, e: Event) {
    match e
    case Alloc(ptr, size, at) => at.localID >= 0 && Fits(heap, ptr, size)
    case Realloc(ptr, size, from, at) =>
      && at.localID >= 0
      && (from in heap || Untracked(heap, from))
      && Fits(heap - {from}, ptr, size)
    case Dealloc(_) => true
    case Fault(_, _) => true
  }

  ghost function HeapStep(heap: Heap, e: Event): Heap {
    match e
    case Alloc(ptr, size, at) => heap[ptr := Block(size, at, false, [at])]
    case Realloc(ptr, size, from, at) =>
      if from in heap then
        (heap - {from})[ptr := Block(size, at, true, heap[from].lineage + [at])]
      else
        heap[ptr := Block(size, at, false, [at])]
    case Dealloc(ptr) => heap - {ptr}
    case Fault(_, _) => heap
  }

  ghost function LiveAfter(es: seq<Event>): Heap {
    if es == [] then map[] else HeapStep(LiveAfter(es[..|es| - 1]), es[|es| - 1])
  }

  lemma LiveStep(es: seq<Event>, i: nat)
    requires i < |es|
    ensures LiveAfter(es[..i + 1]) == HeapStep(LiveAfter(es[..i]), es[i])
  {
    assert es[..i + 1][..i] == es[..i];
  }

  ghost predicate AdmissibleRun(es: seq<Event>)
    ensures AdmissibleRun(es) ==> WellFormedRun(es)
  {
    forall i :: 0 <= i < |es| ==> es[i].WellFormed() && Admissible(LiveAfter(es[..i]), es[i])
  }

  lemma PrefixAdmissible(es: seq<Event>, i: nat)
    requires AdmissibleRun(es) && i <= |es|
    ensures AdmissibleRun(es[..i])
  {
    forall j | 0 <= j < i ensures Admissible(LiveAfter(es[..i][..j]), es[..i][j]) {
      assert es[..i][..j] == es[..j];
    }
  }

  // ----- the allocation table is the heap -----

  ghost predicate HeapWellFormed(heap: Heap) {
    && (forall p :: p in heap ==>
          p != 0 && heap[p].size > 0 && heap[p].at.localID >= 0 && p + heap[p].size < ADDRESS_SPACE)
    && (forall p, q :: p in heap && q in heap && p < q ==> p + heap[p].size <= q)
  }

  /** The table that describes `heap`. */
  ghost function TableOf(heap: Heap): SiteMap
    requires HeapWellFormed(heap)
  {
    map p | p in heap :: NewSite(p, heap[p].size, heap[p].at, heap[p].viaRealloc)
  }

  lemma AddBlock(heap: Heap, ptr: Ptr, b: Block)
    requires HeapWellFormed(heap) && Fits(heap, ptr, b.size) && b.at.localID >= 0
    ensures ptr !in heap
    ensures HeapWellFormed(heap[ptr := b])
    ensures TableOf(heap[ptr := b]) == Emplace(TableOf(heap), ptr, NewSite(ptr, b.size, b.at, b.viaRealloc))
  {
    var grown := heap[ptr := b];
    forall p, q | p in grown && q in grown && p < q ensures p + grown[p].size <= q {
      assert p in heap || p == ptr;
    }
  }

  lemma RemoveBlock(heap: Heap, ptr: Ptr)
    requires HeapWellFormed(heap)
    ensures HeapWellFormed(heap - {ptr})
    ensures TableOf(heap - {ptr}) == TableOf(heap) - {ptr}
  {
  }

  lemma TableWellFormed(heap: Heap)
    requires HeapWellFormed(heap)
    ensures WellFormed(TableOf(heap))
    ensures forall p, addr: Ptr :: p in heap ==> (TableOf(heap)[p].ContainsPtr(addr) <==> Within(heap, p, addr))
  {
    forall p, addr: Ptr | p in heap
      ensures TableOf(heap)[p].ContainsPtr(addr) <==> Within(heap, p, addr)
    {
      ContainsPtrMeaning(TableOf(heap)[p], addr);
    }
  }

  /** Looking up an address in the table answers from the heap. */
  lemma LookupInTable(heap: Heap, addr: Ptr)
    requires HeapWellFormed(heap)
    ensures forall p :: Within(heap, p, addr) ==> Lookup(TableOf(heap), addr) == TableOf(heap)[p]
    ensures Untracked(heap, addr) ==> Lookup(TableOf(heap), addr) == ERROR
  {
    TableWellFormed(heap);
    forall p | Within(heap, p, addr) ensures Lookup(TableOf(heap), addr) == TableOf(heap)[p] {
      LookupFinds(TableOf(heap), addr, p);
    }
    if Untracked(heap, addr) {
      LookupMisses(TableOf(heap), addr);
    }
  }

  lemma TableStep(s: State, heap: Heap, e: Event)
    requires HeapWellFormed(heap) && Admissible(heap, e) && e.WellFormed()
    requires s.allocs == TableOf(heap)
    ensures HeapWellFormed(HeapStep(heap, e))
    ensures Step(s, e).allocs == TableOf(HeapStep(heap, e))
  {
    match e
    case Alloc(ptr, size, at) =>
      AddBlock(heap, ptr, Block(size, at, false, [at]));
    case Realloc(ptr, size, from, at) =>
      LookupInTable(heap, from);
      RemoveBlock(heap, from);
      if from in heap {
        assert Within(heap, from, from);
        AddBlock(heap - {from}, ptr, Block(size, at, true, heap[from].lineage + [at]));
      } else {
        assert heap - {from} == heap;
        AddBlock(heap, ptr, Block(size, at, false, [at]));
      }
    case Dealloc(ptr) =>
      RemoveBlock(heap, ptr);
    case Fault(_, _) =>
  }

  /**
    Run invariant: after every admissible run the allocation table is exactly
    the set of live blocks, each under its base pointer, and no two overlap.
   */
  lemma {:induction false} TableIsLiveBlocks(es: seq<Event>)
    requires AdmissibleRun(es)
    ensures HeapWellFormed(LiveAfter(es))
    ensures Run(es).allocs == TableOf(LiveAfter(es))
    ensures WellFormed(Run(es).allocs)
  {
    if es != [] {
      var n := |es| - 1;
      PrefixAdmissible(es, n);
      TableIsLiveBlocks(es[..n]);
      TableStep(Run(es[..n]), LiveAfter(es[..n]), es[n]);
    }
    TableWellFormed(LiveAfter(es));
  }
}
