/**
  The allocation-site handler and the three hooks, as they update the shared
  tables in place. Each method is tied to one step of the provenance state
  machine; `Model` is the state it acts on.
 */
module Handler {
  import opened AllocSites
  import opened AllocationMap
  import opened Provenance

  class AllocSiteHandler {
    var allocationMap: seq<Entry>
    var faultSet: SiteSet
    var chains: map<Identity, SiteSet>
    var pkeyByTid: map<ThreadId, PendingPKeyInfo>

    ghost predicate Valid()
      reads this
    {
      Sorted(allocationMap)
    }

    ghost function Model(): State
      reads this
    {
      State(Contents(allocationMap), faultSet, chains)
    }

    constructor ()
      ensures Valid() && Model() == INITIAL && pkeyByTid == map[]
    {
      allocationMap, faultSet, chains, pkeyByTid := [], map[], map[], map[];
    }

    method InsertAllocSite(ptr: Ptr, site: AllocSite)
      requires Valid()
      modifies this`allocationMap
      ensures Valid()
      ensures Contents(allocationMap) == Emplace(old(Contents(allocationMap)), ptr, site)
    {
      EmplaceEntrySorted(allocationMap, ptr, site);
      EmplaceEntryContents(allocationMap, ptr, site);
      allocationMap := EmplaceEntry(allocationMap, ptr, site);
    }

    method RemoveAllocSite(ptr: Ptr)
      requires Valid()
      modifies this`allocationMap
      ensures Valid()
      ensures Contents(allocationMap) == old(Contents(allocationMap)) - {ptr}
    {
      EraseEntrySorted(allocationMap, ptr);
      EraseEntryContents(allocationMap, ptr);
      allocationMap := EraseEntry(allocationMap, ptr);
    }

    method GetAllocSite(ptr: Ptr) returns (site: AllocSite)
      requires Valid()
      ensures site == Lookup(Contents(allocationMap), ptr)
      ensures Ordered(Contents(allocationMap)) ==>
                (site == Scan(Contents(allocationMap), ptr) <==>
                 !(ptr in Contents(allocationMap) && !Contents(allocationMap)[ptr].NonWrapping()))
    {
      if Ordered(Contents(allocationMap)) {
        LookupIsScanExactly(Contents(allocationMap), ptr);
      }
      if |allocationMap| == 0 {
        return ERROR;
      }
      ExactKey(allocationMap, ptr);
      StepBack(allocationMap, ptr);
      FirstKey(allocationMap);
      var it := LowerBound(allocationMap, ptr);
      if it != |allocationMap| {
        ContentsAt(allocationMap, it);
        if allocationMap[it].key == ptr {
          return allocationMap[it].site;
        }
      }
      if it != 0 {
        it := it - 1;
      }
      ContentsAt(allocationMap, it);
      if allocationMap[it].site.ContainsPtr(ptr) {
        return allocationMap[it].site;
      }
      return ERROR;
    }

    method AddFaultAlloc(ptr: Ptr, pkey: UInt32)
      requires Valid()
      modifies this`faultSet
      ensures Valid()
      ensures Model() == FaultStep(old(Model()), ptr, pkey)
    {
      var alloc := GetAllocSite(ptr);
      if !alloc.IsValid() {
        return;
      }
      alloc := alloc.WithPkey(pkey);
      faultSet := Emplace(faultSet, alloc.Id(), alloc);
      ghost var direct := faultSet;
      if alloc.Id() !in chains {
        assert MarkAll(direct, map[], pkey) == direct;
        return;
      }
      var chain := chains[alloc.Id()];
      var todo := chain.Keys;
      while todo != {}
        invariant todo <= chain.Keys
        invariant faultSet.Keys == direct.Keys + (chain.Keys - todo)
        invariant forall id :: id in faultSet ==>
                    faultSet[id] == if id in direct then direct[id] else chain[id].WithPkey(pkey)
        decreases todo
      {
        var assoc :| assoc in todo;
        faultSet := Emplace(faultSet, assoc, chain[assoc].WithPkey(pkey));
        todo := todo - {assoc};
      }
      assert faultSet == MarkAll(direct, chain, pkey);
    }

    method UpdateReallocChain(oldAS: AllocSite, newAS: AllocSite)
      modifies this`chains
      ensures chains == ExtendChain(old(chains), oldAS, newAS)
    {
      if oldAS.Id() !in chains {
        var first: SiteSet := map[];
        first := Emplace(first, oldAS.Id(), oldAS);
        chains := Emplace(chains, newAS.Id(), first);
        return;
      }
      var reallocChain := chains[oldAS.Id()];
      reallocChain := Emplace(reallocChain, oldAS.Id(), oldAS);
      chains := Emplace(chains, newAS.Id(), reallocChain);
    }

    method StorePendingPKeyInfo(threadID: ThreadId, info: PendingPKeyInfo)
      modifies this`pkeyByTid
      ensures pkeyByTid.Keys == old(pkeyByTid.Keys) + {threadID}
      ensures forall t :: t in old(pkeyByTid) ==> pkeyByTid[t] == old(pkeyByTid)[t]
      ensures threadID !in old(pkeyByTid) ==> pkeyByTid[threadID] == info
    {
      pkeyByTid := Emplace(pkeyByTid, threadID, info);
    }

    method GetAndRemove(threadID: ThreadId) returns (found: bool, info: PendingPKeyInfo)
      modifies this`pkeyByTid
      ensures found <==> threadID in old(pkeyByTid)
      ensures found ==> info == old(pkeyByTid)[threadID]
      ensures pkeyByTid == old(pkeyByTid) - {threadID}
    {
      if threadID !in pkeyByTid {
        return false, PendingPKeyInfo(0, 0);
      }
      found, info := true, pkeyByTid[threadID];
      pkeyByTid := pkeyByTid - {threadID};
    }
  }

  // ----- the hooks the instrumented program calls -----

  method AllocHook(h: AllocSiteHandler, ptr: Ptr, size: Int64, localID: Int64, bbName: string, funcName: string)
    requires h.Valid()
    requires Alloc(ptr, size, Identity(funcName, bbName, localID)).WellFormed()
    modifies h`allocationMap
    ensures h.Valid()
    ensures h.Model() == Step(old(h.Model()), Alloc(ptr, size, Identity(funcName, bbName, localID)))
  {
    var site := NewSite(ptr, size, Identity(funcName, bbName, localID), false);
    h.InsertAllocSite(ptr, site);
  }

  /** The old size is a parameter of the hook but plays no part in it. */
  method ReallocHook(h: AllocSiteHandler, newPtr: Ptr, newSize: Int64, oldPtr: Ptr, oldSize: Int64,
                     localID: Int64, bbName: string, funcName: string)
    requires h.Valid()
    requires Realloc(newPtr, newSize, oldPtr, Identity(funcName, bbName, localID)).WellFormed()
    modifies h`allocationMap, h`chains
    ensures h.Valid()
    ensures h.Model() == Step(old(h.Model()), Realloc(newPtr, newSize, oldPtr, Identity(funcName, bbName, localID)))
  {
    var at := Identity(funcName, bbName, localID);
    var oldAS := h.GetAllocSite(oldPtr);
    if !oldAS.IsValid() {
      h.InsertAllocSite(newPtr, NewSite(newPtr, newSize, at, false));
      return;
    }
    var newAS := NewSite(newPtr, newSize, at, true);
    h.UpdateReallocChain(oldAS, newAS);
    h.RemoveAllocSite(oldPtr);
    h.InsertAllocSite(newPtr, newAS);
  }

  method DeallocHook(h: AllocSiteHandler, ptr: Ptr, size: Int64, localID: Int64)
    requires h.Valid()
    modifies h`allocationMap
    ensures h.Valid()
    ensures h.Model() == Step(old(h.Model()), Dealloc(ptr))
  {
    h.RemoveAllocSite(ptr);
  }
}
