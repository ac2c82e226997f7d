/**
  Allocation sites: what one call of an allocation function recorded about the
  memory it returned. Pointers and sizes are 64-bit machine values, so the end
  of a range is computed modulo the size of the address space.
 */
module AllocSites {
  const ADDRESS_SPACE: nat := 0x1_0000_0000_0000_0000

  type Ptr = p: nat | p < 0x1_0000_0000_0000_0000

  type Int64 = x: int | -0x8000_0000_0000_0000 <= x < 0x8000_0000_0000_0000

  type UInt32 = x: nat | x < 0x1_0000_0000

  type ThreadId = int

  /** Pointers are unsigned 64-bit values, sizes and ids signed ones, keys unsigned 32-bit values. */
  lemma Widths(p: Ptr, n: Int64, k: UInt32) returns (lastPtr: Ptr, least: Int64, greatest: Int64, lastKey: UInt32)
    ensures 0 <= p <= lastPtr == 0xFFFF_FFFF_FFFF_FFFF
    ensures -0x8000_0000_0000_0000 == least <= n <= greatest == 0x7FFF_FFFF_FFFF_FFFF
    ensures 0 <= k <= lastKey == 0xFFFF_FFFF
  {
    lastPtr, lastKey := 0xFFFF_FFFF_FFFF_FFFF, 0xFFFF_FFFF;
    least, greatest := -0x8000_0000_0000_0000, 0x7FFF_FFFF_FFFF_FFFF;
  }

  /** The access rights to give back to `pkey` after the single step. */
  datatype PendingPKeyInfo = PendingPKeyInfo(pkey: bv32, accessRights: bv32)

  /** Site equality looks at these three fields and at nothing else. */
  datatype Identity = Identity(funcName: string, bbName: string, localID: Int64)

  datatype AllocSite = AllocSite(
    ptr: Ptr,
    size: Int64,
    localID: Int64,
    bbName: string,
    funcName: string,
    pkey: UInt32,
    isRealloc: bool)
  {
    function Id(): Identity {
      Identity(funcName, bbName, localID)
    }

    predicate IsValid() {
      ptr != 0 && size > 0 && localID >= 0
    }

    /** One past the last byte, after 64-bit wrap-around. */
    function End(): Ptr {
      (ptr + size) % ADDRESS_SPACE
    }

    predicate ContainsPtr(p: Ptr) {
      ptr <= p < End()
    }

    /** The range ends inside the address space, so `End` does not wrap. */
    predicate NonWrapping() {
      ptr + size < ADDRESS_SPACE
    }

    function WithPkey(key: UInt32): AllocSite {
      this.(pkey := key)
    }
  }

  /** The site returned when no allocation is found. */
  const ERROR: AllocSite := AllocSite(0, -1, -1, "", "", 0, false)

  /**
    The error site is none the constructor can build: the null pointer, size and
    id -1, no names. Only its validity tells it apart, since by the comparison
    of pointers, where size -1 wraps, it holds every address but the last.
   */
  lemma ErrorSite(p: Ptr)
    ensures ERROR.ptr == 0 && ERROR.size == -1 && ERROR.Id() == Identity("", "", -1)
    ensures ERROR.pkey == 0 && !ERROR.isRealloc && !ERROR.IsValid()
    ensures ERROR.ContainsPtr(p) <==> p != 0xFFFF_FFFF_FFFF_FFFF
  {
    assert (0 + -1) % ADDRESS_SPACE == ADDRESS_SPACE - 1;
  }

  /** The constructor of a site, with the three assertions it makes. */
  function NewSite(ptr: Ptr, size: Int64, at: Identity, isRealloc: bool): (site: AllocSite)
    requires ptr != 0 && size > 0 && at.localID >= 0
    ensures site.IsValid() && site.Id() == at && site.ptr == ptr && site.size == size
    ensures site.isRealloc == isRealloc && site.pkey == 0
  {
    AllocSite(ptr, size, at.localID, at.bbName, at.funcName, 0, isRealloc)
  }

  /** The valid sites are those the constructor can build, with any key recorded since. */
  lemma ValidSitesAreBuilt(site: AllocSite)
    ensures site.IsValid() <==>
            exists ptr: Ptr, size: Int64, at: Identity, isRealloc: bool ::
              && ptr != 0 && size > 0 && at.localID >= 0
              && site == NewSite(ptr, size, at, isRealloc).WithPkey(site.pkey)
  {
    if site.IsValid() {
      assert site == NewSite(site.ptr, site.size, site.Id(), site.isRealloc).WithPkey(site.pkey);
    }
  }

  /** Recording a key changes the key and nothing else: recording the old one again gives the site back. */
  lemma KeyRecorded(site: AllocSite, key: UInt32)
    ensures site.WithPkey(key).pkey == key && site.WithPkey(key).WithPkey(site.pkey) == site
  {
  }

  /**
    The wrapping comparison means exactly "inside the range and the range does
    not wrap": a range that reaches the end of the address space holds nothing,
    not even its own base pointer.
   */
  lemma ContainsPtrMeaning(site: AllocSite, p: Ptr)
    requires site.IsValid()
    ensures site.ContainsPtr(p) <==> site.NonWrapping() && site.ptr <= p < site.ptr + site.size
    ensures site.ContainsPtr(site.ptr) <==> site.NonWrapping()
    ensures site.NonWrapping() <==> site.ptr + site.size < 0x1_0000_0000_0000_0000
  {
    var sum := site.ptr + site.size;
    if site.NonWrapping() {
      assert sum % ADDRESS_SPACE == sum;
    } else {
      assert sum % ADDRESS_SPACE == sum - ADDRESS_SPACE;
    }
  }
}
