/**
  The protection-key register: sixteen two-bit lanes, as section 4.6.2 of
  volume 3A of the Intel SDM lays them out. Keys are 32-bit; those above 15 are
  refused (read as a signed int, as the original does, the large ones are
  negative and refused all the same).
 */
module Pkru {
  const PKEY_ENABLE_ACCESS: bv32 := 0

  /** The value -1 that reading an invalid key returns, once stored as unsigned. */
  const NO_RIGHTS: bv32 := 0xFFFF_FFFF

  predicate ValidKey(key: bv32) {
    key <= 15
  }

  function PkeyGet(pkru: bv32, key: bv32): bv32 {
    if !ValidKey(key) then NO_RIGHTS else (pkru >> (2 * key)) & 3
  }

  function PkeySet(pkru: bv32, key: bv32, rights: bv32): bv32 {
    if !ValidKey(key) || rights > 3 then pkru
    else (pkru & !(3 << (2 * key))) | (rights << (2 * key))
  }

  /** Key `key` is governed by bits `2 * key`, access-disable, and `2 * key + 1`, write-disable. */
  lemma LaneBits(pkru: bv32, key: bv32)
    requires ValidKey(key)
    ensures PkeyGet(pkru, key) & 1 != 0 <==> pkru & (1 << (2 * key)) != 0
    ensures PkeyGet(pkru, key) & 2 != 0 <==> pkru & (1 << (2 * key + 1)) != 0
    ensures PkeyGet(pkru, key) & !3 == 0
  {
  }

  /** There are sixteen keys; reading any other gives -1 as an unsigned number, and setting it changes nothing. */
  lemma OtherKeys(pkru: bv32, key: bv32, rights: bv32)
    requires key > 15
    ensures PkeyGet(pkru, key) == 0xFFFF_FFFF && PkeySet(pkru, key, rights) == pkru
  {
  }

  lemma GetRange(pkru: bv32, key: bv32)
    requires ValidKey(key)
    ensures PkeyGet(pkru, key) <= 3
  {
  }

  /** Setting a lane is seen by reading that lane and by no other. */
  lemma SetLane(pkru: bv32, key: bv32, rights: bv32, lane: bv32)
    requires ValidKey(lane)
    ensures PkeyGet(PkeySet(pkru, key, rights), lane) ==
            if key == lane && rights <= 3 then rights else PkeyGet(pkru, lane)
  {
  }

  /** From one register to the next only a key's own lane changes, to the given rights if key and rights are valid. */
  ghost predicate OnlyLane(before: bv32, after: bv32, key: bv32, rights: bv32) {
    forall lane :: ValidKey(lane) ==>
      PkeyGet(after, lane) == if lane == key && rights <= 3 then rights else PkeyGet(before, lane)
  }

  lemma SetsOnlyLane(pkru: bv32, key: bv32, rights: bv32)
    ensures OnlyLane(pkru, PkeySet(pkru, key, rights), key, rights)
  {
    forall lane | ValidKey(lane)
      ensures PkeyGet(PkeySet(pkru, key, rights), lane) ==
              if lane == key && rights <= 3 then rights else PkeyGet(pkru, lane)
    {
      SetLane(pkru, key, rights, lane);
    }
  }

  /** The sixteen lanes are the whole register. */
  lemma LanesDetermine(p: bv32, q: bv32)
    requires forall lane :: ValidKey(lane) ==> PkeyGet(p, lane) == PkeyGet(q, lane)
    ensures p == q
  {
    assert PkeyGet(p, 0) == PkeyGet(q, 0) && PkeyGet(p, 1) == PkeyGet(q, 1);
    assert PkeyGet(p, 2) == PkeyGet(q, 2) && PkeyGet(p, 3) == PkeyGet(q, 3);
    assert PkeyGet(p, 4) == PkeyGet(q, 4) && PkeyGet(p, 5) == PkeyGet(q, 5);
    assert PkeyGet(p, 6) == PkeyGet(q, 6) && PkeyGet(p, 7) == PkeyGet(q, 7);
    assert PkeyGet(p, 8) == PkeyGet(q, 8) && PkeyGet(p, 9) == PkeyGet(q, 9);
    assert PkeyGet(p, 10) == PkeyGet(q, 10) && PkeyGet(p, 11) == PkeyGet(q, 11);
    assert PkeyGet(p, 12) == PkeyGet(q, 12) && PkeyGet(p, 13) == PkeyGet(q, 13);
    assert PkeyGet(p, 14) == PkeyGet(q, 14) && PkeyGet(p, 15) == PkeyGet(q, 15);
  }

  /** Giving a key rights it has already changes nothing. */
  lemma SetSame(pkru: bv32, key: bv32, rights: bv32)
    requires ValidKey(key) && PkeyGet(pkru, key) == rights
    ensures PkeySet(pkru, key, rights) == pkru
  {
    SetsOnlyLane(pkru, key, rights);
    LanesDetermine(PkeySet(pkru, key, rights), pkru);
  }

  /** Of two settings of one key only the last counts. */
  lemma SetTwice(pkru: bv32, key: bv32, first: bv32, second: bv32)
    requires ValidKey(key) && first <= 3 && second <= 3
    ensures PkeySet(PkeySet(pkru, key, first), key, second) == PkeySet(pkru, key, second)
  {
    SetsOnlyLane(pkru, key, first);
    SetsOnlyLane(PkeySet(pkru, key, first), key, second);
    SetsOnlyLane(pkru, key, second);
    LanesDetermine(PkeySet(PkeySet(pkru, key, first), key, second), PkeySet(pkru, key, second));
  }

  /** Opening a key changes nothing exactly when the key is invalid or open already. */
  lemma OpenIsIdle(pkru: bv32, key: bv32)
    ensures PkeySet(pkru, key, PKEY_ENABLE_ACCESS) == pkru <==>
            !ValidKey(key) || PkeyGet(pkru, key) == PKEY_ENABLE_ACCESS
  {
    if ValidKey(key) {
      SetLane(pkru, key, PKEY_ENABLE_ACCESS, key);
      if PkeyGet(pkru, key) == PKEY_ENABLE_ACCESS {
        SetSame(pkru, key, PKEY_ENABLE_ACCESS);
      }
    }
  }

  /** Giving a key back the rights it had undoes opening it. */
  lemma GiveBack(pkru: bv32, key: bv32)
    ensures PkeySet(PkeySet(pkru, key, PKEY_ENABLE_ACCESS), key, PkeyGet(pkru, key)) == pkru
  {
    if ValidKey(key) {
      GetRange(pkru, key);
      SetTwice(pkru, key, PKEY_ENABLE_ACCESS, PkeyGet(pkru, key));
      SetSame(pkru, key, PkeyGet(pkru, key));
    }
  }
}
