/** The call sites that profiles report as faulting, by function and local id. */
module FaultMaps {
  import opened AllocSites

  datatype FaultingSite = FaultingSite(localID: nat, pkey: UInt32, bbName: string, funcName: string)

  type FaultMap = map<string, map<nat, FaultingSite>>

  /** Is there an entry for this function and local id? */
  predicate Faulty(m: FaultMap, funcName: string, localID: nat) {
    funcName in m && localID in m[funcName]
  }
}
