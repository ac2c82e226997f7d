# ProvSan: a verified model

ProvSan records which allocation call made each piece of heap memory. When an
access faults across a compartment boundary, it marks the call site that owns
the memory, together with the sites the memory was reallocated from, lets the
one instruction through, and at exit writes the marked sites to a file. A second
build of the program reads such files and sends exactly those allocation calls
to the untrusted allocator.

This project models the four parts that this rests on and proves what they
promise, for all inputs, all runs and all interleavings:

- **The provenance state machine.** `AllocSites`, `AllocationMap` (the ordered
  map and its predecessor search), `Provenance` (hooks and faults as steps, next
  to an independent account of the heap written from the allocator's side),
  `ProvenanceRuns` and `Lineage` (what whole runs guarantee), `Handler` (the
  class that updates the tables in place, tied to the steps).
- **Concurrency.** `CriticalSections` and `SerialOrder` treat every critical
  section as a step of its own, for any number of threads, and `Admission` says
  when a call may start and what is found of a block that is being moved.
  `Locks`, `LockProofs` and `LockResults` add the four mutexes and signal handlers
  that interrupt threads; `AtomicMarking` follows each marking from the lookup of
  its site to the release of the fault set, `LockedFaults` says where each member
  of the fault set comes from, `LockedPending` the same of pending rights, and
  `HandlerEntry` what becomes of a handler that enters under a lock it needs.
- **The single-step protocol.** `Pkru` (the register's sixteen lanes, section
  4.6.2 of volume 3A of the Intel SDM) and `SingleStep`.
- **The compiler round trip.** `Ir`, `PrePass`/`PreResults`/`HookPlaces`/`HookNames`
  (hook insertion, where each hook stands, and which calls get one, by name),
  `PostPass`/`PostResults` (numbering, patching, stripping), `Json` (a reader for
  sections 2 to 7 of RFC 8259), `JsonText` and `JsonRoundTrip` (that reader against
  the grammar, and against a writer for every value), `Profile` and
  `ProfileEntries` (writing, reading and merging profiles, entry by entry),
  `NameSurvival` (exactly which names survive the file), `FaultMaps`
  (what the second pass keeps of them), `Builds` (two builds and a run in
  between) and `CallByCall` (what becomes of each single call). `StrToVec` and
  `Diag` are the two string routines of the passes; `Common` holds optional
  values and decimal notation.

Five promises hold only under a condition; each is given exactly, with an input
that fails it.

- The predecessor search agrees with a scan of every range, on ordered ranges of
  which the last may wrap around the address space, if and only if the address is
  not the base of a range that wraps (`AllocationMap.LookupIsScanExactly`).
  `containsPtr` holds nothing in such a range, as the comment at
  Runtime/alloc_site_handler.h:79-82 says of it, but the exact-key test of
  `getAllocSite` answers before `containsPtr` is asked
  (`AllocationMap.LookupBeyondScan`, `AllocationMap.WrappingRangeFound`).
- At every point of a run the whole realloc lineage of every live block is in
  what a fault on it would mark, if and only if every realloc of the run finds its
  site without a chain, or with a family that holds the reallocated block's own
  lineage (`Lineage.LineageCompleteExactly`), because `emplace` keeps a chain that
  is already there; `Lineage.SharedSiteLosesOrigin` is a four-call run that fails
  it. That the family covers the old site's family, a test on the tables alone, is
  enough (`Lineage.FaultMarksWholeLineage`).
- In a leader's run the faulting register comes back bit for bit if and only if no
  later key of the same instruction was closed before
  (`SingleStep.RestoredExactly`); `SingleStep.SecondKeyStaysOpen` is a run of two
  faults and a trap after which it does not. For one fault of an arbitrary thread
  it comes back if and only if the thread is the leader of its process or nothing
  was taken away (`SingleStep.LeaderOnly`), because rights are stored under
  `gettid()` and taken under `getpid()`; `SingleStep.FollowerStaysOpen` is a fault
  after which it does not.
- A written file is read as what was written if and only if no name in it holds
  a quote, a backslash or a control character (`NameSurvival.FileSurvivesExactly`),
  because the writer does not escape; one quote can lose the whole file
  (`NameSurvival.QuoteLosesFile`). An entry of such a file is accepted if and only
  if both its names are non-empty (`Profile.FromMembers`).
- Function name and id identify a hook of the module if and only if no two functions
  that have hooks share a name (`PostResults.IdentifiedExactly`). Functions without
  a name do: the first hooks of any two of them get the same pair
  (`PostResults.UnnamedConfused`).

## Premises

The allocator returns non-null memory of positive size that does not wrap and is
clear of live memory, and a reallocated pointer is the base of a live block or
lies in none. In the concurrent model, calls in flight share no new memory and
no old pointer. Between a fault and its trap the thread does not write PKRU. A
signal handler does not enter while its thread holds a mutex of the handler
(`HandlerEntry.HandlerUnderLockIsStuck` and `HandlerEntry.MarkingUnderLockIsStuck`
show why). Traversal orders visit each block at most once. Functions hooked by the
first pass hold no hooks yet, every block has exactly one instruction that ends
it, target calls in the blocks traversed have the operands their hooks take, no
hook is itself a target, and an edge marked as the only one into its block is.
What is said of single calls supposes that a value is the result of one call at
most.

## Model

| member | source | states |
|---|---|---|
| `AllocSites.NewSite` | Runtime/alloc_site_handler.h:67-74 | a site built from arguments that pass the constructor's assertions is valid and keeps pointer, size and identity |
| `AllocSites.ValidSitesAreBuilt` | Runtime/alloc_site_handler.h:67-77 | the valid sites are exactly those the constructor builds from arguments that pass its assertions, with any key recorded since |
| `AllocSites.KeyRecorded` | Runtime/alloc_site_handler.h:102 | recording a key changes the key only |
| `AllocSites.Widths` | Runtime/alloc_site_handler.h:56-61 | pointers are 64-bit unsigned, sizes and ids 64-bit signed, keys 32-bit unsigned |
| `AllocSites.ErrorSite` | Runtime/alloc_site_handler.h:63-64 | the error site has the null pointer, size and id -1 and no names; it is invalid, though the wrapping comparison lets it hold every address but the last |
| `AllocSites.ContainsPtrMeaning` | Runtime/alloc_site_handler.h:79-87 | the 64-bit comparison means "inside a range that does not wrap"; a wrapping range contains nothing, not even its base |
| `AllocationMap.Emplace` | Runtime/alloc_site_handler.h:208 | insertion adds the key and never changes the value of a key already present |
| `AllocationMap.EmplaceEntryContents` | Runtime/alloc_site_handler.h:203-209 | insertion into the ordered container is keeping insertion into the map it stands for |
| `AllocationMap.EraseEntryContents` | Runtime/alloc_site_handler.h:211-217 | erasure removes that key from the map and nothing else |
| `AllocationMap.ExactKey` | Runtime/alloc_site_handler.h:229-238 | a pointer is a key exactly when the lower bound stops at it |
| `AllocationMap.StepBack` | Runtime/alloc_site_handler.h:240-243 | one step back from the lower bound is the greatest key below the pointer, and begin means there is none |
| `AllocationMap.LookupFinds` | Runtime/alloc_site_handler.h:219-253 | an address in some range is answered with that range's site |
| `AllocationMap.LookupMisses` | Runtime/alloc_site_handler.h:248-252 | an address in no range gets the error site, if it is not the base of a range that wraps |
| `AllocationMap.LookupIsScanExactly` | Runtime/alloc_site_handler.h:219-253 | on disjoint ranges of valid sites, the last of which may wrap, the predecessor search equals a scan of every range if and only if the address is not the base of a range that wraps |
| `AllocationMap.LookupRefinesScan` | Runtime/alloc_site_handler.h:219-253 | on disjoint non-wrapping ranges the predecessor search equals the scan at every address, and finds a site exactly where some range holds the address |
| `AllocationMap.LookupBeyondScan` | Runtime/alloc_site_handler.h:231-238 | at the base of any range that wraps, the search answers with that range's site though no range holds the address |
| `AllocationMap.WrappingRangeFound` | Runtime/alloc_site_handler.h:231-238 | a map of one wrapping range on which search and scan differ |
| `Provenance.TableStep` | Runtime/alloc_site_handler.cpp:28-97 | one admissible hook or fault takes a table that describes the heap to one that describes the next heap |
| `Provenance.TableIsLiveBlocks` | Runtime/alloc_site_handler.cpp:31-35 | run invariant: after every admissible run `allocation_map` is exactly the live blocks, key equal to site pointer, ranges disjoint |
| `Provenance.LookupInTable` | Runtime/alloc_site_handler.h:219-253 | looking up an address answers with the live block that holds it, or with the error site |
| `ProvenanceRuns.TablesOnlyGrow` | Runtime/alloc_site_handler.h:276-294 | no step, frees included, removes or changes a recorded chain or a marked site |
| `ProvenanceRuns.ChainsAfter` | Runtime/alloc_site_handler.cpp:67-77 | only a realloc of a tracked pointer adds a chain, and only for its own site |
| `ProvenanceRuns.ChainsAreAncestors` | Runtime/alloc_site_handler.h:336-349 | ancestry soundness: a member of a site's chain reached that site through realloc edges that happened in the run, in order |
| `ProvenanceRuns.FaultStepMarks` | Runtime/alloc_site_handler.h:256-302 | a fault adds exactly the owning site and its chain, keeps what was marked, and gives what it adds the faulting key |
| `ProvenanceRuns.FaultSetIsExactlyTheMarks` | Runtime/alloc_site_handler.h:256-302 | over every admissible run the fault set is exactly the union of the families of the sites whose blocks faulted, each under its own identity |
| `ProvenanceRuns.FirstFaultWins` | Runtime/alloc_site_handler.h:276-294 | each member's key is the key of the first fault that marked it, directly or through a chain |
| `ProvenanceRuns.MarkedSitesAreAncestors` | Runtime/alloc_site_handler.h:289-301 | every marked site owns a faulting block or is an ancestor of its site through reallocs of the run |
| `ProvenanceRuns.StrayFaultChangesNothing` | Runtime/alloc_site_handler.h:261-266 | a fault outside all live ranges changes nothing |
| `ProvenanceRuns.RunsGoOn` | Runtime/alloc_site_handler.cpp:31-97 | after any admissible run a fault or a free may come next, and an allocation or a reallocation exactly when the memory it returned is free to use |
| `Lineage.CompleteStep` | Runtime/alloc_site_handler.h:336-349 | a step keeps all lineages covered exactly when it passes the test on the reallocating site's chain |
| `Lineage.LineageCompleteExactly` | Runtime/alloc_site_handler.h:336-349 | lineages are covered at every point of a run if and only if every tracked realloc of the run finds its site without a chain, or with a family holding the block's lineage |
| `Lineage.FaultMarksWholeLineage` | Runtime/alloc_site_handler.h:289-300 | if every realloc finds no chain or one covering the old family, a fault in any live block marks its whole lineage |
| `Lineage.SharedSiteLosesOrigin` | Runtime/alloc_site_handler.h:346-348 | two blocks reallocated at one site: a fault on the second does not mark where it came from |
| `Lineage.SelfReallocCovers` | Runtime/alloc_site_handler.h:336-349 | a block reallocated at its own site, as by a growing buffer, always passes the test |
| `Handler.AllocSiteHandler.constructor` | Runtime/alloc_site_handler.h:195 | a new handler has empty tables |
| `Handler.AllocSiteHandler.InsertAllocSite` | Runtime/alloc_site_handler.h:203-209 | the ordered container stays sorted and stands for the map with the key kept or added |
| `Handler.AllocSiteHandler.RemoveAllocSite` | Runtime/alloc_site_handler.h:211-217 | the ordered container stays sorted and stands for the map without the key |
| `Handler.AllocSiteHandler.GetAllocSite` | Runtime/alloc_site_handler.h:219-253 | the iterator walk, with its begin and end cases, returns the predecessor search's answer, and on disjoint ranges the scan's if and only if the pointer is not the base of a range that wraps |
| `Handler.AllocSiteHandler.AddFaultAlloc` | Runtime/alloc_site_handler.h:256-302 | the loop over the chain, in any order, performs the fault step on the whole state |
| `Handler.AllocSiteHandler.UpdateReallocChain` | Runtime/alloc_site_handler.h:336-349 | the new site gets the old site's chain and the old site, unless it has a chain already |
| `Handler.AllocSiteHandler.StorePendingPKeyInfo` | Runtime/alloc_site_handler.h:306-311 | rights already pending, the thread's own included, are unchanged; a thread with none pending gets the given ones, and no other thread does |
| `Handler.AllocSiteHandler.GetAndRemove` | Runtime/alloc_site_handler.h:316-328 | returns what was pending, says whether anything was, and leaves nothing pending for that thread |
| `Handler.AllocHook` | Runtime/alloc_site_handler.cpp:31-44 | performs the alloc step on the shared tables and touches no other |
| `Handler.ReallocHook` | Runtime/alloc_site_handler.cpp:50-86 | performs the realloc step, the fallback for an untracked old pointer included |
| `Handler.DeallocHook` | Runtime/alloc_site_handler.cpp:88-97 | performs the dealloc step |
| `SerialOrder.StepKeepsInv` | Runtime/alloc_site_handler.cpp:50-86 | each hook start and each critical section keeps the shared tables equal to the serial ones up to the moves in flight |
| `SerialOrder.HooksAreSerialisable` | Runtime/alloc_site_handler.cpp:54-77 | whenever no hook is in flight, any interleaving has left `allocation_map` and `FM` as an admissible serial run of exactly the calls made, each once |
| `SerialOrder.ReallocsOrderedByChainUpdate` | Runtime/alloc_site_handler.cpp:54-77 | a realloc takes its place in the serial order in exactly the step that updates its chain, or, when its old pointer is untracked, that inserts its fallback entry |
| `SerialOrder.InFlightTable` | Runtime/alloc_site_handler.h:203-217 | even with hooks in flight, no two entries overlap but for blocks being moved |
| `SerialOrder.SerialOrderRespectsRealTime` | Runtime/alloc_site_handler.cpp:50-86 | a call that had taken effect when another started comes before it in the serial order |
| `Admission.MayStartAlone` | Runtime/alloc_site_handler.cpp:31-97 | with no call in flight, a hook may start exactly when the memory it reports is free and a reallocated pointer is the base of an entry or in none |
| `Admission.MayStartBeside` | Runtime/alloc_site_handler.cpp:31-97 | with a call in flight, another may start exactly when it could before and the two share no memory they report |
| `Admission.NotFoundWhileMoved` | Runtime/alloc_site_handler.cpp:70-77 | between the removal of the old entry and the insertion of the new one, no address of the moved block is found in the table |
| `Admission.MovingIsExecution` | Runtime/alloc_site_handler.cpp:50-86 | an allocation and a reallocation section by section, with the tables after each, through such a moment |
| `LockProofs.NoDataRace` | Runtime/alloc_site_handler.h:176-192 | every instruction that reads or writes `allocation_map`, `FM`, `fault_set` or `pkey_by_tid_map` runs while its thread holds that table's own mutex; marking an ancestor, which walks over a chain of `FM`, while it holds both |
| `LockProofs.WritesGuarded` | Runtime/alloc_site_handler.h:176-192 | a step after which a table is different was made by a thread that held that table's mutex |
| `LockProofs.ReadsGuarded` | Runtime/alloc_site_handler.h:176-192 | what a thread without a table's mutex does is the same whatever that table holds |
| `LockResults.StepKeepsLockInv` | Runtime/alloc_site_handler.h:256-302 | every lock, release, action, call and signal keeps the locking discipline, the state of markings and the hook invariant |
| `AtomicMarking.ReadHappened` | Runtime/alloc_site_handler.h:283-292 | every chain recorded as read is the whole chain the site had at the moment of the read, with one thread holding both mutexes |
| `AtomicMarking.BegunWasFound` | Runtime/alloc_site_handler.h:256-266 | every site marked directly was found, under the table's mutex, for an address that faulted |
| `AtomicMarking.ReadWasFound` | Runtime/alloc_site_handler.h:256-266 | every site whose chain was read was found for a fault on the key recorded with the read |
| `AtomicMarking.NoFaultHalfMarked` | Runtime/alloc_site_handler.h:276-301 | whenever `fault_set_mx` is free, every site marked has the whole chain it had when the chain was read marked with it, and nothing else is in the set |
| `AtomicMarking.FoundSiteIsMarked` | Runtime/alloc_site_handler.h:256-301 | no fault is forgotten: a site found by a handler is marked whole, for the key of its fault, once the handler is past the marking and `fault_set_mx` is free |
| `LockedFaults.MarkedSitesAreInLine` | Runtime/alloc_site_handler.h:276-294 | at every moment of every interleaving, each member of the fault set is a site that some handler found, or an ancestor of one through reallocs of the serial order |
| `LockedFaults.FirstMarkKeepsItsKey` | Runtime/alloc_site_handler.h:276-294 | under the locks, each member is still what the first step that marked it inserted, under its own identity, and its key is that of a fault for which a handler had found that site, or one it is an ancestor of |
| `LockedPending.PendingByAct` | Runtime/alloc_site_handler.h:306-328 | storing changes nothing for a thread id that has rights pending; taking removes that id's and no other's; nothing else touches them |
| `LockedPending.EntryWasStored` | Runtime/alloc_site_handler.h:306-311 | in every execution each pending entry was stored under `pkey_tid_map_mx` when its thread id had none, and is unchanged since |
| `LockedPending.EntryWasTaken` | Runtime/alloc_site_handler.h:316-328 | an entry that is gone was taken, under the mutex, by a thread about to take that very one |
| `LockedPending.BroughtBySignal` | Runtime/provsan_fault_handler.cpp:78-124 | every store and take ahead of a thread comes from a signal delivered to that thread: a fault's handler with the id and rights it stores, or a trap's |
| `LockResults.DeadlockFree` | Runtime/alloc_site_handler.h:276-284 | in every interleaving of hooks and handlers, some unfinished thread can step while any is unfinished |
| `HandlerEntry.NeverActsAgain` | Runtime/alloc_site_handler.h:256-257 | a thread about to acquire a mutex it holds itself never acts again, whatever the others do |
| `HandlerEntry.HandlerUnderLockIsStuck` | Runtime/provsan_fault_handler.cpp:55-66 | a handler entered while its thread holds a mutex the handler acquires: the thread never gives it back and never finishes, and never acts again if it is the handler's first |
| `HandlerEntry.MarkingUnderLockIsStuck` | Runtime/alloc_site_handler.h:276-284 | the same for the two mutexes of a marking, once the faulting address is found in the table |
| `LockResults.LockedHooksAreSerialisable` | Runtime/alloc_site_handler.h:203-217 | serialisability holds under the real locks with handlers interrupting the hooks |
| `LockResults.MutualExclusion` | Runtime/alloc_site_handler.h:176-192 | at no moment of any execution are two threads about to touch the same table |
| `LockResults.HandlersMayInterrupt` | Runtime/provsan_fault_handler.cpp:25-66 | a thread that holds no mutex may be interrupted by either handler, whatever it was doing |
| `LockResults.HookMayBeCalled` | Runtime/alloc_site_handler.cpp:28-97 | a thread with nothing left to do may call any hook the allocator admits, and asks for `alloc_map_mx` first |
| `LockResults.ExecutionsGoOn` | Runtime/alloc_site_handler.h:176-195 | executions start with empty tables and free mutexes and go on by any step |
| `Pkru.SetLane` | Runtime/provsan_utils.cpp:60-71 | setting a key's rights is seen by reading that key and by no other; refused arguments change nothing |
| `Pkru.LaneBits` | Runtime/provsan_utils.cpp:47-57 | a key's rights are bits 2k and 2k+1 of the register and nothing else |
| `Pkru.OtherKeys` | Runtime/provsan_utils.cpp:47-64 | reading a key above 15 gives -1 as an unsigned number, and setting it changes nothing |
| `Pkru.SetsOnlyLane` | Runtime/provsan_utils.cpp:60-71 | setting a key's rights changes that key's lane and no other |
| `Pkru.SetTwice` | Runtime/provsan_utils.cpp:60-71 | of two settings of one key only the last counts |
| `Pkru.LanesDetermine` | Runtime/provsan_utils.cpp:47-57 | the sixteen readable keys determine the register bit for bit |
| `Pkru.GiveBack` | Runtime/provsan_utils.cpp:47-71 | opening a key and giving it back what reading it returned is the identity, for every 32-bit key |
| `Pkru.OpenIsIdle` | Runtime/provsan_utils.cpp:60-71 | opening a key leaves the register alone exactly when the key is invalid or open already |
| `SingleStep.PendingExactlyWhileStepping` | Runtime/provsan_fault_handler.cpp:78-124 | in every run of the leader, rights are pending exactly while the trap flag is set, which is exactly between a fault and its trap |
| `SingleStep.TrapRestores` | Runtime/provsan_fault_handler.cpp:78-124 | after faults on any keys and then the trap, the register is the original but for valid later keys other than the first, which stay open |
| `SingleStep.RestoredExactly` | Runtime/provsan_fault_handler.cpp:78-124 | in every run of the leader, the trap restores the register bit for bit if and only if every valid later key other than the first was open to begin with |
| `SingleStep.SecondKeyStaysOpen` | Runtime/provsan_fault_handler.cpp:78-124 | a run of the leader, faults on two closed keys and the trap, after which the second key is left open |
| `SingleStep.OneFaultRestores` | Runtime/provsan_fault_handler.cpp:78-124 | one fault and its trap restore the register bit for bit, whatever the key |
| `SingleStep.FlagSet` | Runtime/provsan_fault_handler.cpp:13 | the trap flag is 0x100: set by setting, clear after clearing |
| `SingleStep.SetKeepsOthers` | Runtime/provsan_fault_handler.cpp:106 | setting the trap flag keeps every other flag |
| `SingleStep.ClearKeepsOthers` | Runtime/provsan_fault_handler.cpp:123 | clearing it keeps every other flag |
| `SingleStep.OtherFlagsKept` | Runtime/provsan_fault_handler.cpp:99-124 | over every run of faults and traps, every flag of the interrupted thread but 0x100 is as it was |
| `SingleStep.FlagAfter` | Runtime/provsan_fault_handler.cpp:99-124 | after a fault the trap flag is set, after a trap it is clear, and in between it does not change |
| `SingleStep.AnyRegister` | Runtime/provsan_fault_handler.cpp:78-84 | outside a window a leader run may go on with any value of the register, so a fault may find any rights |
| `SingleStep.LeaderOnly` | Runtime/provsan_fault_handler.cpp:83-117 | for any thread: restored if and only if it is the leader or nothing was taken away; a thread that is not the leader leaves its entry behind |
| `SingleStep.FollowerStaysOpen` | Runtime/provsan_fault_handler.cpp:83-117 | one fault of a thread that is not the leader, after which its key is open and its entry pending |
| `SingleStep.DisableThreadMPK` | Runtime/provsan_fault_handler.cpp:78-89 | the rights stored are those before the key is opened |
| `SingleStep.EnableThreadMPK` | Runtime/provsan_fault_handler.cpp:92-97 | of the sixteen lanes only the pending key's changes, to the pending rights, and none does if key or rights are invalid |
| `SingleStep.PkuSegvHandler` | Runtime/provsan_fault_handler.cpp:55-66 | a fault performs the fault step on the tables and the opening step on the context |
| `SingleStep.PkuTrapHandler` | Runtime/provsan_fault_handler.cpp:114-124 | a trap performs the closing step and clears the trap flag even when nothing was pending |
| `Json.NameSurvivesExactly` | Runtime/provsan_formatter.cpp:82-85 | a name written between quotes without escaping is read back if and only if it has no quote, backslash or control character |
| `Json.NameKeptExactly` | Runtime/provsan_formatter.cpp:82-85 | whatever text follows and however much of it is taken in, an unescaped name is decoded as itself if and only if it has no quote, backslash or control character |
| `Json.ReadDecimal` | Runtime/provsan_formatter.cpp:82 | a printed number is read back whatever non-numeric text follows |
| `JsonText.ReadSigned` | Runtime/provsan_formatter.cpp:82 | so is a printed number with a minus sign |
| `JsonText.NumberRead` | Passes/DynUntrustedAllocPost/DynUntrustedAllocPost.cpp:238-239 | a text that follows the number grammar of section 6 of RFC 8259 is read as its value, an integer unless it has a fraction or an exponent |
| `JsonText.NumberShape` | Passes/DynUntrustedAllocPost/DynUntrustedAllocPost.cpp:238-239 | whatever is read as a number follows that grammar |
| `JsonText.UnicodeEscape` | Passes/DynUntrustedAllocPost/DynUntrustedAllocPost.cpp:238-239 | an escape of four hex digits, each in either case, is the character with that code, and a surrogate is refused |
| `JsonText.ShortEscapes` | Passes/DynUntrustedAllocPost/DynUntrustedAllocPost.cpp:238-239 | the short escapes by the codes they stand for, and no others |
| `JsonText.SpaceCodes` | Passes/DynUntrustedAllocPost/DynUntrustedAllocPost.cpp:238-239 | whitespace is space, tab, line feed and carriage return |
| `JsonText.QuotedRead` | Passes/DynUntrustedAllocPost/DynUntrustedAllocPost.cpp:238-239 | any name written with escapes is read back as itself |
| `JsonRoundTrip.ReadText` | Passes/DynUntrustedAllocPost/DynUntrustedAllocPost.cpp:238-239 | any value without fractions, printed with any whitespace between its tokens, is read back as itself, and nothing after it is consumed |
| `JsonRoundTrip.WholeTextRead` | Passes/DynUntrustedAllocPost/DynUntrustedAllocPost.cpp:238-239 | so is a whole text with whitespace around it |
| `JsonRoundTrip.TrailingCommaRefused` | Passes/DynUntrustedAllocPost/DynUntrustedAllocPost.cpp:238-244 | an array with a comma before its bracket is refused |
| `JsonRoundTrip.MoreTextRefused` | Passes/DynUntrustedAllocPost/DynUntrustedAllocPost.cpp:238-244 | a text with anything but whitespace after its value is refused |
| `Profile.WriteJSON` | Runtime/provsan_formatter.cpp:74-89 | the countdown loop writes nothing for no sites, and otherwise one line a site with commas between them |
| `Profile.ReadItem` | Runtime/provsan_formatter.cpp:82-86 | a written site is read as one object with its five members, whatever follows it |
| `Profile.FromMembers` | Passes/DynUntrustedAllocPost/DynUntrustedAllocPost.cpp:177-208 | reading those members gives back the site's id, key, block and function name, and refuses the entry if and only if a name is empty |
| `ProfileEntries.AcceptedExactly` | Passes/DynUntrustedAllocPost/DynUntrustedAllocPost.cpp:177-208 | an entry is accepted, and as what, exactly if the last members of the four names are an id and a key that are non-negative 64-bit integers and two non-empty strings; the key is cut to 32 bits |
| `ProfileEntries.NegativeIdRefused` | Passes/DynUntrustedAllocPost/DynUntrustedAllocPost.cpp:181-184 | a site with a negative id is refused when it is read |
| `Profile.RoundTrip` | Runtime/provsan_formatter.cpp:74-89 | for every non-empty set of sites with clean names, in any order, the text is a JSON array whose elements read back as exactly the named sites written, in order |
| `NameSurvival.SiteSurvivesExactly` | Runtime/provsan_formatter.cpp:82-86 | a written site is read as its five members if and only if both its names are clean |
| `NameSurvival.FileSurvivesExactly` | Runtime/provsan_formatter.cpp:74-89 | a written file is read as the array of what was written if and only if every name in it is clean |
| `NameSurvival.QuoteLosesFile` | Runtime/provsan_formatter.cpp:82-86 | one block name with a quote, and the file cannot be read at all, whatever else it lists |
| `Profile.AddFault` | Passes/DynUntrustedAllocPost/DynUntrustedAllocPost.cpp:268-279 | a valid entry is added unless one for its function and id is there; an invalid one changes nothing |
| `Profile.GetFaultingAllocMap` | Passes/DynUntrustedAllocPost/DynUntrustedAllocPost.cpp:254-285 | the loops over files and entries compute the merged map |
| `Profile.MergedKeys` | Passes/DynUntrustedAllocPost/DynUntrustedAllocPost.cpp:254-285 | a function and id are in the merged map exactly when some readable file lists a valid entry for them |
| `ProfileEntries.FirstListedKept` | Passes/DynUntrustedAllocPost/DynUntrustedAllocPost.cpp:271-276 | for a function and id the merged map keeps the first valid entry of the first file that lists one |
| `Profile.MergeOrderIrrelevant` | Passes/DynUntrustedAllocPost/DynUntrustedAllocPost.cpp:254-285 | the order of files and their repetition do not matter to which sites are faulty |
| `Profile.WrittenSitesAreFaulty` | Passes/DynUntrustedAllocPost/DynUntrustedAllocPost.cpp:254-285 | a written fault set with clean names, be it empty, makes faulty exactly the function and id pairs of its sites that have both names |
| `Ir.StripMeaning` | Passes/DynUntrustedAllocPost/DynUntrustedAllocPost.cpp:514-532 | what is left after stripping is the instructions at exactly the places without a hook call, in increasing order |
| `Ir.HookIsCalled` | Passes/DynUntrustedAllocPost/DynUntrustedAllocPost.cpp:331-337 | the hook calls are the calls and invokes of the three hooks by name |
| `PrePass.HookCalls` | Passes/DynUntrustedAllocPre/DynUntrustedAllocPre.cpp:246-288 | inserting into a block while walking it, and walking over what was inserted, puts one hook after each ordinary target call |
| `PrePass.VisitNext` | Passes/DynUntrustedAllocPre/DynUntrustedAllocPre.cpp:246-288 | a visit hooks the block's calls and the invoke it ends in, on a new split-edge block or at its sole destination, and so takes the function described for the visited blocks to that for one more, whichever of caller and destination comes first |
| `PrePass.HookFunction` | Passes/DynUntrustedAllocPre/DynUntrustedAllocPre.cpp:234-291 | visiting the blocks in traversal order leaves each in its place, dressed with its own hooks, and the split-edge blocks behind them |
| `PreResults.HookFollowsCall` | Passes/DynUntrustedAllocPre/DynUntrustedAllocPre.cpp:255-260 | the hook of an ordinary call stands directly after that call |
| `PreResults.PlacesGrow` | Passes/DynUntrustedAllocPre/DynUntrustedAllocPre.cpp:246-288 | different calls of a block end up in different places, in their old order |
| `PreResults.OneEntryHook` | Passes/DynUntrustedAllocPre/DynUntrustedAllocPre.cpp:270-277 | the sole destination of a target invoke gets that invoke's hook and no other |
| `PreResults.SplitEdge` | Passes/DynUntrustedAllocPre/DynUntrustedAllocPre.cpp:263-269 | a split edge leads to a block of its own: the hook, then a jump to the old destination |
| `PreResults.EveryCallHooked` | Passes/DynUntrustedAllocPre/DynUntrustedAllocPre.cpp:202-291 | every reachable target call has a hook of its kind with its operands where control comes next |
| `PreResults.ExactlyOneHookEach` | Passes/DynUntrustedAllocPre/DynUntrustedAllocPre.cpp:234-291 | a hooked function holds as many hooks as reachable target calls |
| `HookNames.ListedCallHooked` | Passes/DynUntrustedAllocPre/DynUntrustedAllocPre.cpp:202-288 | a reachable call that names a function of the three lists has a hook where control comes next, of the kind and with the operands its list calls for: alloc before realloc before dealloc |
| `HookNames.OnlyListedCallsHooked` | Passes/DynUntrustedAllocPre/DynUntrustedAllocPre.cpp:202-288 | every hook call of the hooked function reports such a call |
| `HookNames.UnlistedUntouched` | Passes/DynUntrustedAllocPre/DynUntrustedAllocPre.cpp:202-206 | a function that calls nothing on the lists keeps its blocks |
| `HookNames.SmallFuncHooked` | Passes/DynUntrustedAllocPre/DynUntrustedAllocPre.cpp:202-288 | a function with a call of each kind and an invoke of either sort, and its hooked blocks, instruction by instruction |
| `HookPlaces.HookStands` | Passes/DynUntrustedAllocPre/DynUntrustedAllocPre.cpp:255-284 | the hook of each reachable target call, with that call's operands, stands at the place given for it |
| `HookPlaces.HookPlacesDiffer` | Passes/DynUntrustedAllocPre/DynUntrustedAllocPre.cpp:234-291 | no two calls share a place, so no hook serves two calls |
| `HookPlaces.EveryHookHasItsCall` | Passes/DynUntrustedAllocPre/DynUntrustedAllocPre.cpp:234-291 | every hook stands at the place of some reachable target call, so none is doubled and no hook is hooked |
| `PreResults.StripHooked` | Passes/DynUntrustedAllocPost/DynUntrustedAllocPost.cpp:514-532 | stripping a hooked block gives the original body, but for the destination of a split invoke |
| `PreResults.StripUndoesHooking` | Passes/DynUntrustedAllocPost/DynUntrustedAllocPost.cpp:514-532 | insert then strip leaves the original blocks followed by blocks that only jump; going straight through those gives exactly the original |
| `PostResults.NumberIsRead` | Passes/DynUntrustedAllocPost/DynUntrustedAllocPost.cpp:369-381 | once filled in, a hook of either kind gives id, block and function where the runtime reads them |
| `PostResults.IdSet` | Passes/DynUntrustedAllocPost/DynUntrustedAllocPost.cpp:369-381 | filling in a hook sets its id operand and leaves its kind and the operands before it alone, names or not, and those behind it too if hooks are to be removed |
| `PostPass.HooksThatCount` | Passes/DynUntrustedAllocPost/DynUntrustedAllocPost.cpp:84-99 | the hooks that take an id are the calls and invokes of the alloc and realloc hooks |
| `PostPass.NumberHooks` | Passes/DynUntrustedAllocPost/DynUntrustedAllocPost.cpp:325-421 | the loop over a block numbers its hooks in place, consecutively, and collects its patches |
| `PostPass.NumberFunction` | Passes/DynUntrustedAllocPost/DynUntrustedAllocPost.cpp:317-423 | a function's hooks are numbered from 0 along its traversal |
| `PostPass.ReplacedOnce` | Passes/DynUntrustedAllocPost/DynUntrustedAllocPost.cpp:102-106 | no replacement is itself replaced, and neither end is a hook |
| `PostPass.ReplacementByName` | Passes/DynUntrustedAllocPost/DynUntrustedAllocPost.cpp:102-106 | `__rust_alloc` and `__rust_alloc_zeroed` go to their namesakes with `untrusted_`, `trusted_malloc` to `untrusted_malloc`, and no other function goes anywhere |
| `PostPass.PatchTwice` | Passes/DynUntrustedAllocPost/DynUntrustedAllocPost.cpp:426-450 | patching call after call is patching them all at once, so a call listed twice is patched once |
| `PostPass.PatchListMeaning` | Passes/DynUntrustedAllocPost/DynUntrustedAllocPost.cpp:412 | the module's patch list is each function's patches, whatever order the functions are taken in |
| `PostPass.ProvsanPost.constructor` | Passes/DynUntrustedAllocPost/DynUntrustedAllocPost.cpp:112-113 | the pass starts with an empty patch list |
| `PostPass.ProvsanPost.AssignLocalIDs` | Passes/DynUntrustedAllocPost/DynUntrustedAllocPost.cpp:291-424 | every function is numbered on its own and its patches are listed |
| `PostPass.ProvsanPost.PatchInstruction` | Passes/DynUntrustedAllocPost/DynUntrustedAllocPost.cpp:426-450 | only the call named is retargeted, and only if a replacement is available |
| `PostPass.ProvsanPost.PatchAll` | Passes/DynUntrustedAllocPost/DynUntrustedAllocPost.cpp:147-151 | the loop over the patch list retargets exactly its calls |
| `PostPass.ProvsanPost.RemoveHooks` | Passes/DynUntrustedAllocPost/DynUntrustedAllocPost.cpp:514-532 | every hook call of every function is gone and nothing else |
| `PostPass.ProvsanPost.Run` | Passes/DynUntrustedAllocPost/DynUntrustedAllocPost.cpp:133-167 | the module the pass leaves is made function by function and does not depend on the order they were worked on |
| `PostResults.NumberedHook` | Passes/DynUntrustedAllocPost/DynUntrustedAllocPost.cpp:324-381 | each hook of the numbered function is the original hook with the id of its place in the traversal |
| `PostResults.IdsInOrder` | Passes/DynUntrustedAllocPost/DynUntrustedAllocPost.cpp:320-371 | ids grow along the traversal and stay below their number |
| `PostResults.EveryIdUsed` | Passes/DynUntrustedAllocPost/DynUntrustedAllocPost.cpp:320-371 | every number below the count is some hook's id, so the ids are 0 to n-1; dealloc hooks take none |
| `PostResults.IdentifiesHook` | Passes/DynUntrustedAllocPost/DynUntrustedAllocPost.cpp:320-371 | where no two functions with hooks share a name, function name and id name one hook of the module |
| `PostResults.IdentifiedExactly` | Passes/DynUntrustedAllocPost/DynUntrustedAllocPost.cpp:320-371 | function name and id identify every hook of the module if and only if no two functions with hooks share a name |
| `PostResults.UnnamedConfused` | Passes/DynUntrustedAllocPost/DynUntrustedAllocPost.cpp:320-371 | two functions without a name and with one hook each: both hooks report the same function name and id |
| `PostResults.IdsIgnoreOptions` | Passes/DynUntrustedAllocPost/DynUntrustedAllocPost.cpp:84-99 | the id operand does not depend on the profile or on hook removal, and the operands before it are kept |
| `PostResults.HookReportsItself` | Passes/DynUntrustedAllocPost/DynUntrustedAllocPost.cpp:361-381 | a hook that stays reports its own id, its function's name and its block's name, or "block" and the slot number of a block without a name, and never an empty block name |
| `PostResults.BlockNamed` | Passes/DynUntrustedAllocPost/DynUntrustedAllocPost.cpp:361-367 | a block goes by its own name, or by "block" and its slot in decimal, never by nothing |
| `PostResults.UnnamedBlocksDiffer` | Passes/DynUntrustedAllocPost/DynUntrustedAllocPost.cpp:361-367 | unnamed blocks with different slots go by different names |
| `PostResults.PatchedExactly` | Passes/DynUntrustedAllocPost/DynUntrustedAllocPost.cpp:383-420 | the patch list is exactly the calls behind hooks whose function and id the profile lists |
| `PostResults.ListedIsCallResult` | Passes/DynUntrustedAllocPost/DynUntrustedAllocPost.cpp:391-412 | whatever is listed is the result of a call or an invoke of the function |
| `PostResults.StripNumbered` | Passes/DynUntrustedAllocPost/DynUntrustedAllocPost.cpp:325-381 | numbering changes hooks only |
| `PostResults.StripPatched` | Passes/DynUntrustedAllocPost/DynUntrustedAllocPost.cpp:147-154 | patching before stripping is stripping before patching |
| `PostResults.FinalIsPatchedOriginal` | Passes/DynUntrustedAllocPost/DynUntrustedAllocPost.cpp:133-167 | with hooks removed, the function is the stripped input with its listed calls retargeted |
| `Builds.CallIsDelivered` | Passes/DynUntrustedAllocPre/DynUntrustedAllocPre.cpp:202-232 | after both passes, a target call's result and operands, and the hook's id and names, reach the runtime in the parameters its hooks declare for them |
| `Builds.ProfileToPatch` | Passes/DynUntrustedAllocPost/DynUntrustedAllocPost.cpp:383-420 | the second build lists a call exactly when one of its hooks, in the first build, reported a function and id that are in the written fault set under both names |
| `Builds.FaultsToPatch` | Passes/DynUntrustedAllocPost/DynUntrustedAllocPost.cpp:383-420 | with the fault set of an admissible run, a call is listed exactly when some fault of that run marked a named site with its hook's function and id |
| `Builds.HookReportsIdentity` | Passes/DynUntrustedAllocPost/DynUntrustedAllocPost.cpp:361-381 | every hook of the profiling build reports one identity, that of its function, block and place |
| `Builds.ReportIsAccepted` | Passes/DynUntrustedAllocPost/DynUntrustedAllocPost.cpp:191-206 | what a hook of a named function reports is accepted by the profile's reader, be its block named or not |
| `Builds.MarkedCallIsPatched` | Passes/DynUntrustedAllocPost/DynUntrustedAllocPost.cpp:383-412 | a call of a named function whose hook reported a site that some fault of the run marked is listed by the second build |
| `Builds.FaultsListed` | Runtime/provsan_formatter.cpp:74-80 | the fault set of any admissible run can be listed, as the writer is assumed to get it |
| `Builds.ProfileOrderIrrelevant` | Passes/DynUntrustedAllocPost/DynUntrustedAllocPost.cpp:395-413 | the patch list does not depend on the order or repetition of profile files, even where entries disagree on block name or key |
| `Builds.SecondBuildIsPatchedOriginal` | Passes/DynUntrustedAllocPost/DynUntrustedAllocPost.cpp:133-167 | hooked, numbered, patched and stripped, a function is the one before hooking with the listed calls retargeted |
| `Builds.OnlyListedCallsChange` | Passes/DynUntrustedAllocPost/DynUntrustedAllocPost.cpp:426-450 | an instruction differs from the code before hooking if and only if it is a listed call with an available replacement, and then only in its callee |
| `Builds.InsertThenStripIsIdentity` | Passes/DynUntrustedAllocPost/DynUntrustedAllocPost.cpp:153-154 | without a profile, inserting and stripping hooks is the identity up to split edges |
| `CallByCall.HookedArities` | Passes/DynUntrustedAllocPre/DynUntrustedAllocPre.cpp:202-232 | the first pass builds every hook with the operands its declaration has, so the second finds the id's place |
| `CallByCall.OwnHookDecides` | Passes/DynUntrustedAllocPost/DynUntrustedAllocPost.cpp:383-420 | a call's result is on the patch list if and only if the call is a reachable allocation or reallocation and its own hook reported a site of the fault set |
| `CallByCall.EachCallAsItsHookReported` | Passes/DynUntrustedAllocPost/DynUntrustedAllocPost.cpp:133-155 | both builds, every instruction: it is retargeted if and only if it is such a call and a replacement exists, and otherwise left as it was |
| `CallByCall.EachCallByName` | Passes/DynUntrustedAllocPost/DynUntrustedAllocPost.cpp:102-106 | both builds by name: a call of `__rust_alloc` whose hook reported a listed site ends as a call of `__rust_untrusted_alloc`, likewise the zeroed one and `trusted_malloc`, if the module has it; every other instruction is left as it was |
| `CallByCall.BlamedByRun` | Passes/DynUntrustedAllocPost/DynUntrustedAllocPost.cpp:383-420 | over an admissible run, a call's own hook is blamed exactly when some fault of the run marked its function and id |
| `StrToVec.FindFirstNotOf` | Passes/DynUntrustedAllocPre/DynUntrustedAllocPre.cpp:58 | the first place from a position on that does not hold the delimiter, or none |
| `StrToVec.Find` | Passes/DynUntrustedAllocPre/DynUntrustedAllocPre.cpp:59 | the first place from a position on that holds the delimiter, or none |
| `StrToVec.Split` | Passes/DynUntrustedAllocPre/DynUntrustedAllocPre.cpp:54-64 | the loop ends on every string and returns its tokens |
| `StrToVec.TokensAreRuns` | Passes/DynUntrustedAllocPre/DynUntrustedAllocPre.cpp:54-64 | the tokens are exactly the maximal delimiter-free non-empty runs, in order |
| `StrToVec.SplitJoin` | Passes/DynUntrustedAllocPre/DynUntrustedAllocPre.cpp:54-64 | splitting the join of any list of non-empty delimiter-free tokens gives the list back |
| `Diag.MessageIsFlat` | Passes/DynUntrustedAllocPost/DynUntrustedAllocPost.cpp:475-501 | for a chain of any length the recursive printer gives the first location and then one closed, never nested segment per further location |
| `Diag.LocationNamed` | Passes/DynUntrustedAllocPost/DynUntrustedAllocPost.cpp:488-491 | a location is printed as its file, its line in decimal and, unless it is 0, its column |

## Left out

- Signal registration and chaining to previous handlers, CPUID and xsave offsets, page mode: operating system and hardware plumbing; PKRU is a 32-bit field of the thread's context.
- File names, directories and streams: a profile file is its text, or nothing if it cannot be read.
- Statistics, logging, colours, and the mismatching-block message of the second pass: they change no result modelled here.
- LLVM's reverse post order, edge splitting, slot numbers, debug-info salvage and use lists: traversal orders, block names and "this edge is the only one into the block" are inputs, as is the name of a split-edge block; an unnamed one has its index as slot; phi operands are not modelled.
- The list of hook instructions kept for removal, and the hook declarations: removal takes out every hook call, reachable or not, which is what that list and the remaining users of the hooks add up to.
- The sort of the second pass's work list: any order is allowed, and the outcome is shown not to depend on it. The 64-bit id counter is unbounded.
- Instruction pointers: a listed call is known by the value it defines instead of by a pointer; an indirect listed call, which the original would dereference as null, is left alone.
- Malformed profile entries: the original reads an unset number when a field is missing and asserts on an entry that is no object; both are entries refused here.
- Encoding: names are sequences of characters; the reader's check of UTF-8 is not modelled.
- The rest of JSON: numbers with a fraction or an exponent are kept as text, and escapes for surrogate code units are refused; the writer produces neither.
- `callbr` call sites, and null or empty allocations, which the site constructor's assertions refuse.
- Signed overflow: the mask `3 << 30`, which overflows a signed int in the original, is taken as the unsigned mask.
- Faults as calls of the serial order: serialisability speaks of the allocation map and the chains; faults running beside hooks are covered by `AtomicMarking.NoFaultHalfMarked`, `AtomicMarking.FoundSiteIsMarked` and the two results of `LockedFaults`.
- Runs in which several threads single-step at once: restoration over runs is stated for the thread-group leader, and `SingleStep.LeaderOnly` says what one fault of any other thread leads to.
- Handlers other than the two of the protocol, and the getter of the fault set used at exit, which only hands out the set.
