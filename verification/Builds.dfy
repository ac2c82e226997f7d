/**
  The two passes and the profile together: a module is hooked, numbered and run;
  what it reports decides which calls a second build of it retargets, and apart
  from those calls the second build is the module as it was before hooking.
 */
module Builds {
  import opened AllocSites
  import opened Common
  import opened FaultMaps
  import opened Ir
  import opened PrePass
  import opened PreResults
  import opened PostPass
  import opened PostResults
  import Json
  import Profile
  import Provenance
  import ProvenanceRuns

  /** The profiling build: no profile yet, and the hooks stay. */
  const PROFILING := Options(None, false)

  /** A build that uses the profile written from the fault set `xs`, in whatever order it was enumerated. */
  function Instrumented(xs: seq<AllocSite>, removeHooks: bool): Options {
    Options(Some(Profile.Merged([Some(Profile.Render(xs))])), removeHooks)
  }

  // ----- from the call to the runtime -----

  /** What a hook hands to the runtime, parameter by parameter. */
  datatype Delivery =
    | ToAlloc(ptr: Operand, size: Operand, site: Reported)
    | ToRealloc(newPtr: Operand, newSize: Operand, oldPtr: Operand, oldSize: Operand, site: Reported)
    | ToDealloc(ptr: Operand, size: Operand)

  /** The runtime's parameters, in the order its hooks declare them. */
  function Delivered(hook: Instr): Option<Delivery> {
    if !IsHook(hook) then None
    else
      match hook.callee.value.kind
      case AllocHook =>
        if Reads(hook).None? then None else Some(ToAlloc(hook.args[0], hook.args[1], Reads(hook).value))
      case ReallocHook =>
        if Reads(hook).None? then None
        else Some(ToRealloc(hook.args[0], hook.args[1], hook.args[2], hook.args[3], Reads(hook).value))
      case DeallocHook =>
        if |hook.args| != 3 then None else Some(ToDealloc(hook.args[0], hook.args[1]))
  }

  /**
    What the two passes make of a target call: the runtime gets the allocator's
    (size, ...), (ptr, oldSize, align, newSize) or (ptr, size, ...) and the
    call's result in the right parameters, together with the hook's place.
   */
  lemma CallIsDelivered(t: Targets, o: Options, call: Instr, id: nat, bbName: string, funcName: string)
    requires IsTarget(t, call) && CallOk(t, call) && !o.removeHooks
    ensures var name, site := call.callee.value, Reported(id, bbName, funcName);
            Delivered(WithId(o, HookOf(t, call), id, bbName, funcName)) == Some(
              if name in t.allocs then ToAlloc(Result(call.result.value), call.args[0], site)
              else if name in t.reallocs then
                ToRealloc(Result(call.result.value), call.args[3], call.args[0], call.args[1], site)
              else ToDealloc(call.args[0], call.args[1]))
  {
    var hook := HookOf(t, call);
    if Counts(hook) {
      NumberIsRead(o, hook, id, bbName, funcName);
      IdSet(o, hook, id, bbName, funcName);
      var r := WithId(o, hook, id, bbName, funcName);
      assert r.args[0] == r.args[..IdIndex(hook)][0] && r.args[1] == r.args[..IdIndex(hook)][1];
      if IdIndex(hook) == 4 {
        assert r.args[2] == r.args[..4][2] && r.args[3] == r.args[..4][3];
      }
    }
  }

  // ----- from the profile to the patch list -----

  /** A site of the fault set, with both its names, has the id and the function that the hook reports when it runs. */
  ghost predicate Blamed(xs: seq<AllocSite>, hook: Instr) {
    && Reads(hook).Some?
    && exists x :: x in xs && Profile.Named(x)
                && x.localID == Reads(hook).value.localID && x.funcName == Reads(hook).value.funcName
  }

  /** A hook for call `c` that, as numbered by the profiling build, reports a site of the fault set. */
  ghost predicate BlamedHook(f: Func, xs: seq<AllocSite>, k: nat, i: nat, c: nat) {
    && HookAt(f, k, i) && StandsFor(f, BodyAt(f, f.order[k])[i], c)
    && i < |BodyAt(Numbered(PROFILING, f), f.order[k])|
    && Blamed(xs, BodyAt(Numbered(PROFILING, f), f.order[k])[i])
  }

  ghost predicate AritiesOk(f: Func) {
    forall k: nat, i: nat :: HookAt(f, k, i) ==> ArityOk(BodyAt(f, f.order[k])[i])
  }

  lemma BlamedIsListed(f: Func, xs: seq<AllocSite>, removeHooks: bool, k: nat, i: nat, c: nat)
    requires OrderOk(f) && AritiesOk(f)
    requires forall x :: x in xs ==> Profile.Writable(x)
    ensures ListedHook(Instrumented(xs, removeHooks), f, k, i, c) <==> BlamedHook(f, xs, k, i, c)
  {
    if HookAt(f, k, i) {
      HookReportsItself(PROFILING, f, k, i);
      Profile.WrittenSitesAreFaulty(xs, f.name, HookId(f, k, i));
    }
  }

  /**
    From profile to patch: the second build retargets a call exactly when one of
    its hooks, in the first build, reported a function and id that ended up in
    the fault set.
   */
  lemma ProfileToPatch(f: Func, xs: seq<AllocSite>, removeHooks: bool, c: nat)
    requires OrderOk(f) && AritiesOk(f)
    requires forall x :: x in xs ==> Profile.Writable(x)
    ensures c in Patches(Instrumented(xs, removeHooks), f) <==> exists k: nat, i: nat :: BlamedHook(f, xs, k, i, c)
  {
    PatchedExactly(Instrumented(xs, removeHooks), f, c);
    if k: nat, i: nat :| ListedHook(Instrumented(xs, removeHooks), f, k, i, c) {
      BlamedIsListed(f, xs, removeHooks, k, i, c);
    }
    if k: nat, i: nat :| BlamedHook(f, xs, k, i, c) {
      BlamedIsListed(f, xs, removeHooks, k, i, c);
    }
  }

  /** `xs` lists the fault set of a run, in some order. */
  ghost predicate Enumerates(xs: seq<AllocSite>, faults: Provenance.SiteSet) {
    forall x :: x in xs <==> x.Id() in faults && faults[x.Id()] == x
  }

  lemma {:induction false} ListSites(faults: Provenance.SiteSet, ids: set<Identity>) returns (xs: seq<AllocSite>)
    requires ids <= faults.Keys && forall id :: id in ids ==> faults[id].Id() == id
    ensures forall x :: x in xs <==> x.Id() in ids && faults[x.Id()] == x
    decreases ids
  {
    if ids == {} {
      xs := [];
    } else {
      var id :| id in ids;
      var rest := ListSites(faults, ids - {id});
      xs := [faults[id]] + rest;
    }
  }

  /** The fault set of any admissible run can be listed. */
  lemma FaultsListed(es: seq<Provenance.Event>) returns (xs: seq<AllocSite>)
    requires Provenance.AdmissibleRun(es)
    ensures Enumerates(xs, Provenance.Run(es).faults)
  {
    var faults := Provenance.Run(es).faults;
    forall id | id in faults ensures faults[id].Id() == id {
      ProvenanceRuns.FaultSetIsExactlyTheMarks(es, id);
    }
    xs := ListSites(faults, faults.Keys);
  }

  /** Some fault of the run marked a site, with both its names, of this function with this id. */
  ghost predicate Caught(es: seq<Provenance.Event>, funcName: string, localID: int)
    requires Provenance.WellFormedRun(es)
  {
    exists j: nat, id: Identity ::
      && ProvenanceRuns.Marks(es, j, id) && id.funcName == funcName && id.localID == localID
      && id.bbName != "" && id.funcName != ""
  }

  lemma CaughtIsBlamed(es: seq<Provenance.Event>, xs: seq<AllocSite>, hook: Instr)
    requires Provenance.AdmissibleRun(es) && Enumerates(xs, Provenance.Run(es).faults) && Reads(hook).Some?
    ensures Blamed(xs, hook) <==> Caught(es, Reads(hook).value.funcName, Reads(hook).value.localID)
  {
    var read := Reads(hook).value;
    if x :| x in xs && Profile.Named(x) && x.localID == read.localID && x.funcName == read.funcName {
      ProvenanceRuns.FaultSetIsExactlyTheMarks(es, x.Id());
    }
    if j: nat, id: Identity :|
      && ProvenanceRuns.Marks(es, j, id) && id.funcName == read.funcName && id.localID == read.localID
      && id.bbName != "" && id.funcName != ""
    {
      ProvenanceRuns.FaultSetIsExactlyTheMarks(es, id);
      var x := Provenance.Run(es).faults[id];
      assert x in xs && Profile.Named(x) && x.localID == read.localID && x.funcName == read.funcName;
    }
  }

  /** A hook for call `c` whose function and id some fault of the run marked. */
  ghost predicate CaughtHook(f: Func, es: seq<Provenance.Event>, k: nat, i: nat, c: nat)
    requires Provenance.WellFormedRun(es)
  {
    && HookAt(f, k, i) && StandsFor(f, BodyAt(f, f.order[k])[i], c)
    && Caught(es, f.name, HookId(f, k, i))
  }

  /**
    From fault to patch: when the profile is the fault set of an admissible run,
    a call is retargeted exactly when a fault of that run hit a block of its
    site, or a block whose site had it as a recorded ancestor.
   */
  lemma FaultsToPatch(f: Func, es: seq<Provenance.Event>, xs: seq<AllocSite>, removeHooks: bool, c: nat)
    requires OrderOk(f) && AritiesOk(f)
    requires Provenance.AdmissibleRun(es) && Enumerates(xs, Provenance.Run(es).faults)
    requires forall x :: x in xs ==> Profile.Writable(x)
    ensures c in Patches(Instrumented(xs, removeHooks), f) <==> exists k: nat, i: nat :: CaughtHook(f, es, k, i, c)
  {
    ProfileToPatch(f, xs, removeHooks, c);
    forall k: nat, i: nat ensures BlamedHook(f, xs, k, i, c) <==> CaughtHook(f, es, k, i, c) {
      if HookAt(f, k, i) {
        HookReportsItself(PROFILING, f, k, i);
        CaughtIsBlamed(es, xs, BodyAt(Numbered(PROFILING, f), f.order[k])[i]);
      }
    }
  }

  /** The hook at (k, i), as numbered by the profiling build, reports this identity. */
  ghost predicate ReportedBy(f: Func, k: nat, i: nat, id: Identity) {
    && HookAt(f, k, i) && i < |BodyAt(Numbered(PROFILING, f), f.order[k])|
    && Reads(BodyAt(Numbered(PROFILING, f), f.order[k])[i]) == Some(Reported(id.localID, id.bbName, id.funcName))
  }

  /** Every hook of the profiling build reports an identity: its function, its block and its place in the traversal. */
  lemma HookReportsIdentity(f: Func, k: nat, i: nat) returns (id: Identity)
    requires OrderOk(f) && AritiesOk(f) && HookAt(f, k, i) && HookId(f, k, i) < 0x8000_0000_0000_0000
    ensures ReportedBy(f, k, i, id) && id.funcName == f.name && id.localID == HookId(f, k, i)
    ensures NamesBlock(id.bbName, f.blocks[f.order[k]])
  {
    HookReportsItself(PROFILING, f, k, i);
    id := Identity(f.name, BlockName(f.blocks[f.order[k]]), HookId(f, k, i));
  }

  /** What a hook of a named function reports, the profile's reader accepts, be its block named or not. */
  lemma ReportIsAccepted(f: Func, k: nat, i: nat, x: AllocSite)
    requires OrderOk(f) && AritiesOk(f) && f.name != "" && ReportedBy(f, k, i, x.Id())
    ensures Profile.Named(x)
    ensures Profile.FromJSON(Json.Object(Profile.MembersOf(x))) ==
            Some(FaultingSite(HookId(f, k, i), x.pkey, BlockName(f.blocks[f.order[k]]), f.name))
  {
    HookReportsItself(PROFILING, f, k, i);
    Profile.FromMembers(x);
  }

  /**
    A call of a named function whose hook reported a site that some fault of the
    run marked is retargeted by the second build, be its block named or not.
   */
  lemma MarkedCallIsPatched(f: Func, es: seq<Provenance.Event>, xs: seq<AllocSite>, removeHooks: bool,
                            k: nat, i: nat, c: nat, j: nat, id: Identity)
    requires OrderOk(f) && AritiesOk(f) && f.name != ""
    requires Provenance.AdmissibleRun(es) && Enumerates(xs, Provenance.Run(es).faults)
    requires forall x :: x in xs ==> Profile.Writable(x)
    requires ReportedBy(f, k, i, id) && StandsFor(f, BodyAt(f, f.order[k])[i], c) && ProvenanceRuns.Marks(es, j, id)
    ensures c in Patches(Instrumented(xs, removeHooks), f)
  {
    HookReportsItself(PROFILING, f, k, i);
    assert CaughtHook(f, es, k, i, c);
    FaultsToPatch(f, es, xs, removeHooks, c);
  }

  /** The patch list does not depend on the order of the profile files or on their repetition. */
  lemma ProfileOrderIrrelevant(f: Func, files: seq<Option<string>>, others: seq<Option<string>>,
                               removeHooks: bool, c: nat)
    requires forall file :: file in files <==> file in others
    ensures c in Patches(Options(Some(Profile.Merged(files)), removeHooks), f) <==>
            c in Patches(Options(Some(Profile.Merged(others)), removeHooks), f)
  {
    var o := Options(Some(Profile.Merged(files)), removeHooks);
    var p := Options(Some(Profile.Merged(others)), removeHooks);
    PatchedExactly(o, f, c);
    PatchedExactly(p, f, c);
    forall k: nat, i: nat ensures ListedHook(o, f, k, i, c) <==> ListedHook(p, f, k, i, c) {
      if HookAt(f, k, i) {
        Profile.MergeOrderIrrelevant(files, others, f.name, HookId(f, k, i));
      }
    }
  }

  // ----- the final code -----

  /** A function as the first pass leaves it, with the traversal order the second pass finds. */
  function Hooked(t: Targets, f: Func, order: seq<nat>): Func {
    Func(f.name, HookedBlocks(t, f, f.order), order)
  }

  lemma PatchKeepsJumps(symbols: set<Symbol>, calls: set<nat>, body: seq<Instr>)
    ensures |PatchBody(symbols, calls, body)| == |body|
    ensures Last(PatchBody(symbols, calls, body)).Invoke? == Last(body).Invoke?
    ensures Last(body).Invoke? ==> Last(PatchBody(symbols, calls, body)).normal == Last(body).normal
    ensures OnlyJumps(PatchBody(symbols, calls, body)) == OnlyJumps(body)
    ensures OnlyJumps(body) ==> PatchBody(symbols, calls, body)[0].target == body[0].target
  {
  }

  lemma PatchRetarget(symbols: set<Symbol>, calls: set<nat>, body: seq<Instr>, normal: nat)
    ensures PatchBody(symbols, calls, Retarget(body, normal)) == Retarget(PatchBody(symbols, calls, body), normal)
  {
    PatchKeepsJumps(symbols, calls, body);
  }

  lemma PatchThrough(symbols: set<Symbol>, calls: set<nat>, blocks: seq<Block>, n: nat, d: nat)
    ensures Through(PatchBlocks(symbols, calls, blocks), n, d) == Through(blocks, n, d)
  {
    if d < |blocks| {
      PatchKeepsJumps(symbols, calls, blocks[d].body);
    }
  }

  /** Patching does not care about split edges. */
  lemma UnsplitPatched(symbols: set<Symbol>, calls: set<nat>, blocks: seq<Block>, n: nat)
    requires n <= |blocks|
    ensures Unsplit(PatchBlocks(symbols, calls, blocks), n) == PatchBlocks(symbols, calls, Unsplit(blocks, n))
  {
    forall b: nat | b < n
      ensures Unsplit(PatchBlocks(symbols, calls, blocks), n)[b] == PatchBlocks(symbols, calls, Unsplit(blocks, n))[b]
    {
      var body := blocks[b].body;
      PatchKeepsJumps(symbols, calls, body);
      if Last(body).Invoke? {
        PatchThrough(symbols, calls, blocks, n, Last(body).normal);
        PatchRetarget(symbols, calls, body, Through(blocks, n, Last(body).normal));
      }
    }
  }

  /**
    The second build's code, straightened over the split edges, is the code the
    first pass started from with only the patched calls retargeted.
   */
  lemma SecondBuildIsPatchedOriginal(t: Targets, f: Func, order: seq<nat>, o: Options, symbols: set<Symbol>)
    requires FuncOk(t, f) && o.removeHooks
    ensures var g := Hooked(t, f, order);
            && |f.blocks| <= |Final(o, symbols, g).blocks|
            && Unsplit(Final(o, symbols, g).blocks, |f.blocks|) ==
               PatchBlocks(symbols, Members(Patches(o, g)), f.blocks)
  {
    var g := Hooked(t, f, order);
    StripUndoesHooking(t, f);
    FinalIsPatchedOriginal(o, symbols, g);
    UnsplitPatched(symbols, Members(Patches(o, g)), StripBlocks(g.blocks), |f.blocks|);
  }

  /** The call is on the patch list and the module has a replacement for its callee. */
  ghost predicate Retargetable(o: Options, symbols: set<Symbol>, g: Func, i: Instr) {
    && i.IsCall() && i.result.Some? && i.result.value in Patches(o, g)
    && i.callee.Some? && Replacement(i.callee.value).Some? && Replacement(i.callee.value).value in symbols
  }

  /**
    Instruction by instruction: the second build differs from the code before
    hooking in the callees of the listed calls that have an available
    replacement, which it retargets all, and in nothing else.
   */
  lemma OnlyListedCallsChange(t: Targets, f: Func, order: seq<nat>, o: Options, symbols: set<Symbol>, b: nat, i: nat)
    requires FuncOk(t, f) && o.removeHooks && b < |f.blocks| && i < |f.blocks[b].body|
    ensures var g, was := Hooked(t, f, order), f.blocks[b].body[i];
            && |f.blocks| <= |Final(o, symbols, g).blocks|
            && var final := Unsplit(Final(o, symbols, g).blocks, |f.blocks|)[b];
            && final.name == f.blocks[b].name && |final.body| == |f.blocks[b].body|
            && (!Retargetable(o, symbols, g, was) ==> final.body[i] == was)
            && (Retargetable(o, symbols, g, was) ==>
                  final.body[i] == was.(callee := Replacement(was.callee.value)) && final.body[i] != was)
  {
    var g, was := Hooked(t, f, order), f.blocks[b].body[i];
    SecondBuildIsPatchedOriginal(t, f, order, o, symbols);
    if Retargetable(o, symbols, g, was) {
      ReplacedOnce(was.callee.value);
    }
  }

  /** Without a profile nothing is retargeted: inserting and stripping hooks is the identity. */
  lemma InsertThenStripIsIdentity(t: Targets, f: Func, order: seq<nat>, symbols: set<Symbol>)
    requires FuncOk(t, f)
    ensures var final := Final(Options(None, true), symbols, Hooked(t, f, order)).blocks;
            && |f.blocks| <= |final|
            && Unsplit(final, |f.blocks|) == f.blocks
  {
    var o, g := Options(None, true), Hooked(t, f, order);
    SecondBuildIsPatchedOriginal(t, f, order, o, symbols);
    forall c ensures c !in Patches(o, g) {
      PatchedExactly(o, g, c);
    }
    assert Members(Patches(o, g)) == {};
    PatchNothing(symbols, f.blocks);
  }
}
