/**
  Both passes, the run and the profile, call by call: what becomes of each
  instruction of the code before hooking is decided by the one hook that the
  first pass put beside it.
 */
module CallByCall {
  import opened AllocSites
  import opened Common
  import opened Ir
  import opened PrePass
  import opened PreResults
  import opened HookPlaces
  import opened HookNames
  import opened PostPass
  import opened PostResults
  import opened Builds
  import Profile
  import Provenance

  /** A reachable call whose hook gets an id: an allocation or a reallocation. */
  ghost predicate Tracked(t: Targets, f: Func, b: nat, i: nat) {
    Reached(t, f, b, i) && Counts(HookOf(t, BodyAt(f, b)[i]))
  }

  /** Each value is the result of one call at most. */
  ghost predicate ResultsDistinct(f: Func) {
    forall b: nat, i: nat, c: nat, j: nat ::
      && i < |BodyAt(f, b)| && BodyAt(f, b)[i].IsCall() && BodyAt(f, b)[i].result.Some?
      && j < |BodyAt(f, c)| && BodyAt(f, c)[j].IsCall() && BodyAt(f, c)[j].result == BodyAt(f, b)[i].result
      ==> b == c && i == j
  }

  /** Both conditions can be met: the well-formed example has distinct results and, hooked, a traversal. */
  lemma SmallFuncTraversed()
    ensures ResultsDistinct(SMALL) && OrderOk(Hooked(LISTS, SMALL, [0, 1, 2]))
  {
    SmallFuncHooked();
    assert BodyAt(SMALL, 0) == [GROW, ENTER] && BodyAt(SMALL, 1) == [Phi(7), FREE, LEAVE];
    forall b: nat, i: nat | i < |BodyAt(SMALL, b)| && BodyAt(SMALL, b)[i].IsCall() && BodyAt(SMALL, b)[i].result.Some?
      ensures b == 0 && BodyAt(SMALL, b)[i].result == Some(i + 1)
    {
    }
  }

  // ----- the hooks of a hooked function -----

  lemma HookOfArity(t: Targets, call: Instr)
    ensures ArityOk(HookOf(t, call)) && IsHook(HookOf(t, call))
    ensures Counts(HookOf(t, call)) ==> HookOf(t, call).args != [] && HookOf(t, call).args[0] == ResultOf(call)
  {
  }

  /** A hook found in the hooked function is the hook of the call whose place it is. */
  lemma HookIsOfCall(t: Targets, f: Func, order: seq<nat>, k: nat, j: nat) returns (b: nat, i: nat)
    requires FuncOk(t, f) && SoleOk(t, f) && HookAt(Hooked(t, f, order), k, j)
    ensures Reached(t, f, b, i) && HookPlace(t, f, b, i) == (order[k], j)
    ensures BodyAt(Hooked(t, f, order), order[k])[j] == HookOf(t, BodyAt(f, b)[i])
  {
    b, i := EveryHookHasItsCall(t, f, order[k], j);
    HookStands(t, f, b, i);
  }

  /** The first pass builds hooks with as many operands as they are declared with. */
  lemma HookedArities(t: Targets, f: Func, order: seq<nat>)
    requires FuncOk(t, f) && SoleOk(t, f)
    ensures AritiesOk(Hooked(t, f, order))
  {
    var g := Hooked(t, f, order);
    forall k: nat, j: nat | HookAt(g, k, j) ensures ArityOk(BodyAt(g, g.order[k])[j]) {
      var b, i := HookIsOfCall(t, f, order, k, j);
      HookOfArity(t, BodyAt(f, b)[i]);
    }
  }

  lemma DefinedThere(g: Func, b: nat, i: nat, c: nat)
    requires b < |g.blocks| && i < |g.blocks[b].body|
    requires g.blocks[b].body[i].IsCall() && g.blocks[b].body[i].result == Some(c)
    ensures DefIsCall(g, c)
  {
  }

  lemma InvokeStays(t: Targets, f: Func, b: nat)
    requires b in f.order && b < |f.blocks| && BodyOk(BodyAt(f, b)) && Last(BodyAt(f, b)).Invoke?
    ensures var body := HookedBlocks(t, f, f.order)[b].body;
            body != [] && Last(body).Invoke? && Last(body).result == Last(BodyAt(f, b)).result
  {
    var hooks, target := EntryHooks(t, f, f.order, b), SplitTarget(t, f, f.order, b);
    HookedBlockAt(t, f, f.order, b);
    SeenBody(t, f, f.order, b, hooks, target);
    WeaveLast(t, BodyAt(f, b), hooks);
  }

  /** A reachable target call still defines its result in the hooked function. */
  lemma CallStays(t: Targets, f: Func, order: seq<nat>, b: nat, i: nat, c: nat)
    requires FuncOk(t, f) && Reached(t, f, b, i) && BodyAt(f, b)[i].result == Some(c)
    ensures DefIsCall(Hooked(t, f, order), c)
  {
    var g := Hooked(t, f, order);
    assert BodyOk(BodyAt(f, b));
    if BodyAt(f, b)[i].Call? {
      PlainHooked(t, f, b, i);
      DefinedThere(g, b, Place(t, f, b, i), c);
    } else {
      InvokeStays(t, f, b);
      DefinedThere(g, b, |g.blocks[b].body| - 1, c);
    }
  }

  /** The hook at a call's place is found by the second pass and stands for that call. */
  lemma OwnHook(t: Targets, f: Func, order: seq<nat>, b: nat, i: nat, k: nat, c: nat)
    requires FuncOk(t, f) && SoleOk(t, f) && Tracked(t, f, b, i) && BodyAt(f, b)[i].result == Some(c)
    requires k < |order| && order[k] == HookPlace(t, f, b, i).0
    ensures HookAt(Hooked(t, f, order), k, HookPlace(t, f, b, i).1)
    ensures StandsFor(Hooked(t, f, order), BodyAt(Hooked(t, f, order), order[k])[HookPlace(t, f, b, i).1], c)
  {
    HookStands(t, f, b, i);
    HookOfArity(t, BodyAt(f, b)[i]);
    CallStays(t, f, order, b, i, c);
  }

  /** A hook that stands for a call's result is at that call's place, and the call is tracked. */
  lemma StandsForOwner(t: Targets, f: Func, order: seq<nat>, b: nat, i: nat, k: nat, j: nat, c: nat)
    requires FuncOk(t, f) && SoleOk(t, f) && ResultsDistinct(f)
    requires i < |BodyAt(f, b)| && BodyAt(f, b)[i].IsCall() && BodyAt(f, b)[i].result == Some(c)
    requires HookAt(Hooked(t, f, order), k, j)
    requires StandsFor(Hooked(t, f, order), BodyAt(Hooked(t, f, order), order[k])[j], c)
    ensures Tracked(t, f, b, i) && HookPlace(t, f, b, i) == (order[k], j)
  {
    var d, m := HookIsOfCall(t, f, order, k, j);
    HookOfArity(t, BodyAt(f, d)[m]);
    assert BodyAt(f, d)[m].IsCall() && BodyAt(f, d)[m].result == BodyAt(f, b)[i].result;
  }

  // ----- what becomes of a call -----

  /** The hook of a tracked call as the profiling build numbers it, found in the `k`-th block of the traversal. */
  function ProfiledHook(t: Targets, f: Func, order: seq<nat>, b: nat, i: nat): Instr
    requires i < |BodyAt(f, b)|
  {
    var (d, j) := HookPlace(t, f, b, i);
    var body := BodyAt(Numbered(PROFILING, Hooked(t, f, order)), d);
    if j < |body| then body[j] else Plain(0)
  }

  /** A call's result is on the patch list exactly when the call is tracked and its own hook reported a listed site. */
  lemma OwnHookDecides(t: Targets, f: Func, order: seq<nat>, xs: seq<AllocSite>, removeHooks: bool,
                       b: nat, i: nat, c: nat)
    requires FuncOk(t, f) && SoleOk(t, f) && ResultsDistinct(f) && OrderOk(Hooked(t, f, order))
    requires i < |BodyAt(f, b)| && BodyAt(f, b)[i].IsCall() && BodyAt(f, b)[i].result == Some(c)
    requires Tracked(t, f, b, i) ==> HookPlace(t, f, b, i).0 in order
    requires forall x :: x in xs ==> Profile.Writable(x)
    ensures c in Patches(Instrumented(xs, removeHooks), Hooked(t, f, order)) <==>
            Tracked(t, f, b, i) && Blamed(xs, ProfiledHook(t, f, order, b, i))
  {
    var g := Hooked(t, f, order);
    HookedArities(t, f, order);
    ProfileToPatch(g, xs, removeHooks, c);
    if k: nat, j: nat :| BlamedHook(g, xs, k, j, c) {
      StandsForOwner(t, f, order, b, i, k, j, c);
    }
    if Tracked(t, f, b, i) && Blamed(xs, ProfiledHook(t, f, order, b, i)) {
      var k: nat :| k < |order| && order[k] == HookPlace(t, f, b, i).0;
      OwnHook(t, f, order, b, i, k, c);
      NumberedHook(PROFILING, g, k, HookPlace(t, f, b, i).1);
      assert BlamedHook(g, xs, k, HookPlace(t, f, b, i).1, c);
    }
  }

  /** Whether a second build sends a call elsewhere. */
  ghost predicate Condemned(t: Targets, f: Func, order: seq<nat>, xs: seq<AllocSite>, symbols: set<Symbol>,
                            b: nat, i: nat)
    requires i < |BodyAt(f, b)|
  {
    var call := BodyAt(f, b)[i];
    && Tracked(t, f, b, i) && call.result.Some? && Blamed(xs, ProfiledHook(t, f, order, b, i))
    && call.callee.Some? && Replacement(call.callee.value).Some? && Replacement(call.callee.value).value in symbols
  }

  /**
    Both builds, for every instruction of the code before hooking: the second
    build retargets it if and only if it is a reachable allocation or
    reallocation whose own hook reported, in the first build, a function and id
    of the written fault set, and the module has a replacement; in every other
    case it is left as it was.
   */
  lemma EachCallAsItsHookReported(t: Targets, f: Func, order: seq<nat>, xs: seq<AllocSite>, symbols: set<Symbol>,
                                  b: nat, i: nat)
    requires FuncOk(t, f) && SoleOk(t, f) && ResultsDistinct(f) && OrderOk(Hooked(t, f, order))
    requires b < |f.blocks| && i < |f.blocks[b].body|
    requires Tracked(t, f, b, i) ==> HookPlace(t, f, b, i).0 in order
    requires forall x :: x in xs ==> Profile.Writable(x)
    ensures var was, final := f.blocks[b].body[i], Final(Instrumented(xs, true), symbols, Hooked(t, f, order)).blocks;
            && |f.blocks| <= |final| && i < |Unsplit(final, |f.blocks|)[b].body|
            && Unsplit(final, |f.blocks|)[b].body[i] ==
               if Condemned(t, f, order, xs, symbols, b, i) then was.(callee := Replacement(was.callee.value)) else was
  {
    var o, was := Instrumented(xs, true), f.blocks[b].body[i];
    OnlyListedCallsChange(t, f, order, o, symbols, b, i);
    if was.IsCall() && was.result.Some? {
      OwnHookDecides(t, f, order, xs, true, b, i, was.result.value);
    }
  }

  /** A call, of either kind, of one of the functions that have an untrusted namesake. */
  predicate CallsTrusted(i: Instr) {
    || Names(i, Function("__rust_alloc")) || Names(i, Function("__rust_alloc_zeroed"))
    || Names(i, Function("trusted_malloc"))
  }

  /** The call's own hook reported a listed site. */
  ghost predicate Accused(t: Targets, f: Func, order: seq<nat>, xs: seq<AllocSite>, b: nat, i: nat)
    requires i < |BodyAt(f, b)|
  {
    Tracked(t, f, b, i) && BodyAt(f, b)[i].result.Some? && Blamed(xs, ProfiledHook(t, f, order, b, i))
  }

  /** What becomes of an instruction whose callee may be replaced from the name `from` to the name `to`. */
  ghost predicate GoesTo(was: Instr, now: Instr, accused: bool, symbols: set<Symbol>, from: string, to: string) {
    Names(was, Function(from)) ==>
      if accused && Function(to) in symbols then was.IsCall() && now == was.(callee := Some(Function(to))) else now == was
  }

  /**
    Both builds by name: an accused call of the Rust allocator ends up calling
    the untrusted one, zeroed as before, and one of the trusted malloc the
    untrusted one, if the module has it; every other instruction stays.
   */
  lemma EachCallByName(t: Targets, f: Func, order: seq<nat>, xs: seq<AllocSite>, symbols: set<Symbol>, b: nat, i: nat)
    returns (was: Instr, now: Instr)
    requires FuncOk(t, f) && SoleOk(t, f) && ResultsDistinct(f) && OrderOk(Hooked(t, f, order))
    requires b < |f.blocks| && i < |f.blocks[b].body|
    requires Tracked(t, f, b, i) ==> HookPlace(t, f, b, i).0 in order
    requires forall x :: x in xs ==> Profile.Writable(x)
    ensures var final := Final(Instrumented(xs, true), symbols, Hooked(t, f, order)).blocks;
            && |f.blocks| <= |final| && i < |Unsplit(final, |f.blocks|)[b].body|
            && was == f.blocks[b].body[i] && now == Unsplit(final, |f.blocks|)[b].body[i]
    ensures var accused := Accused(t, f, order, xs, b, i);
            && GoesTo(was, now, accused, symbols, "__rust_alloc", "__rust_untrusted_alloc")
            && GoesTo(was, now, accused, symbols, "__rust_alloc_zeroed", "__rust_untrusted_alloc_zeroed")
            && GoesTo(was, now, accused, symbols, "trusted_malloc", "untrusted_malloc")
    ensures !CallsTrusted(was) ==> now == was
  {
    EachCallAsItsHookReported(t, f, order, xs, symbols, b, i);
    was := f.blocks[b].body[i];
    now := Unsplit(Final(Instrumented(xs, true), symbols, Hooked(t, f, order)).blocks, |f.blocks|)[b].body[i];
    ReplacedNamesDiffer();
    CondemnedByName(was, Accused(t, f, order, xs, b, i), symbols, now, Condemned(t, f, order, xs, symbols, b, i));
  }

  lemma CondemnedByName(was: Instr, accused: bool, symbols: set<Symbol>, now: Instr, condemned: bool)
    requires condemned ==> was.IsCall() && was.callee.Some?
    requires condemned <==> accused && was.IsCall() && was.callee.Some? && Replacement(was.callee.value).Some?
                            && Replacement(was.callee.value).value in symbols
    requires now == if condemned then was.(callee := Replacement(was.callee.value)) else was
    ensures GoesTo(was, now, accused, symbols, "__rust_alloc", "__rust_untrusted_alloc")
    ensures GoesTo(was, now, accused, symbols, "__rust_alloc_zeroed", "__rust_untrusted_alloc_zeroed")
    ensures GoesTo(was, now, accused, symbols, "trusted_malloc", "untrusted_malloc")
    ensures !CallsTrusted(was) ==> now == was
  {
    ReplacedNamesDiffer();
  }

  /** Over a run: a tracked call's own hook is blamed exactly when some fault of the run marked its function and id. */
  lemma BlamedByRun(t: Targets, f: Func, order: seq<nat>, es: seq<Provenance.Event>, xs: seq<AllocSite>,
                    b: nat, i: nat, k: nat)
    requires FuncOk(t, f) && SoleOk(t, f) && OrderOk(Hooked(t, f, order))
    requires Tracked(t, f, b, i) && BodyAt(f, b)[i].result.Some?
    requires k < |order| && order[k] == HookPlace(t, f, b, i).0
    requires Provenance.AdmissibleRun(es) && Enumerates(xs, Provenance.Run(es).faults)
    ensures HookAt(Hooked(t, f, order), k, HookPlace(t, f, b, i).1)
    ensures Blamed(xs, ProfiledHook(t, f, order, b, i)) <==>
            Caught(es, f.name, HookId(Hooked(t, f, order), k, HookPlace(t, f, b, i).1))
  {
    var g, j := Hooked(t, f, order), HookPlace(t, f, b, i).1;
    OwnHook(t, f, order, b, i, k, BodyAt(f, b)[i].result.value);
    HookedArities(t, f, order);
    HookReportsItself(PROFILING, g, k, j);
    CaughtIsBlamed(es, xs, ProfiledHook(t, f, order, b, i));
  }
}
