/**
  The first pass by names alone: which calls are hooked, with which hook, on
  which operands and where. A call that names a function of one of the three
  lists is tracked, and no other call is.
 */
module HookNames {
  import opened Common
  import opened Ir
  import opened PrePass
  import opened PreResults
  import opened HookPlaces

  /** A call, of either kind, of the function `name`. */
  predicate Names(i: Instr, name: Symbol) {
    match i
    case Call(_, callee, _) => callee == Some(name)
    case Invoke(_, callee, _, _, _, _) => callee == Some(name)
    case _ => false
  }

  predicate Listed(t: Targets, name: Symbol) {
    name in t.allocs + t.reallocs + t.deallocs
  }

  /**
    What a hook tells the runtime about a call of `name`: of an allocation the
    new pointer and the size; of a reallocation the new pointer and size and the
    old ones; of a deallocation the pointer and the size. The id and the names
    are left to the second pass.
   */
  predicate Reports(t: Targets, name: Symbol, result: Option<nat>, args: seq<Operand>, hook: Instr) {
    if name in t.allocs then
      && result.Some? && |args| >= 1
      && hook == Call(None, Some(Hook(AllocHook)), [Result(result.value), args[0], IntConst(-1), NullStr, NullStr])
    else if name in t.reallocs then
      && result.Some? && |args| >= 4
      && hook == Call(None, Some(Hook(ReallocHook)),
                      [Result(result.value), args[3], args[0], args[1], IntConst(-1), NullStr, NullStr])
    else
      && |args| >= 2
      && hook == Call(None, Some(Hook(DeallocHook)), [args[0], args[1], IntConst(-1)])
  }

  predicate Tracks(t: Targets, name: Symbol, call: Instr, hook: Instr) {
    match call
    case Call(result, _, args) => Reports(t, name, result, args, hook)
    case Invoke(result, _, args, _, _, _) => Reports(t, name, result, args, hook)
    case _ => false
  }

  /** Place `j` of block `d` is where control comes next after a call in block `b`; blocks from `n` on are new. */
  ghost predicate ComesNext(blocks: seq<Block>, n: nat, b: nat, call: Instr, d: nat, j: nat, hook: Instr) {
    && b < |blocks| && d < |blocks| && j < |blocks[d].body| && blocks[d].body[j] == hook
    && match call
       case Call(_, _, _) => d == b && j > 0 && blocks[b].body[j - 1] == call
       case Invoke(result, callee, args, normal, sole, edge) =>
         if sole then d == normal && forall k :: 0 <= k < j ==> blocks[d].body[k].Phi?
         else
           && d >= n && j == 0 && blocks[d] == Block(edge, d, [hook, Jump(normal)])
           && blocks[b].body != []
           && blocks[b].body[|blocks[b].body| - 1] == Invoke(result, callee, args, d, false, edge)
       case _ => false
  }

  lemma ListedIsTarget(t: Targets, i: Instr, name: Symbol)
    requires Names(i, name)
    ensures IsTarget(t, i) <==> Listed(t, name)
  {
  }

  lemma HookReports(t: Targets, i: Instr, name: Symbol)
    requires Names(i, name) && Listed(t, name) && CallOk(t, i)
    ensures Tracks(t, name, i, HookOf(t, i))
  {
  }

  lemma PlainNext(t: Targets, f: Func, b: nat, i: nat, call: Instr)
    requires b in f.order && b < |f.blocks| && BodyOk(BodyAt(f, b)) && i < |BodyAt(f, b)|
    requires call == BodyAt(f, b)[i] && call.Call? && IsTarget(t, call)
    ensures ComesNext(HookedBlocks(t, f, f.order), |f.blocks|, b, call, b, Place(t, f, b, i) + 1, HookOf(t, call))
  {
    PlainHooked(t, f, b, i);
  }

  lemma SoleNext(t: Targets, f: Func, b: nat, call: Instr, j: nat)
    requires SoleOk(t, f) && OrderOk(f) && b in f.order && b < |f.blocks|
    requires call == Last(BodyAt(f, b)) && call.Invoke? && Enters(t, BodyAt(f, b), call.normal)
    requires call.normal < |f.blocks| && Last(BodyAt(f, call.normal)).EndsBlock()
    requires j == PhiCount(HookedBlocks(t, f, f.order)[call.normal].body)
    ensures ComesNext(HookedBlocks(t, f, f.order), |f.blocks|, b, call, call.normal, j, HookOf(t, call))
  {
    SoleHooked(t, f, b, call.normal, HookOf(t, call));
  }

  lemma OwnSplitBlock(t: Targets, f: Func, b: nat, call: Instr, d: nat)
    requires OrderOk(f) && b in f.order && call == Last(BodyAt(f, b)) && call.EndsBlock()
    requires NeedsSplit(t, BodyAt(f, b)) && d == SplitTarget(t, f, f.order, b)
    ensures ComesNext(HookedBlocks(t, f, f.order), |f.blocks|, b, call, d, 0, HookOf(t, call))
  {
    var body, hooks := BodyAt(f, b), EntryHooks(t, f, f.order, b);
    SplitEdge(t, f, f.order, b);
    SeenBody(t, f, f.order, b, hooks, d);
    WeaveLast(t, body, hooks);
    HookedBlockAt(t, f, f.order, b);
    assert HookedBlocks(t, f, f.order)[d] == SplitBlock(t, body, d);
    assert Last(HookedBlocks(t, f, f.order)[b].body) == call.(normal := d);
  }

  lemma InvokeNext(t: Targets, f: Func, b: nat, call: Instr) returns (d: nat, j: nat)
    requires OrderOk(f) && SoleOk(t, f) && b in f.order && b < |f.blocks| && InvokeOk(t, f, b, call)
    ensures ComesNext(HookedBlocks(t, f, f.order), |f.blocks|, b, call, d, j, HookOf(t, call))
  {
    if call.sole {
      d := call.normal;
      j := PhiCount(HookedBlocks(t, f, f.order)[d].body);
      SoleNext(t, f, b, call, j);
    } else {
      d, j := SplitTarget(t, f, f.order, b), 0;
      OwnSplitBlock(t, f, b, call, d);
    }
  }

  lemma TargetNext(t: Targets, f: Func, b: nat, i: nat, call: Instr) returns (d: nat, j: nat)
    requires FuncOk(t, f) && SoleOk(t, f) && Reached(t, f, b, i) && call == BodyAt(f, b)[i]
    ensures ComesNext(HookedBlocks(t, f, f.order), |f.blocks|, b, call, d, j, HookOf(t, call))
  {
    TargetIs(t, f, b, i, call);
    if call.Call? {
      d, j := b, Place(t, f, b, i) + 1;
      PlainNext(t, f, b, i, call);
    } else {
      d, j := InvokeNext(t, f, b, call);
    }
  }

  /** A reachable call of a listed function has its hook where control comes next. */
  lemma ListedCallHooked(t: Targets, f: Func, b: nat, i: nat, name: Symbol) returns (d: nat, j: nat, hook: Instr)
    requires FuncOk(t, f) && SoleOk(t, f) && b in f.order && i < |BodyAt(f, b)|
    requires Names(BodyAt(f, b)[i], name) && Listed(t, name)
    ensures ComesNext(HookedBlocks(t, f, f.order), |f.blocks|, b, BodyAt(f, b)[i], d, j, hook)
    ensures Tracks(t, name, BodyAt(f, b)[i], hook)
  {
    hook := HookOf(t, BodyAt(f, b)[i]);
    ListedIsTarget(t, BodyAt(f, b)[i], name);
    HookReports(t, BodyAt(f, b)[i], name);
    d, j := TargetNext(t, f, b, i, BodyAt(f, b)[i]);
  }

  /** Every hook call of a hooked function reports a reachable call of a listed function. */
  lemma OnlyListedCallsHooked(t: Targets, f: Func, d: nat, j: nat) returns (b: nat, i: nat, name: Symbol)
    requires FuncOk(t, f) && SoleOk(t, f) && d < |HookedBlocks(t, f, f.order)|
    requires j < |HookedBlocks(t, f, f.order)[d].body| && CallsHook(HookedBlocks(t, f, f.order)[d].body[j])
    ensures b in f.order && i < |BodyAt(f, b)| && Names(BodyAt(f, b)[i], name) && Listed(t, name)
    ensures Tracks(t, name, BodyAt(f, b)[i], HookedBlocks(t, f, f.order)[d].body[j])
  {
    HookIsCalled(HookedBlocks(t, f, f.order)[d].body[j]);
    b, i := EveryHookHasItsCall(t, f, d, j);
    HookStands(t, f, b, i);
    name := BodyAt(f, b)[i].callee.value;
    ListedIsTarget(t, BodyAt(f, b)[i], name);
    HookReports(t, BodyAt(f, b)[i], name);
  }

  // ----- a function that calls nothing on the lists -----

  ghost predicate Untargeted(t: Targets, body: seq<Instr>) {
    forall i :: 0 <= i < |body| ==> !IsTarget(t, body[i])
  }

  lemma {:induction false} WeaveUntargeted(t: Targets, body: seq<Instr>)
    requires Untargeted(t, body)
    ensures Weave(t, body) == body
  {
    if body != [] {
      WeaveUntargeted(t, body[..|body| - 1]);
    }
  }

  lemma {:induction false} NoEdgeSplit(t: Targets, f: Func, visited: seq<nat>)
    requires forall k :: 0 <= k < |visited| ==> Untargeted(t, BodyAt(f, visited[k]))
    ensures SplitBlocks(t, f, visited) == []
  {
    if visited != [] {
      NoEdgeSplit(t, f, visited[..|visited| - 1]);
    }
  }

  lemma BodyUntouched(t: Targets, f: Func, b: nat)
    requires forall k :: 0 <= k < |f.order| ==> Untargeted(t, BodyAt(f, f.order[k]))
    ensures HookedBody(t, f, f.order, b) == BodyAt(f, b)
  {
    NoEntryHook(t, f, f.order, b);
    if b in f.order {
      WeaveUntargeted(t, BodyAt(f, b));
    }
  }

  /** A function none of whose reachable calls names a listed function keeps its blocks, whatever it calls. */
  lemma UnlistedUntouched(t: Targets, f: Func)
    requires forall b: nat, i: nat, name: Symbol ::
               b in f.order && i < |BodyAt(f, b)| && Names(BodyAt(f, b)[i], name) ==> !Listed(t, name)
    ensures HookedBlocks(t, f, f.order) == f.blocks
  {
    forall k | 0 <= k < |f.order| ensures Untargeted(t, BodyAt(f, f.order[k])) {
      forall i | 0 <= i < |BodyAt(f, f.order[k])| ensures !IsTarget(t, BodyAt(f, f.order[k])[i]) {
        var x := BodyAt(f, f.order[k])[i];
        if x.IsCall() && x.callee.Some? {
          assert Names(x, x.callee.value);
          ListedIsTarget(t, x, x.callee.value);
        }
      }
    }
    NoEdgeSplit(t, f, f.order);
    forall b: nat | b < |f.blocks| ensures HookedBlocks(t, f, f.order)[b] == f.blocks[b] {
      BodyUntouched(t, f, b);
      HookedBlockAt(t, f, f.order, b);
    }
  }

  // ----- one function with a call of each kind -----

  const LISTS := Targets({Function("__rust_alloc")}, {Function("__rust_realloc")}, {Function("__rust_dealloc")})
  const GROW := Call(Some(1), Some(Function("__rust_realloc")), [Opaque(5), IntConst(8), IntConst(8), IntConst(16)])
  const ENTER := Invoke(Some(2), Some(Function("__rust_alloc")), [IntConst(4)], 1, true, "")
  const FREE := Call(None, Some(Function("__rust_dealloc")), [Result(2), IntConst(4)])
  const LEAVE := Invoke(None, Some(Function("__rust_dealloc")), [Result(1), IntConst(16)], 0, false, "e")

  /** A reallocation, then an allocation whose invoke is the only way into the second block, which frees twice. */
  const SMALL := Func("f", [Block("", 0, [GROW, ENTER]), Block("", 1, [Phi(7), FREE, LEAVE])], [0, 1])

  const GROW_HOOK := Call(None, Some(Hook(ReallocHook)),
                          [Result(1), IntConst(16), Opaque(5), IntConst(8), IntConst(-1), NullStr, NullStr])
  const ENTER_HOOK := Call(None, Some(Hook(AllocHook)), [Result(2), IntConst(4), IntConst(-1), NullStr, NullStr])
  const FREE_HOOK := Call(None, Some(Hook(DeallocHook)), [Result(2), IntConst(4), IntConst(-1)])
  const LEAVE_HOOK := Call(None, Some(Hook(DeallocHook)), [Result(1), IntConst(16), IntConst(-1)])

  lemma SmallOk()
    ensures FuncOk(LISTS, SMALL) && SoleOk(LISTS, SMALL) && TargetsOk(LISTS)
  {
    forall b: nat | b < 2 ensures BodyOk(BodyAt(SMALL, b)) {
      assert BodyAt(SMALL, 0) == [GROW, ENTER] && BodyAt(SMALL, 1) == [Phi(7), FREE, LEAVE];
    }
    forall b: nat, d: nat | Enters(LISTS, BodyAt(SMALL, b), d) ensures b == 0 {
      assert BodyAt(SMALL, 1) == [Phi(7), FREE, LEAVE];
    }
  }

  lemma WeaveSnoc(t: Targets, front: seq<Instr>, x: Instr)
    ensures Weave(t, front + [x]) ==
            Weave(t, front) + [x] + (if x.Call? && IsTarget(t, x) then [HookOf(t, x)] else [])
  {
    assert (front + [x])[..|front|] == front;
  }

  lemma NamesDiffer()
    ensures "__rust_alloc" != "__rust_realloc" && "__rust_alloc" != "__rust_dealloc"
    ensures "__rust_realloc" != "__rust_dealloc"
  {
    assert "__rust_alloc"[7] == 'a' && "__rust_realloc"[7] == 'r' && "__rust_dealloc"[7] == 'd';
  }

  lemma SmallTargets()
    ensures IsTarget(LISTS, GROW) && HookOf(LISTS, GROW) == GROW_HOOK
    ensures IsTarget(LISTS, ENTER) && HookOf(LISTS, ENTER) == ENTER_HOOK
    ensures IsTarget(LISTS, FREE) && HookOf(LISTS, FREE) == FREE_HOOK
    ensures IsTarget(LISTS, LEAVE) && HookOf(LISTS, LEAVE) == LEAVE_HOOK
  {
    NamesDiffer();
  }

  lemma FirstWoven()
    ensures Weave(LISTS, [GROW, ENTER]) == [GROW, GROW_HOOK, ENTER]
  {
    SmallTargets();
    WeaveSnoc(LISTS, [], GROW);
    WeaveSnoc(LISTS, [GROW], ENTER);
    assert [] + [GROW] == [GROW] && [GROW] + [ENTER] == [GROW, ENTER];
  }

  lemma SecondWoven()
    ensures Weave(LISTS, [Phi(7), FREE, LEAVE]) == [Phi(7), FREE, FREE_HOOK, LEAVE]
  {
    SmallTargets();
    WeaveSnoc(LISTS, [], Phi(7));
    WeaveSnoc(LISTS, [Phi(7)], FREE);
    WeaveSnoc(LISTS, [Phi(7), FREE], LEAVE);
    assert [] + [Phi(7)] == [Phi(7)];
    assert [Phi(7)] + [FREE] == [Phi(7), FREE] && [Phi(7), FREE] + [LEAVE] == [Phi(7), FREE, LEAVE];
  }

  lemma SmallVisits()
    ensures EntryHooks(LISTS, SMALL, [0, 1], 0) == [] && EntryHooks(LISTS, SMALL, [0, 1], 1) == [ENTER_HOOK]
    ensures SplitBlocks(LISTS, SMALL, [0, 1]) == [Block("e", 2, [LEAVE_HOOK, Jump(0)])]
    ensures SplitTarget(LISTS, SMALL, [0, 1], 1) == 2
  {
    assert [0, 1][..1] == [0] && [0][..0] == [];
    assert BodyAt(SMALL, 0) == [GROW, ENTER] && BodyAt(SMALL, 1) == [Phi(7), FREE, LEAVE];
    SmallTargets();
    assert Enters(LISTS, [GROW, ENTER], 1);
    assert EntryHooks(LISTS, SMALL, [], 1) == [];
    assert EntryHooks(LISTS, SMALL, [0], 1) == [ENTER_HOOK] + [];
    assert EntryHooks(LISTS, SMALL, [0], 0) == [];
    assert SplitBlocks(LISTS, SMALL, [0]) == [];
  }

  lemma FirstDressed()
    ensures HookedBody(LISTS, SMALL, [0, 1], 0) == [GROW, GROW_HOOK, ENTER]
  {
    SmallTargets();
    FirstWoven();
    SmallVisits();
    assert BodyAt(SMALL, 0) == [GROW, ENTER];
    PhiCountIs([GROW, GROW_HOOK, ENTER], 0);
  }

  lemma SecondDressed()
    ensures HookedBody(LISTS, SMALL, [0, 1], 1) == [Phi(7), ENTER_HOOK, FREE, FREE_HOOK, LEAVE.(normal := 2)]
  {
    SmallTargets();
    SecondWoven();
    SmallVisits();
    assert BodyAt(SMALL, 1) == [Phi(7), FREE, LEAVE];
    PhiCountIs([Phi(7), FREE, FREE_HOOK, LEAVE], 1);
  }

  /** A well-formed function, and what it is hooked into: four hooks, the last in a block on the split edge. */
  lemma SmallFuncHooked()
    ensures FuncOk(LISTS, SMALL) && SoleOk(LISTS, SMALL) && TargetsOk(LISTS)
    ensures HookedBlocks(LISTS, SMALL, [0, 1]) ==
            [Block("", 0, [GROW, GROW_HOOK, ENTER]),
             Block("", 1, [Phi(7), ENTER_HOOK, FREE, FREE_HOOK, LEAVE.(normal := 2)]),
             Block("e", 2, [LEAVE_HOOK, Jump(0)])]
  {
    SmallOk();
    SmallVisits();
    FirstDressed();
    SecondDressed();
  }
}
