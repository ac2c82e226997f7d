/**
  The second pass: number the hooks of every function, collect the allocation
  calls that the profile lists, retarget those, and strip the hooks again.
 */
module PostPass {
  import opened Common
  import opened FaultMaps
  import opened Ir

  /** How the pass was started; without a profile path there is no fault map. */
  datatype Options = Options(profile: Option<FaultMap>, removeHooks: bool)

  /** The allocation functions whose calls are retargeted, and to what. */
  function Replacement(s: Symbol): Option<Symbol> {
    if s == Function("__rust_alloc") then Some(Function("__rust_untrusted_alloc"))
    else if s == Function("trusted_malloc") then Some(Function("untrusted_malloc"))
    else if s == Function("__rust_alloc_zeroed") then Some(Function("__rust_untrusted_alloc_zeroed"))
    else None
  }

  /**
    By name: the two Rust allocation functions go to their untrusted namesakes,
    the trusted malloc to the untrusted one, and nothing else goes anywhere.
   */
  lemma ReplacementByName(s: Symbol)
    ensures forall x :: x in {"alloc", "alloc_zeroed"} ==>
              Replacement(Function("__rust_" + x)) == Some(Function("__rust_" + ("untrusted_" + x)))
    ensures Replacement(Function("trusted_malloc")) == Some(Function("un" + "trusted_malloc"))
    ensures s !in {Function("__rust_alloc"), Function("__rust_alloc_zeroed"), Function("trusted_malloc")} ==>
              Replacement(s).None?
  {
    assert "__rust_" + "alloc" == "__rust_alloc" && "__rust_" + "alloc_zeroed" == "__rust_alloc_zeroed";
    assert "__rust_" + ("untrusted_" + "alloc") == "__rust_untrusted_alloc";
    assert "__rust_" + ("untrusted_" + "alloc_zeroed") == "__rust_untrusted_alloc_zeroed";
    assert "un" + "trusted_malloc" == "untrusted_malloc";
    ReplacedNamesDiffer();
  }

  /** The three names are told apart by their first letter and their length. */
  lemma ReplacedNamesDiffer()
    ensures "__rust_alloc" != "trusted_malloc" && "__rust_alloc_zeroed" != "trusted_malloc"
    ensures "__rust_alloc" != "__rust_alloc_zeroed"
  {
    assert "__rust_alloc"[0] == '_' && "__rust_alloc_zeroed"[0] == '_' && "trusted_malloc"[0] == 't';
    assert |"__rust_alloc"| < |"__rust_alloc_zeroed"|;
  }

  // ----- numbering -----

  /** Hooks that get an id; deallocation hooks do not. */
  predicate Counts(i: Instr) {
    IsHook(i) && i.callee.value.kind != DeallocHook
  }

  /** A call, of either kind, of the allocation or the reallocation hook. */
  predicate TakesId(i: Instr) {
    match i
    case Call(_, callee, _) => callee == Some(Hook(AllocHook)) || callee == Some(Hook(ReallocHook))
    case Invoke(_, callee, _, _, _, _) => callee == Some(Hook(AllocHook)) || callee == Some(Hook(ReallocHook))
    case _ => false
  }

  lemma HooksThatCount(i: Instr)
    ensures Counts(i) <==> TakesId(i)
  {
    if IsHook(i) {
      assert i.callee == Some(Hook(i.callee.value.kind));
    }
  }

  /** Where a hook takes its id; the block and the function name follow. */
  function IdIndex(i: Instr): nat {
    if i.IsCall() && i.callee == Some(Hook(AllocHook)) then 2 else 4
  }

  function SetArg(args: seq<Operand>, k: nat, x: Operand): seq<Operand> {
    if k < |args| then args[k := x] else args
  }

  /** A hook with its operands filled in; the names only if the hooks are to stay. */
  function WithId(o: Options, i: Instr, id: nat, bbName: string, funcName: string): Instr {
    if !Counts(i) then i
    else
      var args := SetArg(i.args, IdIndex(i), IntConst(id));
      i.(args := if o.removeHooks then args
                 else SetArg(SetArg(args, IdIndex(i) + 1, Str(bbName)), IdIndex(i) + 2, Str(funcName)))
  }

  /** The number of hooks among the first `i` instructions that get an id. */
  function Count(body: seq<Instr>, i: nat): nat
    requires i <= |body|
  {
    if i == 0 then 0 else Count(body, i - 1) + (if Counts(body[i - 1]) then 1 else 0)
  }

  function NumberBody(o: Options, body: seq<Instr>, start: nat, bbName: string, funcName: string): seq<Instr> {
    seq(|body|, i requires 0 <= i < |body| => WithId(o, body[i], start + Count(body, i), bbName, funcName))
  }

  function Hooks(body: seq<Instr>): nat {
    Count(body, |body|)
  }

  /** The number of ids given out once the first `k` blocks of the traversal have been visited. */
  function Total(f: Func, k: nat): nat
    requires k <= |f.order|
  {
    if k == 0 then 0 else Total(f, k - 1) + Hooks(BodyAt(f, f.order[k - 1]))
  }

  /** The id the first hook of block `b` gets. */
  function StartOf(f: Func, k: nat, b: nat): nat
    requires k <= |f.order|
  {
    if k == 0 then 0
    else if f.order[k - 1] == b then Total(f, k - 1)
    else StartOf(f, k - 1, b)
  }

  /** Block `b` when the first `k` blocks of the traversal have been visited. */
  function NumberedBlock(o: Options, f: Func, k: nat, b: nat): Block
    requires k <= |f.order| && b < |f.blocks|
  {
    var block := f.blocks[b];
    if b in f.order[..k] then
      block.(body := NumberBody(o, block.body, StartOf(f, k, b), BlockName(block), f.name))
    else block
  }

  function NumberedBlocks(o: Options, f: Func, k: nat): seq<Block>
    requires k <= |f.order|
  {
    seq(|f.blocks|, b requires 0 <= b < |f.blocks| => NumberedBlock(o, f, k, b))
  }

  function Numbered(o: Options, f: Func): Func {
    f.(blocks := NumberedBlocks(o, f, |f.order|))
  }

  // ----- the calls to patch -----

  /** Value `c` of the function is the result of a call. */
  predicate DefIsCall(f: Func, c: nat) {
    exists b: nat, i: nat :: b < |f.blocks| && i < |f.blocks[b].body|
      && f.blocks[b].body[i].IsCall() && f.blocks[b].body[i].result == Some(c)
  }

  /** The call a numbered hook puts on the patch list, if the profile lists the hook's id. */
  function PatchOf(o: Options, f: Func, hook: Instr, id: nat): Option<nat> {
    if Counts(hook) && o.profile.Some? && Faulty(o.profile.value, f.name, id)
       && hook.args != [] && hook.args[0].Result? && DefIsCall(f, hook.args[0].id)
    then Some(hook.args[0].id)
    else None
  }

  /** The first `k` of several lists, one after another. */
  function Flatten<T>(parts: seq<seq<T>>, k: nat): seq<T>
    requires k <= |parts|
  {
    if k == 0 then [] else Flatten(parts, k - 1) + parts[k - 1]
  }

  /** What the first `i` of a row of options hold. */
  function Somes<T>(row: seq<Option<T>>, i: nat): seq<T>
    requires i <= |row|
  {
    if i == 0 then [] else Somes(row, i - 1) + ToList(row[i - 1])
  }

  function ToList<T>(x: Option<T>): seq<T> {
    if x.Some? then [x.value] else []
  }

  /** Per instruction of a body whose ids begin at `start`. */
  function InstrPatches(o: Options, f: Func, body: seq<Instr>, start: nat): seq<Option<nat>> {
    seq(|body|, i requires 0 <= i < |body| => PatchOf(o, f, body[i], start + Count(body, i)))
  }

  function BodyPatches(o: Options, f: Func, body: seq<Instr>, start: nat): seq<nat> {
    Somes(InstrPatches(o, f, body, start), |body|)
  }

  /** Per block of the traversal. */
  function BlockPatches(o: Options, f: Func): seq<seq<nat>> {
    seq(|f.order|, k requires 0 <= k < |f.order| => BodyPatches(o, f, BodyAt(f, f.order[k]), Total(f, k)))
  }

  function Patches(o: Options, f: Func): seq<nat> {
    Flatten(BlockPatches(o, f), |f.order|)
  }

  // ----- retargeting and stripping -----

  /** A call whose result is in `calls` goes to the replacement of its callee, if the module has it. */
  function PatchInstr(symbols: set<Symbol>, calls: set<nat>, i: Instr): Instr {
    if i.IsCall() && i.result.Some? && i.result.value in calls && i.callee.Some?
       && Replacement(i.callee.value).Some? && Replacement(i.callee.value).value in symbols
    then i.(callee := Replacement(i.callee.value))
    else i
  }

  function PatchBody(symbols: set<Symbol>, calls: set<nat>, body: seq<Instr>): seq<Instr> {
    seq(|body|, k requires 0 <= k < |body| => PatchInstr(symbols, calls, body[k]))
  }

  function PatchBlocks(symbols: set<Symbol>, calls: set<nat>, blocks: seq<Block>): seq<Block> {
    seq(|blocks|, b requires 0 <= b < |blocks| => blocks[b].(body := PatchBody(symbols, calls, blocks[b].body)))
  }

  function Members<T(==)>(s: seq<T>): set<T> {
    set x | x in s
  }

  /** What the pass makes of one function of a module with these symbols. */
  function Final(o: Options, symbols: set<Symbol>, f: Func): Func {
    var patched := PatchBlocks(symbols, Members(Patches(o, f)), Numbered(o, f).blocks);
    f.(blocks := if o.removeHooks then StripBlocks(patched) else patched)
  }

  // ----- the loops -----

  /** Numbering leaves the hooked call, the first operand, where it is. */
  lemma NumberKeepsCall(o: Options, f: Func, hook: Instr, id: nat, bbName: string, funcName: string)
    requires Counts(hook)
    ensures var r := WithId(o, hook, id, bbName, funcName);
            && Counts(r) && |r.args| == |hook.args| && (hook.args != [] ==> r.args[0] == hook.args[0])
            && PatchOf(o, f, r, id) == PatchOf(o, f, hook, id)
  {
  }

  /** Fill in a hook's id and, if it is to stay, the names of its block and function. */
  method SetOperands(o: Options, hook: Instr, id: nat, bbName: string, funcName: string) returns (r: Instr)
    requires Counts(hook)
    ensures r == WithId(o, hook, id, bbName, funcName)
  {
    var index := IdIndex(hook);
    var args := SetArg(hook.args, index, IntConst(id));
    if !o.removeHooks {
      args := SetArg(args, index + 1, Str(bbName));
      args := SetArg(args, index + 2, Str(funcName));
    }
    r := hook.(args := args);
  }

  /** The call behind a numbered hook, if the profile lists it. */
  method ListedCall(o: Options, f: Func, hook: Instr, id: nat) returns (call: Option<nat>)
    requires Counts(hook)
    ensures call == PatchOf(o, f, hook, id)
  {
    call := None;
    if o.profile.Some? && Faulty(o.profile.value, f.name, id) {
      if hook.args != [] && hook.args[0].Result? && DefIsCall(f, hook.args[0].id) {
        call := Some(hook.args[0].id);
      }
    }
  }

  /** One instruction: a hook is given the next id, anything else is passed over. */
  method NumberInstr(o: Options, f: Func, i: Instr, id: nat, bbName: string)
    returns (r: Instr, next: nat, patch: Option<nat>)
    ensures r == WithId(o, i, id, bbName, f.name)
    ensures next == if Counts(i) then id + 1 else id
    ensures patch == PatchOf(o, f, i, id)
  {
    if !Counts(i) {
      return i, id, None;
    }
    NumberKeepsCall(o, f, i, id, bbName, f.name);
    r := SetOperands(o, i, id, bbName, f.name);
    patch := ListedCall(o, f, r, id);
    next := id + 1;
  }

  /** Instruction `i` of a body: what numbering makes of it and what it adds. */
  lemma InstrNext(o: Options, f: Func, body: seq<Instr>, start: nat, bbName: string, i: nat, id: nat,
                  x: Instr, patch: Option<nat>)
    requires i < |body| && id == start + Count(body, i)
    requires x == WithId(o, body[i], id, bbName, f.name) && patch == PatchOf(o, f, body[i], id)
    ensures NumberBody(o, body, start, bbName, f.name)[i] == x
    ensures InstrPatches(o, f, body, start)[i] == patch
    ensures start + Count(body, i + 1) == if Counts(body[i]) then id + 1 else id
  {
  }

  lemma Overwrite<T>(r: seq<T>, front: seq<T>, back: seq<T>, i: nat, x: T)
    requires |front| == |back| && i < |front| && r == front[..i] + back[i..] && x == front[i]
    ensures r[i := x] == front[..i + 1] + back[i + 1..]
  {
    assert front[..i + 1] == front[..i] + [x];
  }

  /** How far the numbering of a body has come when `i` instructions are done: the body, the next id, the patches. */
  function BodyProgress(o: Options, f: Func, body: seq<Instr>, start: nat, bbName: string, i: nat): Numbering
    requires i <= |body|
  {
    Numbering(NumberBody(o, body, start, bbName, f.name)[..i] + body[i..],
              start + Count(body, i),
              Somes(InstrPatches(o, f, body, start), i))
  }

  datatype Numbering = Numbering(body: seq<Instr>, id: nat, patches: seq<nat>)

  lemma BodyStarts(o: Options, f: Func, body: seq<Instr>, start: nat, bbName: string)
    ensures BodyProgress(o, f, body, start, bbName, 0) == Numbering(body, start, [])
  {
  }

  lemma BodyEnds(o: Options, f: Func, body: seq<Instr>, start: nat, bbName: string, p: Numbering)
    requires p == BodyProgress(o, f, body, start, bbName, |body|)
    ensures p.body == NumberBody(o, body, start, bbName, f.name)
    ensures p.id == start + Hooks(body) && p.patches == BodyPatches(o, f, body, start)
  {
  }

  lemma BodyNext(o: Options, f: Func, body: seq<Instr>, start: nat, bbName: string, i: nat, p: Numbering,
                 x: Instr, next: nat, patch: Option<nat>)
    requires i < |body| && p == BodyProgress(o, f, body, start, bbName, i)
    requires x == WithId(o, body[i], p.id, bbName, f.name) && patch == PatchOf(o, f, body[i], p.id)
    requires next == if Counts(body[i]) then p.id + 1 else p.id
    ensures |p.body| == |body|
    ensures BodyProgress(o, f, body, start, bbName, i + 1) ==
            Numbering(p.body[i := x], next, p.patches + ToList(patch))
  {
    InstrNext(o, f, body, start, bbName, i, p.id, x, patch);
    Overwrite(p.body, NumberBody(o, body, start, bbName, f.name), body, i, x);
  }

  lemma BodyUntouched(o: Options, f: Func, body: seq<Instr>, start: nat, bbName: string, i: nat, p: Numbering)
    requires i < |body| && p == BodyProgress(o, f, body, start, bbName, i)
    ensures i < |p.body| && p.body[i] == body[i]
  {
  }

  /** Instruction `i` of a block: write what numbering makes of it, in place. */
  method NumberNext(o: Options, f: Func, body: seq<Instr>, start: nat, bbName: string, i: nat, p: Numbering)
    returns (r: Numbering)
    requires i < |body| && p == BodyProgress(o, f, body, start, bbName, i)
    ensures r == BodyProgress(o, f, body, start, bbName, i + 1)
  {
    BodyUntouched(o, f, body, start, bbName, i, p);
    var x, next, patch := NumberInstr(o, f, p.body[i], p.id, bbName);
    BodyNext(o, f, body, start, bbName, i, p, x, next, patch);
    return Numbering(p.body[i := x], next, p.patches + ToList(patch));
  }

  /** Number the hooks of one block, in place, and collect the calls to patch. */
  method NumberHooks(o: Options, f: Func, body: seq<Instr>, start: nat, bbName: string)
    returns (r: seq<Instr>, id: nat, patches: seq<nat>)
    ensures r == NumberBody(o, body, start, bbName, f.name)
    ensures id == start + Hooks(body)
    ensures patches == BodyPatches(o, f, body, start)
  {
    BodyStarts(o, f, body, start, bbName);
    var p := Numbering(body, start, []);
    for i := 0 to |body|
      invariant p == BodyProgress(o, f, body, start, bbName, i)
    {
      p := NumberNext(o, f, body, start, bbName, i, p);
    }
    BodyEnds(o, f, body, start, bbName, p);
    return p.body, p.id, p.patches;
  }

  lemma NothingNumbered(o: Options, f: Func)
    ensures NumberedBlocks(o, f, 0) == f.blocks
  {
  }

  /** The `k`-th block of the traversal exists and has not been visited before. */
  predicate Unseen(f: Func, k: nat) {
    k < |f.order| && f.order[k] < |f.blocks| && f.order[k] !in f.order[..k]
  }

  /** The traversal visits blocks of the function, each at most once, seen visit by visit. */
  ghost predicate EachOnce(f: Func) {
    forall k: nat :: k < |f.order| ==> Unseen(f, k)
  }

  lemma OrderVisitsEachOnce(f: Func)
    requires OrderOk(f)
    ensures EachOnce(f)
  {
  }

  lemma BlocksNext(o: Options, f: Func, k: nat, b: nat)
    requires Unseen(f, k) && b == f.order[k]
    ensures NumberedBlocks(o, f, k)[b] == f.blocks[b]
    ensures NumberedBlocks(o, f, k + 1) == NumberedBlocks(o, f, k)[b := f.blocks[b].(body :=
              NumberBody(o, f.blocks[b].body, Total(f, k), BlockName(f.blocks[b]), f.name))]
  {
    assert f.order[..k + 1] == f.order[..k] + [b];
    forall c: nat | c < |f.blocks| && c != b
      ensures NumberedBlock(o, f, k + 1, c) == NumberedBlock(o, f, k, c)
    {
      assert c in f.order[..k + 1] <==> c in f.order[..k];
    }
  }

  /** What the `k`-th block of the traversal adds to the patches and to the ids given out. */
  lemma BlockShare(o: Options, f: Func, k: nat, body: seq<Instr>, id: nat)
    requires k < |f.order| && body == BodyAt(f, f.order[k]) && id == Total(f, k)
    ensures BlockPatches(o, f)[k] == BodyPatches(o, f, body, id)
    ensures Total(f, k + 1) == id + Hooks(body)
  {
  }

  /** How far the numbering of a function has come. */
  datatype Progress = Progress(blocks: seq<Block>, id: nat, patches: seq<nat>)

  /** What has been done when the first `k` blocks of the traversal are numbered. */
  function ProgressAt(o: Options, f: Func, k: nat): Progress
    requires k <= |f.order|
  {
    Progress(NumberedBlocks(o, f, k), Total(f, k), Flatten(BlockPatches(o, f), k))
  }

  lemma NumberingStarts(o: Options, f: Func)
    ensures ProgressAt(o, f, 0) == Progress(f.blocks, 0, [])
  {
    NothingNumbered(o, f);
  }

  lemma NumberingEnds(o: Options, f: Func, p: Progress, r: Func)
    requires p == ProgressAt(o, f, |f.order|) && r == Func(f.name, p.blocks, f.order)
    ensures r == Numbered(o, f) && p.patches == Patches(o, f)
  {
  }

  lemma Unvisited(o: Options, f: Func, k: nat)
    requires Unseen(f, k)
    ensures var p := ProgressAt(o, f, k);
            f.order[k] < |p.blocks| && p.blocks[f.order[k]] == f.blocks[f.order[k]] && p.id == Total(f, k)
  {
    BlocksNext(o, f, k, f.order[k]);
  }

  lemma VisitedNext(o: Options, f: Func, k: nat, p: Progress, body: seq<Instr>, more: seq<nat>)
    requires Unseen(f, k) && p == ProgressAt(o, f, k)
    requires var block := f.blocks[f.order[k]];
             && body == NumberBody(o, block.body, p.id, BlockName(block), f.name)
             && more == BodyPatches(o, f, block.body, p.id)
    ensures var b := f.order[k];
            && b < |p.blocks|
            && ProgressAt(o, f, k + 1) ==
               Progress(p.blocks[b := f.blocks[b].(body := body)], p.id + Hooks(f.blocks[b].body), p.patches + more)
  {
    BlocksNext(o, f, k, f.order[k]);
    BlockShare(o, f, k, f.blocks[f.order[k]].body, p.id);
  }

  /** Number the hooks of the `k`-th block of the traversal. */
  method NumberBlock(o: Options, f: Func, k: nat, p: Progress) returns (r: Progress)
    requires Unseen(f, k) && p == ProgressAt(o, f, k)
    ensures r == ProgressAt(o, f, k + 1)
  {
    Unvisited(o, f, k);
    var b := f.order[k];
    var block := p.blocks[b];
    var body, id, more := NumberHooks(o, f, block.body, p.id, BlockName(block));
    VisitedNext(o, f, k, p, body, more);
    return Progress(p.blocks[b := block.(body := body)], id, p.patches + more);
  }

  /** Number the hooks of a function, block by block in traversal order, from 0. */
  method NumberFunction(o: Options, f: Func) returns (r: Func, patches: seq<nat>)
    requires EachOnce(f)
    ensures r == Numbered(o, f)
    ensures patches == Patches(o, f)
  {
    NumberingStarts(o, f);
    var p := Progress(f.blocks, 0, []);
    for k := 0 to |f.order|
      invariant p == ProgressAt(o, f, k)
    {
      assert Unseen(f, k);
      p := NumberBlock(o, f, k, p);
    }
    r, patches := Func(f.name, p.blocks, f.order), p.patches;
    NumberingEnds(o, f, p, r);
  }

  // ----- the whole module -----

  /** A call of a function of the module, by the function's place and the call's result. */
  type CallSite = (nat, nat)

  /** Every function once, in any order. */
  ghost predicate IsWorklist(funcs: seq<Func>, worklist: seq<nat>) {
    && (forall k :: 0 <= k < |worklist| ==> worklist[k] < |funcs|)
    && (forall j, k :: 0 <= j < k < |worklist| ==> worklist[j] != worklist[k])
    && (forall i: nat :: i < |funcs| ==> i in worklist)
  }

  /** Every module has a worklist. */
  lemma WorklistExists(funcs: seq<Func>) returns (worklist: seq<nat>)
    ensures IsWorklist(funcs, worklist)
  {
    worklist := seq(|funcs|, i requires 0 <= i < |funcs| => i);
    forall i: nat | i < |funcs| ensures i in worklist {
      assert worklist[i] == i;
    }
  }

  function NumberedFuncs(o: Options, funcs: seq<Func>, done: seq<nat>): seq<Func> {
    seq(|funcs|, i requires 0 <= i < |funcs| => if i in done then Numbered(o, funcs[i]) else funcs[i])
  }

  function Tagged(i: nat, calls: seq<nat>): seq<CallSite> {
    seq(|calls|, k requires 0 <= k < |calls| => (i, calls[k]))
  }

  function PatchList(o: Options, funcs: seq<Func>, worklist: seq<nat>): seq<CallSite> {
    if worklist == [] then []
    else
      var n := |worklist| - 1;
      PatchList(o, funcs, worklist[..n])
      + (if worklist[n] < |funcs| then Tagged(worklist[n], Patches(o, funcs[worklist[n]])) else [])
  }

  function CallsIn(sites: set<CallSite>, i: nat): set<nat> {
    set p | p in sites && p.0 == i :: p.1
  }

  function PatchFuncs(symbols: set<Symbol>, sites: set<CallSite>, funcs: seq<Func>): seq<Func> {
    seq(|funcs|, i requires 0 <= i < |funcs| =>
      funcs[i].(blocks := PatchBlocks(symbols, CallsIn(sites, i), funcs[i].blocks)))
  }

  function FinalFuncs(o: Options, symbols: set<Symbol>, funcs: seq<Func>): seq<Func> {
    seq(|funcs|, i requires 0 <= i < |funcs| => Final(o, symbols, funcs[i]))
  }

  /** No replacement is itself replaced, and neither end is a hook. */
  lemma ReplacedOnce(s: Symbol)
    requires Replacement(s).Some?
    ensures Replacement(Replacement(s).value).None?
    ensures s.Function? && Replacement(s).value.Function?
  {
    var before, after := s.name, Replacement(s).value.name;
    assert after[0] == 'u' || (after[0] == '_' && after[7] == 'u');
    assert before in {"__rust_alloc", "trusted_malloc", "__rust_alloc_zeroed"};
    assert "__rust_alloc"[7] == 'a' && "__rust_alloc_zeroed"[7] == 'a' && "trusted_malloc"[0] == 't';
  }

  /** Patching one set of calls after another is patching them all at once. */
  lemma PatchTwice(symbols: set<Symbol>, a: set<nat>, b: set<nat>, i: Instr)
    ensures PatchInstr(symbols, b, PatchInstr(symbols, a, i)) == PatchInstr(symbols, a + b, i)
  {
    if i.IsCall() && i.callee.Some? && Replacement(i.callee.value).Some? {
      ReplacedOnce(i.callee.value);
    }
  }

  lemma PatchBlocksTwice(symbols: set<Symbol>, a: set<nat>, b: set<nat>, blocks: seq<Block>)
    ensures PatchBlocks(symbols, b, PatchBlocks(symbols, a, blocks)) == PatchBlocks(symbols, a + b, blocks)
  {
    forall k: nat | k < |blocks|
      ensures PatchBody(symbols, b, PatchBody(symbols, a, blocks[k].body)) == PatchBody(symbols, a + b, blocks[k].body)
    {
      forall j: nat | j < |blocks[k].body|
        ensures PatchInstr(symbols, b, PatchInstr(symbols, a, blocks[k].body[j])) ==
                PatchInstr(symbols, a + b, blocks[k].body[j])
      {
        PatchTwice(symbols, a, b, blocks[k].body[j]);
      }
    }
  }

  lemma PatchNothing(symbols: set<Symbol>, blocks: seq<Block>)
    ensures PatchBlocks(symbols, {}, blocks) == blocks
  {
    forall k: nat | k < |blocks| ensures PatchBody(symbols, {}, blocks[k].body) == blocks[k].body {
    }
  }

  lemma PatchOneMore(symbols: set<Symbol>, sites: set<CallSite>, site: CallSite, funcs: seq<Func>)
    ensures PatchFuncs(symbols, {site}, PatchFuncs(symbols, sites, funcs)) == PatchFuncs(symbols, sites + {site}, funcs)
  {
    forall i: nat | i < |funcs| ensures PatchFuncs(symbols, {site}, PatchFuncs(symbols, sites, funcs))[i] ==
                                        PatchFuncs(symbols, sites + {site}, funcs)[i]
    {
      assert CallsIn(sites, i) + CallsIn({site}, i) == CallsIn(sites + {site}, i);
      PatchBlocksTwice(symbols, CallsIn(sites, i), CallsIn({site}, i), funcs[i].blocks);
    }
  }

  lemma InTagged(i: nat, calls: seq<nat>, site: CallSite)
    ensures site in Tagged(i, calls) <==> site.0 == i && site.1 in calls
  {
    if site.0 == i && site.1 in calls {
      var k :| 0 <= k < |calls| && calls[k] == site.1;
      assert Tagged(i, calls)[k] == site;
    }
  }

  lemma InPatchListNext(before: seq<CallSite>, w: nat, calls: seq<nat>, site: CallSite)
    ensures site in before + Tagged(w, calls) <==> site in before || (site.0 == w && site.1 in calls)
  {
    InTagged(w, calls, site);
  }

  /** The patch list holds, for each function worked on, its patches. */
  lemma {:induction false} PatchListMeaning(o: Options, funcs: seq<Func>, worklist: seq<nat>, site: CallSite)
    ensures site in PatchList(o, funcs, worklist) <==>
            site.0 in worklist && site.0 < |funcs| && site.1 in Patches(o, funcs[site.0])
  {
    if worklist != [] {
      var before, w := worklist[..|worklist| - 1], worklist[|worklist| - 1];
      PatchListMeaning(o, funcs, before, site);
      assert site.0 in worklist <==> site.0 in before || site.0 == w;
      if w < |funcs| {
        var calls := Patches(o, funcs[w]);
        assert PatchList(o, funcs, worklist) == PatchList(o, funcs, before) + Tagged(w, calls);
        InPatchListNext(PatchList(o, funcs, before), w, calls, site);
      } else {
        assert PatchList(o, funcs, worklist) == PatchList(o, funcs, before);
      }
    }
  }

  lemma NextFunction(o: Options, funcs: seq<Func>, worklist: seq<nat>, k: nat)
    requires IsWorklist(funcs, worklist) && k < |worklist|
    ensures var w, done, next := worklist[k], worklist[..k], worklist[..k + 1];
            && w < |funcs|
            && NumberedFuncs(o, funcs, done)[w] == funcs[w]
            && NumberedFuncs(o, funcs, next) == NumberedFuncs(o, funcs, done)[w := Numbered(o, funcs[w])]
            && PatchList(o, funcs, next) ==
               PatchList(o, funcs, done) + Tagged(w, Patches(o, funcs[w]))
  {
    var w, done, next := worklist[k], worklist[..k], worklist[..k + 1];
    assert next[..k] == done && next == done + [w];
    forall i: nat | i < |funcs| && i != w ensures i in next <==> i in done {
    }
  }

  /** A function's share of the patch list are its patches. */
  lemma ListedCalls(o: Options, funcs: seq<Func>, worklist: seq<nat>, sites: set<CallSite>, i: nat)
    requires i < |funcs| && i in worklist && sites == Members(PatchList(o, funcs, worklist))
    ensures CallsIn(sites, i) == Members(Patches(o, funcs[i]))
  {
    forall c: nat ensures c in CallsIn(sites, i) <==> c in Patches(o, funcs[i]) {
      PatchListMeaning(o, funcs, worklist, (i, c));
      assert c in CallsIn(sites, i) <==> (i, c) in sites;
    }
  }

  /** Numbering everything and then patching the listed calls, and perhaps stripping, is the final module. */
  lemma FinalIs(o: Options, symbols: set<Symbol>, funcs: seq<Func>, worklist: seq<nat>, sites: set<CallSite>,
                patched: seq<Func>, i: nat)
    requires i < |funcs| && i in worklist && sites == Members(PatchList(o, funcs, worklist))
    requires patched == PatchFuncs(symbols, sites, NumberedFuncs(o, funcs, worklist))
    ensures Final(o, symbols, funcs[i]) ==
            if o.removeHooks then patched[i].(blocks := StripBlocks(patched[i].blocks)) else patched[i]
  {
    ListedCalls(o, funcs, worklist, sites, i);
    assert NumberedFuncs(o, funcs, worklist)[i] == Numbered(o, funcs[i]);
  }

  function StripFuncs(funcs: seq<Func>): seq<Func> {
    seq(|funcs|, i requires 0 <= i < |funcs| => funcs[i].(blocks := StripBlocks(funcs[i].blocks)))
  }

  lemma AllFinal(o: Options, symbols: set<Symbol>, funcs: seq<Func>, worklist: seq<nat>, list: seq<CallSite>,
                 patched: seq<Func>)
    requires IsWorklist(funcs, worklist) && list == PatchList(o, funcs, worklist)
    requires patched == PatchFuncs(symbols, Members(list), NumberedFuncs(o, funcs, worklist))
    ensures FinalFuncs(o, symbols, funcs) == if o.removeHooks then StripFuncs(patched) else patched
  {
    var all := FinalFuncs(o, symbols, funcs);
    forall i: nat | i < |funcs|
      ensures all[i] == if o.removeHooks then StripFuncs(patched)[i] else patched[i]
    {
      FinalIs(o, symbols, funcs, worklist, Members(list), patched, i);
    }
  }

  lemma NoSites(symbols: set<Symbol>, funcs: seq<Func>)
    ensures PatchFuncs(symbols, {}, funcs) == funcs
  {
    forall i: nat | i < |funcs| ensures PatchFuncs(symbols, {}, funcs)[i] == funcs[i] {
      assert CallsIn({}, i) == {};
      PatchNothing(symbols, funcs[i].blocks);
    }
  }

  lemma PatchFuncsAt(symbols: set<Symbol>, site: CallSite, funcs: seq<Func>)
    requires site.0 < |funcs|
    ensures var f := funcs[site.0];
            PatchFuncs(symbols, {site}, funcs) ==
            funcs[site.0 := f.(blocks := PatchBlocks(symbols, {site.1}, f.blocks))]
  {
    forall i: nat | i < |funcs| && i != site.0 ensures PatchFuncs(symbols, {site}, funcs)[i] == funcs[i] {
      assert CallsIn({site}, i) == {};
      PatchNothing(symbols, funcs[i].blocks);
    }
    assert CallsIn({site}, site.0) == {site.1};
  }

  class ProvsanPost {
    const o: Options
    const symbols: set<Symbol>
    var funcs: seq<Func>
    var patchList: seq<CallSite>

    constructor (o: Options, symbols: set<Symbol>, funcs: seq<Func>)
      ensures this.o == o && this.symbols == symbols && this.funcs == funcs && patchList == []
    {
      this.o, this.symbols, this.funcs, patchList := o, symbols, funcs, [];
    }

    /** Number the hooks of every function and collect the calls that the profile lists. */
    method AssignLocalIDs(worklist: seq<nat>)
      requires IsWorklist(funcs, worklist) && (forall i :: 0 <= i < |funcs| ==> OrderOk(funcs[i])) && patchList == []
      modifies this
      ensures funcs == NumberedFuncs(o, old(funcs), worklist)
      ensures patchList == PatchList(o, old(funcs), worklist)
    {
      ghost var start := funcs;
      for k := 0 to |worklist|
        invariant funcs == NumberedFuncs(o, start, worklist[..k])
        invariant patchList == PatchList(o, start, worklist[..k])
      {
        var w := worklist[k];
        NextFunction(o, start, worklist, k);
        OrderVisitsEachOnce(funcs[w]);
        var f, calls := NumberFunction(o, funcs[w]);
        funcs, patchList := funcs[w := f], patchList + Tagged(w, calls);
      }
      assert worklist[..|worklist|] == worklist;
    }

    /** Retarget one call of the patch list. */
    method PatchInstruction(site: CallSite)
      requires site.0 < |funcs|
      modifies this`funcs
      ensures funcs == PatchFuncs(symbols, {site}, old(funcs))
    {
      PatchFuncsAt(symbols, site, funcs);
      var f := funcs[site.0];
      funcs := funcs[site.0 := f.(blocks := PatchBlocks(symbols, {site.1}, f.blocks))];
    }

    /** Take every hook call out of every function. */
    method RemoveHooks()
      modifies this`funcs
      ensures funcs == StripFuncs(old(funcs))
    {
      ghost var start := funcs;
      for i := 0 to |funcs|
        invariant |funcs| == |start|
        invariant forall j :: 0 <= j < i ==> funcs[j] == start[j].(blocks := StripBlocks(start[j].blocks))
        invariant forall j :: i <= j < |start| ==> funcs[j] == start[j]
      {
        funcs := funcs[i := funcs[i].(blocks := StripBlocks(funcs[i].blocks))];
      }
    }

    /** Retarget every call of the patch list, one after another. */
    method PatchAll()
      requires forall p :: p in patchList ==> p.0 < |funcs|
      modifies this`funcs
      ensures funcs == PatchFuncs(symbols, Members(patchList), old(funcs))
    {
      ghost var start := funcs;
      ghost var sites: set<CallSite> := {};
      NoSites(symbols, start);
      for k := 0 to |patchList|
        invariant sites == Members(patchList[..k])
        invariant funcs == PatchFuncs(symbols, sites, start)
      {
        PatchOneMore(symbols, sites, patchList[k], start);
        assert patchList[..k + 1] == patchList[..k] + [patchList[k]];
        sites := sites + {patchList[k]};
        PatchInstruction(patchList[k]);
      }
      assert patchList[..|patchList|] == patchList;
    }

    /**
      The pass. Its outcome is made of the module's functions one by one,
      whatever the order they are worked on.
     */
    method Run(worklist: seq<nat>)
      requires IsWorklist(funcs, worklist) && (forall i :: 0 <= i < |funcs| ==> OrderOk(funcs[i])) && patchList == []
      modifies this
      ensures funcs == FinalFuncs(o, symbols, old(funcs))
    {
      ghost var start := funcs;
      AssignLocalIDs(worklist);
      forall p | p in patchList ensures p.0 < |funcs| {
        PatchListMeaning(o, start, worklist, p);
      }
      PatchAll();
      AllFinal(o, symbols, start, worklist, patchList, funcs);
      if o.removeHooks {
        RemoveHooks();
      }
    }
  }
}
