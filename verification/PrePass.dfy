/**
  The first pass: put a hook beside every call of a target function.

  A hook follows an ordinary call directly. An invoke ends its block, so its
  hook goes where control continues: at the head of the normal destination when
  the invoke is the only way in, otherwise into a new block on the split edge.
 */
module PrePass {
  import opened Common
  import opened Ir

  /** The functions whose calls are to be hooked. */
  datatype Targets = Targets(allocs: set<Symbol>, reallocs: set<Symbol>, deallocs: set<Symbol>)

  predicate IsTarget(t: Targets, i: Instr) {
    && i.IsCall() && i.callee.Some?
    && (i.callee.value in t.allocs || i.callee.value in t.reallocs || i.callee.value in t.deallocs)
  }

  /** The result and the operands that the hook of a call is built from have to be there. */
  predicate CallOk(t: Targets, i: Instr) {
    IsTarget(t, i) ==>
      if i.callee.value in t.allocs then i.result.Some? && |i.args| >= 1
      else if i.callee.value in t.reallocs then i.result.Some? && |i.args| >= 4
      else |i.args| >= 2
  }

  const DUMMY_ID := IntConst(-1)

  function ResultOf(i: Instr): Operand {
    if i.IsCall() && i.result.Some? then Result(i.result.value) else Opaque(0)
  }

  function Arg(i: Instr, k: nat): Operand {
    if i.IsCall() && k < |i.args| then i.args[k] else Opaque(0)
  }

  /** The hook of a target call; a name in several lists counts as the first of alloc, realloc, dealloc. */
  function HookOf(t: Targets, i: Instr): Instr {
    if i.IsCall() && i.callee.Some? && i.callee.value in t.allocs then
      Call(None, Some(Hook(AllocHook)), [ResultOf(i), Arg(i, 0), DUMMY_ID, NullStr, NullStr])
    else if i.IsCall() && i.callee.Some? && i.callee.value in t.reallocs then
      Call(None, Some(Hook(ReallocHook)),
           [ResultOf(i), Arg(i, 3), Arg(i, 0), Arg(i, 1), DUMMY_ID, NullStr, NullStr])
    else
      Call(None, Some(Hook(DeallocHook)), [Arg(i, 0), Arg(i, 1), DUMMY_ID])
  }

  /** No hook is itself a target. */
  ghost predicate TargetsOk(t: Targets) {
    forall s: Symbol :: s.Hook? ==> s !in t.allocs && s !in t.reallocs && s !in t.deallocs
  }

  lemma HookNotTarget(t: Targets, i: Instr)
    requires TargetsOk(t) && IsHook(i)
    ensures !IsTarget(t, i)
  {
  }

  /** A well-formed block without hooks: its last instruction, and no other, ends it. */
  ghost predicate BodyOk(body: seq<Instr>) {
    && body != []
    && (forall i :: 0 <= i < |body| ==> !IsHook(body[i]))
    && (forall i :: 0 <= i < |body| ==> (body[i].EndsBlock() <==> i == |body| - 1))
  }

  // ----- one block -----

  /** Every ordinary target call is followed by its hook. */
  function Weave(t: Targets, body: seq<Instr>): seq<Instr> {
    if body == [] then []
    else
      var n := |body| - 1;
      Weave(t, body[..n]) + [body[n]] + (if body[n].Call? && IsTarget(t, body[n]) then [HookOf(t, body[n])] else [])
  }

  /** The number of phi instructions a body starts with. */
  function PhiCount(body: seq<Instr>): (n: nat)
    ensures n <= |body| && forall i :: 0 <= i < n ==> body[i].Phi?
    ensures n < |body| ==> !body[n].Phi?
  {
    if body != [] && body[0].Phi? then 1 + PhiCount(body[1..]) else 0
  }

  /** Insert at the first place after the phi instructions. */
  function AtEntry(body: seq<Instr>, hooks: seq<Instr>): seq<Instr> {
    body[..PhiCount(body)] + hooks + body[PhiCount(body)..]
  }

  lemma {:induction false} WeaveAppend(t: Targets, a: seq<Instr>, b: seq<Instr>)
    ensures Weave(t, a + b) == Weave(t, a) + Weave(t, b)
  {
    if b == [] {
      assert a + b == a;
    } else {
      var n := |b| - 1;
      assert (a + b)[..|a + b| - 1] == a + b[..n] && (a + b)[|a + b| - 1] == b[n];
      WeaveAppend(t, a, b[..n]);
    }
  }

  lemma {:induction false} WeavePhis(t: Targets, body: seq<Instr>)
    requires forall i :: 0 <= i < |body| ==> body[i].Phi?
    ensures Weave(t, body) == body
  {
    if body != [] {
      WeavePhis(t, body[..|body| - 1]);
    }
  }

  lemma {:induction false} WeaveHooks(t: Targets, hooks: seq<Instr>)
    requires TargetsOk(t) && forall i :: 0 <= i < |hooks| ==> IsHook(hooks[i])
    ensures Weave(t, hooks) == hooks
  {
    if hooks != [] {
      HookNotTarget(t, hooks[|hooks| - 1]);
      WeaveHooks(t, hooks[..|hooks| - 1]);
    }
  }

  lemma {:induction false} PhiCountIs(body: seq<Instr>, n: nat)
    requires n <= |body| && (forall i :: 0 <= i < n ==> body[i].Phi?) && (n < |body| ==> !body[n].Phi?)
    ensures PhiCount(body) == n
  {
    if n > 0 {
      PhiCountIs(body[1..], n - 1);
    }
  }

  lemma {:induction false} WeaveHead(t: Targets, body: seq<Instr>)
    requires body != []
    ensures Weave(t, body) != [] && Weave(t, body)[0] == body[0]
  {
    if |body| > 1 {
      WeaveHead(t, body[..|body| - 1]);
    }
  }

  /** The phis stay where they are when a body is woven. */
  lemma WeaveSplit(t: Targets, body: seq<Instr>)
    ensures var n := PhiCount(body);
            && PhiCount(Weave(t, body)) == n
            && Weave(t, body) == body[..n] + Weave(t, body[n..])
  {
    var n := PhiCount(body);
    assert body == body[..n] + body[n..];
    WeaveAppend(t, body[..n], body[n..]);
    WeavePhis(t, body[..n]);
    if n < |body| {
      WeaveHead(t, body[n..]);
    }
    PhiCountIs(Weave(t, body), n);
  }

  /** A block that already has hooks at its head is woven the same. */
  lemma WeaveAtEntry(t: Targets, body: seq<Instr>, hooks: seq<Instr>)
    requires TargetsOk(t) && forall i :: 0 <= i < |hooks| ==> IsHook(hooks[i])
    ensures Weave(t, AtEntry(body, hooks)) == AtEntry(Weave(t, body), hooks)
  {
    var n := PhiCount(body);
    WeaveSplit(t, body);
    WeaveHooks(t, hooks);
    WeaveAppend(t, body[..n], hooks);
    WeavePhis(t, body[..n]);
    WeaveAppend(t, body[..n] + hooks, body[n..]);
    assert Weave(t, body)[..n] == body[..n];
    assert Weave(t, body)[n..] == Weave(t, body[n..]);
  }

  /** A woven body with hooks at its head still ends as the original does. */
  lemma WeaveLast(t: Targets, body: seq<Instr>, hooks: seq<Instr>)
    requires Last(body).EndsBlock()
    ensures Last(AtEntry(Weave(t, body), hooks)) == Last(body)
  {
    var woven := Weave(t, body);
    assert woven[|woven| - 1] == Last(body);
  }

  // ----- a function, block by block -----

  /** The block ends in an invoke of a target whose edge has to be split. */
  predicate NeedsSplit(t: Targets, body: seq<Instr>) {
    Last(body).Invoke? && IsTarget(t, Last(body)) && !Last(body).sole
  }

  /** The block ends in an invoke of a target that is the only way into block `into`. */
  predicate Enters(t: Targets, body: seq<Instr>, into: nat) {
    Last(body).Invoke? && IsTarget(t, Last(body)) && Last(body).sole && Last(body).normal == into
  }

  /** The block put on the split edge of the invoke that ends a body. */
  function SplitBlock(t: Targets, body: seq<Instr>, slot: nat): Block {
    Block(if Last(body).Invoke? then Last(body).edge else "", slot,
          [HookOf(t, Last(body)), Jump(if Last(body).Invoke? then Last(body).normal else 0)])
  }

  /** The split-edge blocks of the invokes visited so far, in visiting order. */
  function SplitBlocks(t: Targets, f: Func, visited: seq<nat>): seq<Block> {
    if visited == [] then []
    else
      var r := SplitBlocks(t, f, visited[..|visited| - 1]);
      var body := BodyAt(f, visited[|visited| - 1]);
      if NeedsSplit(t, body) then r + [SplitBlock(t, body, |f.blocks| + |r|)] else r
  }

  /** The hooks that visited invokes have put at the head of block `b`, the latest first. */
  function EntryHooks(t: Targets, f: Func, visited: seq<nat>, b: nat): seq<Instr> {
    if visited == [] then []
    else
      var n := |visited| - 1;
      var body := BodyAt(f, visited[n]);
      (if Enters(t, body, b) then [HookOf(t, Last(body))] else []) + EntryHooks(t, f, visited[..n], b)
  }

  /** The block that a visited invoke continues in once its edge is split. */
  function SplitTarget(t: Targets, f: Func, visited: seq<nat>, b: nat): nat {
    if visited == [] then 0
    else
      var n := |visited| - 1;
      if visited[n] == b then |f.blocks| + |SplitBlocks(t, f, visited[..n])| else SplitTarget(t, f, visited[..n], b)
  }

  /** Give the invoke that ends a body a new normal destination. */
  function Retarget(body: seq<Instr>, normal: nat): seq<Instr> {
    if Last(body).Invoke? then body[|body| - 1 := Last(body).(normal := normal)] else body
  }

  /**
    A visited block's body: hooks at its head and after its calls, and a new
    destination for its invoke if that invoke's edge is split.
   */
  function Dress(t: Targets, body: seq<Instr>, hooks: seq<Instr>, target: nat): seq<Instr> {
    var woven := AtEntry(Weave(t, body), hooks);
    if NeedsSplit(t, body) then Retarget(woven, target) else woven
  }

  /** What block `b` looks like when the blocks in `visited` have been visited. */
  function HookedBody(t: Targets, f: Func, visited: seq<nat>, b: nat): seq<Instr> {
    if b in visited then Dress(t, BodyAt(f, b), EntryHooks(t, f, visited, b), SplitTarget(t, f, visited, b))
    else AtEntry(BodyAt(f, b), EntryHooks(t, f, visited, b))
  }

  function HookedBodies(t: Targets, f: Func, visited: seq<nat>): seq<seq<Instr>> {
    seq(|f.blocks|, b requires 0 <= b < |f.blocks| => HookedBody(t, f, visited, b))
  }

  /** The blocks of `f` with new bodies. */
  function Placed(f: Func, bodies: seq<seq<Instr>>): seq<Block>
    requires |bodies| == |f.blocks|
  {
    seq(|f.blocks|, b requires 0 <= b < |f.blocks| => f.blocks[b].(body := bodies[b]))
  }

  /**
    The function after the blocks in `visited` have been visited: each block in
    its place with its hooks, and the split-edge blocks after them.
   */
  function HookedBlocks(t: Targets, f: Func, visited: seq<nat>): seq<Block> {
    Placed(f, HookedBodies(t, f, visited)) + SplitBlocks(t, f, visited)
  }

  /** The target calls of the blocks that are visited have what their hooks are built from. */
  ghost predicate CallsOk(t: Targets, f: Func) {
    forall b: nat, i: nat {:trigger CallOk(t, BodyAt(f, b)[i])} ::
      b in f.order && i < |BodyAt(f, b)| ==> CallOk(t, BodyAt(f, b)[i])
  }

  /** Blocks and calls are well-formed; an invoke continues in a block of the function, not in its own by a sole edge. */
  ghost predicate FuncOk(t: Targets, f: Func) {
    && OrderOk(f)
    && (forall b: nat :: b < |f.blocks| ==>
          BodyOk(BodyAt(f, b))
          && (Last(BodyAt(f, b)).Invoke? ==>
                Last(BodyAt(f, b)).normal < |f.blocks|
                && (Last(BodyAt(f, b)).sole ==> Last(BodyAt(f, b)).normal != b)))
    && CallsOk(t, f)
  }

  // ----- visiting one more block -----

  lemma Snoc(visited: seq<nat>, b: nat)
    ensures (visited + [b])[..|visited|] == visited && (visited + [b])[|visited|] == b
    ensures |visited + [b]| == |visited| + 1
    ensures b in visited + [b] && forall c :: c != b ==> (c in visited + [b] <==> c in visited)
  {
  }

  lemma {:induction false} EntryHooksAreHooks(t: Targets, f: Func, visited: seq<nat>, b: nat)
    ensures forall i :: 0 <= i < |EntryHooks(t, f, visited, b)| ==>
              EntryHooks(t, f, visited, b)[i].Call? && IsHook(EntryHooks(t, f, visited, b)[i])
  {
    if visited != [] {
      EntryHooksAreHooks(t, f, visited[..|visited| - 1], b);
    }
  }

  lemma AtEntryGrow(body: seq<Instr>, hooks: seq<Instr>, hook: Instr)
    requires (forall i :: 0 <= i < |hooks| ==> hooks[i].Call?) && hook.Call?
    ensures AtEntry(AtEntry(body, hooks), [hook]) == AtEntry(body, [hook] + hooks)
  {
    PhiCountIs(AtEntry(body, hooks), PhiCount(body));
  }

  lemma RetargetParts(body: seq<Instr>, normal: nat, n: nat)
    requires Last(body).Invoke? && n < |body|
    ensures Retarget(body, normal)[..n] == body[..n]
    ensures Retarget(body, normal)[n..] == Retarget(body[n..], normal)
  {
    assert Last(body[n..]) == Last(body);
  }

  lemma RetargetBehind(front: seq<Instr>, back: seq<Instr>, normal: nat)
    requires back != [] && Last(back).Invoke?
    ensures Retarget(front + back, normal) == front + Retarget(back, normal)
  {
    assert Last(front + back) == Last(back);
  }

  /** Inserting at the head and retargeting the end do not interfere. */
  lemma RetargetGrow(body: seq<Instr>, hook: Instr, normal: nat)
    requires Last(body).Invoke?
    ensures AtEntry(Retarget(body, normal), [hook]) == Retarget(AtEntry(body, [hook]), normal)
  {
    var n := PhiCount(body);
    PhiCountIs(Retarget(body, normal), n);
    RetargetParts(body, normal, n);
    RetargetBehind(body[..n] + [hook], body[n..], normal);
  }

  /** One more hook at the head of a dressed body. */
  lemma DressEnter(t: Targets, body: seq<Instr>, hooks: seq<Instr>, hook: Instr, target: nat)
    requires (forall i :: 0 <= i < |hooks| ==> hooks[i].Call?) && hook.Call?
    ensures Dress(t, body, [hook] + hooks, target) == AtEntry(Dress(t, body, hooks, target), [hook])
  {
    AtEntryGrow(Weave(t, body), hooks, hook);
    if NeedsSplit(t, body) {
      WeaveLast(t, body, hooks);
      RetargetGrow(AtEntry(Weave(t, body), hooks), hook, target);
    }
  }

  /** Visiting a body that already has hooks at its head dresses it. */
  lemma DressVisit(t: Targets, body: seq<Instr>, hooks: seq<Instr>, target: nat)
    requires TargetsOk(t) && Last(body).EndsBlock() && forall i :: 0 <= i < |hooks| ==> IsHook(hooks[i])
    ensures var woven := Weave(t, AtEntry(body, hooks));
            && Last(woven) == Last(body)
            && Dress(t, body, hooks, target) == if NeedsSplit(t, body) then Retarget(woven, target) else woven
  {
    WeaveAtEntry(t, body, hooks);
    WeaveLast(t, body, hooks);
  }

  lemma EntryHooksNext(t: Targets, f: Func, visited: seq<nat>, b: nat, c: nat)
    ensures EntryHooks(t, f, visited + [b], c) ==
            (if Enters(t, BodyAt(f, b), c) then [HookOf(t, Last(BodyAt(f, b)))] else []) + EntryHooks(t, f, visited, c)
  {
    Snoc(visited, b);
  }

  lemma SplitTargetNext(t: Targets, f: Func, visited: seq<nat>, b: nat, c: nat)
    ensures SplitTarget(t, f, visited + [b], c) ==
            if c == b then |f.blocks| + |SplitBlocks(t, f, visited)| else SplitTarget(t, f, visited, c)
  {
    Snoc(visited, b);
  }

  lemma SplitBlocksNext(t: Targets, f: Func, visited: seq<nat>, b: nat)
    ensures SplitBlocks(t, f, visited + [b]) ==
            SplitBlocks(t, f, visited)
            + (if NeedsSplit(t, BodyAt(f, b)) then
                 [SplitBlock(t, BodyAt(f, b), |f.blocks| + |SplitBlocks(t, f, visited)|)] else [])
  {
    Snoc(visited, b);
  }

  /** A block other than the one visited changes only when the visited invoke enters it. */
  lemma OtherBody(t: Targets, f: Func, visited: seq<nat>, b: nat, c: nat)
    requires c != b
    ensures HookedBody(t, f, visited + [b], c) ==
            if Enters(t, BodyAt(f, b), c) then AtEntry(HookedBody(t, f, visited, c), [HookOf(t, Last(BodyAt(f, b)))])
            else HookedBody(t, f, visited, c)
  {
    var next, hooks, body := visited + [b], EntryHooks(t, f, visited, c), BodyAt(f, c);
    Snoc(visited, b);
    EntryHooksNext(t, f, visited, b, c);
    SplitTargetNext(t, f, visited, b, c);
    var target := SplitTarget(t, f, visited, c);
    if Enters(t, BodyAt(f, b), c) {
      var hook := HookOf(t, Last(BodyAt(f, b)));
      EntryHooksAreHooks(t, f, visited, c);
      assert EntryHooks(t, f, next, c) == [hook] + hooks;
      if c in visited {
        DressEnter(t, body, hooks, hook, target);
      } else {
        AtEntryGrow(body, hooks, hook);
      }
    } else {
      assert EntryHooks(t, f, next, c) == hooks;
    }
  }

  lemma SeenBody(t: Targets, f: Func, visited: seq<nat>, b: nat, hooks: seq<Instr>, target: nat)
    requires b in visited && hooks == EntryHooks(t, f, visited, b) && target == SplitTarget(t, f, visited, b)
    ensures HookedBody(t, f, visited, b) == Dress(t, BodyAt(f, b), hooks, target)
  {
  }

  lemma UnseenBody(t: Targets, f: Func, visited: seq<nat>, b: nat)
    requires b !in visited
    ensures HookedBody(t, f, visited, b) == AtEntry(BodyAt(f, b), EntryHooks(t, f, visited, b))
  {
  }

  /** The visited block itself is woven, and its end retargeted if its edge is split. */
  lemma OwnBody(t: Targets, f: Func, visited: seq<nat>, b: nat, before: seq<Instr>, woven: seq<Instr>, target: nat)
    requires TargetsOk(t) && b !in visited && !Enters(t, BodyAt(f, b), b) && Last(BodyAt(f, b)).EndsBlock()
    requires before == HookedBody(t, f, visited, b)
    requires woven == Weave(t, before) && target == |f.blocks| + |SplitBlocks(t, f, visited)|
    ensures Last(woven) == Last(BodyAt(f, b))
    ensures HookedBody(t, f, visited + [b], b) ==
            if NeedsSplit(t, BodyAt(f, b)) then Retarget(woven, target) else woven
  {
    var hooks, body := EntryHooks(t, f, visited, b), BodyAt(f, b);
    Snoc(visited, b);
    UnseenBody(t, f, visited, b);
    EntryHooksNext(t, f, visited, b, b);
    SplitTargetNext(t, f, visited, b, b);
    EntryHooksAreHooks(t, f, visited, b);
    assert [] + hooks == hooks;
    SeenBody(t, f, visited + [b], b, hooks, target);
    DressVisit(t, body, hooks, target);
  }

  /** One visit: weave the block, then deal with the invoke it may end in. */
  function Visit(t: Targets, blocks: seq<Block>, b: nat): seq<Block>
    requires b < |blocks|
  {
    var woven := Weave(t, blocks[b].body);
    var r := blocks[b := blocks[b].(body := woven)];
    var invoke := Last(woven);
    if !invoke.Invoke? || !IsTarget(t, invoke) then r
    else if !invoke.sole then
      r[b := r[b].(body := Retarget(woven, |r|))] + [SplitBlock(t, woven, |r|)]
    else if invoke.normal < |r| then
      r[invoke.normal := r[invoke.normal].(body := AtEntry(r[invoke.normal].body, [HookOf(t, invoke)]))]
    else r
  }

  /** How the bodies change when block `b` is visited. */
  /** The bodies after visiting a block that holds `body`, as updates of those before. */
  function BodiesUpdated(t: Targets, body: seq<Instr>, before: seq<seq<Instr>>, b: nat, woven: seq<Instr>, target: nat)
    : seq<seq<Instr>>
    requires b < |before|
  {
    if NeedsSplit(t, body) then before[b := Retarget(woven, target)]
    else if Last(body).Invoke? && IsTarget(t, Last(body)) && Last(body).normal < |before| then
      before[b := woven][Last(body).normal := AtEntry(before[Last(body).normal], [HookOf(t, Last(body))])]
    else before[b := woven]
  }

  lemma BodiesChange(t: Targets, body: seq<Instr>, before: seq<seq<Instr>>, after: seq<seq<Instr>>, b: nat,
                     woven: seq<Instr>, target: nat)
    requires |after| == |before| && b < |before| && !Enters(t, body, b)
    requires Last(body).Invoke? ==> Last(body).normal < |before|
    requires after[b] == if NeedsSplit(t, body) then Retarget(woven, target) else woven
    requires forall c: nat :: c < |before| && c != b ==>
               after[c] == if Enters(t, body, c) then AtEntry(before[c], [HookOf(t, Last(body))]) else before[c]
    ensures after == BodiesUpdated(t, body, before, b, woven, target)
  {
    if Last(body).Invoke? && IsTarget(t, Last(body)) && Last(body).sole {
      ChangedTwice(before, after, b, woven, Last(body).normal,
                   AtEntry(before[Last(body).normal], [HookOf(t, Last(body))]));
    } else {
      ChangedOnce(before, after, b, if NeedsSplit(t, body) then Retarget(woven, target) else woven);
    }
  }

  lemma BodiesNext(t: Targets, f: Func, visited: seq<nat>, b: nat) returns (woven: seq<Instr>, target: nat)
    requires TargetsOk(t) && FuncOk(t, f) && b < |f.blocks| && b !in visited
    ensures woven == Weave(t, HookedBodies(t, f, visited)[b]) && target == |f.blocks| + |SplitBlocks(t, f, visited)|
    ensures Last(woven) == Last(BodyAt(f, b))
    ensures HookedBodies(t, f, visited + [b]) ==
            BodiesUpdated(t, BodyAt(f, b), HookedBodies(t, f, visited), b, woven, target)
  {
    var body, before, after := BodyAt(f, b), HookedBodies(t, f, visited), HookedBodies(t, f, visited + [b]);
    assert BodyOk(body) && Last(body).EndsBlock();
    woven, target := Weave(t, before[b]), |f.blocks| + |SplitBlocks(t, f, visited)|;
    OwnBody(t, f, visited, b, before[b], woven, target);
    forall c: nat | c < |f.blocks| && c != b
      ensures after[c] == if Enters(t, body, c) then AtEntry(before[c], [HookOf(t, Last(body))]) else before[c]
    {
      OtherBody(t, f, visited, b, c);
    }
    BodiesChange(t, body, before, after, b, woven, target);
  }

  lemma ChangedOnce<T>(before: seq<T>, after: seq<T>, b: nat, x: T)
    requires |after| == |before| && b < |before| && after[b] == x
    requires forall c: nat :: c < |before| && c != b ==> after[c] == before[c]
    ensures after == before[b := x]
  {
  }

  lemma ChangedTwice<T>(before: seq<T>, after: seq<T>, b: nat, x: T, d: nat, y: T)
    requires |after| == |before| && b < |before| && d < |before| && b != d && after[b] == x && after[d] == y
    requires forall c: nat :: c < |before| && c != b && c != d ==> after[c] == before[c]
    ensures after == before[b := x][d := y]
  {
  }

  lemma PlacedUpdate(f: Func, bodies: seq<seq<Instr>>, more: seq<Block>, c: nat, body: seq<Instr>)
    requires |bodies| == |f.blocks| && c < |f.blocks|
    ensures var r := Placed(f, bodies) + more;
            r[c].body == bodies[c] && r[c := r[c].(body := body)] == Placed(f, bodies[c := body]) + more
  {
  }

  /** A visit seen on bodies and split-edge blocks apart; `body` is the visited block's original body. */
  lemma VisitPlaced(t: Targets, f: Func, bodies: seq<seq<Instr>>, splits: seq<Block>, b: nat,
                    woven: seq<Instr>, target: nat, body: seq<Instr>)
    requires |bodies| == |f.blocks| && b < |f.blocks| && target == |f.blocks| + |splits|
    requires woven == Weave(t, bodies[b]) && Last(woven) == Last(body)
    requires Last(body).Invoke? ==> Last(body).normal < |f.blocks| && (Last(body).sole ==> Last(body).normal != b)
    ensures var invoke := Last(body);
            Visit(t, Placed(f, bodies) + splits, b) ==
              if NeedsSplit(t, body) then
                Placed(f, bodies[b := Retarget(woven, target)]) + (splits + [SplitBlock(t, body, target)])
              else if invoke.Invoke? && IsTarget(t, invoke) then
                Placed(f, bodies[b := woven][invoke.normal := AtEntry(bodies[invoke.normal], [HookOf(t, invoke)])])
                + splits
              else
                Placed(f, bodies[b := woven]) + splits
  {
    var invoke := Last(woven);
    PlacedUpdate(f, bodies, splits, b, woven);
    if NeedsSplit(t, body) {
      PlacedUpdate(f, bodies[b := woven], splits, b, Retarget(woven, target));
      assert bodies[b := woven][b := Retarget(woven, target)] == bodies[b := Retarget(woven, target)];
    } else if invoke.Invoke? && IsTarget(t, invoke) {
      PlacedUpdate(f, bodies[b := woven], splits, invoke.normal,
                   AtEntry(bodies[b := woven][invoke.normal], [HookOf(t, invoke)]));
    }
  }

  lemma Assembled(t: Targets, f: Func, visited: seq<nat>, bodies: seq<seq<Instr>>, splits: seq<Block>)
    requires bodies == HookedBodies(t, f, visited) && splits == SplitBlocks(t, f, visited)
    ensures HookedBlocks(t, f, visited) == Placed(f, bodies) + splits
  {
  }

  /** Visiting the next block turns the hooked function of one prefix into that of the next. */
  lemma VisitNext(t: Targets, f: Func, visited: seq<nat>, b: nat)
    requires TargetsOk(t) && FuncOk(t, f) && b < |f.blocks| && b !in visited
    ensures Visit(t, HookedBlocks(t, f, visited), b) == HookedBlocks(t, f, visited + [b])
  {
    var body, bodies, splits := BodyAt(f, b), HookedBodies(t, f, visited), SplitBlocks(t, f, visited);
    var nextBodies, nextSplits := HookedBodies(t, f, visited + [b]), SplitBlocks(t, f, visited + [b]);
    assert BodyOk(body);
    var woven, target := BodiesNext(t, f, visited, b);
    SplitBlocksNext(t, f, visited, b);
    VisitPlaced(t, f, bodies, splits, b, woven, target, body);
    assert nextSplits == splits + (if NeedsSplit(t, body) then [SplitBlock(t, body, target)] else []);
    assert splits + [] == splits;
    Assembled(t, f, visited, bodies, splits);
    Assembled(t, f, visited + [b], nextBodies, nextSplits);
  }

  // ----- the loops -----

  lemma WeaveNext(t: Targets, body: seq<Instr>, done: nat)
    requires done < |body|
    ensures Weave(t, body[..done + 1]) ==
            Weave(t, body[..done]) + [body[done]]
            + (if body[done].Call? && IsTarget(t, body[done]) then [HookOf(t, body[done])] else [])
  {
    assert body[..done + 1][..done] == body[..done];
  }

  /** Where the walk stands: `done` instructions are woven, and it may be about to pass a hook of its own. */
  ghost predicate Walking(t: Targets, body: seq<Instr>, r: seq<Instr>, i: nat, done: nat, atHook: bool) {
    && done <= |body|
    && r == Weave(t, body[..done]) + body[done..]
    && i + (if atHook then 1 else 0) == |Weave(t, body[..done])|
    && (atHook ==> i < |r| && IsHook(r[i]))
  }

  lemma WalkAt(t: Targets, body: seq<Instr>, r: seq<Instr>, i: nat, done: nat, atHook: bool)
    requires TargetsOk(t) && Walking(t, body, r, i, done, atHook) && i < |r|
    ensures atHook ==> !IsTarget(t, r[i]) && Walking(t, body, r, i + 1, done, false)
    ensures !atHook ==> done < |body| && r[i] == body[done]
  {
    if atHook {
      HookNotTarget(t, r[i]);
    }
  }

  lemma WalkPast(t: Targets, body: seq<Instr>, r: seq<Instr>, i: nat, done: nat)
    requires Walking(t, body, r, i, done, false) && done < |body| && !(body[done].Call? && IsTarget(t, body[done]))
    ensures Walking(t, body, r, i + 1, done + 1, false)
  {
    WeaveNext(t, body, done);
    var w := Weave(t, body[..done]);
    assert body[done..] == [body[done]] + body[done + 1..];
    assert w + ([body[done]] + body[done + 1..]) == (w + [body[done]]) + body[done + 1..];
  }

  lemma WalkInsert(t: Targets, body: seq<Instr>, r: seq<Instr>, i: nat, done: nat)
    requires Walking(t, body, r, i, done, false) && done < |body| && body[done].Call? && IsTarget(t, body[done])
    ensures i < |r|
    ensures Walking(t, body, r[..i + 1] + [HookOf(t, body[done])] + r[i + 1..], i + 1, done + 1, true)
  {
    WeaveNext(t, body, done);
    var w, hook := Weave(t, body[..done]), HookOf(t, body[done]);
    assert r[..i + 1] == w + [body[done]];
    assert r[i + 1..] == body[done + 1..];
    assert IsHook(hook);
  }

  /**
    Put a hook after every ordinary target call, inserting into the body while
    walking it; the walk also comes past the hooks it has just inserted.
   */
  method HookCalls(t: Targets, body: seq<Instr>) returns (r: seq<Instr>)
    requires TargetsOk(t)
    ensures r == Weave(t, body)
  {
    r := body;
    var i := 0;
    ghost var done, atHook := 0, false;
    assert body[..0] == [];
    while i < |r|
      invariant i <= |r|
      invariant Walking(t, body, r, i, done, atHook)
      decreases |body| - done, |r| - i
    {
      WalkAt(t, body, r, i, done, atHook);
      if r[i].Call? && IsTarget(t, r[i]) {
        WalkInsert(t, body, r, i, done);
        r := r[..i + 1] + [HookOf(t, r[i])] + r[i + 1..];
        atHook, done := true, done + 1;
      } else if atHook {
        atHook := false;
      } else {
        WalkPast(t, body, r, i, done);
        done := done + 1;
      }
      i := i + 1;
    }
    assert body[..|body|] == body;
  }

  /** Visit one block: hook its ordinary calls, then the invoke it may end in. */
  method VisitBlock(t: Targets, blocks: seq<Block>, b: nat) returns (r: seq<Block>)
    requires TargetsOk(t) && b < |blocks|
    requires Last(Weave(t, blocks[b].body)).Invoke? ==> Last(Weave(t, blocks[b].body)).normal < |blocks|
    ensures r == Visit(t, blocks, b)
  {
    var woven := HookCalls(t, blocks[b].body);
    r := blocks[b := blocks[b].(body := woven)];
    var invoke := Last(woven);
    if invoke.Invoke? && IsTarget(t, invoke) {
      var hook := HookOf(t, invoke);
      if !invoke.sole {
        r := r[b := r[b].(body := Retarget(woven, |r|))] + [Block(invoke.edge, |r|, [hook, Jump(invoke.normal)])];
      } else {
        r := r[invoke.normal := r[invoke.normal].(body := AtEntry(r[invoke.normal].body, [hook]))];
      }
    }
  }

  /** Hook one function, visiting its blocks in the traversal order fixed beforehand. */
  method HookFunction(t: Targets, f: Func) returns (blocks: seq<Block>)
    requires TargetsOk(t) && FuncOk(t, f)
    ensures blocks == HookedBlocks(t, f, f.order)
  {
    blocks := f.blocks;
    NothingVisited(t, f);
    for k := 0 to |f.order|
      invariant blocks == HookedBlocks(t, f, f.order[..k])
    {
      var b := f.order[k];
      assert f.order[..k + 1] == f.order[..k] + [b];
      assert b !in f.order[..k];
      VisitNext(t, f, f.order[..k], b);
      ghost var woven, target := BodiesNext(t, f, f.order[..k], b);
      assert BodyOk(BodyAt(f, b));
      blocks := VisitBlock(t, blocks, b);
    }
    assert f.order[..|f.order|] == f.order;
  }

  lemma NothingVisited(t: Targets, f: Func)
    ensures HookedBlocks(t, f, []) == f.blocks
  {
    forall b | 0 <= b < |f.blocks| ensures HookedBody(t, f, [], b) == f.blocks[b].body {
      assert AtEntry(f.blocks[b].body, []) == f.blocks[b].body;
    }
  }
}
