/**
  What the first pass achieves: each reachable target call has exactly one hook,
  next to it and with its operands, and stripping the hooks gives the function
  back, up to the empty blocks left on split edges.
 */
module PreResults {
  import opened Ir
  import opened PrePass

  // ----- where the hooks are -----

  /** In a woven body an ordinary target call is followed at once by its hook. */
  lemma {:induction false} HookFollowsCall(t: Targets, body: seq<Instr>, i: nat) returns (p: nat)
    requires i < |body|
    ensures p == |Weave(t, body[..i])| && p < |Weave(t, body)| && Weave(t, body)[p] == body[i]
    ensures body[i].Call? && IsTarget(t, body[i]) ==>
              p + 1 < |Weave(t, body)| && Weave(t, body)[p + 1] == HookOf(t, body[i])
  {
    var n := |body| - 1;
    p := |Weave(t, body[..i])|;
    if i < n {
      assert body[..n][..i] == body[..i];
      var q := HookFollowsCall(t, body[..n], i);
    }
  }

  function HookCount(body: seq<Instr>): nat {
    if body == [] then 0 else HookCount(body[..|body| - 1]) + (if IsHook(Last(body)) then 1 else 0)
  }

  /** The ordinary target calls of a body. */
  function CallCount(t: Targets, body: seq<Instr>): nat {
    if body == [] then 0
    else CallCount(t, body[..|body| - 1]) + (if Last(body).Call? && IsTarget(t, Last(body)) then 1 else 0)
  }

  lemma {:induction false} HookCountAppend(a: seq<Instr>, b: seq<Instr>)
    ensures HookCount(a + b) == HookCount(a) + HookCount(b)
  {
    if b == [] {
      assert a + b == a;
    } else {
      assert (a + b)[..|a + b| - 1] == a + b[..|b| - 1];
      HookCountAppend(a, b[..|b| - 1]);
    }
  }

  /** A block that no visited invoke enters gets no hook at its head. */
  lemma {:induction false} NoEntryHook(t: Targets, f: Func, visited: seq<nat>, d: nat)
    requires forall k :: 0 <= k < |visited| ==> !Enters(t, BodyAt(f, visited[k]), d)
    ensures EntryHooks(t, f, visited, d) == []
  {
    if visited != [] {
      NoEntryHook(t, f, visited[..|visited| - 1], d);
    }
  }

  /** At most one invoke enters a block by a sole edge. */
  ghost predicate SoleOk(t: Targets, f: Func) {
    forall b: nat, c: nat, d: nat :: Enters(t, BodyAt(f, b), d) && Enters(t, BodyAt(f, c), d) ==> b == c
  }

  /** A block entered by a visited target invoke gets that invoke's hook at its head, and only that one. */
  lemma {:induction false} OneEntryHook(t: Targets, f: Func, visited: seq<nat>, b: nat, d: nat)
    requires SoleOk(t, f) && b in visited && Enters(t, BodyAt(f, b), d)
    requires forall j, k :: 0 <= j < k < |visited| ==> visited[j] != visited[k]
    ensures EntryHooks(t, f, visited, d) == [HookOf(t, Last(BodyAt(f, b)))]
  {
    var n := |visited| - 1;
    if visited[n] == b {
      forall k | 0 <= k < n ensures !Enters(t, BodyAt(f, visited[..n][k]), d) {
        assert visited[k] != visited[n];
      }
      NoEntryHook(t, f, visited[..n], d);
    } else {
      assert !Enters(t, BodyAt(f, visited[n]), d);
      OneEntryHook(t, f, visited[..n], b, d);
    }
  }

  /** The new destination of a split invoke is its own block: the hook, then a jump to where it went before. */
  lemma {:induction false} SplitEdge(t: Targets, f: Func, visited: seq<nat>, b: nat)
    requires b in visited && NeedsSplit(t, BodyAt(f, b))
    ensures var target := SplitTarget(t, f, visited, b);
            && |f.blocks| <= target < |f.blocks| + |SplitBlocks(t, f, visited)|
            && SplitBlocks(t, f, visited)[target - |f.blocks|] == SplitBlock(t, BodyAt(f, b), target)
  {
    var n := |visited| - 1;
    if visited[n] != b {
      SplitEdge(t, f, visited[..n], b);
    }
  }

  /** The call is at place `p` and its hook directly after it. */
  ghost predicate FollowedBy(body: seq<Instr>, p: nat, call: Instr, hook: Instr) {
    p + 1 < |body| && body[p] == call && body[p + 1] == hook
  }

  /** Where instruction `i` of block `b` ends up: behind the hooks at the block's head and those of earlier calls. */
  function Place(t: Targets, f: Func, b: nat, i: nat): nat
    requires i <= |BodyAt(f, b)|
  {
    |EntryHooks(t, f, f.order, b)| + |Weave(t, BodyAt(f, b)[..i])|
  }

  /** Different calls of a block end up in different places. */
  lemma {:induction false} PlacesGrow(t: Targets, f: Func, b: nat, i: nat, j: nat)
    requires i < j <= |BodyAt(f, b)|
    ensures Place(t, f, b, i) < Place(t, f, b, j)
  {
    var body := BodyAt(f, b);
    assert body[..j][..j - 1] == body[..j - 1];
    if i < j - 1 {
      PlacesGrow(t, f, b, i, j - 1);
    }
  }

  ghost predicate FirstAfterPhis(body: seq<Instr>, hook: Instr) {
    PhiCount(body) < |body| && body[PhiCount(body)] == hook
  }

  /** The invoke ending block `b` goes to a new block that holds the hook and then goes where it went before. */
  ghost predicate OnSplitEdge(blocks: seq<Block>, n: nat, b: nat, invoke: Instr, hook: Instr) {
    && b < |blocks| && invoke.Invoke?
    && exists target :: n <= target < |blocks|
         && Last(blocks[b].body) == invoke.(normal := target)
         && blocks[target] == Block(invoke.edge, target, [hook, Jump(invoke.normal)])
  }

  /** The call at place `p` of block `b` has `hook` where control comes next; blocks from `n` on are new. */
  ghost predicate HasHook(blocks: seq<Block>, n: nat, b: nat, p: nat, call: Instr, hook: Instr) {
    match call
    case Call(_, _, _) => b < |blocks| && FollowedBy(blocks[b].body, p, call, hook)
    case Invoke(_, _, _, normal, sole, _) =>
      if sole then normal < |blocks| && FirstAfterPhis(blocks[normal].body, hook)
      else OnSplitEdge(blocks, n, b, call, hook)
    case _ => false
  }

  /** The pair of a call and its hook survives dressing. */
  lemma PlainCallHooked(t: Targets, body: seq<Instr>, hooks: seq<Instr>, target: nat, i: nat)
    requires BodyOk(body) && i < |body| && body[i].Call? && IsTarget(t, body[i])
    ensures FollowedBy(Dress(t, body, hooks, target), |hooks| + |Weave(t, body[..i])|, body[i], HookOf(t, body[i]))
  {
    var p := HookFollowsCall(t, body, i);
    var woven, dressed := Weave(t, body), Dress(t, body, hooks, target);
    WeaveLast(t, body, hooks);
    assert p >= PhiCount(woven);
    assert dressed[p + |hooks|] == body[i] && dressed[p + |hooks| + 1] == HookOf(t, body[i]);
  }

  lemma HeadOfEntry(body: seq<Instr>, hook: Instr)
    requires hook.Call?
    ensures FirstAfterPhis(AtEntry(body, [hook]), hook)
  {
    PhiCountIs(AtEntry(body, [hook]), PhiCount(body));
  }

  lemma HeadOfRetarget(body: seq<Instr>, hook: Instr, normal: nat)
    requires FirstAfterPhis(body, hook) && hook.Call? && Last(body).Invoke?
    ensures FirstAfterPhis(Retarget(body, normal), hook)
  {
    PhiCountIs(Retarget(body, normal), PhiCount(body));
  }

  lemma SoleInvokeHooked(t: Targets, f: Func, visited: seq<nat>, d: nat, hook: Instr)
    requires d < |f.blocks| && Last(BodyAt(f, d)).EndsBlock() && hook.Call?
    requires EntryHooks(t, f, visited, d) == [hook]
    ensures FirstAfterPhis(HookedBody(t, f, visited, d), hook)
  {
    var body := BodyAt(f, d);
    if d in visited {
      HeadOfEntry(Weave(t, body), hook);
      if NeedsSplit(t, body) {
        WeaveLast(t, body, [hook]);
        HeadOfRetarget(AtEntry(Weave(t, body), [hook]), hook, SplitTarget(t, f, visited, d));
      }
    } else {
      HeadOfEntry(body, hook);
    }
  }

  lemma SplitInvokeHooked(t: Targets, f: Func, b: nat)
    requires b in f.order && b < |f.blocks| && Last(BodyAt(f, b)).EndsBlock() && NeedsSplit(t, BodyAt(f, b))
    ensures OnSplitEdge(HookedBlocks(t, f, f.order), |f.blocks|, b, Last(BodyAt(f, b)), HookOf(t, Last(BodyAt(f, b))))
  {
    var body, hooks, target := BodyAt(f, b), EntryHooks(t, f, f.order, b), SplitTarget(t, f, f.order, b);
    var blocks := HookedBlocks(t, f, f.order);
    SplitEdge(t, f, f.order, b);
    SeenBody(t, f, f.order, b, hooks, target);
    WeaveLast(t, body, hooks);
    assert Last(blocks[b].body) == Last(body).(normal := target);
    assert blocks[target] == SplitBlock(t, body, target);
  }

  lemma HookedBlockAt(t: Targets, f: Func, visited: seq<nat>, b: nat)
    requires b < |f.blocks|
    ensures HookedBlocks(t, f, visited)[b].body == HookedBody(t, f, visited, b)
  {
  }

  /**
    Every reachable target call has its hook, of its kind and with its operands,
    where control comes next: after an ordinary call, at the head of an invoke's
    sole destination, or on the invoke's split edge.
   */
  lemma EveryCallHooked(t: Targets, f: Func, b: nat, i: nat)
    requires FuncOk(t, f) && SoleOk(t, f)
    requires b in f.order && i < |BodyAt(f, b)| && IsTarget(t, BodyAt(f, b)[i])
    ensures HasHook(HookedBlocks(t, f, f.order), |f.blocks|, b, Place(t, f, b, i),
                   BodyAt(f, b)[i], HookOf(t, BodyAt(f, b)[i]))
  {
    var body := BodyAt(f, b);
    assert BodyOk(body);
    var call := body[i];
    if call.Call? {
      PlainHooked(t, f, b, i);
    } else {
      assert call == Last(body);
      if call.sole {
        assert BodyOk(BodyAt(f, call.normal));
        SoleHooked(t, f, b, call.normal, HookOf(t, call));
      } else {
        SplitInvokeHooked(t, f, b);
      }
    }
  }

  lemma PlainHooked(t: Targets, f: Func, b: nat, i: nat)
    requires b in f.order && b < |f.blocks| && BodyOk(BodyAt(f, b))
    requires i < |BodyAt(f, b)| && BodyAt(f, b)[i].Call? && IsTarget(t, BodyAt(f, b)[i])
    ensures FollowedBy(HookedBlocks(t, f, f.order)[b].body, Place(t, f, b, i),
                       BodyAt(f, b)[i], HookOf(t, BodyAt(f, b)[i]))
  {
    var hooks, target := EntryHooks(t, f, f.order, b), SplitTarget(t, f, f.order, b);
    PlainCallHooked(t, BodyAt(f, b), hooks, target, i);
    assert HookedBlocks(t, f, f.order)[b].body == Dress(t, BodyAt(f, b), hooks, target) by {
      HookedBlockAt(t, f, f.order, b);
      SeenBody(t, f, f.order, b, hooks, target);
    }
  }

  lemma SoleHooked(t: Targets, f: Func, b: nat, d: nat, hook: Instr)
    requires SoleOk(t, f) && OrderOk(f) && b in f.order && Enters(t, BodyAt(f, b), d)
    requires d < |f.blocks| && Last(BodyAt(f, d)).EndsBlock() && hook == HookOf(t, Last(BodyAt(f, b)))
    ensures FirstAfterPhis(HookedBlocks(t, f, f.order)[d].body, hook)
  {
    OneEntryHook(t, f, f.order, b, d);
    HookedBlockAt(t, f, f.order, d);
    SoleInvokeHooked(t, f, f.order, d, hook);
  }

  // ----- there are no other hooks -----

  function TotalHooks(blocks: seq<Block>): nat {
    if blocks == [] then 0 else TotalHooks(blocks[..|blocks| - 1]) + HookCount(blocks[|blocks| - 1].body)
  }

  /** The target calls of a body that get a hook: the ordinary ones and the invoke at its end. */
  function TargetsIn(t: Targets, body: seq<Instr>): nat {
    CallCount(t, body) + (if Last(body).Invoke? && IsTarget(t, Last(body)) then 1 else 0)
  }

  function TargetsOf(t: Targets, f: Func, visited: seq<nat>): nat {
    if visited == [] then 0
    else TargetsOf(t, f, visited[..|visited| - 1]) + TargetsIn(t, BodyAt(f, visited[|visited| - 1]))
  }

  lemma {:induction false} TotalUpdate(blocks: seq<Block>, b: nat, x: Block)
    requires b < |blocks|
    ensures TotalHooks(blocks[b := x]) == TotalHooks(blocks) - HookCount(blocks[b].body) + HookCount(x.body)
  {
    var n := |blocks| - 1;
    if b == n {
      assert blocks[b := x][..n] == blocks[..n];
    } else {
      assert blocks[b := x][..n] == blocks[..n][b := x];
      TotalUpdate(blocks[..n], b, x);
    }
  }

  lemma TotalNext(blocks: seq<Block>, x: Block)
    ensures TotalHooks(blocks + [x]) == TotalHooks(blocks) + HookCount(x.body)
  {
    assert (blocks + [x])[..|blocks|] == blocks;
  }

  lemma HookCountOne(i: Instr)
    ensures HookCount([i]) == if IsHook(i) then 1 else 0
  {
    assert [i][..0] == [];
  }

  lemma HookCountEntry(body: seq<Instr>, hook: Instr)
    requires IsHook(hook)
    ensures HookCount(AtEntry(body, [hook])) == HookCount(body) + 1
  {
    var n := PhiCount(body);
    HookCountAppend(body[..n] + [hook], body[n..]);
    HookCountAppend(body[..n], [hook]);
    HookCountAppend(body[..n], body[n..]);
    HookCountOne(hook);
    assert body == body[..n] + body[n..];
  }

  lemma HookCountRetarget(body: seq<Instr>, normal: nat)
    requires Last(body).Invoke?
    ensures HookCount(Retarget(body, normal)) == HookCount(body)
  {
    assert Retarget(body, normal)[..|body| - 1] == body[..|body| - 1];
  }

  lemma HookCountSplit(t: Targets, body: seq<Instr>, slot: nat)
    ensures HookCount(SplitBlock(t, body, slot).body) == 1
  {
    var hook, jump := HookOf(t, Last(body)), Jump(if Last(body).Invoke? then Last(body).normal else 0);
    HookCountAppend([hook], [jump]);
    HookCountOne(hook);
    HookCountOne(jump);
  }

  /** Weaving adds one hook for each ordinary target call and no others. */
  lemma {:induction false} WovenHookCount(t: Targets, body: seq<Instr>)
    ensures HookCount(Weave(t, body)) == HookCount(body) + CallCount(t, body)
  {
    if body != [] {
      var n := |body| - 1;
      WovenHookCount(t, body[..n]);
      HookCountAppend(Weave(t, body[..n]), [body[n]]);
      HookCountOne(body[n]);
      if body[n].Call? && IsTarget(t, body[n]) {
        HookCountAppend(Weave(t, body[..n]) + [body[n]], [HookOf(t, body[n])]);
        HookCountOne(HookOf(t, body[n]));
      } else {
        assert Weave(t, body) == Weave(t, body[..n]) + [body[n]];
      }
    }
  }

  lemma {:induction false} CallCountAppend(t: Targets, a: seq<Instr>, b: seq<Instr>)
    ensures CallCount(t, a + b) == CallCount(t, a) + CallCount(t, b)
  {
    if b == [] {
      assert a + b == a;
    } else {
      assert (a + b)[..|a + b| - 1] == a + b[..|b| - 1];
      CallCountAppend(t, a, b[..|b| - 1]);
    }
  }

  lemma {:induction false} CallCountHooks(t: Targets, hooks: seq<Instr>)
    requires TargetsOk(t) && forall i :: 0 <= i < |hooks| ==> IsHook(hooks[i])
    ensures CallCount(t, hooks) == 0
  {
    if hooks != [] {
      HookNotTarget(t, Last(hooks));
      CallCountHooks(t, hooks[..|hooks| - 1]);
    }
  }

  /** Hooks at the head of a body add no target calls. */
  lemma CallCountEntry(t: Targets, body: seq<Instr>, hooks: seq<Instr>)
    requires TargetsOk(t) && forall i :: 0 <= i < |hooks| ==> IsHook(hooks[i])
    ensures CallCount(t, AtEntry(body, hooks)) == CallCount(t, body)
  {
    var n := PhiCount(body);
    CallCountAppend(t, body[..n] + hooks, body[n..]);
    CallCountAppend(t, body[..n], hooks);
    CallCountAppend(t, body[..n], body[n..]);
    CallCountHooks(t, hooks);
    assert body == body[..n] + body[n..];
  }

  /** A visit adds one hook for each target call of the visited body. */
  lemma VisitAddsHooks(t: Targets, blocks: seq<Block>, b: nat, body: seq<Instr>)
    requires b < |blocks| && Last(Weave(t, blocks[b].body)) == Last(body)
    requires CallCount(t, blocks[b].body) == CallCount(t, body)
    requires Last(body).Invoke? ==> Last(body).normal < |blocks|
    ensures TotalHooks(Visit(t, blocks, b)) == TotalHooks(blocks) + TargetsIn(t, body)
  {
    var woven, invoke := Weave(t, blocks[b].body), Last(body);
    var r := blocks[b := blocks[b].(body := woven)];
    WovenHookCount(t, blocks[b].body);
    TotalUpdate(blocks, b, blocks[b].(body := woven));
    if invoke.Invoke? && IsTarget(t, invoke) {
      if !invoke.sole {
        TotalUpdate(r, b, r[b].(body := Retarget(woven, |r|)));
        HookCountRetarget(woven, |r|);
        TotalNext(r[b := r[b].(body := Retarget(woven, |r|))], SplitBlock(t, woven, |r|));
        HookCountSplit(t, woven, |r|);
      } else {
        HookCountEntry(r[invoke.normal].body, HookOf(t, invoke));
        TotalUpdate(r, invoke.normal, r[invoke.normal].(body := AtEntry(r[invoke.normal].body, [HookOf(t, invoke)])));
      }
    }
  }

  /** What visiting block `b` for the first time adds. */
  lemma FirstVisit(t: Targets, f: Func, visited: seq<nat>, b: nat, blocks: seq<Block>)
    requires TargetsOk(t) && FuncOk(t, f) && b < |f.blocks| && b !in visited && blocks == HookedBlocks(t, f, visited)
    ensures TotalHooks(HookedBlocks(t, f, visited + [b])) == TotalHooks(blocks) + TargetsIn(t, BodyAt(f, b))
  {
    VisitNext(t, f, visited, b);
    var woven, target := BodiesNext(t, f, visited, b);
    HookedBlockAt(t, f, visited, b);
    UnseenBody(t, f, visited, b);
    EntryHooksAreHooks(t, f, visited, b);
    CallCountEntry(t, BodyAt(f, b), EntryHooks(t, f, visited, b));
    VisitAddsHooks(t, blocks, b, BodyAt(f, b));
  }

  ghost predicate Visitable(f: Func, visited: seq<nat>) {
    && (forall k :: 0 <= k < |visited| ==> visited[k] < |f.blocks|)
    && (forall j, k :: 0 <= j < k < |visited| ==> visited[j] != visited[k])
  }

  lemma {:induction false} VisitsAddHooks(t: Targets, f: Func, visited: seq<nat>)
    requires TargetsOk(t) && FuncOk(t, f) && Visitable(f, visited)
    ensures TotalHooks(HookedBlocks(t, f, visited)) == TotalHooks(f.blocks) + TargetsOf(t, f, visited)
  {
    if visited == [] {
      NothingVisited(t, f);
    } else {
      var n := |visited| - 1;
      VisitsAddHooks(t, f, visited[..n]);
      LastVisit(t, f, visited, visited[..n], visited[n]);
    }
  }

  lemma LastVisit(t: Targets, f: Func, visited: seq<nat>, before: seq<nat>, b: nat)
    requires TargetsOk(t) && FuncOk(t, f) && Visitable(f, visited)
    requires visited != [] && before == visited[..|visited| - 1] && b == visited[|visited| - 1]
    ensures TotalHooks(HookedBlocks(t, f, visited)) ==
            TotalHooks(HookedBlocks(t, f, before)) + TargetsIn(t, BodyAt(f, b))
  {
    assert visited == before + [b];
    FirstVisit(t, f, before, b, HookedBlocks(t, f, before));
  }

  lemma {:induction false} NoHooksCount(body: seq<Instr>)
    requires forall i :: 0 <= i < |body| ==> !IsHook(body[i])
    ensures HookCount(body) == 0
  {
    if body != [] {
      NoHooksCount(body[..|body| - 1]);
    }
  }

  lemma {:induction false} NoHooksTotal(blocks: seq<Block>)
    requires forall b, i :: 0 <= b < |blocks| && 0 <= i < |blocks[b].body| ==> !IsHook(blocks[b].body[i])
    ensures TotalHooks(blocks) == 0
  {
    if blocks != [] {
      NoHooksCount(blocks[|blocks| - 1].body);
      NoHooksTotal(blocks[..|blocks| - 1]);
    }
  }

  /** A hooked function holds exactly as many hooks as it has reachable target calls. */
  lemma ExactlyOneHookEach(t: Targets, f: Func)
    requires TargetsOk(t) && FuncOk(t, f)
    ensures TotalHooks(HookedBlocks(t, f, f.order)) == TargetsOf(t, f, f.order)
  {
    forall b, i | 0 <= b < |f.blocks| && 0 <= i < |f.blocks[b].body| ensures !IsHook(f.blocks[b].body[i]) {
      assert BodyOk(BodyAt(f, b));
    }
    NoHooksTotal(f.blocks);
    VisitsAddHooks(t, f, f.order);
  }

  // ----- stripping gives the function back -----

  lemma {:induction false} StripHooksOnly(hooks: seq<Instr>)
    requires forall i :: 0 <= i < |hooks| ==> IsHook(hooks[i])
    ensures StripBody(hooks) == []
  {
    if hooks != [] {
      StripHooksOnly(hooks[..|hooks| - 1]);
    }
  }

  /** What strips to nothing can be left out. */
  lemma StripMiddle(a: seq<Instr>, hooks: seq<Instr>, b: seq<Instr>)
    requires StripBody(hooks) == []
    ensures StripBody(a + hooks + b) == StripBody(a + b)
  {
    StripAppend(a + hooks, b);
    StripAppend(a, hooks);
    StripAppend(a, b);
    assert StripBody(a) + [] == StripBody(a);
  }

  /** Two bodies that strip alike still do with the same instruction, and then hooks, at the end. */
  lemma StripSnoc(a: seq<Instr>, b: seq<Instr>, i: Instr, hooks: seq<Instr>)
    requires StripBody(a) == StripBody(b) && StripBody(hooks) == []
    ensures StripBody(a + [i] + hooks) == StripBody(b + [i])
  {
    StripAppend(a + [i], hooks);
    StripAppend(a, [i]);
    StripAppend(b, [i]);
    assert StripBody(a + [i]) + [] == StripBody(a + [i]);
  }

  lemma {:induction false} StripWeave(t: Targets, body: seq<Instr>)
    ensures StripBody(Weave(t, body)) == StripBody(body)
  {
    if body != [] {
      var n := |body| - 1;
      var hooks := if body[n].Call? && IsTarget(t, body[n]) then [HookOf(t, body[n])] else [];
      StripWeave(t, body[..n]);
      StripHooksOnly(hooks);
      StripSnoc(Weave(t, body[..n]), body[..n], body[n], hooks);
      assert body[..n] + [body[n]] == body;
    }
  }

  lemma StripAtEntry(body: seq<Instr>, hooks: seq<Instr>)
    requires forall i :: 0 <= i < |hooks| ==> IsHook(hooks[i])
    ensures StripBody(AtEntry(body, hooks)) == StripBody(body)
  {
    var n := PhiCount(body);
    StripHooksOnly(hooks);
    StripMiddle(body[..n], hooks, body[n..]);
    assert body[..n] + body[n..] == body;
  }

  lemma StripRetarget(body: seq<Instr>, normal: nat)
    requires Last(body).Invoke? && !IsHook(Last(body))
    ensures StripBody(Retarget(body, normal)) == Retarget(StripBody(body), normal)
    ensures Last(StripBody(body)) == Last(body)
  {
    assert Retarget(body, normal)[..|body| - 1] == body[..|body| - 1];
  }

  /** A hooked body without its hooks: the original, but for the new destination of a split invoke. */
  lemma StripHooked(t: Targets, f: Func, visited: seq<nat>, b: nat)
    requires BodyOk(BodyAt(f, b))
    ensures StripBody(HookedBody(t, f, visited, b)) ==
            if b in visited && NeedsSplit(t, BodyAt(f, b)) then Retarget(BodyAt(f, b), SplitTarget(t, f, visited, b))
            else BodyAt(f, b)
  {
    var body, hooks := BodyAt(f, b), EntryHooks(t, f, visited, b);
    EntryHooksAreHooks(t, f, visited, b);
    StripNoHooks(body);
    if b in visited {
      StripWeave(t, body);
      StripAtEntry(Weave(t, body), hooks);
      if NeedsSplit(t, body) {
        WeaveLast(t, body, hooks);
        StripRetarget(AtEntry(Weave(t, body), hooks), SplitTarget(t, f, visited, b));
      }
    } else {
      StripAtEntry(body, hooks);
    }
  }

  predicate OnlyJumps(body: seq<Instr>) {
    |body| == 1 && body[0].Jump?
  }

  /** Where a block beyond the first `n` leads when all it does is jump. */
  function Through(blocks: seq<Block>, n: nat, d: nat): nat {
    if n <= d < |blocks| && OnlyJumps(blocks[d].body) then blocks[d].body[0].target else d
  }

  /** Drop the blocks beyond the first `n`, sending invokes straight to where those blocks jump. */
  function Unsplit(blocks: seq<Block>, n: nat): seq<Block>
    requires n <= |blocks|
  {
    seq(n, b requires 0 <= b < n =>
      var body := blocks[b].body;
      if Last(body).Invoke? then blocks[b].(body := Retarget(body, Through(blocks, n, Last(body).normal)))
      else blocks[b])
  }

  lemma {:induction false} StripSplitBlocks(t: Targets, f: Func, visited: seq<nat>, j: nat)
    requires j < |SplitBlocks(t, f, visited)|
    ensures OnlyJumps(StripBody(SplitBlocks(t, f, visited)[j].body))
  {
    var n := |visited| - 1;
    if j < |SplitBlocks(t, f, visited[..n])| {
      StripSplitBlocks(t, f, visited[..n], j);
    } else {
      StripSplit(t, BodyAt(f, visited[n]), |f.blocks| + j);
    }
  }

  lemma StripSplit(t: Targets, body: seq<Instr>, slot: nat)
    ensures StripBody(SplitBlock(t, body, slot).body) == [Jump(if Last(body).Invoke? then Last(body).normal else 0)]
  {
    var b := SplitBlock(t, body, slot).body;
    assert b[..1][..0] == [];
    assert b[..1] == [b[0]];
    assert StripBody(b[..1]) == StripBody(b[..1][..0]) + [];
  }

  /**
    Insert then strip: removing every hook call from a hooked function leaves
    its blocks as they were, followed only by blocks that jump on; going straight
    to where those lead gives exactly the original blocks.
   */
  lemma StripUndoesHooking(t: Targets, f: Func)
    requires FuncOk(t, f)
    ensures var stripped := StripBlocks(HookedBlocks(t, f, f.order));
            && |f.blocks| <= |stripped|
            && (forall j :: |f.blocks| <= j < |stripped| ==> OnlyJumps(stripped[j].body))
            && Unsplit(stripped, |f.blocks|) == f.blocks
  {
    var hooked, n := HookedBlocks(t, f, f.order), |f.blocks|;
    NewBlocksJump(t, f, hooked);
    forall b: nat | b < n ensures Unsplit(StripBlocks(hooked), n)[b] == f.blocks[b] {
      assert BodyOk(BodyAt(f, b));
      UnsplitBlock(t, f, b, hooked, BodyAt(f, b));
    }
  }

  lemma NewBlocksJump(t: Targets, f: Func, hooked: seq<Block>)
    requires hooked == HookedBlocks(t, f, f.order)
    ensures |f.blocks| <= |hooked|
    ensures forall j :: |f.blocks| <= j < |hooked| ==> OnlyJumps(StripBlocks(hooked)[j].body)
  {
    forall j | |f.blocks| <= j < |hooked| ensures OnlyJumps(StripBlocks(hooked)[j].body) {
      StripSplitBlocks(t, f, f.order, j - |f.blocks|);
    }
  }

  /** A stripped invoke that was sent to its split-edge block goes back to where it went. */
  lemma UnsplitRetargeted(stripped: seq<Block>, n: nat, b: nat, block: Block, target: nat)
    requires n <= |stripped| && b < n && Last(block.body).Invoke?
    requires stripped[b] == block.(body := Retarget(block.body, target))
    requires n <= target < |stripped| && stripped[target].body == [Jump(Last(block.body).normal)]
    ensures Unsplit(stripped, n)[b] == block
  {
    assert Last(Retarget(block.body, target)).normal == target;
    assert Retarget(Retarget(block.body, target), Last(block.body).normal) == block.body;
  }

  lemma UnsplitUntouched(stripped: seq<Block>, n: nat, b: nat, block: Block)
    requires n <= |stripped| && b < n && stripped[b] == block
    requires Last(block.body).Invoke? ==> Last(block.body).normal < n
    ensures Unsplit(stripped, n)[b] == block
  {
    if Last(block.body).Invoke? {
      assert Retarget(block.body, Last(block.body).normal) == block.body;
    }
  }

  /** The block of a split edge is in its place, behind the original blocks. */
  lemma SplitPlace(t: Targets, f: Func, b: nat, hooked: seq<Block>, target: nat)
    requires hooked == HookedBlocks(t, f, f.order) && target == SplitTarget(t, f, f.order, b)
    requires b in f.order && NeedsSplit(t, BodyAt(f, b))
    ensures |f.blocks| <= target < |hooked| && hooked[target] == SplitBlock(t, BodyAt(f, b), target)
  {
    SplitEdge(t, f, f.order, b);
  }

  lemma HookedPlace(t: Targets, f: Func, b: nat, hooked: seq<Block>)
    requires hooked == HookedBlocks(t, f, f.order) && b < |f.blocks|
    ensures |f.blocks| <= |hooked| && hooked[b] == f.blocks[b].(body := HookedBody(t, f, f.order, b))
  {
  }

  lemma UnsplitBlock(t: Targets, f: Func, b: nat, hooked: seq<Block>, body: seq<Instr>)
    requires hooked == HookedBlocks(t, f, f.order) && b < |f.blocks| && body == f.blocks[b].body
    requires BodyOk(body) && (Last(body).Invoke? ==> Last(body).normal < |f.blocks|)
    ensures |f.blocks| <= |hooked| && Unsplit(StripBlocks(hooked), |f.blocks|)[b] == f.blocks[b]
  {
    HookedPlace(t, f, b, hooked);
    StripHooked(t, f, f.order, b);
    if b in f.order && NeedsSplit(t, body) {
      var target := SplitTarget(t, f, f.order, b);
      SplitPlace(t, f, b, hooked, target);
      StripSplit(t, body, target);
      UnsplitRetargeted(StripBlocks(hooked), |f.blocks|, b, f.blocks[b], target);
    } else {
      UnsplitUntouched(StripBlocks(hooked), |f.blocks|, b, f.blocks[b]);
    }
  }
}
