/**
  Where each hook stands. Every reachable target call has a place for its hook,
  the hook is there, no two calls share a place, and there is no hook anywhere
  else: hooks and reachable target calls correspond one to one.
 */
module HookPlaces {
  import opened Ir
  import opened PrePass
  import opened PreResults

  /** Instruction `i` of block `b` is a target call that the traversal reaches. */
  predicate Reached(t: Targets, f: Func, b: nat, i: nat) {
    b in f.order && i < |BodyAt(f, b)| && IsTarget(t, BodyAt(f, b)[i])
  }

  /**
    The block and the place in it of a call's hook: behind an ordinary call; for
    an invoke first after the phis of its sole destination, or first in the block
    on its split edge.
   */
  function HookPlace(t: Targets, f: Func, b: nat, i: nat): (nat, nat)
    requires i < |BodyAt(f, b)|
  {
    var call := BodyAt(f, b)[i];
    if !call.Invoke? then (b, Place(t, f, b, i) + 1)
    else if call.sole then (call.normal, PhiCount(BodyAt(f, call.normal)))
    else (SplitTarget(t, f, f.order, b), 0)
  }

  ghost predicate StandsAt(blocks: seq<Block>, place: (nat, nat), x: Instr) {
    place.0 < |blocks| && place.1 < |blocks[place.0].body| && blocks[place.0].body[place.1] == x
  }

  // ----- the hook is at its place -----

  lemma PhiKeptByRetarget(body: seq<Instr>, normal: nat)
    ensures PhiCount(Retarget(body, normal)) == PhiCount(body)
  {
    PhiCountIs(Retarget(body, normal), PhiCount(body));
  }

  lemma PhiKeptByEntry(body: seq<Instr>, hooks: seq<Instr>)
    requires forall i :: 0 <= i < |hooks| ==> hooks[i].Call?
    ensures PhiCount(AtEntry(body, hooks)) == PhiCount(body)
  {
    PhiCountIs(AtEntry(body, hooks), PhiCount(body));
  }

  /** Hooking a block leaves its phis where they are. */
  lemma PhiKept(t: Targets, f: Func, visited: seq<nat>, d: nat)
    ensures PhiCount(HookedBody(t, f, visited, d)) == PhiCount(BodyAt(f, d))
  {
    var body, hooks := BodyAt(f, d), EntryHooks(t, f, visited, d);
    EntryHooksAreHooks(t, f, visited, d);
    if d in visited {
      WeaveSplit(t, body);
      PhiKeptByEntry(Weave(t, body), hooks);
      PhiKeptByRetarget(AtEntry(Weave(t, body), hooks), SplitTarget(t, f, visited, d));
    } else {
      PhiKeptByEntry(body, hooks);
    }
  }

  lemma SoleHookStands(t: Targets, f: Func, b: nat, d: nat, hook: Instr)
    requires d < |f.blocks| && FirstAfterPhis(HookedBlocks(t, f, f.order)[d].body, hook)
    ensures StandsAt(HookedBlocks(t, f, f.order), (d, PhiCount(BodyAt(f, d))), hook)
  {
    HookedBlockAt(t, f, f.order, d);
    PhiKept(t, f, f.order, d);
  }

  lemma SplitHookStands(t: Targets, f: Func, b: nat, invoke: Instr)
    requires b in f.order && NeedsSplit(t, BodyAt(f, b)) && invoke == Last(BodyAt(f, b))
    ensures StandsAt(HookedBlocks(t, f, f.order), (SplitTarget(t, f, f.order, b), 0), HookOf(t, invoke))
  {
    SplitPlace(t, f, b, HookedBlocks(t, f, f.order), SplitTarget(t, f, f.order, b));
  }

  /** What is known of a reachable target call that is an invoke. */
  ghost predicate InvokeOk(t: Targets, f: Func, b: nat, call: Instr) {
    && call.Invoke? && call == Last(BodyAt(f, b)) && call.EndsBlock()
    && (call.sole ==>
          && call.normal < |f.blocks| && BodyOk(BodyAt(f, call.normal)) && Last(BodyAt(f, call.normal)).EndsBlock()
          && Enters(t, BodyAt(f, b), call.normal))
    && (!call.sole ==> NeedsSplit(t, BodyAt(f, b)))
  }

  lemma TargetIs(t: Targets, f: Func, b: nat, i: nat, call: Instr)
    requires FuncOk(t, f) && Reached(t, f, b, i) && call == BodyAt(f, b)[i]
    ensures b < |f.blocks| && BodyOk(BodyAt(f, b))
    ensures !call.Call? ==> InvokeOk(t, f, b, call)
  {
    assert BodyOk(BodyAt(f, b));
    if call.Invoke? && call.sole {
      assert BodyOk(BodyAt(f, call.normal));
    }
  }

  /** Every reachable target call has its hook, of its kind and with its operands, at its place. */
  lemma HookStands(t: Targets, f: Func, b: nat, i: nat)
    requires FuncOk(t, f) && SoleOk(t, f) && Reached(t, f, b, i)
    ensures StandsAt(HookedBlocks(t, f, f.order), HookPlace(t, f, b, i), HookOf(t, BodyAt(f, b)[i]))
  {
    var call := BodyAt(f, b)[i];
    TargetIs(t, f, b, i, call);
    if call.Call? {
      PlainHookStands(t, f, b, i);
    } else {
      InvokeHookStands(t, f, b, i, call);
    }
  }

  lemma InvokeHookStands(t: Targets, f: Func, b: nat, i: nat, call: Instr)
    requires OrderOk(f) && SoleOk(t, f) && b in f.order && i < |BodyAt(f, b)| && call == BodyAt(f, b)[i]
    requires InvokeOk(t, f, b, call)
    ensures StandsAt(HookedBlocks(t, f, f.order), HookPlace(t, f, b, i), HookOf(t, call))
  {
    if call.sole {
      SoleHooked(t, f, b, call.normal, HookOf(t, call));
      SoleHookStands(t, f, b, call.normal, HookOf(t, call));
    } else {
      SplitHookStands(t, f, b, call);
    }
  }

  lemma PlainHookStands(t: Targets, f: Func, b: nat, i: nat)
    requires b < |f.blocks| && BodyOk(BodyAt(f, b)) && Reached(t, f, b, i) && BodyAt(f, b)[i].Call?
    ensures StandsAt(HookedBlocks(t, f, f.order), (b, Place(t, f, b, i) + 1), HookOf(t, BodyAt(f, b)[i]))
  {
    PlainHooked(t, f, b, i);
  }

  // ----- no two calls share a place -----

  lemma {:induction false} SplitTargetsDiffer(t: Targets, f: Func, visited: seq<nat>, b: nat, c: nat)
    requires b in visited && c in visited && b != c && NeedsSplit(t, BodyAt(f, b)) && NeedsSplit(t, BodyAt(f, c))
    ensures SplitTarget(t, f, visited, b) != SplitTarget(t, f, visited, c)
  {
    var n := |visited| - 1;
    if visited[n] == b {
      SplitEdge(t, f, visited[..n], c);
    } else if visited[n] == c {
      SplitEdge(t, f, visited[..n], b);
    } else {
      SplitTargetsDiffer(t, f, visited[..n], b, c);
    }
  }

  lemma {:induction false} WeaveLonger(t: Targets, body: seq<Instr>)
    ensures |Weave(t, body)| >= |body|
  {
    if body != [] {
      WeaveLonger(t, body[..|body| - 1]);
    }
  }

  /** The hook of a call stands behind the block's phis and any hook at its head. */
  lemma BehindHead(t: Targets, f: Func, b: nat, i: nat)
    requires i < |BodyAt(f, b)| && !BodyAt(f, b)[i].Phi?
    ensures Place(t, f, b, i) >= |EntryHooks(t, f, f.order, b)| + PhiCount(BodyAt(f, b))
  {
    WeaveLonger(t, BodyAt(f, b)[..i]);
  }

  lemma CallPlacesDiffer(t: Targets, f: Func, b: nat, i: nat, c: nat, j: nat)
    requires FuncOk(t, f) && SoleOk(t, f) && Reached(t, f, b, i) && Reached(t, f, c, j) && (b, i) != (c, j)
    requires !BodyAt(f, b)[i].Invoke?
    ensures HookPlace(t, f, b, i) != HookPlace(t, f, c, j)
  {
    var call, other := BodyAt(f, b)[i], BodyAt(f, c)[j];
    assert BodyOk(BodyAt(f, c));
    if !other.Invoke? {
      if b == c {
        PlacesGrow(t, f, b, if i < j then i else j, if i < j then j else i);
      }
    } else if other.sole {
      if other.normal == b {
        assert other == Last(BodyAt(f, c)) && Enters(t, BodyAt(f, c), b);
        OneEntryHook(t, f, f.order, c, b);
        BehindHead(t, f, b, i);
      }
    } else {
      SplitEdge(t, f, f.order, c);
    }
  }

  lemma InvokePlacesDiffer(t: Targets, f: Func, b: nat, i: nat, c: nat, j: nat)
    requires FuncOk(t, f) && SoleOk(t, f) && Reached(t, f, b, i) && Reached(t, f, c, j) && (b, i) != (c, j)
    requires BodyAt(f, b)[i].Invoke? && BodyAt(f, c)[j].Invoke?
    ensures HookPlace(t, f, b, i) != HookPlace(t, f, c, j)
  {
    var call, other := BodyAt(f, b)[i], BodyAt(f, c)[j];
    assert BodyOk(BodyAt(f, b)) && BodyOk(BodyAt(f, c));
    assert call == Last(BodyAt(f, b)) && other == Last(BodyAt(f, c));
    assert b != c;
    if call.sole && other.sole {
      assert Enters(t, BodyAt(f, b), call.normal) && Enters(t, BodyAt(f, c), other.normal);
    } else if !call.sole && !other.sole {
      SplitTargetsDiffer(t, f, f.order, b, c);
    } else if call.sole {
      SplitEdge(t, f, f.order, c);
    } else {
      SplitEdge(t, f, f.order, b);
    }
  }

  /** No two calls share a place for their hooks. */
  lemma HookPlacesDiffer(t: Targets, f: Func, b: nat, i: nat, c: nat, j: nat)
    requires FuncOk(t, f) && SoleOk(t, f) && Reached(t, f, b, i) && Reached(t, f, c, j) && (b, i) != (c, j)
    ensures HookPlace(t, f, b, i) != HookPlace(t, f, c, j)
  {
    if !BodyAt(f, b)[i].Invoke? {
      CallPlacesDiffer(t, f, b, i, c, j);
    } else if !BodyAt(f, c)[j].Invoke? {
      CallPlacesDiffer(t, f, c, j, b, i);
    } else {
      InvokePlacesDiffer(t, f, b, i, c, j);
    }
  }

  // ----- there is no other hook -----

  /** A hook in a woven body follows the call it was made for. */
  lemma {:induction false} WovenHook(t: Targets, body: seq<Instr>, p: nat) returns (i: nat)
    requires (forall k :: 0 <= k < |body| ==> !IsHook(body[k])) && p < |Weave(t, body)| && IsHook(Weave(t, body)[p])
    ensures i < |body| && body[i].Call? && IsTarget(t, body[i]) && p == |Weave(t, body[..i])| + 1
  {
    var n := |body| - 1;
    if p < |Weave(t, body[..n])| {
      i := WovenHook(t, body[..n], p);
      assert body[..n][..i] == body[..i];
    } else {
      i := n;
    }
  }

  lemma {:induction false} SplitOrigin(t: Targets, f: Func, visited: seq<nat>, m: nat) returns (b: nat)
    requires m < |SplitBlocks(t, f, visited)| && forall j, k :: 0 <= j < k < |visited| ==> visited[j] != visited[k]
    ensures b in visited && NeedsSplit(t, BodyAt(f, b)) && SplitTarget(t, f, visited, b) == |f.blocks| + m
  {
    var n := |visited| - 1;
    if m < |SplitBlocks(t, f, visited[..n])| {
      b := SplitOrigin(t, f, visited[..n], m);
    } else {
      b := visited[n];
    }
  }

  lemma {:induction false} EntryOrigin(t: Targets, f: Func, visited: seq<nat>, d: nat) returns (b: nat)
    requires EntryHooks(t, f, visited, d) != []
    ensures b in visited && Enters(t, BodyAt(f, b), d)
  {
    var n := |visited| - 1;
    if Enters(t, BodyAt(f, visited[n]), d) {
      b := visited[n];
    } else {
      b := EntryOrigin(t, f, visited[..n], d);
    }
  }

  /** An instruction of a body with hooks put at its head. */
  lemma EntryAt(body: seq<Instr>, hooks: seq<Instr>, k: nat)
    requires k < |AtEntry(body, hooks)|
    ensures |AtEntry(body, hooks)| == |body| + |hooks|
    ensures var n := PhiCount(body);
            AtEntry(body, hooks)[k] ==
            if k < n then body[k] else if k < n + |hooks| then hooks[k - n] else body[k - |hooks|]
  {
  }

  lemma RetargetHook(body: seq<Instr>, normal: nat, k: nat)
    requires k < |Retarget(body, normal)| && IsHook(Retarget(body, normal)[k]) && !IsHook(Last(body))
    ensures k < |body| && body[k] == Retarget(body, normal)[k]
  {
  }

  /** A hook in a block of the function is at its head, or comes from weaving. */
  lemma HookInBody(t: Targets, body: seq<Instr>, hooks: seq<Instr>, target: nat, k: nat)
    requires BodyOk(body) && k < |Dress(t, body, hooks, target)| && IsHook(Dress(t, body, hooks, target)[k])
    ensures var n := PhiCount(body);
            || n <= k < n + |hooks|
            || (k >= |hooks| && k - |hooks| < |Weave(t, body)| && IsHook(Weave(t, body)[k - |hooks|]))
  {
    var woven := Weave(t, body);
    WeaveSplit(t, body);
    WeaveLast(t, body, hooks);
    if NeedsSplit(t, body) {
      RetargetHook(AtEntry(woven, hooks), target, k);
    }
    EntryAt(woven, hooks, k);
    assert forall m :: 0 <= m < PhiCount(woven) ==> woven[m].Phi?;
  }

  lemma SplitBlockHook(t: Targets, body: seq<Instr>, slot: nat, j: nat)
    requires j < |SplitBlock(t, body, slot).body| && IsHook(SplitBlock(t, body, slot).body[j])
    ensures j == 0
  {
  }

  /** A hook on a split edge. */
  lemma HookOnSplit(t: Targets, f: Func, d: nat, j: nat) returns (b: nat, i: nat)
    requires FuncOk(t, f) && |f.blocks| <= d < |HookedBlocks(t, f, f.order)|
    requires j < |HookedBlocks(t, f, f.order)[d].body| && IsHook(HookedBlocks(t, f, f.order)[d].body[j])
    ensures Reached(t, f, b, i) && HookPlace(t, f, b, i) == (d, j)
  {
    b := SplitOrigin(t, f, f.order, d - |f.blocks|);
    SplitEdge(t, f, f.order, b);
    SplitBlockHook(t, BodyAt(f, b), d, j);
    i := |BodyAt(f, b)| - 1;
  }

  /** A hook at the head of a block. */
  lemma HookAtHead(t: Targets, f: Func, d: nat, j: nat, hooks: seq<Instr>) returns (b: nat, i: nat)
    requires FuncOk(t, f) && SoleOk(t, f) && hooks == EntryHooks(t, f, f.order, d)
    requires PhiCount(BodyAt(f, d)) <= j < PhiCount(BodyAt(f, d)) + |hooks|
    ensures Reached(t, f, b, i) && HookPlace(t, f, b, i) == (d, j)
  {
    b := EntryOrigin(t, f, f.order, d);
    OneEntryHook(t, f, f.order, b, d);
    i := |BodyAt(f, b)| - 1;
  }

  /** Where hooks can be in a block: at its head, or behind a call that was woven. */
  lemma HookInHookedBody(t: Targets, f: Func, d: nat, j: nat, hooks: seq<Instr>)
    requires BodyOk(BodyAt(f, d)) && hooks == EntryHooks(t, f, f.order, d)
    requires j < |HookedBody(t, f, f.order, d)| && IsHook(HookedBody(t, f, f.order, d)[j])
    ensures PhiCount(BodyAt(f, d)) <= j < PhiCount(BodyAt(f, d)) + |hooks|
            || (d in f.order && j >= |hooks| && j - |hooks| < |Weave(t, BodyAt(f, d))|
                && IsHook(Weave(t, BodyAt(f, d))[j - |hooks|]))
  {
    if d in f.order {
      SeenBody(t, f, f.order, d, hooks, SplitTarget(t, f, f.order, d));
      HookInBody(t, BodyAt(f, d), hooks, SplitTarget(t, f, f.order, d), j);
    } else {
      UnseenBody(t, f, f.order, d);
      EntryAt(BodyAt(f, d), hooks, j);
    }
  }

  /** A hook that was woven in stands behind its call. */
  lemma HookBehindCall(t: Targets, f: Func, d: nat, j: nat, hooks: seq<Instr>) returns (i: nat)
    requires BodyOk(BodyAt(f, d)) && d in f.order && hooks == EntryHooks(t, f, f.order, d) && j >= |hooks|
    requires j - |hooks| < |Weave(t, BodyAt(f, d))| && IsHook(Weave(t, BodyAt(f, d))[j - |hooks|])
    ensures Reached(t, f, d, i) && HookPlace(t, f, d, i) == (d, j)
  {
    i := WovenHook(t, BodyAt(f, d), j - |hooks|);
  }

  /** A hook in a block of the function. */
  lemma HookInBlock(t: Targets, f: Func, d: nat, j: nat) returns (b: nat, i: nat)
    requires FuncOk(t, f) && SoleOk(t, f) && d < |f.blocks|
    requires j < |HookedBody(t, f, f.order, d)| && IsHook(HookedBody(t, f, f.order, d)[j])
    ensures Reached(t, f, b, i) && HookPlace(t, f, b, i) == (d, j)
  {
    var hooks, n := EntryHooks(t, f, f.order, d), PhiCount(BodyAt(f, d));
    assert BodyOk(BodyAt(f, d));
    HookInHookedBody(t, f, d, j, hooks);
    if n <= j < n + |hooks| {
      b, i := HookAtHead(t, f, d, j, hooks);
    } else {
      b := d;
      i := HookBehindCall(t, f, d, j, hooks);
    }
  }

  /** Every hook in a hooked function is at the place of some reachable target call. */
  lemma EveryHookHasItsCall(t: Targets, f: Func, d: nat, j: nat) returns (b: nat, i: nat)
    requires FuncOk(t, f) && SoleOk(t, f) && d < |HookedBlocks(t, f, f.order)|
    requires j < |HookedBlocks(t, f, f.order)[d].body| && IsHook(HookedBlocks(t, f, f.order)[d].body[j])
    ensures Reached(t, f, b, i) && HookPlace(t, f, b, i) == (d, j)
  {
    if d < |f.blocks| {
      HookedBlockAt(t, f, f.order, d);
      b, i := HookInBlock(t, f, d, j);
    } else {
      b, i := HookOnSplit(t, f, d, j);
    }
  }
}
