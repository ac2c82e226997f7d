/**
  The part of the compiler's intermediate representation the two passes look at:
  functions made of blocks, blocks made of instructions, calls with operands.
  A function carries the order in which its reachable blocks are traversed and
  each block the name it goes by; both are inputs here.
 */
module Ir {
  import opened Common

  /** The runtime's three hooks, which both passes find by their names `allocHook`, `reallocHook` and `deallocHook`. */
  datatype HookKind = AllocHook | ReallocHook | DeallocHook

  /** A function of the module, by name; the hooks are told apart from all others. */
  datatype Symbol = Hook(kind: HookKind) | Function(name: string)

  datatype Operand =
    | Result(id: nat)
    | IntConst(n: int)
    | NullStr
    | Str(s: string)
    | Opaque(tag: nat)

  /**
    Calls name their callee unless they are indirect, and their result unless
    they return nothing. An invoke ends its block and continues in block `normal`;
    `sole` says that the invoke's edge is the only one into that block, and `edge`
    is the name a block put on that edge goes by.
   */
  datatype Instr =
    | Call(result: Option<nat>, callee: Option<Symbol>, args: seq<Operand>)
    | Invoke(result: Option<nat>, callee: Option<Symbol>, args: seq<Operand>, normal: nat, sole: bool, edge: string)
    | Phi(tag: nat)
    | Plain(tag: nat)
    | Jump(target: nat)
    | Terminator(tag: nat)
  {
    predicate IsCall() {
      Call? || Invoke?
    }

    predicate EndsBlock() {
      Invoke? || Jump? || Terminator?
    }
  }

  datatype Block = Block(name: string, slot: nat, body: seq<Instr>)

  datatype Func = Func(name: string, blocks: seq<Block>, order: seq<nat>)

  function Last(body: seq<Instr>): Instr {
    if body == [] then Plain(0) else body[|body| - 1]
  }

  function BodyAt(f: Func, b: nat): seq<Instr> {
    if b < |f.blocks| then f.blocks[b].body else []
  }

  /** A block without a name is known by its slot number. */
  function BlockName(b: Block): string {
    if b.name == "" then "block" + Decimal(b.slot) else b.name
  }

  /** The traversal visits blocks of the function, each at most once. */
  ghost predicate OrderOk(f: Func) {
    && (forall k :: 0 <= k < |f.order| ==> f.order[k] < |f.blocks|)
    && (forall j, k :: 0 <= j < k < |f.order| ==> f.order[j] != f.order[k])
  }

  predicate IsHook(i: Instr) {
    i.IsCall() && i.callee.Some? && i.callee.value.Hook?
  }

  /** The instructions that are not calls of a hook. */
  function StripBody(body: seq<Instr>): (r: seq<Instr>) {
    if body == [] then []
    else StripBody(body[..|body| - 1]) + (if IsHook(body[|body| - 1]) then [] else [body[|body| - 1]])
  }

  function StripBlocks(blocks: seq<Block>): seq<Block> {
    seq(|blocks|, b requires 0 <= b < |blocks| => blocks[b].(body := StripBody(blocks[b].body)))
  }

  lemma {:induction false} StripAppend(a: seq<Instr>, b: seq<Instr>)
    ensures StripBody(a + b) == StripBody(a) + StripBody(b)
  {
    if b == [] {
      assert a + b == a;
    } else {
      var n := |b| - 1;
      assert (a + b)[..|a + b| - 1] == a + b[..n];
      StripAppend(a, b[..n]);
    }
  }

  lemma {:induction false} StripNoHooks(body: seq<Instr>)
    requires forall i :: 0 <= i < |body| ==> !IsHook(body[i])
    ensures StripBody(body) == body
  {
    if body != [] {
      StripNoHooks(body[..|body| - 1]);
    }
  }

  /** A call, of either kind, of one of the three hooks. */
  predicate CallsHook(i: Instr) {
    match i
    case Call(_, callee, _) => NamesHook(callee)
    case Invoke(_, callee, _, _, _, _) => NamesHook(callee)
    case _ => false
  }

  predicate NamesHook(callee: Option<Symbol>) {
    callee == Some(Hook(AllocHook)) || callee == Some(Hook(ReallocHook)) || callee == Some(Hook(DeallocHook))
  }

  lemma HookIsCalled(i: Instr)
    ensures IsHook(i) <==> CallsHook(i)
  {
    if i.IsCall() && i.callee.Some? && i.callee.value.Hook? {
      match i.callee.value.kind
      case AllocHook => assert i.callee == Some(Hook(AllocHook));
      case ReallocHook => assert i.callee == Some(Hook(ReallocHook));
      case DeallocHook => assert i.callee == Some(Hook(DeallocHook));
    }
  }

  /** The places of the instructions that are not hook calls. */
  ghost predicate KeepsExactly(body: seq<Instr>, kept: seq<nat>) {
    && (forall k :: 0 <= k < |kept| ==> kept[k] < |body| && !CallsHook(body[kept[k]]))
    && (forall j, k :: 0 <= j < k < |kept| ==> kept[j] < kept[k])
    && (forall i: nat :: i < |body| && !CallsHook(body[i]) ==> i in kept)
  }

  /**
    Stripping removes every hook call and nothing else, and keeps the order: what
    is left are the instructions at all the other places, in increasing order.
   */
  lemma {:induction false} StripMeaning(body: seq<Instr>) returns (kept: seq<nat>)
    ensures KeepsExactly(body, kept)
    ensures |StripBody(body)| == |kept| && forall k :: 0 <= k < |kept| ==> StripBody(body)[k] == body[kept[k]]
  {
    if body == [] {
      kept := [];
    } else {
      var n := |body| - 1;
      var before := StripMeaning(body[..n]);
      kept := before + (if IsHook(body[n]) then [] else [n]);
      HookIsCalled(body[n]);
      OneMoreKept(body, n, before, kept);
    }
  }

  lemma OneMoreKept(body: seq<Instr>, n: nat, before: seq<nat>, kept: seq<nat>)
    requires |body| == n + 1 && KeepsExactly(body[..n], before)
    requires kept == before + (if CallsHook(body[n]) then [] else [n])
    ensures KeepsExactly(body, kept)
  {
    forall i: nat | i < |body| && !CallsHook(body[i]) ensures i in kept {
      assert i < n ==> body[..n][i] == body[i] && i in before;
    }
  }
}
