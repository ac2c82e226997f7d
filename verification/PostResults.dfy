/**
  What the second pass achieves in one function: ids are 0, 1, 2, ... in
  traversal order, they arrive where the runtime hooks read them, the patch list
  is exactly what the profile lists, and stripping leaves the original code with
  only those calls retargeted.
 */
module PostResults {
  import opened Common
  import opened FaultMaps
  import opened Ir
  import opened PostPass
  import Json

  // ----- stable numbering -----

  /** A hook that gets an id: instruction `i` of the `k`-th block of the traversal. */
  ghost predicate HookAt(f: Func, k: nat, i: nat) {
    k < |f.order| && i < |BodyAt(f, f.order[k])| && Counts(BodyAt(f, f.order[k])[i])
  }

  function HookId(f: Func, k: nat, i: nat): nat
    requires k < |f.order| && i <= |BodyAt(f, f.order[k])|
  {
    Total(f, k) + Count(BodyAt(f, f.order[k]), i)
  }

  lemma {:induction false} StartOfKth(f: Func, m: nat, k: nat)
    requires OrderOk(f) && k < m <= |f.order|
    ensures StartOf(f, m, f.order[k]) == Total(f, k)
  {
    if k < m - 1 {
      StartOfKth(f, m - 1, k);
    }
  }

  /** A hook of the numbered function is the original hook with its id and names filled in. */
  lemma NumberedHook(o: Options, f: Func, k: nat, i: nat)
    requires OrderOk(f) && HookAt(f, k, i)
    ensures var b := f.order[k];
            var body := BodyAt(Numbered(o, f), b);
            && |body| == |BodyAt(f, b)|
            && body[i] == WithId(o, BodyAt(f, b)[i], HookId(f, k, i), BlockName(f.blocks[b]), f.name)
  {
    var b := f.order[k];
    StartOfKth(f, |f.order|, k);
    NumberedBody(o, f, b, Total(f, k));
  }

  lemma NumberedBody(o: Options, f: Func, b: nat, start: nat)
    requires b in f.order && b < |f.blocks| && start == StartOf(f, |f.order|, b)
    ensures BodyAt(Numbered(o, f), b) == NumberBody(o, BodyAt(f, b), start, BlockName(f.blocks[b]), f.name)
  {
    assert f.order[..|f.order|] == f.order;
  }

  lemma {:induction false} CountGrows(body: seq<Instr>, i: nat, j: nat)
    requires i <= j <= |body|
    ensures Count(body, i) <= Count(body, j)
    ensures i < j && Counts(body[i]) ==> Count(body, i) < Count(body, j)
  {
    if i < j {
      CountGrows(body, i, j - 1);
    }
  }

  lemma {:induction false} TotalGrows(f: Func, j: nat, k: nat)
    requires j <= k <= |f.order|
    ensures Total(f, j) <= Total(f, k)
    ensures j < k ==> Total(f, j) + Hooks(BodyAt(f, f.order[j])) <= Total(f, k)
  {
    if j < k {
      TotalGrows(f, j, k - 1);
    }
  }

  /** Ids grow along the traversal, so no two hooks of a function share one, and all are below the total. */
  lemma IdsInOrder(f: Func, j: nat, h: nat, k: nat, i: nat)
    requires HookAt(f, j, h) && HookAt(f, k, i) && (j < k || (j == k && h < i))
    ensures HookId(f, j, h) < HookId(f, k, i) < Total(f, |f.order|)
  {
    IdBelowTotal(f, k, i);
    var body := BodyAt(f, f.order[j]);
    if j == k {
      CountGrows(body, h, i);
    } else {
      CountGrows(body, h, |body|);
      TotalGrows(f, j, k);
    }
  }

  lemma IdBelowTotal(f: Func, k: nat, i: nat)
    requires HookAt(f, k, i)
    ensures HookId(f, k, i) < Total(f, |f.order|)
  {
    var body := BodyAt(f, f.order[k]);
    CountGrows(body, i, |body|);
    TotalGrows(f, k, |f.order|);
  }

  lemma {:induction false} CountReached(body: seq<Instr>, m: nat, n: nat) returns (i: nat)
    requires m <= |body| && n < Count(body, m)
    ensures i < m && Counts(body[i]) && Count(body, i) == n
  {
    if n < Count(body, m - 1) {
      i := CountReached(body, m - 1, n);
    } else {
      i := m - 1;
    }
  }

  lemma {:induction false} TotalReached(f: Func, m: nat, id: nat) returns (k: nat)
    requires m <= |f.order| && id < Total(f, m)
    ensures k < m && Total(f, k) <= id < Total(f, k) + Hooks(BodyAt(f, f.order[k]))
  {
    if id < Total(f, m - 1) {
      k := TotalReached(f, m - 1, id);
    } else {
      k := m - 1;
    }
  }

  /** Every number below the total is some hook's id. */
  lemma EveryIdUsed(f: Func, id: nat) returns (k: nat, i: nat)
    requires id < Total(f, |f.order|)
    ensures HookAt(f, k, i) && HookId(f, k, i) == id
  {
    k := TotalReached(f, |f.order|, id);
    i := CountReached(BodyAt(f, f.order[k]), |BodyAt(f, f.order[k])|, id - Total(f, k));
  }

  /** Of two functions of one name, at most one has hooks that get ids. */
  ghost predicate NamesTellApart(funcs: seq<Func>) {
    forall f: nat, g: nat :: f < g < |funcs| && funcs[f].name == funcs[g].name ==>
      Total(funcs[f], |funcs[f].order|) == 0 || Total(funcs[g], |funcs[g].order|) == 0
  }

  /** Function name and id together name one hook of the module. */
  lemma IdentifiesHook(funcs: seq<Func>, f: nat, k: nat, i: nat, g: nat, l: nat, j: nat)
    requires f < |funcs| && g < |funcs| && HookAt(funcs[f], k, i) && HookAt(funcs[g], l, j)
    requires NamesTellApart(funcs)
    requires funcs[f].name == funcs[g].name && HookId(funcs[f], k, i) == HookId(funcs[g], l, j)
    ensures f == g && k == l && i == j
  {
    IdBelowTotal(funcs[f], k, i);
    IdBelowTotal(funcs[g], l, j);
    assert f == g;
    if k < l || (k == l && i < j) {
      IdsInOrder(funcs[f], k, i, l, j);
    } else if l < k || (k == l && j < i) {
      IdsInOrder(funcs[f], l, j, k, i);
    }
  }

  /** Two hooks of the module, in different functions, under the same function name and id. */
  ghost predicate Confused(funcs: seq<Func>, f: nat, k: nat, i: nat, g: nat, l: nat, j: nat) {
    && f < |funcs| && g < |funcs| && HookAt(funcs[f], k, i) && HookAt(funcs[g], l, j)
    && funcs[f].name == funcs[g].name && HookId(funcs[f], k, i) == HookId(funcs[g], l, j)
    && (f != g || k != l || i != j)
  }

  /** Function name and id identify every hook exactly when no two functions with hooks share a name. */
  lemma IdentifiedExactly(funcs: seq<Func>)
    ensures (forall f, k, i, g, l, j :: !Confused(funcs, f, k, i, g, l, j)) <==> NamesTellApart(funcs)
  {
    if NamesTellApart(funcs) {
      forall f, k, i, g, l, j ensures !Confused(funcs, f, k, i, g, l, j) {
        if Confused(funcs, f, k, i, g, l, j) {
          IdentifiesHook(funcs, f, k, i, g, l, j);
        }
      }
    } else {
      var f: nat, g: nat :| f < g < |funcs| && funcs[f].name == funcs[g].name
        && Total(funcs[f], |funcs[f].order|) > 0 && Total(funcs[g], |funcs[g].order|) > 0;
      var k, i := EveryIdUsed(funcs[f], 0);
      var l, j := EveryIdUsed(funcs[g], 0);
      assert Confused(funcs, f, k, i, g, l, j);
    }
  }

  /** Two functions without a name, with one allocation hook each: both hooks are number 0 of "". */
  lemma UnnamedConfused(hook: Instr, end: Instr)
    requires Counts(hook) && !Counts(end)
    ensures var f := Func("", [Block("entry", 0, [hook, end])], [0]);
            Confused([f, f], 0, 0, 0, 1, 0, 0)
  {
    var f := Func("", [Block("entry", 0, [hook, end])], [0]);
    assert HookAt(f, 0, 0);
  }

  /** A hook has as many operands as its declaration. */
  predicate ArityOk(hook: Instr) {
    Counts(hook) ==> |hook.args| == if hook.callee == Some(Hook(AllocHook)) then 5 else 7
  }

  lemma IdSet(o: Options, hook: Instr, id: nat, bbName: string, funcName: string)
    requires Counts(hook) && ArityOk(hook)
    ensures var r := WithId(o, hook, id, bbName, funcName);
            && r.IsCall() && r.callee == hook.callee && |r.args| == |hook.args| && IdIndex(r) == IdIndex(hook)
            && r.args[IdIndex(hook)] == IntConst(id)
            && r.args[..IdIndex(hook)] == hook.args[..IdIndex(hook)]
            && (o.removeHooks ==> r.args[IdIndex(hook) + 1..] == hook.args[IdIndex(hook) + 1..])
  {
  }

  /**
    Whatever the profile and whether or not hooks are to be removed, a hook's id
    operand holds its place in the traversal; the hook's kind and its operands
    before the id stay as they were, and so do those behind it if the hooks are
    to be removed.
   */
  lemma IdsIgnoreOptions(o: Options, f: Func, k: nat, i: nat)
    requires OrderOk(f) && HookAt(f, k, i) && ArityOk(BodyAt(f, f.order[k])[i])
    ensures i < |BodyAt(Numbered(o, f), f.order[k])|
    ensures var hook, r := BodyAt(f, f.order[k])[i], BodyAt(Numbered(o, f), f.order[k])[i];
            && r.IsCall() && r.callee == hook.callee && |r.args| == |hook.args|
            && r.args[IdIndex(hook)] == IntConst(HookId(f, k, i))
            && r.args[..IdIndex(hook)] == hook.args[..IdIndex(hook)]
            && (o.removeHooks ==> r.args[IdIndex(hook) + 1..] == hook.args[IdIndex(hook) + 1..])
  {
    NumberedHook(o, f, k, i);
    IdSet(o, BodyAt(f, f.order[k])[i], HookId(f, k, i), BlockName(f.blocks[f.order[k]]), f.name);
  }

  // ----- what the runtime reads -----

  /** The identity a hook reports when it runs: id, block name and function name. */
  datatype Reported = Reported(localID: int, bbName: string, funcName: string)

  /**
    The runtime's hooks take (ptr, size, localID, bbName, funcName) and
    (newPtr, newSize, oldPtr, oldSize, localID, bbName, funcName).
   */
  function Reads(hook: Instr): Option<Reported> {
    if !hook.IsCall() then None
    else if hook.callee == Some(Hook(AllocHook)) && |hook.args| == 5 then
      ReadNames(hook.args[2], hook.args[3], hook.args[4])
    else if hook.callee == Some(Hook(ReallocHook)) && |hook.args| == 7 then
      ReadNames(hook.args[4], hook.args[5], hook.args[6])
    else None
  }

  function ReadNames(id: Operand, bbName: Operand, funcName: Operand): Option<Reported> {
    if id.IntConst? && bbName.Str? && funcName.Str? then Some(Reported(id.n, bbName.s, funcName.s)) else None
  }

  lemma NumberIsRead(o: Options, hook: Instr, id: nat, bbName: string, funcName: string)
    requires Counts(hook) && ArityOk(hook) && !o.removeHooks
    ensures Reads(WithId(o, hook, id, bbName, funcName)) == Some(Reported(id, bbName, funcName))
  {
  }

  /** What a block is reported as: its own name, or "block" and its slot number in decimal. */
  ghost predicate NamesBlock(name: string, b: Block) {
    if b.name != "" then name == b.name
    else
      && |name| > 5 && name[..5] == "block" && (forall i :: 5 <= i < |name| ==> '0' <= name[i] <= '9')
      && (|name| > 6 ==> name[5] != '0')
      && Json.Value(name[5..]) == b.slot
  }

  /** A block is never reported without a name. */
  lemma BlockNamed(b: Block)
    ensures BlockName(b) != "" && NamesBlock(BlockName(b), b)
  {
    if b.name == "" {
      var digits := Decimal(b.slot);
      Json.DecimalValue(b.slot);
      assert ("block" + digits)[5..] == digits && ("block" + digits)[..5] == "block";
      assert forall i :: 5 <= i < |"block" + digits| ==> ("block" + digits)[i] == digits[i - 5];
    }
  }

  /** Unnamed blocks with different slots are reported differently. */
  lemma UnnamedBlocksDiffer(b: Block, c: Block)
    requires b.name == "" && c.name == "" && b.slot != c.slot
    ensures BlockName(b) != BlockName(c)
  {
    BlockNamed(b);
    BlockNamed(c);
  }

  /**
    In a build that keeps its hooks, a hook reports its own id, its function's
    name and its block's name, or its block's number if the block has no name.
   */
  lemma HookReportsItself(o: Options, f: Func, k: nat, i: nat)
    requires OrderOk(f) && HookAt(f, k, i) && !o.removeHooks && ArityOk(BodyAt(f, f.order[k])[i])
    ensures i < |BodyAt(Numbered(o, f), f.order[k])|
    ensures Reads(BodyAt(Numbered(o, f), f.order[k])[i]) ==
            Some(Reported(HookId(f, k, i), BlockName(f.blocks[f.order[k]]), f.name))
    ensures BlockName(f.blocks[f.order[k]]) != "" && NamesBlock(BlockName(f.blocks[f.order[k]]), f.blocks[f.order[k]])
  {
    NumberedHook(o, f, k, i);
    NumberIsRead(o, BodyAt(f, f.order[k])[i], HookId(f, k, i), BlockName(f.blocks[f.order[k]]), f.name);
    BlockNamed(f.blocks[f.order[k]]);
  }

  // ----- the patch list -----

  /** The hook stands for the call with result `c`. */
  ghost predicate StandsFor(f: Func, hook: Instr, c: nat) {
    Counts(hook) && hook.args != [] && hook.args[0] == Result(c) && DefIsCall(f, c)
  }

  /** The hook at (k, i) stands for `c` and the profile lists its function and id. */
  ghost predicate ListedHook(o: Options, f: Func, k: nat, i: nat, c: nat) {
    && HookAt(f, k, i) && StandsFor(f, BodyAt(f, f.order[k])[i], c)
    && o.profile.Some? && Faulty(o.profile.value, f.name, HookId(f, k, i))
  }

  lemma PatchOfHook(o: Options, f: Func, k: nat, i: nat, c: nat, patch: Option<nat>)
    requires k < |f.order| && i < |BodyAt(f, f.order[k])|
    requires patch == PatchOf(o, f, BodyAt(f, f.order[k])[i], HookId(f, k, i))
    ensures patch == Some(c) <==> ListedHook(o, f, k, i, c)
  {
  }

  lemma {:induction false} InFlatten<T>(parts: seq<seq<T>>, m: nat, x: T)
    requires m <= |parts|
    ensures x in Flatten(parts, m) <==> exists k :: 0 <= k < m && x in parts[k]
  {
    if m > 0 {
      InFlatten(parts, m - 1, x);
    }
  }

  lemma {:induction false} InSomes<T>(row: seq<Option<T>>, m: nat, x: T)
    requires m <= |row|
    ensures x in Somes(row, m) <==> exists i :: 0 <= i < m && row[i] == Some(x)
  {
    if m > 0 {
      InSomes(row, m - 1, x);
    }
  }

  /** What instruction `i` of the `k`-th block of the traversal contributes. */
  lemma RowAt(o: Options, f: Func, k: nat, i: nat, c: nat, body: seq<Instr>, row: seq<Option<nat>>)
    requires k < |f.order| && body == BodyAt(f, f.order[k]) && i < |body|
    requires row == InstrPatches(o, f, body, Total(f, k))
    ensures row[i] == Some(c) <==> ListedHook(o, f, k, i, c)
  {
    var patch := PatchOf(o, f, body[i], HookId(f, k, i));
    InstrNext(o, f, body, Total(f, k), "", i, HookId(f, k, i), WithId(o, body[i], HookId(f, k, i), "", f.name), patch);
    PatchOfHook(o, f, k, i, c, patch);
  }

  /** A call contributed by the `k`-th block of the traversal is that of a listed hook. */
  lemma InBodyPatches(o: Options, f: Func, k: nat, c: nat, body: seq<Instr>, row: seq<Option<nat>>) returns (i: nat)
    requires k < |f.order| && body == BodyAt(f, f.order[k]) && row == InstrPatches(o, f, body, Total(f, k))
    requires c in Somes(row, |row|)
    ensures ListedHook(o, f, k, i, c)
  {
    InSomes(row, |row|, c);
    i :| i < |row| && row[i] == Some(c);
    RowAt(o, f, k, i, c, body, row);
  }

  lemma ListedInBody(o: Options, f: Func, k: nat, i: nat, c: nat, body: seq<Instr>, row: seq<Option<nat>>)
    requires ListedHook(o, f, k, i, c) && body == BodyAt(f, f.order[k]) && row == InstrPatches(o, f, body, Total(f, k))
    ensures c in Somes(row, |row|)
  {
    RowAt(o, f, k, i, c, body, row);
    InSomes(row, |row|, c);
  }

  /**
    The patch list of a function: exactly the calls behind the hooks whose
    function and id the profile lists.
   */
  lemma PatchedExactly(o: Options, f: Func, c: nat)
    ensures c in Patches(o, f) <==> exists k: nat, i: nat :: ListedHook(o, f, k, i, c)
  {
    var parts := BlockPatches(o, f);
    InFlatten(parts, |parts|, c);
    if c in Patches(o, f) {
      var k: nat :| k < |parts| && c in parts[k];
      var body := BodyAt(f, f.order[k]);
      BlockShare(o, f, k, body, Total(f, k));
      var i := InBodyPatches(o, f, k, c, body, InstrPatches(o, f, body, Total(f, k)));
    }
    if k: nat, i: nat :| ListedHook(o, f, k, i, c) {
      var body := BodyAt(f, f.order[k]);
      BlockShare(o, f, k, body, Total(f, k));
      ListedInBody(o, f, k, i, c, body, InstrPatches(o, f, body, Total(f, k)));
    }
  }

  /** Only results of calls are ever listed. */
  lemma ListedIsCallResult(o: Options, f: Func, c: nat) returns (b: nat, i: nat)
    requires c in Patches(o, f)
    ensures i < |BodyAt(f, b)|
    ensures match BodyAt(f, b)[i]
            case Call(result, _, _) => result == Some(c)
            case Invoke(result, _, _, _, _, _) => result == Some(c)
            case _ => false
  {
    PatchedExactly(o, f, c);
    var k: nat, j: nat :| ListedHook(o, f, k, j, c);
    b, i :| b < |f.blocks| && i < |f.blocks[b].body| && f.blocks[b].body[i].IsCall() && f.blocks[b].body[i].result == Some(c);
  }

  // ----- the final code -----

  lemma NumberKeepsOthers(o: Options, i: Instr, id: nat, bbName: string, funcName: string)
    ensures IsHook(WithId(o, i, id, bbName, funcName)) == IsHook(i)
    ensures !IsHook(i) ==> WithId(o, i, id, bbName, funcName) == i
  {
  }

  /** Numbering changes hooks only. */
  lemma StripNumbered(o: Options, body: seq<Instr>, start: nat, bbName: string, funcName: string)
    ensures StripBody(NumberBody(o, body, start, bbName, funcName)) == StripBody(body)
  {
    var numbered := NumberBody(o, body, start, bbName, funcName);
    forall i | 0 <= i < |body| ensures SameButHooks(numbered[i], body[i]) {
      NumberKeepsOthers(o, body[i], start + Count(body, i), bbName, funcName);
    }
    StripSame(numbered, body);
  }

  predicate SameButHooks(i: Instr, j: Instr) {
    IsHook(i) == IsHook(j) && (!IsHook(i) ==> i == j)
  }

  lemma {:induction false} StripSame(a: seq<Instr>, b: seq<Instr>)
    requires |a| == |b| && forall i :: 0 <= i < |a| ==> SameButHooks(a[i], b[i])
    ensures StripBody(a) == StripBody(b)
  {
    if a != [] {
      var n := |a| - 1;
      StripSame(a[..n], b[..n]);
      assert SameButHooks(a[n], b[n]);
    }
  }

  lemma StripOne(body: seq<Instr>, i: Instr)
    ensures StripBody(body + [i]) == StripBody(body) + (if IsHook(i) then [] else [i])
  {
    assert (body + [i])[..|body|] == body;
  }

  lemma PatchKeepsHooks(symbols: set<Symbol>, calls: set<nat>, i: Instr)
    ensures IsHook(PatchInstr(symbols, calls, i)) == IsHook(i)
  {
    if i.IsCall() && i.callee.Some? && Replacement(i.callee.value).Some? {
      ReplacedOnce(i.callee.value);
    }
  }

  /** Patching and stripping can be swapped. */
  lemma {:induction false} StripPatched(symbols: set<Symbol>, calls: set<nat>, body: seq<Instr>)
    ensures StripBody(PatchBody(symbols, calls, body)) == PatchBody(symbols, calls, StripBody(body))
  {
    if body != [] {
      var n := |body| - 1;
      StripPatched(symbols, calls, body[..n]);
      PatchKeepsHooks(symbols, calls, body[n]);
      assert PatchBody(symbols, calls, body) ==
             PatchBody(symbols, calls, body[..n]) + [PatchInstr(symbols, calls, body[n])];
      StripOne(PatchBody(symbols, calls, body[..n]), PatchInstr(symbols, calls, body[n]));
    }
  }

  /** With its hooks removed, the final function is the stripped original with its listed calls retargeted. */
  lemma FinalIsPatchedOriginal(o: Options, symbols: set<Symbol>, f: Func)
    requires o.removeHooks
    ensures Final(o, symbols, f) ==
            f.(blocks := PatchBlocks(symbols, Members(Patches(o, f)), StripBlocks(f.blocks)))
  {
    var calls := Members(Patches(o, f));
    var final, direct := Final(o, symbols, f).blocks, PatchBlocks(symbols, calls, StripBlocks(f.blocks));
    forall b: nat | b < |f.blocks| ensures final[b] == direct[b] {
      FinalBlock(o, symbols, f, calls, b);
    }
  }

  lemma FinalBlock(o: Options, symbols: set<Symbol>, f: Func, calls: set<nat>, b: nat)
    requires b < |f.blocks|
    ensures StripBody(PatchBody(symbols, calls, NumberedBlock(o, f, |f.order|, b).body)) ==
            PatchBody(symbols, calls, StripBody(f.blocks[b].body))
  {
    var block := f.blocks[b];
    StripPatched(symbols, calls, NumberedBlock(o, f, |f.order|, b).body);
    if b in f.order {
      StripNumbered(o, block.body, StartOf(f, |f.order|, b), BlockName(block), f.name);
    }
  }
}
