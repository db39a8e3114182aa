/** Worklist dead-code elimination: what is removed, and why nobody notices. */
module DeadCode {
  import opened Wrappers
  import opened Ptx

  /** Instruction `i` is recorded in the definition map under register `r`. */
  predicate Defines(items: seq<Item>, i: nat, r: Reg) {
    i < |items| && items[i].Code? && Destination(items[i].inst) == Some(r) && !IsPredicate(r)
  }

  predicate ReadsAt(items: seq<Item>, i: nat, r: Reg) {
    i < |items| && items[i].Code? && r in ReadRegisters(items[i].inst)
  }

  /** `i` is reached from a side-effecting instruction over at most `n` use-to-definition links. */
  ghost predicate LiveBy(items: seq<Item>, n: nat, i: nat) {
    && i < |items| && items[i].Code?
    && (|| IsSideEffecting(items[i].inst)
        || (n > 0 && exists j: nat, r: Reg :: LiveBy(items, n - 1, j) && ReadsAt(items, j, r) && Defines(items, i, r)))
  }

  ghost predicate Live(items: seq<Item>, i: nat) {
    exists n: nat :: LiveBy(items, n, i)
  }

  ghost function LiveSet(items: seq<Item>): (live: set<nat>)
    ensures forall i: nat :: i in live <==> Live(items, i)
  {
    assert forall i: nat | Live(items, i) :: i < |items|;
    set i: nat | i < |items| && Live(items, i)
  }

  predicate Keeps(items: seq<Item>, live: set<nat>, i: nat)
    requires i < |items|
  {
    items[i].Label? || i in live
  }

  /** The kept ones among the first `n` items. */
  function Kept(items: seq<Item>, live: set<nat>, n: nat): (r: seq<Item>)
    requires n <= |items|
    ensures |r| <= n
  {
    if n == 0 then []
    else Kept(items, live, n - 1) + if Keeps(items, live, n - 1) then [items[n - 1]] else []
  }

  /** The program after the pass. */
  ghost function Reduced(items: seq<Item>): seq<Item> {
    Kept(items, LiveSet(items), |items|)
  }

  // ----- the pass -----

  function DefsOf(defMap: map<Reg, seq<nat>>, r: Reg): seq<nat> {
    if r in defMap then defMap[r] else []
  }

  /** Register to the indices of its defining instructions. */
  method BuildDefMap(items: seq<Item>) returns (defMap: map<Reg, seq<nat>>)
    ensures forall r: Reg, i: nat :: i in DefsOf(defMap, r) <==> Defines(items, i, r)
  {
    defMap := map[];
    for k := 0 to |items|
      invariant forall r: Reg, i: nat :: i in DefsOf(defMap, r) <==> i < k && Defines(items, i, r)
    {
      if items[k].Code? {
        var dest := Destination(items[k].inst);
        if dest.Some? && !IsPredicate(dest.value) {
          defMap := defMap[dest.value := DefsOf(defMap, dest.value) + [k]];
        }
      }
    }
  }

  lemma PrefixNext(found: seq<nat>, k: nat)
    requires k < |found|
    ensures forall i: nat :: i in found[..k + 1] <==> i in found[..k] || i == found[k]
  {
    assert found[..k + 1] == found[..k] + [found[k]];
  }

  /** `mark_live` for each index in a list. */
  method MarkAll(live: set<nat>, worklist: seq<nat>, found: seq<nat>) returns (live': set<nat>, worklist': seq<nat>)
    ensures forall i: nat :: i in live' <==> i in live || i in found
    ensures forall i: nat :: i in worklist' <==> i in worklist || (i in found && i !in live)
    ensures |worklist'| + |live| == |worklist| + |live'|
  {
    live', worklist' := live, worklist;
    for k := 0 to |found|
      invariant forall i: nat :: i in live' <==> i in live || i in found[..k]
      invariant forall i: nat :: i in worklist' <==> i in worklist || (i in found[..k] && i !in live)
      invariant |worklist'| + |live| == |worklist| + |live'|
    {
      PrefixNext(found, k);
      if found[k] !in live' {
        live', worklist' := live' + {found[k]}, worklist' + [found[k]];
      }
    }
    assert found[..|found|] == found;
  }

  /** Everything marked is live, and what is off the worklist has passed its liveness on. */
  ghost predicate Marking(items: seq<Item>, live: set<nat>, worklist: seq<nat>) {
    && (forall i | i in live :: Live(items, i))
    && (forall i | i in worklist :: i in live)
    && (forall i: nat | i < |items| && items[i].Code? && IsSideEffecting(items[i].inst) :: i in live)
    && (forall j: nat, i: nat, r: Reg | j in live && j !in worklist && ReadsAt(items, j, r) && Defines(items, i, r) ::
          i in live)
  }

  lemma LiveThrough(items: seq<Item>, j: nat, r: Reg, i: nat)
    requires Live(items, j) && ReadsAt(items, j, r) && Defines(items, i, r)
    ensures Live(items, i)
  {
    var n: nat :| LiveBy(items, n, j);
    assert LiveBy(items, n + 1, i);
  }

  lemma {:induction false} MarkedIfLiveBy(items: seq<Item>, live: set<nat>, n: nat, i: nat)
    requires Marking(items, live, []) && LiveBy(items, n, i)
    ensures i in live
    decreases n
  {
    if !IsSideEffecting(items[i].inst) {
      var j: nat, r: Reg :| LiveBy(items, n - 1, j) && ReadsAt(items, j, r) && Defines(items, i, r);
      MarkedIfLiveBy(items, live, n - 1, j);
    }
  }

  /** Seed with the side-effecting instructions. */
  method SeedLive(items: seq<Item>) returns (live: set<nat>, worklist: seq<nat>)
    ensures Marking(items, live, worklist) && |worklist| == |live|
    ensures forall i | i in live :: i < |items|
  {
    live, worklist := {}, [];
    for k := 0 to |items|
      invariant |worklist| == |live|
      invariant forall i: nat :: i in live <==> i < k && items[i].Code? && IsSideEffecting(items[i].inst)
      invariant forall i: nat :: i in worklist <==> i in live
    {
      if items[k].Code? && IsSideEffecting(items[k].inst) {
        live, worklist := live + {k}, worklist + [k];
      }
    }
    forall i | i in live ensures Live(items, i) {
      assert LiveBy(items, 0, i);
    }
  }

  /** The definitions of everything instruction `idx` reads. */
  method DefinitionsFor(items: seq<Item>, defMap: map<Reg, seq<nat>>, idx: nat) returns (found: seq<nat>)
    requires idx < |items| && items[idx].Code?
    requires forall r: Reg, i: nat :: i in DefsOf(defMap, r) <==> Defines(items, i, r)
    ensures forall i: nat :: i in found <==> exists r: Reg :: ReadsAt(items, idx, r) && Defines(items, i, r)
  {
    found := [];
    var todo := ReadRegisters(items[idx].inst);
    while todo != {}
      invariant todo <= ReadRegisters(items[idx].inst)
      invariant forall i: nat :: i in found
                  <==> exists r: Reg :: r !in todo && ReadsAt(items, idx, r) && Defines(items, i, r)
      decreases todo
    {
      var r :| r in todo;
      found := found + DefsOf(defMap, r);
      todo := todo - {r};
    }
  }

  /** Popping `idx` and marking the definitions it reads keeps the bookkeeping right. */
  lemma MarkingNext(items: seq<Item>, before: set<nat>, rest: seq<nat>, idx: nat, found: seq<nat>,
                    live: set<nat>, worklist: seq<nat>)
    requires Marking(items, before, rest + [idx])
    requires forall i: nat :: i in found <==> exists r: Reg :: ReadsAt(items, idx, r) && Defines(items, i, r)
    requires live == before + (set i | i in found)
    requires forall i: nat :: i in worklist <==> i in rest || (i in found && i !in before)
    ensures Marking(items, live, worklist)
  {
    hide ReadsAt, Defines, Live;
    assert idx in rest + [idx];
    assert forall j | j in rest :: j in rest + [idx];
    forall i | i in live ensures Live(items, i) {
      if i !in before {
        var r: Reg :| ReadsAt(items, idx, r) && Defines(items, i, r);
        LiveThrough(items, idx, r, i);
      }
    }
    forall j: nat, i: nat, r: Reg | j in live && j !in worklist && ReadsAt(items, j, r) && Defines(items, i, r)
      ensures i in live
    {
      assert j in before;
      if j != idx {
        assert j !in rest + [idx];
      }
    }
  }

  lemma AllMarked(items: seq<Item>, live: set<nat>)
    requires Marking(items, live, [])
    ensures live == LiveSet(items)
  {
    forall i: nat | Live(items, i) ensures i in live {
      var n: nat :| LiveBy(items, n, i);
      MarkedIfLiveBy(items, live, n, i);
    }
  }

  /** With more marked, less is left to mark. */
  lemma LessLeft(items: seq<Item>, before: set<nat>, live: set<nat>)
    requires before <= live <= LiveSet(items)
    ensures live == before || LiveSet(items) - live < LiveSet(items) - before
  {
    hide LiveSet;
    if live != before {
      var i :| i in live && i !in before;
      assert i in LiveSet(items) - before && i !in LiveSet(items) - live;
    }
  }

  /** The worklist loop: exactly the live instructions end up marked. */
  method PropagateLive(items: seq<Item>, defMap: map<Reg, seq<nat>>) returns (live: set<nat>)
    requires forall r: Reg, i: nat :: i in DefsOf(defMap, r) <==> Defines(items, i, r)
    ensures live == LiveSet(items)
  {
    hide ReadsAt, Defines, Live, LiveSet;
    var worklist;
    live, worklist := SeedLive(items);
    while worklist != []
      invariant Marking(items, live, worklist)
      decreases LiveSet(items) - live, |worklist|
    {
      var idx := worklist[|worklist| - 1];
      var rest := worklist[..|worklist| - 1];
      assert worklist == rest + [idx];
      assert idx in worklist;
      LiveIsCode(items, idx);
      var found := DefinitionsFor(items, defMap, idx);
      ghost var before := live;
      live, worklist := MarkAll(live, rest, found);
      MarkingNext(items, before, rest, idx, found, live, worklist);
      LessLeft(items, before, live);
    }
    AllMarked(items, live);
  }

  lemma LiveIsCode(items: seq<Item>, i: nat)
    requires Live(items, i)
    ensures i < |items| && items[i].Code?
  {
  }

  /** `GlobalDeadCodeEliminationPass.run` on the items of a program. */
  method EliminateDeadCode(items: seq<Item>) returns (kept: seq<Item>)
    ensures kept == Reduced(items)
  {
    var defMap := BuildDefMap(items);
    var live := PropagateLive(items, defMap);
    kept := [];
    for i := 0 to |items|
      invariant kept == Kept(items, live, i)
    {
      if items[i].Label? || i in live {
        kept := kept + [items[i]];
      }
    }
  }
}
