/** The hull of all loops: the items register allocation keeps loop registers alive for. */
module LoopRange {
  import opened Wrappers
  import F = FlowGraph
  import C = CfgBuilder

  /** Item `i` lies in a block of one of the loops. */
  ghost predicate InLoops(cfg: C.Cfg, loops: seq<F.NaturalLoop>, i: nat) {
    exists k: nat, b: nat :: InLoop(cfg, loops, k, b, i)
  }

  predicate InLoop(cfg: C.Cfg, loops: seq<F.NaturalLoop>, k: nat, b: nat, i: nat) {
    k < |loops| && b < |cfg.blocks| && b in loops[k].blocks && i in cfg.blocks[b].itemIndices
  }

  /** Item `i` lies in one of the first `n` blocks, as a block of loop `k`. */
  ghost predicate InBlocks(cfg: C.Cfg, loops: seq<F.NaturalLoop>, k: nat, n: nat, i: nat) {
    exists b: nat :: b < n && InLoop(cfg, loops, k, b, i)
  }

  lemma NextBlock(cfg: C.Cfg, loops: seq<F.NaturalLoop>, k: nat, n: nat, i: nat)
    ensures InBlocks(cfg, loops, k, n + 1, i) <==> InBlocks(cfg, loops, k, n, i) || InLoop(cfg, loops, k, n, i)
  {
    if InLoop(cfg, loops, k, n, i) {
      assert n < n + 1;
    }
  }

  /** The least range around the items of the given blocks and indices seen so far. */
  ghost predicate IsHull(seen: iset<nat>, hull: Option<(nat, nat)>) {
    match hull
    case None => seen == iset{}
    case Some(r) => r.0 in seen && r.1 in seen && forall i | i in seen :: r.0 <= i <= r.1
  }

  function Widen(hull: Option<(nat, nat)>, i: nat): Option<(nat, nat)> {
    match hull
    case None => Some((i, i))
    case Some(r) => Some((if i < r.0 then i else r.0, if i > r.1 then i else r.1))
  }

  ghost function Of(indices: seq<nat>): iset<nat> {
    iset i: nat | i in indices
  }

  lemma OneMore(indices: seq<nat>, j: nat)
    requires j < |indices|
    ensures Of(indices[..j + 1]) == Of(indices[..j]) + iset{indices[j]}
  {
    assert indices[..j + 1] == indices[..j] + [indices[j]];
  }

  /** One block of a loop. */
  method WidenByBlock(indices: seq<nat>, hull: Option<(nat, nat)>, ghost seen: iset<nat>)
    returns (wider: Option<(nat, nat)>)
    requires IsHull(seen, hull)
    ensures IsHull(seen + Of(indices), wider)
  {
    wider := hull;
    assert seen + Of(indices[..0]) == seen;
    for j := 0 to |indices|
      invariant IsHull(seen + Of(indices[..j]), wider)
    {
      OneMore(indices, j);
      assert seen + Of(indices[..j + 1]) == seen + Of(indices[..j]) + iset{indices[j]};
      wider := Widen(wider, indices[j]);
    }
    assert indices[..|indices|] == indices;
  }

  /** `_compute_loop_range`. */
  method ComputeLoopRange(cfg: C.Cfg, loops: seq<F.NaturalLoop>) returns (hull: Option<(nat, nat)>)
    ensures hull.None? <==> forall i: nat :: !InLoops(cfg, loops, i)
    ensures hull.Some? ==>
              && InLoops(cfg, loops, hull.value.0) && InLoops(cfg, loops, hull.value.1)
              && forall i: nat | InLoops(cfg, loops, i) :: hull.value.0 <= i <= hull.value.1
  {
    hull := None;
    ghost var seen: iset<nat> := iset{};
    for k := 0 to |loops|
      invariant IsHull(seen, hull)
      invariant forall i: nat :: i in seen <==> exists k': nat, b: nat :: k' < k && InLoop(cfg, loops, k', b, i)
    {
      ghost var before := seen;
      for b := 0 to |cfg.blocks|
        invariant IsHull(seen, hull)
        invariant forall i: nat :: i in seen <==> i in before || InBlocks(cfg, loops, k, b, i)
      {
        forall i: nat ensures InBlocks(cfg, loops, k, b + 1, i) <==>
            InBlocks(cfg, loops, k, b, i) || InLoop(cfg, loops, k, b, i) {
          NextBlock(cfg, loops, k, b, i);
        }
        if b in loops[k].blocks {
          hull := WidenByBlock(cfg.blocks[b].itemIndices, hull, seen);
          seen := seen + Of(cfg.blocks[b].itemIndices);
        }
      }
    }
    assert forall i: nat :: i in seen <==> InLoops(cfg, loops, i);
  }
}
