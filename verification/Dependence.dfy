/** What the list scheduler tracks, the order it issues a block in, and what that order guarantees. */
module Dependence {
  import opened Isa
  import opened Lists
  import opened Reorder

  datatype Kind = Loads | Computes | Stores | Controls

  function KindOf(inst: Inst): Kind {
    match inst.opcode
    case BR | BRX | HALT | CALL | RET => Controls
    case ST => Stores
    case LD => Loads
    case _ => Computes
  }

  predicate HasDest(inst: Inst) {
    KindOf(inst) != Stores && KindOf(inst) != Controls
  }

  /** Registers the scheduler believes are read: every operand field that names one, used or not. */
  predicate Reads(inst: Inst, r: nat) {
    r <= 255 && (r == inst.src1 || r == inst.src2 || r == inst.src3)
  }

  /** Registers the scheduler believes are written: one number, shared by registers and predicates. */
  predicate Writes(inst: Inst, r: nat) {
    HasDest(inst) && inst.dest == r
  }

  function Priority(insts: seq<Inst>, i: nat): nat
    requires i < |insts|
  {
    match KindOf(insts[i])
    case Loads => 0
    case Computes => 1
    case Stores => 2 + i
    case Controls => 1000 + i
  }

  // ----- the dependence graph -----

  predicate NoWriteBetween(insts: seq<Inst>, i: nat, j: nat, r: nat)
    requires j <= |insts|
  {
    forall k | i < k < j :: !Writes(insts[k], r)
  }

  predicate NoStoreBetween(insts: seq<Inst>, i: nat, j: nat)
    requires j <= |insts|
  {
    forall k | i < k < j :: KindOf(insts[k]) != Stores
  }

  /** `j` reads a register whose closest preceding write is `i`. */
  predicate RawEdge(insts: seq<Inst>, i: nat, j: nat) {
    && i < j < |insts|
    && Reads(insts[j], insts[i].dest) && Writes(insts[i], insts[i].dest)
    && NoWriteBetween(insts, i, j, insts[i].dest)
  }

  /** `j` is the first write after `i` to a register that `i` reads. */
  predicate WarEdge(insts: seq<Inst>, i: nat, j: nat) {
    && i < j < |insts|
    && HasDest(insts[j]) && Reads(insts[i], insts[j].dest)
    && NoWriteBetween(insts, i, j, insts[j].dest)
  }

  /** `j` is the next write to the register `i` writes. */
  predicate WawEdge(insts: seq<Inst>, i: nat, j: nat) {
    && i < j < |insts|
    && HasDest(insts[j]) && Writes(insts[i], insts[j].dest)
    && NoWriteBetween(insts, i, j, insts[j].dest)
  }

  /** `j` is a load and `i` the last store before it. */
  predicate BarrierEdge(insts: seq<Inst>, i: nat, j: nat) {
    && i < j < |insts|
    && KindOf(insts[j]) == Loads && KindOf(insts[i]) == Stores
    && NoStoreBetween(insts, i, j)
  }

  predicate Edge(insts: seq<Inst>, i: nat, j: nat) {
    RawEdge(insts, i, j) || WarEdge(insts, i, j) || WawEdge(insts, i, j) || BarrierEdge(insts, i, j)
  }

  // ----- greedy issue -----

  ghost predicate Ready(insts: seq<Inst>, issued: seq<nat>, j: nat) {
    && j < |insts| && j !in issued
    && forall i: nat | Edge(insts, i, j) :: i in issued
  }

  /** The heap order: smaller priority first, then smaller index. */
  predicate NoWorse(insts: seq<Inst>, i: nat, j: nat)
    requires i < |insts| && j < |insts|
  {
    Priority(insts, i) < Priority(insts, j) || (Priority(insts, i) == Priority(insts, j) && i <= j)
  }

  ghost predicate IsBest(insts: seq<Inst>, issued: seq<nat>, i: nat) {
    Ready(insts, issued, i) && forall j: nat | Ready(insts, issued, j) :: NoWorse(insts, i, j)
  }

  /** The order in which extract-min on the ready instructions issues the block. */
  ghost predicate Greedy(insts: seq<Inst>, order: seq<nat>) {
    && (forall k | 0 <= k < |order| :: IsBest(insts, order[..k], order[k]))
    && forall j: nat :: !Ready(insts, order, j)
  }

  lemma {:induction false} GreedyPrefixUnique(insts: seq<Inst>, o1: seq<nat>, o2: seq<nat>, n: nat)
    requires Greedy(insts, o1) && Greedy(insts, o2) && n <= |o1| && n <= |o2|
    ensures o1[..n] == o2[..n]
  {
    if n > 0 {
      GreedyPrefixUnique(insts, o1, o2, n - 1);
      assert IsBest(insts, o1[..n - 1], o1[n - 1]) && IsBest(insts, o2[..n - 1], o2[n - 1]);
      assert o1[..n] == o1[..n - 1] + [o1[n - 1]] && o2[..n] == o2[..n - 1] + [o2[n - 1]];
    }
  }

  /** The smallest unissued index is always ready: every dependence points forwards. */
  lemma {:induction false} SmallestUnissuedReady(insts: seq<Inst>, issued: seq<nat>, a: nat) returns (m: nat)
    requires a < |insts| && a !in issued
    ensures m <= a && Ready(insts, issued, m)
    decreases a
  {
    if i: nat :| i < a && i !in issued {
      m := SmallestUnissuedReady(insts, issued, i);
    } else {
      m := a;
    }
  }

  /** Every instruction is issued exactly once: the graph always resolves. */
  lemma GreedyIssuesAll(insts: seq<Inst>, order: seq<nat>)
    requires Greedy(insts, order)
    ensures |order| == |insts| && Within(insts, order) && Distinct(order)
    ensures SameElements(UpTo(|insts|), order)
  {
    forall p, q | 0 <= p < q < |order| ensures order[p] != order[q] {
      assert IsBest(insts, order[..q], order[q]);
      assert order[..q][p] == order[p];
    }
    forall k | 0 <= k < |order| ensures order[k] < |insts| {
      assert IsBest(insts, order[..k], order[k]);
    }
    forall i: nat ensures i in order <==> i < |insts| {
      if i < |insts| && i !in order {
        var m := SmallestUnissuedReady(insts, order, i);
        assert false;
      }
    }
    DistinctLength(order, |insts|);
    var all := UpTo(|insts|);
    forall i: nat ensures i in all <==> i in order {
      assert i < |insts| ==> all[i] in all;
    }
  }

  /** Scheduling is deterministic. */
  lemma GreedyUnique(insts: seq<Inst>, o1: seq<nat>, o2: seq<nat>)
    requires Greedy(insts, o1) && Greedy(insts, o2)
    ensures o1 == o2
  {
    GreedyIssuesAll(insts, o1);
    GreedyIssuesAll(insts, o2);
    GreedyPrefixUnique(insts, o1, o2, |o1|);
    assert o1[..|o1|] == o1 && o2[..|o2|] == o2;
  }

  // ----- what precedes what -----

  /** `i` is issued before `j`. */
  ghost predicate Precedes(order: seq<nat>, i: nat, j: nat) {
    forall k | 0 <= k < |order| && order[k] == j :: i in order[..k]
  }

  lemma PrecedesTransitive(order: seq<nat>, i: nat, j: nat, l: nat)
    requires Precedes(order, i, j) && Precedes(order, j, l)
    ensures Precedes(order, i, l)
  {
    forall k | 0 <= k < |order| && order[k] == l ensures i in order[..k] {
      var k' :| 0 <= k' < k && order[..k][k'] == j;
      assert order[k'] == j;
      var k'' :| 0 <= k'' < k' && order[..k'][k''] == i;
      assert order[..k][k''] == i;
    }
  }

  lemma EdgePrecedes(insts: seq<Inst>, order: seq<nat>, i: nat, j: nat)
    requires Greedy(insts, order) && Edge(insts, i, j)
    ensures Precedes(order, i, j)
  {
    forall k | 0 <= k < |order| && order[k] == j ensures i in order[..k] {
      assert IsBest(insts, order[..k], order[k]);
    }
  }

  /** Branches only at the end of the block. */
  predicate ControlLast(insts: seq<Inst>) {
    forall i | 0 <= i < |insts| - 1 :: KindOf(insts[i]) != Controls
  }

  /** The two share a number that one of them is believed to write. */
  predicate Tracked(a: Inst, x: Inst) {
    || (HasDest(a) && (Reads(x, a.dest) || Writes(x, a.dest)))
    || (HasDest(x) && Reads(a, x.dest))
  }
}
