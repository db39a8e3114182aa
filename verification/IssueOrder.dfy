/** The greedy issue order in closed form: a sort, known before anything is issued. */
module IssueOrder {
  import opened Isa
  import opened Independence
  import opened Lists
  import opened Dependence

  // ----- the sort key -----

  predicate Fence(insts: seq<Inst>, i: nat)
    requires i < |insts|
  {
    KindOf(insts[i]) == Stores || KindOf(insts[i]) == Controls
  }

  /** The last store an instruction has to wait for, through any chain of dependences; -1 if there is none. */
  function Level(insts: seq<Inst>, i: nat): (l: int)
    requires i < |insts|
    ensures -1 <= l <= i
    decreases i, i + 1
  {
    if Fence(insts, i) then i else LevelAmong(insts, i, i)
  }

  function LevelAmong(insts: seq<Inst>, i: nat, n: nat): (l: int)
    requires n <= i < |insts|
    ensures -1 <= l < i
    decreases i, n
  {
    if n == 0 then -1
    else
      var rest := LevelAmong(insts, i, n - 1);
      if Edge(insts, n - 1, i) && Level(insts, n - 1) > rest then Level(insts, n - 1) else rest
  }

  /** Among what waits for that same store, the last compute instruction it has to wait for; -1 if there is none. */
  function Rank(insts: seq<Inst>, i: nat): (c: int)
    requires i < |insts|
    ensures -1 <= c <= i
    decreases i, i + 1
  {
    match KindOf(insts[i])
    case Computes => i
    case Loads => RankAmong(insts, i, i)
    case _ => -1
  }

  function RankAmong(insts: seq<Inst>, i: nat, n: nat): (c: int)
    requires n <= i < |insts|
    ensures -1 <= c < i
    decreases i, n
  {
    if n == 0 then -1
    else
      var rest := RankAmong(insts, i, n - 1);
      if Edge(insts, n - 1, i) && Level(insts, n - 1) == Level(insts, i) && Rank(insts, n - 1) > rest
      then Rank(insts, n - 1) else rest
  }

  predicate IsLoad(insts: seq<Inst>, i: nat)
    requires i < |insts|
  {
    KindOf(insts[i]) == Loads
  }

  /** By level, then rank, loads behind what they wait for, then by index. */
  predicate Before(insts: seq<Inst>, i: nat, j: nat)
    requires i < |insts| && j < |insts|
  {
    || Level(insts, i) < Level(insts, j)
    || (&& Level(insts, i) == Level(insts, j)
        && (|| Rank(insts, i) < Rank(insts, j)
            || (&& Rank(insts, i) == Rank(insts, j)
                && (|| (!IsLoad(insts, i) && IsLoad(insts, j))
                    || (IsLoad(insts, i) == IsLoad(insts, j) && i < j)))))
  }

  lemma BeforeTransitive(insts: seq<Inst>, i: nat, j: nat, k: nat)
    requires i < |insts| && j < |insts| && k < |insts| && Before(insts, i, j) && Before(insts, j, k)
    ensures Before(insts, i, k)
  {
    hide Level, Rank, IsLoad;
  }

  lemma BeforeTotal(insts: seq<Inst>, i: nat, j: nat)
    requires i < |insts| && j < |insts|
    ensures Before(insts, i, j) <==> i != j && !Before(insts, j, i)
  {
    hide Level, Rank, IsLoad;
  }

  // ----- dependences go up in the key -----

  lemma {:induction false} LevelAtLeast(insts: seq<Inst>, i: nat, n: nat, e: nat)
    requires e < n <= i < |insts| && Edge(insts, e, i)
    ensures Level(insts, e) <= LevelAmong(insts, i, n)
    decreases n
  {
    hide Edge;
    if e < n - 1 {
      LevelAtLeast(insts, i, n - 1, e);
    }
  }

  lemma {:induction false} RankAtLeast(insts: seq<Inst>, i: nat, n: nat, e: nat)
    requires e < n <= i < |insts| && Edge(insts, e, i) && Level(insts, e) == Level(insts, i)
    ensures Rank(insts, e) <= RankAmong(insts, i, n)
    decreases n
  {
    hide Edge, Level;
    if e < n - 1 {
      RankAtLeast(insts, i, n - 1, e);
    }
  }

  lemma EdgeForwards(insts: seq<Inst>, e: nat, i: nat)
    requires Edge(insts, e, i)
    ensures e < i < |insts|
  {
  }

  lemma EdgeBefore(insts: seq<Inst>, e: nat, i: nat)
    requires Edge(insts, e, i)
    ensures e < i < |insts| && Before(insts, e, i)
  {
    EdgeForwards(insts, e, i);
    hide Edge;
    if !Fence(insts, i) {
      LevelAtLeast(insts, i, i, e);
      if Level(insts, e) == Level(insts, i) && IsLoad(insts, i) {
        RankAtLeast(insts, i, i, e);
      }
    }
    hide LevelAmong, RankAmong;
  }

  // ----- what a key is witnessed by -----

  lemma {:induction false} LevelFrom(insts: seq<Inst>, i: nat, n: nat) returns (e: nat)
    requires n <= i < |insts| && LevelAmong(insts, i, n) >= 0
    ensures e < n && Edge(insts, e, i) && Level(insts, e) == LevelAmong(insts, i, n)
    decreases n
  {
    hide Edge, Level;
    e := n - 1;
    if !(Edge(insts, n - 1, i) && Level(insts, n - 1) > LevelAmong(insts, i, n - 1)) {
      e := LevelFrom(insts, i, n - 1);
    }
  }

  lemma {:induction false} RankFrom(insts: seq<Inst>, i: nat, n: nat) returns (e: nat)
    requires n <= i < |insts| && RankAmong(insts, i, n) >= 0
    ensures e < n && Edge(insts, e, i) && Level(insts, e) == Level(insts, i) && Rank(insts, e) == RankAmong(insts, i, n)
    decreases n
  {
    hide Edge, Level, Rank;
    e := n - 1;
    if !(Edge(insts, n - 1, i) && Level(insts, n - 1) == Level(insts, i)
         && Rank(insts, n - 1) > RankAmong(insts, i, n - 1)) {
      e := RankFrom(insts, i, n - 1);
    }
  }

  /** The level is that of a store, which is issued before. */
  lemma {:induction false} LevelIssued(insts: seq<Inst>, order: seq<nat>, i: nat)
    requires Greedy(insts, order) && ControlLast(insts) && i < |insts| && !Fence(insts, i) && Level(insts, i) >= 0
    ensures Level(insts, i) < i && KindOf(insts[Level(insts, i)]) == Stores && Precedes(order, Level(insts, i), i)
    decreases i
  {
    hide Greedy, Edge, Precedes;
    var e := LevelFrom(insts, i, i);
    EdgePrecedes(insts, order, e, i);
    if !Fence(insts, e) {
      LevelIssued(insts, order, e);
      PrecedesTransitive(order, Level(insts, e), e, i);
    }
  }

  /** The rank is that of a compute instruction of the same level, which is issued before a load of that rank. */
  lemma {:induction false} RankIssued(insts: seq<Inst>, order: seq<nat>, i: nat)
    requires Greedy(insts, order) && i < |insts| && IsLoad(insts, i) && Rank(insts, i) >= 0
    ensures var c := Rank(insts, i);
            c < i && KindOf(insts[c]) == Computes && Level(insts, c) == Level(insts, i) && Precedes(order, c, i)
    decreases i
  {
    hide Greedy, Edge, Precedes, Level;
    var e := RankFrom(insts, i, i);
    EdgePrecedes(insts, order, e, i);
    if IsLoad(insts, e) {
      RankIssued(insts, order, e);
      PrecedesTransitive(order, Rank(insts, e), e, i);
    }
  }

  // ----- the order is the sort -----

  /** Something that is ready, on the way to `i`, as long as `i` waits. */
  lemma {:induction false} ReadyOnTheWay(insts: seq<Inst>, issued: seq<nat>, i: nat) returns (m: nat)
    requires i < |insts| && i !in issued
    ensures m < |insts| && Ready(insts, issued, m) && (m == i || Before(insts, m, i))
    decreases i
  {
    hide Edge, Before;
    m := i;
    if e: nat :| Edge(insts, e, i) && e !in issued {
      EdgeBefore(insts, e, i);
      m := ReadyOnTheWay(insts, issued, e);
      if m != e {
        BeforeTransitive(insts, m, e, i);
      }
    }
  }

  /** What `j` waits for: the store of its level, or, if `j` is a load, the compute instruction of its rank. */
  predicate WaitsFor(insts: seq<Inst>, w: nat, j: nat)
    requires j < |insts|
  {
    && w < j
    && (|| (!Fence(insts, j) && w == Level(insts, j) && KindOf(insts[w]) == Stores)
        || (IsLoad(insts, j) && w == Rank(insts, j) && KindOf(insts[w]) == Computes
            && Level(insts, w) == Level(insts, j)))
  }

  lemma WaitsForIssued(insts: seq<Inst>, order: seq<nat>, w: nat, j: nat)
    requires Greedy(insts, order) && ControlLast(insts) && j < |insts| && WaitsFor(insts, w, j)
    ensures Precedes(order, w, j)
  {
    hide Greedy, Precedes, ControlLast, Level, Rank;
    if !Fence(insts, j) && w == Level(insts, j) {
      LevelIssued(insts, order, j);
    } else {
      RankIssued(insts, order, j);
    }
  }

  /** Before `j`, but no better in the heap: then not behind what `j` waits for. */
  lemma NotBehind(insts: seq<Inst>, order: seq<nat>, m: nat, j: nat) returns (w: nat)
    requires Greedy(insts, order) && ControlLast(insts) && m < |insts| && j < |insts|
    requires Before(insts, m, j) && NoWorse(insts, j, m)
    ensures WaitsFor(insts, w, j) && (m == w || Before(insts, m, w))
  {
    if !Fence(insts, j) && Level(insts, j) >= 0 {
      LevelIssued(insts, order, j);
    }
    if IsLoad(insts, j) && Rank(insts, j) >= 0 {
      RankIssued(insts, order, j);
    }
    hide Greedy, Precedes, LevelAmong, RankAmong;
    if Level(insts, m) < Level(insts, j) || Fence(insts, m) {
      w := Level(insts, j);
    } else {
      w := Rank(insts, j);
    }
  }

  /** What is before `j` and no better in the heap is issued before `j`. */
  lemma {:induction false} NoBetterIssued(insts: seq<Inst>, order: seq<nat>, m: nat, j: nat)
    requires Greedy(insts, order) && ControlLast(insts) && m < |insts| && j < |insts|
    requires Before(insts, m, j) && NoWorse(insts, j, m)
    ensures Precedes(order, m, j)
    decreases j, 0
  {
    hide Before, NoWorse, ControlLast, WaitsFor, Greedy, Precedes;
    var w := NotBehind(insts, order, m, j);
    WaitsForIssued(insts, order, w, j);
    WaitsForEarlier(insts, w, j);
    if m != w {
      IssuedInOrder(insts, order, m, w);
      PrecedesTransitive(order, m, w, j);
    }
  }

  lemma WaitsForEarlier(insts: seq<Inst>, w: nat, j: nat)
    requires j < |insts| && WaitsFor(insts, w, j)
    ensures w < j
  {
  }

  lemma {:induction false} ReadyNotBefore(insts: seq<Inst>, order: seq<nat>, k: nat, m: nat)
    requires Greedy(insts, order) && ControlLast(insts) && k < |order| && Ready(insts, order[..k], m)
    ensures order[k] < |insts| && !Before(insts, m, order[k])
    decreases order[k], 1
  {
    hide Before, ControlLast;
    assert IsBest(insts, order[..k], order[k]);
    if Before(insts, m, order[k]) {
      NoBetterIssued(insts, order, m, order[k]);
    }
  }

  lemma {:induction false} IssuedBehind(insts: seq<Inst>, order: seq<nat>, k: nat, i: nat)
    requires Greedy(insts, order) && ControlLast(insts) && k < |order| && i < |insts|
    requires order[k] < |insts| && Before(insts, i, order[k])
    ensures i in order[..k]
    decreases order[k], 2
  {
    hide Before, ControlLast, Ready, Greedy;
    if i !in order[..k] {
      var m := ReadyOnTheWay(insts, order[..k], i);
      if m != i {
        BeforeTransitive(insts, m, i, order[k]);
      }
      ReadyNotBefore(insts, order, k, m);
    }
  }

  /** The scheduler issues a block in the order of the key. */
  lemma {:induction false} IssuedInOrder(insts: seq<Inst>, order: seq<nat>, i: nat, j: nat)
    requires Greedy(insts, order) && ControlLast(insts) && i < |insts| && j < |insts| && Before(insts, i, j)
    ensures Precedes(order, i, j)
    decreases j, 3
  {
    hide Before, ControlLast, Greedy;
    forall k | 0 <= k < |order| && order[k] == j ensures i in order[..k] {
      IssuedBehind(insts, order, k, i);
    }
  }

  /** Where both stand decides. */
  lemma PrecedesAt(order: seq<nat>, p: nat, q: nat)
    requires Distinct(order) && p < |order| && q < |order|
    ensures Precedes(order, order[p], order[q]) <==> p < q
  {
    if p < q {
      forall k | 0 <= k < |order| && order[k] == order[q] ensures order[p] in order[..k] {
        assert k == q;
        assert order[..q][p] == order[p];
      }
    } else {
      assert order[p] !in order[..q] by {
        assert forall r | 0 <= r < q :: order[..q][r] == order[r] && order[r] != order[p];
      }
    }
  }

  lemma Placed(insts: seq<Inst>, order: seq<nat>, i: nat) returns (p: nat)
    requires Greedy(insts, order) && i < |insts|
    ensures Distinct(order) && p < |order| && order[p] == i
  {
    GreedyIssuesAll(insts, order);
    assert UpTo(|insts|)[i] in UpTo(|insts|);
    p :| 0 <= p < |order| && order[p] == i;
  }

  /** In closed form: one instruction is issued before another iff its key is smaller. */
  lemma IssueOrderIsSorted(insts: seq<Inst>, order: seq<nat>, i: nat, j: nat)
    requires Greedy(insts, order) && ControlLast(insts) && i < |insts| && j < |insts|
    ensures Precedes(order, i, j) <==> Before(insts, i, j)
  {
    hide Before, ControlLast, Precedes;
    BeforeTotal(insts, i, j);
    var p := Placed(insts, order, i);
    var q := Placed(insts, order, j);
    hide Greedy;
    PrecedesAt(order, p, q);
    PrecedesAt(order, q, p);
    if Before(insts, i, j) {
      IssuedInOrder(insts, order, i, j);
    } else if i != j {
      IssuedInOrder(insts, order, j, i);
    }
  }

  // ----- what the key says of stores, loads and compute instructions -----

  lemma FenceBefore(insts: seq<Inst>, a: nat, x: nat)
    requires a < x < |insts| && Fence(insts, x)
    ensures Before(insts, a, x)
  {
  }

  predicate NoStoreUpTo(insts: seq<Inst>, a: nat)
    requires a < |insts|
  {
    forall s | 0 <= s <= a :: KindOf(insts[s]) != Stores
  }

  lemma {:induction false} NoStoreNoLevel(insts: seq<Inst>, a: nat)
    requires ControlLast(insts) && a < |insts| - 1 && NoStoreUpTo(insts, a)
    ensures Level(insts, a) == -1
    decreases a
  {
    if Level(insts, a) >= 0 {
      var e := LevelFrom(insts, a, a);
      EdgeForwards(insts, e, a);
      NoStoreNoLevel(insts, e);
    }
    hide Edge, LevelAmong;
  }

  lemma ComputeBefore(insts: seq<Inst>, a: nat, x: nat)
    requires ControlLast(insts) && a < x < |insts| && KindOf(insts[x]) == Computes && NoStoreUpTo(insts, a)
    ensures Before(insts, a, x)
  {
    NoStoreNoLevel(insts, a);
    hide LevelAmong, RankAmong;
  }

  lemma {:induction false} LoadBefore(insts: seq<Inst>, a: nat, s: nat, x: nat)
    requires a <= s < x < |insts| && KindOf(insts[x]) == Loads && KindOf(insts[s]) == Stores
    ensures Before(insts, a, x)
    decreases x - s
  {
    hide Before;
    if s' :| s < s' < x && KindOf(insts[s']) == Stores {
      LoadBefore(insts, a, s', x);
    } else {
      assert BarrierEdge(insts, s, x);
      EdgeBefore(insts, s, x);
      if a < s {
        FenceBefore(insts, a, s);
        BeforeTransitive(insts, a, s, x);
      }
    }
  }

  /** Memory order without edges: a store, or the final branch, is issued after every smaller index. */
  lemma StoreIssuedLast(insts: seq<Inst>, order: seq<nat>, a: nat, x: nat)
    requires Greedy(insts, order) && ControlLast(insts)
    requires a < x < |insts| && (KindOf(insts[x]) == Stores || KindOf(insts[x]) == Controls)
    ensures Precedes(order, a, x)
  {
    hide Before, Greedy, ControlLast, Precedes;
    FenceBefore(insts, a, x);
    IssuedInOrder(insts, order, a, x);
  }

  /** A compute instruction only ever overtakes from behind a waiting store. */
  lemma ComputeKeepsOrder(insts: seq<Inst>, order: seq<nat>, a: nat, x: nat)
    requires Greedy(insts, order) && ControlLast(insts)
    requires a < x < |insts| && KindOf(insts[x]) == Computes && NoStoreUpTo(insts, a)
    ensures Precedes(order, a, x)
  {
    hide Before, Greedy, ControlLast, Precedes, NoStoreUpTo;
    ComputeBefore(insts, a, x);
    IssuedInOrder(insts, order, a, x);
  }

  /** A load stays behind each earlier store, and so behind everything in front of that store. */
  lemma LoadKeepsOrder(insts: seq<Inst>, order: seq<nat>, a: nat, s: nat, x: nat)
    requires Greedy(insts, order) && ControlLast(insts)
    requires a <= s < x < |insts| && KindOf(insts[x]) == Loads && KindOf(insts[s]) == Stores
    ensures Precedes(order, a, x)
  {
    hide Before, Greedy, ControlLast, Precedes;
    LoadBefore(insts, a, s, x);
    IssuedInOrder(insts, order, a, x);
  }

  // ----- tracked conflicts go up in the key -----

  lemma {:induction false} WawBefore(insts: seq<Inst>, i: nat, j: nat, r: nat)
    requires i < j < |insts| && Writes(insts[i], r) && Writes(insts[j], r)
    ensures Before(insts, i, j)
    decreases j - i
  {
    hide Before;
    if k :| i < k < j && Writes(insts[k], r) {
      WawBefore(insts, i, k, r);
      WawBefore(insts, k, j, r);
      BeforeTransitive(insts, i, k, j);
    } else {
      assert WawEdge(insts, i, j);
      EdgeBefore(insts, i, j);
    }
  }

  lemma {:induction false} RawBefore(insts: seq<Inst>, i: nat, j: nat, r: nat)
    requires i < j < |insts| && Writes(insts[i], r) && Reads(insts[j], r)
    ensures Before(insts, i, j)
    decreases j - i
  {
    hide Before;
    if k :| i < k < j && Writes(insts[k], r) {
      WawBefore(insts, i, k, r);
      RawBefore(insts, k, j, r);
      BeforeTransitive(insts, i, k, j);
    } else {
      assert RawEdge(insts, i, j);
      EdgeBefore(insts, i, j);
    }
  }

  lemma {:induction false} WarBefore(insts: seq<Inst>, i: nat, j: nat, r: nat)
    requires i < j < |insts| && Reads(insts[i], r) && Writes(insts[j], r)
    ensures Before(insts, i, j)
    decreases j - i
  {
    hide Before;
    if k :| i < k < j && Writes(insts[k], r) {
      WarBefore(insts, i, k, r);
      WawBefore(insts, k, j, r);
      BeforeTransitive(insts, i, k, j);
    } else {
      assert WarEdge(insts, i, j);
      EdgeBefore(insts, i, j);
    }
  }

  lemma TrackedBefore(insts: seq<Inst>, a: nat, x: nat)
    requires a < x < |insts| && Tracked(insts[a], insts[x])
    ensures Before(insts, a, x)
  {
    hide Before;
    if HasDest(insts[a]) && Reads(insts[x], insts[a].dest) {
      RawBefore(insts, a, x, insts[a].dest);
    } else if HasDest(insts[a]) && Writes(insts[x], insts[a].dest) {
      WawBefore(insts, a, x, insts[a].dest);
    } else {
      WarBefore(insts, a, x, insts[x].dest);
    }
  }

  // ----- exactly what is reordered -----

  /** Every pair that really interferes keeps its order, through guards and pair halves too. */
  predicate Schedulable(insts: seq<Inst>) {
    && ControlLast(insts)
    && forall a, x | 0 <= a < x < |insts| && !Disjoint(insts[a], insts[x]) :: Before(insts, a, x)
  }

  /** A block keeps the order of its interfering pairs exactly if it is schedulable. */
  lemma InterferenceKeptExactly(insts: seq<Inst>, order: seq<nat>)
    requires Greedy(insts, order) && ControlLast(insts)
    ensures (forall a: nat, x: nat | a < x < |insts| && !Disjoint(insts[a], insts[x]) :: Precedes(order, a, x))
            <==> Schedulable(insts)
  {
    hide Greedy, Before, Precedes, Disjoint, ControlLast;
    forall a: nat, x: nat | a < x < |insts| ensures Precedes(order, a, x) <==> Before(insts, a, x) {
      IssueOrderIsSorted(insts, order, a, x);
    }
  }

  /** A later instruction overtakes a comparison, or another compute instruction, exactly in these cases. */
  lemma ComputeOvertakenExactly(insts: seq<Inst>, order: seq<nat>, c: nat, x: nat)
    requires Greedy(insts, order) && ControlLast(insts) && c < x < |insts| && KindOf(insts[c]) == Computes
    ensures Precedes(order, x, c) <==>
            match KindOf(insts[x])
            case Stores | Controls => false
            case Computes => Level(insts, x) < Level(insts, c)
            case Loads =>
              Level(insts, x) < Level(insts, c) || (Level(insts, x) == Level(insts, c) && Rank(insts, x) < c)
  {
    hide Greedy, Precedes, ControlLast;
    IssueOrderIsSorted(insts, order, x, c);
    hide LevelAmong, RankAmong;
  }

  /** A compute instruction passes an earlier store exactly if it waits for no store from that one on. */
  lemma StorePassedExactly(insts: seq<Inst>, order: seq<nat>, a: nat, x: nat)
    requires Greedy(insts, order) && ControlLast(insts) && a < x < |insts| && KindOf(insts[a]) == Stores
    requires KindOf(insts[x]) == Computes
    ensures Precedes(order, x, a) <==> Level(insts, x) < a
  {
    hide Greedy, Precedes, ControlLast;
    IssueOrderIsSorted(insts, order, x, a);
    hide LevelAmong, RankAmong;
  }
}
