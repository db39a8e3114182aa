/** Control-flow graphs over block numbers: reverse postorder, dominators, natural loops. */
module FlowGraph {
  import opened Lists

  type Node = nat

  /** Successors of every block, and the entry block. */
  datatype Graph = Graph(succ: map<Node, set<Node>>, entry: Node)

  /** Every edge leads to a block of the graph. */
  ghost predicate Valid(g: Graph) {
    && g.entry in g.succ
    && forall n, m | n in g.succ && m in g.succ[n] :: m in g.succ
  }

  predicate HasEdge(g: Graph, n: Node, m: Node) {
    n in g.succ && m in g.succ[n]
  }

  function Predecessors(g: Graph, n: Node): set<Node> {
    set m | m in g.succ && n in g.succ[m]
  }

  // ----- paths -----

  ghost predicate IsPath(g: Graph, p: seq<Node>) {
    && |p| > 0 && p[0] in g.succ
    && forall k | 0 <= k < |p| - 1 :: HasEdge(g, p[k], p[k + 1])
  }

  ghost predicate PathFromTo(g: Graph, p: seq<Node>, a: Node, b: Node) {
    IsPath(g, p) && p[0] == a && p[|p| - 1] == b
  }

  ghost predicate Reaches(g: Graph, a: Node, b: Node) {
    exists p :: PathFromTo(g, p, a, b)
  }

  /** Every path from the entry to `n` contains `d`. */
  ghost predicate Dominates(g: Graph, d: Node, n: Node) {
    forall p | PathFromTo(g, p, g.entry, n) :: d in p
  }

  lemma ExtendPath(g: Graph, p: seq<Node>, m: Node)
    requires IsPath(g, p) && HasEdge(g, p[|p| - 1], m)
    ensures IsPath(g, p + [m]) && (p + [m])[0] == p[0] && (p + [m])[|p + [m]| - 1] == m
  {
    var q := p + [m];
    forall k | 0 <= k < |q| - 1 ensures HasEdge(g, q[k], q[k + 1]) {
      if k == |p| - 1 {
        assert q[k] == p[|p| - 1] && q[k + 1] == m;
      }
    }
  }

  lemma ReachesSelf(g: Graph, a: Node)
    requires a in g.succ
    ensures Reaches(g, a, a)
  {
    assert PathFromTo(g, [a], a, a);
  }

  lemma ReachesEdge(g: Graph, a: Node, b: Node, m: Node)
    requires Reaches(g, a, b) && HasEdge(g, b, m)
    ensures Reaches(g, a, m)
  {
    var p :| PathFromTo(g, p, a, b);
    ExtendPath(g, p, m);
    assert PathFromTo(g, p + [m], a, m);
  }

  lemma JoinPaths(g: Graph, p: seq<Node>, q: seq<Node>)
    requires IsPath(g, p) && IsPath(g, q) && p[|p| - 1] == q[0]
    ensures PathFromTo(g, p + q[1..], p[0], q[|q| - 1])
  {
    var r := p + q[1..];
    forall k | 0 <= k < |r| - 1 ensures HasEdge(g, r[k], r[k + 1]) {
      if k >= |p| - 1 {
        assert r[k] == q[k - |p| + 1] && r[k + 1] == q[k - |p| + 2];
      }
    }
  }

  lemma ReachesTransitive(g: Graph, a: Node, b: Node, c: Node)
    requires Reaches(g, a, b) && Reaches(g, b, c)
    ensures Reaches(g, a, c)
  {
    var p :| PathFromTo(g, p, a, b);
    var q :| PathFromTo(g, q, b, c);
    JoinPaths(g, p, q);
  }

  /** A set closed under edges contains everything reachable from its members. */
  lemma {:induction false} ClosedUnderPaths(g: Graph, s: set<Node>, p: seq<Node>)
    requires Valid(g) && IsPath(g, p) && p[0] in s
    requires forall n, m | n in s && HasEdge(g, n, m) :: m in s
    ensures p[|p| - 1] in s
    decreases |p|
  {
    if |p| > 1 {
      assert HasEdge(g, p[0], p[1]);
      ClosedUnderPaths(g, s, p[1..]);
    }
  }

  // ----- reverse postorder -----

  ghost predicate ElementsAre(order: seq<Node>, s: set<Node>) {
    Distinct(order) && forall n: Node :: n in order <==> n in s
  }

  /** Each edge leaving an ordered node goes to an earlier one, or back to a node that reaches it. */
  ghost predicate PostOrdered(g: Graph, order: seq<Node>) {
    forall k, m | 0 <= k < |order| && HasEdge(g, order[k], m) :: m in order[..k] || Reaches(g, m, order[k])
  }

  /** The nested `visit`: `active` are the blocks whose visit is still going on. */
  method Visit(g: Graph, name: Node, visited: set<Node>, postorder: seq<Node>, ghost active: set<Node>)
    returns (visited': set<Node>, postorder': seq<Node>)
    requires Valid(g) && name in g.succ && visited <= g.succ.Keys
    requires active <= visited && ElementsAre(postorder, visited - active) && PostOrdered(g, postorder)
    requires forall a | a in active :: Reaches(g, a, name)
    requires forall n, m | n in visited - active && HasEdge(g, n, m) :: m in visited
    ensures visited <= visited' <= g.succ.Keys && name in visited'
    ensures forall n | n in visited' - visited :: Reaches(g, name, n)
    ensures ElementsAre(postorder', visited' - active) && PostOrdered(g, postorder')
    ensures forall n, m | n in visited' - active && HasEdge(g, n, m) :: m in visited'
    decreases g.succ.Keys - visited
  {
    if name in visited {
      return visited, postorder;
    }
    visited', postorder' := visited + {name}, postorder;
    ghost var active' := active + {name};
    ReachesSelf(g, name);
    assert visited' - active' == visited - active;
    var todo := g.succ[name];
    while todo != {}
      invariant todo <= g.succ[name]
      invariant visited + {name} <= visited' <= g.succ.Keys
      invariant forall n | n in visited' - visited :: Reaches(g, name, n)
      invariant forall m | m in g.succ[name] - todo :: m in visited'
      invariant ElementsAre(postorder', visited' - active') && PostOrdered(g, postorder')
      invariant forall n, m | n in visited' - active' && HasEdge(g, n, m) :: m in visited'
      decreases todo
    {
      var next := Smallest(todo);
      assert HasEdge(g, name, next);
      forall a | a in active' ensures Reaches(g, a, next) {
        ReachesEdge(g, a, name, next);
      }
      ghost var before := visited';
      visited', postorder' := Visit(g, next, visited', postorder', active');
      forall n | n in visited' - before ensures Reaches(g, name, n) {
        ReachesEdge(g, name, name, next);
        ReachesTransitive(g, name, next, n);
      }
      todo := todo - {next};
    }
    FinishVisit(g, name, visited', postorder', active);
    postorder' := postorder' + [name];
  }

  /** Appending a block once all its successors are visited keeps the order a postorder. */
  lemma FinishVisit(g: Graph, name: Node, visited: set<Node>, postorder: seq<Node>, active: set<Node>)
    requires name in g.succ && name in visited && name !in active && active <= visited
    requires forall a | a in active :: Reaches(g, a, name)
    requires forall m | m in g.succ[name] :: m in visited
    requires ElementsAre(postorder, visited - (active + {name})) && PostOrdered(g, postorder)
    ensures ElementsAre(postorder + [name], visited - active) && PostOrdered(g, postorder + [name])
  {
    var order := postorder + [name];
    ReachesSelf(g, name);
    forall k, m | 0 <= k < |order| && HasEdge(g, order[k], m) ensures m in order[..k] || Reaches(g, m, order[k]) {
      if k < |postorder| {
        assert order[..k] == postorder[..k] && order[k] == postorder[k];
      } else {
        assert order[..k] == postorder;
      }
    }
    forall n: Node ensures n in order <==> n in visited - active {
    }
  }

  method Smallest(s: set<Node>) returns (least: Node)
    requires s != {}
    ensures least in s && forall n | n in s :: least <= n
  {
    least :| least in s;
    var rest := s - {least};
    while rest != {}
      invariant least in s && rest <= s && forall n | n in s && n !in rest :: least <= n
      decreases rest
    {
      var n :| n in rest;
      if n < least {
        least := n;
      }
      rest := rest - {n};
    }
  }

  function Reversed(s: seq<Node>): (r: seq<Node>)
    ensures |r| == |s| && forall k | 0 <= k < |s| :: r[k] == s[|s| - 1 - k]
  {
    if s == [] then [] else Reversed(s[1..]) + [s[0]]
  }

  /** `reverse_postorder`: exactly the reachable blocks, each before the blocks its forward edges lead to. */
  method ReversePostorder(g: Graph) returns (order: seq<Node>)
    requires Valid(g)
    ensures Distinct(order) && forall n: Node :: n in order <==> Reaches(g, g.entry, n)
    ensures forall k, m | 0 <= k < |order| && HasEdge(g, order[k], m) ::
              m in order[k + 1..] || Reaches(g, m, order[k])
  {
    var visited, postorder := Visit(g, g.entry, {}, [], {});
    assert visited - {} == visited;
    order := Reversed(postorder);
    forall n: Node ensures n in order <==> Reaches(g, g.entry, n) {
      InReversed(postorder, n);
      if Reaches(g, g.entry, n) {
        var p :| PathFromTo(g, p, g.entry, n);
        ClosedUnderPaths(g, visited, p);
      }
    }
    forall k, m | 0 <= k < |order| && HasEdge(g, order[k], m)
      ensures m in order[k + 1..] || Reaches(g, m, order[k])
    {
      var k' := |order| - 1 - k;
      assert order[k] == postorder[k'];
      if m in postorder[..k'] {
        var q :| 0 <= q < k' && postorder[q] == m;
        assert order[k + 1..][|order| - 1 - q - (k + 1)] == m;
      }
    }
  }

  lemma InReversed(s: seq<Node>, n: Node)
    ensures n in Reversed(s) <==> n in s
  {
    var r := Reversed(s);
    if n in s {
      var k :| 0 <= k < |s| && s[k] == n;
      assert r[|s| - 1 - k] == n;
    }
  }

  // ----- dominators -----

  ghost predicate IsReachable(g: Graph, n: Node) {
    Reaches(g, g.entry, n)
  }

  /** What the dataflow equation demands of block `n`: itself, and what dominates all its known predecessors. */
  function Transfer(g: Graph, doms: map<Node, set<Node>>, n: Node): (r: set<Node>)
    ensures n in r
  {
    var preds := set m | m in Predecessors(g, n) && m in doms;
    {n} + (if preds == {} then {} else set d | d in AllOf(doms, preds) && forall m | m in preds :: d in doms[m])
  }

  /** The union of the sets of some blocks. */
  function AllOf(doms: map<Node, set<Node>>, ns: set<Node>): set<Node>
    requires ns <= doms.Keys
  {
    set m, d | m in ns && d in doms[m] :: d
  }

  lemma TransferContains(g: Graph, doms: map<Node, set<Node>>, n: Node, d: Node)
    ensures d in Transfer(g, doms, n) <==>
              || d == n
              || ((exists m :: HasEdge(g, m, n) && m in doms)
                  && forall m | HasEdge(g, m, n) && m in doms :: d in doms[m])
  {
    var preds := set m | m in Predecessors(g, n) && m in doms;
    assert forall m :: m in preds <==> HasEdge(g, m, n) && m in doms;
    if preds != {} {
      var m :| m in preds;
      assert d in doms[m] ==> d in AllOf(doms, preds);
    }
  }

  /** `set.intersection(*(doms[pred] for pred in preds))`, then `new_dom.add(name)`. */
  method NewDominators(g: Graph, doms: map<Node, set<Node>>, n: Node) returns (result: set<Node>)
    ensures result == Transfer(g, doms, n)
  {
    var preds := set m | m in Predecessors(g, n) && m in doms;
    result := {};
    if preds != {} {
      var first := Smallest(preds);
      result := doms[first];
      var rest := preds - {first};
      while rest != {}
        invariant rest <= preds - {first}
        invariant forall d :: d in result <==> forall m | m in preds - rest :: d in doms[m]
        decreases rest
      {
        var m := Smallest(rest);
        result := result * doms[m];
        rest := rest - {m};
      }
      assert forall d | d in result :: d in doms[first];
      assert forall d | d in doms[first] :: d in AllOf(doms, preds);
    }
    result := result + {n};
  }

  type DomMap = map<Node, set<Node>>

  /** The state of the fixpoint loop: an over-approximation that can only shrink. */
  ghost predicate Approximates(g: Graph, order: seq<Node>, doms: DomMap) {
    && (forall n: Node :: n in doms <==> n in order)
    && g.entry in order && doms[g.entry] == {g.entry}
    && (forall n, d | n in doms && d in doms[n] :: d in order)
    && (forall n, d | n in doms && Dominates(g, d, n) && d in order :: d in doms[n])
    && (forall n | n in doms && n != g.entry :: Transfer(g, doms, n) <= doms[n])
  }

  lemma TransferMonotone(g: Graph, small: DomMap, large: DomMap, n: Node)
    requires small.Keys == large.Keys && forall m | m in small :: small[m] <= large[m]
    ensures Transfer(g, small, n) <= Transfer(g, large, n)
  {
    forall d | d in Transfer(g, small, n) ensures d in Transfer(g, large, n) {
      TransferContains(g, small, n, d);
      TransferContains(g, large, n, d);
    }
  }

  /** A dominator of a block other than the block itself dominates each of its predecessors. */
  lemma DominatesPredecessor(g: Graph, d: Node, m: Node, n: Node)
    requires Dominates(g, d, n) && HasEdge(g, m, n) && d != n
    ensures Dominates(g, d, m)
  {
    forall p | PathFromTo(g, p, g.entry, m) ensures d in p {
      ExtendPath(g, p, n);
      assert PathFromTo(g, p + [n], g.entry, n);
    }
  }

  lemma TransferKeepsDominators(g: Graph, order: seq<Node>, doms: DomMap, n: Node)
    requires Approximates(g, order, doms) && n in doms && n != g.entry
    requires forall m: Node :: m in order <==> IsReachable(g, m)
    ensures forall d | Dominates(g, d, n) && d in order :: d in Transfer(g, doms, n)
  {
    forall d | Dominates(g, d, n) && d in order ensures d in Transfer(g, doms, n) {
      TransferContains(g, doms, n, d);
      if d != n {
        var m := LastStep(g, n);
        assert m in order;
        forall m | HasEdge(g, m, n) && m in doms ensures d in doms[m] {
          DominatesPredecessor(g, d, m, n);
        }
      }
    }
  }

  /** A reachable block other than the entry has a reachable predecessor. */
  lemma LastStep(g: Graph, n: Node) returns (m: Node)
    requires IsReachable(g, n) && n != g.entry
    ensures HasEdge(g, m, n) && IsReachable(g, m)
  {
    var p :| PathFromTo(g, p, g.entry, n);
    m := p[|p| - 2];
    assert HasEdge(g, p[|p| - 2], p[|p| - 1]);
    var q := p[..|p| - 1];
    assert PathFromTo(g, q, g.entry, m);
  }

  /** Replacing one set by what the equation demands keeps the approximation, and makes it no larger. */
  lemma UpdateApproximates(g: Graph, order: seq<Node>, doms: DomMap, n: Node)
    requires Approximates(g, order, doms) && n in doms && n != g.entry
    requires forall m: Node :: m in order <==> IsReachable(g, m)
    ensures Transfer(g, doms, n) <= doms[n]
    ensures Approximates(g, order, doms[n := Transfer(g, doms, n)])
  {
    var doms' := doms[n := Transfer(g, doms, n)];
    TransferKeepsDominators(g, order, doms, n);
    forall m | m in doms' && m != g.entry ensures Transfer(g, doms', m) <= doms'[m] {
      TransferMonotone(g, doms', doms, m);
    }
  }

  /** All (block, dominator candidate) pairs: the measure that shrinks with every change. */
  ghost function Pairs(doms: DomMap): set<(Node, Node)> {
    set n, d | n in doms && d in doms[n] :: (n, d)
  }

  lemma PairsShrink(doms: DomMap, n: Node, smaller: set<Node>)
    requires n in doms && smaller <= doms[n] && smaller != doms[n]
    ensures Pairs(doms[n := smaller]) < Pairs(doms)
  {
    var d :| d in doms[n] && d !in smaller;
    var before, after := Pairs(doms), Pairs(doms[n := smaller]);
    assert (n, d) in before && (n, d) !in after;
    assert after <= before;
  }

  /** A solution of the equations that over-approximates dominance is dominance. */
  lemma {:induction false} SolutionOnPath(g: Graph, order: seq<Node>, doms: DomMap, p: seq<Node>, d: Node)
    requires Valid(g) && Approximates(g, order, doms) && IsPath(g, p) && p[0] == g.entry
    requires forall n | n in doms && n != g.entry :: doms[n] == Transfer(g, doms, n)
    requires forall n: Node :: n in order <==> IsReachable(g, n)
    requires p[|p| - 1] in doms && d in doms[p[|p| - 1]]
    ensures d in p
    decreases |p|
  {
    var n := p[|p| - 1];
    if n != g.entry && d != n {
      var q := p[..|p| - 1];
      var m := q[|q| - 1];
      assert HasEdge(g, p[|p| - 2], p[|p| - 1]);
      assert PathFromTo(g, q, g.entry, m);
      assert IsReachable(g, m);
      TransferContains(g, doms, n, d);
      SolutionOnPath(g, order, doms, q, d);
    }
  }

  lemma SolutionIsDominance(g: Graph, order: seq<Node>, doms: DomMap)
    requires Valid(g) && Approximates(g, order, doms)
    requires forall n | n in doms && n != g.entry :: doms[n] == Transfer(g, doms, n)
    requires forall n: Node :: n in order <==> IsReachable(g, n)
    ensures forall n, d | n in doms :: d in doms[n] <==> Dominates(g, d, n)
  {
    forall n, d | n in doms ensures d in doms[n] <==> Dominates(g, d, n) {
      if d in doms[n] {
        forall p | PathFromTo(g, p, g.entry, n) ensures d in p {
          SolutionOnPath(g, order, doms, p, d);
        }
      }
      if Dominates(g, d, n) {
        DominatorIsReachable(g, d, n);
      }
    }
  }

  lemma DominatorIsReachable(g: Graph, d: Node, n: Node)
    requires IsReachable(g, n) && Dominates(g, d, n)
    ensures IsReachable(g, d)
  {
    var p :| PathFromTo(g, p, g.entry, n);
    var k :| 0 <= k < |p| && p[k] == d;
    assert PathFromTo(g, p[..k + 1], g.entry, d);
  }

  /** One sweep of the loop over the reachable blocks. */
  method Sweep(g: Graph, order: seq<Node>, doms: DomMap) returns (doms': DomMap, changed: bool)
    requires Approximates(g, order, doms)
    requires forall n: Node :: n in order <==> IsReachable(g, n)
    ensures Approximates(g, order, doms')
    ensures changed ==> Pairs(doms') < Pairs(doms)
    ensures !changed ==> doms' == doms && forall n | n in doms && n != g.entry :: doms[n] == Transfer(g, doms, n)
  {
    hide Approximates, Transfer, Pairs, IsReachable;
    doms', changed := doms, false;
    for k := 0 to |order|
      invariant Approximates(g, order, doms')
      invariant changed ==> Pairs(doms') < Pairs(doms)
      invariant !changed ==> doms' == doms
      invariant !changed ==> forall i | 0 <= i < k && order[i] != g.entry ::
                               order[i] in doms && doms[order[i]] == Transfer(g, doms, order[i])
    {
      var name := order[k];
      if name != g.entry {
        InApproximation(g, order, doms', name);
        var newDom := NewDominators(g, doms', name);
        UpdateApproximates(g, order, doms', name);
        if newDom != doms'[name] {
          PairsShrink(doms', name, newDom);
          doms' := doms'[name := newDom];
          changed := true;
        }
      }
    }
    if !changed {
      forall n | n in doms && n != g.entry ensures doms[n] == Transfer(g, doms, n) {
        InApproximation(g, order, doms, n);
        var i :| 0 <= i < |order| && order[i] == n;
      }
    }
  }

  lemma InApproximation(g: Graph, order: seq<Node>, doms: DomMap, n: Node)
    requires Approximates(g, order, doms)
    ensures n in doms <==> n in order
  {
  }

  /** Every reachable block is assumed to be dominated by all of them, the entry by itself. */
  function InitialDoms(g: Graph, order: seq<Node>): DomMap {
    (map n | n in order :: set m | m in order)[g.entry := {g.entry}]
  }

  lemma FirstApproximation(g: Graph, order: seq<Node>)
    requires Valid(g)
    requires forall n: Node :: n in order <==> IsReachable(g, n)
    ensures g.entry in order
    ensures Approximates(g, order, InitialDoms(g, order))
  {
    ReachesSelf(g, g.entry);
    var doms := InitialDoms(g, order);
    assert PathFromTo(g, [g.entry], g.entry, g.entry);
    forall n | n in doms && n != g.entry ensures Transfer(g, doms, n) <= doms[n] {
      forall d | d in Transfer(g, doms, n) ensures d in order {
        TransferContains(g, doms, n, d);
      }
    }
  }

  /** `dominators`: the fixpoint loop ends, and its result is exactly the dominance relation. */
  method Dominators(g: Graph) returns (doms: DomMap)
    requires Valid(g)
    ensures forall n: Node :: n in doms <==> IsReachable(g, n)
    ensures forall n, d | n in doms :: d in doms[n] <==> Dominates(g, d, n)
  {
    var order := ReversePostorder(g);
    assert forall n: Node :: n in order <==> IsReachable(g, n);
    hide Approximates, Transfer, Pairs, IsReachable, Dominates, InitialDoms;
    FirstApproximation(g, order);
    doms := InitialDoms(g, order);
    var changed := true;
    while changed
      invariant Approximates(g, order, doms)
      invariant !changed ==> forall n | n in doms && n != g.entry :: doms[n] == Transfer(g, doms, n)
      decreases Pairs(doms), changed
    {
      doms, changed := Sweep(g, order, doms);
    }
    SolutionIsDominance(g, order, doms);
    forall n: Node ensures n in doms <==> IsReachable(g, n) {
      InApproximation(g, order, doms, n);
    }
  }

  // ----- natural loops -----

  /** An edge to a block that dominates its source. */
  ghost predicate IsBackEdge(g: Graph, tail: Node, header: Node) {
    HasEdge(g, tail, header) && IsReachable(g, tail) && Dominates(g, header, tail)
  }

  /** `backedges`: each edge whose target is among the dominators of its source. */
  method BackEdges(g: Graph) returns (edges: seq<(Node, Node)>)
    requires Valid(g)
    ensures forall t: Node, h: Node :: (t, h) in edges <==> IsBackEdge(g, t, h)
  {
    var doms := Dominators(g);
    hide Dominates, IsReachable;
    edges := [];
    var tails := g.succ.Keys;
    while tails != {}
      invariant tails <= g.succ.Keys
      invariant forall t: Node, h: Node :: (t, h) in edges <==> t !in tails && IsBackEdge(g, t, h)
      decreases tails
    {
      var tail := Smallest(tails);
      var heads := set h | h in g.succ[tail] && tail in doms && h in doms[tail];
      ghost var before := edges;
      while heads != {}
        invariant heads <= g.succ[tail] && forall h | h in heads :: IsBackEdge(g, tail, h)
        invariant forall t: Node, h: Node :: (t, h) in edges
                    <==> (t, h) in before || (t == tail && h !in heads && IsBackEdge(g, t, h))
        decreases heads
      {
        var h := Smallest(heads);
        edges := edges + [(tail, h)];
        heads := heads - {h};
      }
      tails := tails - {tail};
    }
  }

  /** `b` reaches `tail` along a path that stays off `header`. */
  ghost predicate ReachesAvoiding(g: Graph, b: Node, tail: Node, header: Node) {
    exists p :: PathFromTo(g, p, b, tail) && header !in p
  }

  ghost predicate InNaturalLoop(g: Graph, b: Node, tail: Node, header: Node) {
    b == header || ReachesAvoiding(g, b, tail, header)
  }

  lemma ReachesAvoidingEdge(g: Graph, m: Node, b: Node, tail: Node, header: Node)
    requires HasEdge(g, m, b) && m != header && ReachesAvoiding(g, b, tail, header)
    ensures ReachesAvoiding(g, m, tail, header)
  {
    var p :| PathFromTo(g, p, b, tail) && header !in p;
    var q := [m] + p;
    forall k | 0 <= k < |q| - 1 ensures HasEdge(g, q[k], q[k + 1]) {
      if k > 0 {
        assert q[k] == p[k - 1] && q[k + 1] == p[k];
      }
    }
    assert PathFromTo(g, q, m, tail) && header !in q;
  }

  lemma {:induction false} LoopClosed(g: Graph, blocks: set<Node>, p: seq<Node>, tail: Node, header: Node)
    requires Valid(g) && IsPath(g, p) && p[|p| - 1] == tail && header !in p
    requires tail in blocks
    requires forall m, b | b in blocks && b != header && HasEdge(g, m, b) :: m in blocks
    ensures p[0] in blocks
    decreases |p|
  {
    if |p| > 1 {
      assert HasEdge(g, p[0], p[1]);
      assert p[1] in p;
      var q := p[1..];
      assert p == [p[0]] + q;
      forall k | 0 <= k < |q| - 1 ensures HasEdge(g, q[k], q[k + 1]) {
        assert HasEdge(g, p[k + 1], p[k + 2]);
      }
      LoopClosed(g, blocks, q, tail, header);
    }
  }

  /** The worklist of `natural_loops` for one back edge, header and tail distinct. */
  method LoopBlocks(g: Graph, tail: Node, header: Node) returns (blocks: set<Node>)
    requires Valid(g) && HasEdge(g, tail, header) && tail != header
    ensures forall b: Node :: b in blocks <==> InNaturalLoop(g, b, tail, header)
  {
    blocks := {header, tail};
    var worklist := [tail];
    assert PathFromTo(g, [tail], tail, tail);
    while worklist != []
      invariant blocks <= g.succ.Keys && header in blocks && tail in blocks
      invariant forall b | b in worklist :: b in blocks && b != header
      invariant forall b | b in blocks :: InNaturalLoop(g, b, tail, header)
      invariant forall m, b | b in blocks && b != header && b !in worklist && HasEdge(g, m, b) :: m in blocks
      decreases g.succ.Keys - blocks, |worklist|
    {
      var name := worklist[|worklist| - 1];
      var rest := worklist[..|worklist| - 1];
      assert worklist == rest + [name];
      assert name in worklist && InNaturalLoop(g, name, tail, header);
      var found := set m | m in Predecessors(g, name) && m != header && m !in blocks;
      forall m | m in found ensures ReachesAvoiding(g, m, tail, header) {
        ReachesAvoidingEdge(g, m, name, tail, header);
      }
      var pushed := Listed(found);
      ghost var before := blocks;
      blocks, worklist := blocks + found, rest + pushed;
      if found == {} {
        assert pushed == [];
      } else {
        var m :| m in found;
        assert m in g.succ.Keys - before && m !in g.succ.Keys - blocks;
      }
    }
    forall b: Node | InNaturalLoop(g, b, tail, header) ensures b in blocks {
      if b != header {
        var p :| PathFromTo(g, p, b, tail) && header !in p;
        LoopClosed(g, blocks, p, tail, header);
      }
    }
  }

  method Listed(s: set<Node>) returns (r: seq<Node>)
    ensures forall n: Node :: n in r <==> n in s
    ensures s == {} ==> r == []
  {
    r := [];
    var rest := s;
    while rest != {}
      invariant rest <= s && forall n: Node :: n in r <==> n in s - rest
      invariant s == {} ==> r == []
      decreases rest
    {
      var n := Smallest(rest);
      r := r + [n];
      rest := rest - {n};
    }
  }

  datatype NaturalLoop = NaturalLoop(header: Node, tail: Node, blocks: set<Node>)

  /** The header of a loop dominates all its reachable blocks. */
  lemma HeaderDominatesLoop(g: Graph, b: Node, tail: Node, header: Node)
    requires IsBackEdge(g, tail, header) && InNaturalLoop(g, b, tail, header) && IsReachable(g, b)
    ensures Dominates(g, header, b)
  {
    if b != header {
      var q :| PathFromTo(g, q, b, tail) && header !in q;
      forall p | PathFromTo(g, p, g.entry, b) ensures header in p {
        JoinPaths(g, p, q);
        assert header in p + q[1..];
      }
    } else {
      forall p | PathFromTo(g, p, g.entry, b) ensures header in p {
        assert p[|p| - 1] == b;
      }
    }
  }

  /** `natural_loops`: one loop for every back edge, with exactly the blocks the definition gives it. */
  method NaturalLoops(g: Graph) returns (loops: seq<NaturalLoop>)
    requires Valid(g)
    ensures forall k | 0 <= k < |loops| ::
              && IsBackEdge(g, loops[k].tail, loops[k].header)
              && forall b: Node :: b in loops[k].blocks <==>
                   if loops[k].tail == loops[k].header then b == loops[k].header
                   else InNaturalLoop(g, b, loops[k].tail, loops[k].header)
    ensures forall t, h | IsBackEdge(g, t, h) ::
              exists k :: 0 <= k < |loops| && loops[k].tail == t && loops[k].header == h
  {
    var edges := BackEdges(g);
    hide InNaturalLoop, IsBackEdge;
    loops := [];
    for k := 0 to |edges|
      invariant |loops| == k
      invariant forall i | 0 <= i < k :: loops[i].tail == edges[i].0 && loops[i].header == edges[i].1
      invariant forall i | 0 <= i < k :: forall b: Node :: b in loops[i].blocks <==>
                  if loops[i].tail == loops[i].header then b == loops[i].header
                  else InNaturalLoop(g, b, loops[i].tail, loops[i].header)
    {
      var (tail, header) := edges[k];
      assert (tail, header) in edges;
      BackEdgeIsEdge(g, tail, header);
      if tail == header {
        loops := loops + [NaturalLoop(header, tail, {header})];
      } else {
        var blocks := LoopBlocks(g, tail, header);
        loops := loops + [NaturalLoop(header, tail, blocks)];
      }
    }
    forall k | 0 <= k < |loops| ensures IsBackEdge(g, loops[k].tail, loops[k].header) {
      assert edges[k] == (loops[k].tail, loops[k].header) && edges[k] in edges;
    }
    forall t, h | IsBackEdge(g, t, h)
      ensures exists k :: 0 <= k < |loops| && loops[k].tail == t && loops[k].header == h
    {
      assert (t, h) in edges;
      var k :| 0 <= k < |edges| && edges[k] == (t, h);
      assert loops[k].tail == t && loops[k].header == h;
    }
  }

  lemma BackEdgeIsEdge(g: Graph, tail: Node, header: Node)
    requires IsBackEdge(g, tail, header)
    ensures HasEdge(g, tail, header)
  {
  }
}
