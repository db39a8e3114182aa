/** Straight-line code may be reordered as long as only instructions that may change places do. */
module Reorder {
  import opened Isa
  import opened Lists
  import opened Machine
  import opened Independence

  /** Every listed index is an index of `insts`. */
  predicate Within(insts: seq<Inst>, order: seq<nat>) {
    forall k | 0 <= k < |order| :: order[k] < |insts|
  }

  /** The instructions of `insts` in the order given by a list of indices. */
  function Pick(insts: seq<Inst>, order: seq<nat>): (r: seq<Inst>)
    requires Within(insts, order)
    ensures |r| == |order|
  {
    seq(|order|, k requires 0 <= k < |order| => insts[order[k]])
  }

  /** Whenever `order` issues `j` before a smaller index `i`, the two may change places. */
  ghost predicate InversionsCommute(cfg: Config, insts: seq<Inst>, order: seq<nat>, strict: bool) {
    && Within(insts, order)
    && forall p, q | 0 <= p < q < |order| && order[q] < order[p] ::
         && MayOvertake(insts[order[q]], insts[order[p]])
         && (strict && insts[order[q]].opcode == ST ==> NeverTraps(cfg, insts[order[p]]))
  }

  /** Carrying on with more code, unless an error was raised. */
  function Then(cfg: Config, o: Outcome, code: seq<Inst>): Outcome {
    if o.Running? then ExecSeq(cfg, code, o.warp) else o
  }

  lemma {:induction false} ExecAppend(cfg: Config, a: seq<Inst>, b: seq<Inst>, w: Warp)
    ensures ExecSeq(cfg, a + b, w) == Then(cfg, ExecSeq(cfg, a, w), b)
    decreases |a|
  {
    if a == [] {
      assert a + b == b;
    } else {
      assert (a + b)[0] == a[0] && (a + b)[1..] == a[1..] + b;
      if Exec(cfg, a[0], w).Running? {
        ExecAppend(cfg, a[1..], b, Exec(cfg, a[0], w).warp);
      }
    }
  }

  /** Running on preserves agreement. */
  lemma AgreeThen(cfg: Config, strict: bool, a1: seq<Inst>, a2: seq<Inst>, b: seq<Inst>, w: Warp)
    requires Agree(strict, ExecSeq(cfg, a1, w), ExecSeq(cfg, a2, w))
    ensures Agree(strict, ExecSeq(cfg, a1 + b, w), ExecSeq(cfg, a2 + b, w))
  {
    ExecAppend(cfg, a1, b, w);
    ExecAppend(cfg, a2, b, w);
  }

  lemma ExecCons(cfg: Config, x: Inst, rest: seq<Inst>, w: Warp)
    ensures ExecSeq(cfg, [x] + rest, w) == Then(cfg, Exec(cfg, x, w), rest)
  {
    assert ([x] + rest)[1..] == rest;
  }

  /** Two neighbours swapped in front of some code. */
  lemma SwapInFront(cfg: Config, a: Inst, x: Inst, rest: seq<Inst>, w: Warp, strict: bool)
    requires MayOvertake(a, x)
    requires strict && a.opcode == ST ==> NeverTraps(cfg, x)
    ensures Agree(strict, ExecSeq(cfg, [a] + ([x] + rest), w), ExecSeq(cfg, [x] + ([a] + rest), w))
  {
    hide Exec, MayOvertake;
    Overtake(cfg, a, x, w, strict);
    ExecCons(cfg, a, [x] + rest, w);
    ExecCons(cfg, x, [a] + rest, w);
    if Exec(cfg, a, w).Running? {
      ExecCons(cfg, x, rest, Exec(cfg, a, w).warp);
    }
    if Exec(cfg, x, w).Running? {
      ExecCons(cfg, a, rest, Exec(cfg, x, w).warp);
    }
  }

  /** An instruction that may overtake each of `before` may be issued ahead of all of them. */
  lemma {:induction false} MoveToFront(cfg: Config, before: seq<Inst>, x: Inst, w: Warp, strict: bool)
    requires forall k | 0 <= k < |before| ::
               && MayOvertake(before[k], x)
               && (strict && before[k].opcode == ST ==> NeverTraps(cfg, x))
    ensures Agree(strict, ExecSeq(cfg, before + [x], w), ExecSeq(cfg, [x] + before, w))
    decreases |before|
  {
    hide Exec, MayOvertake;
    if before == [] {
      assert before + [x] == [x] + before;
    } else {
      var a, rest := before[0], before[1..];
      assert before + [x] == [a] + (rest + [x]) && [x] + before == [x] + ([a] + rest);
      ExecCons(cfg, a, rest + [x], w);
      ExecCons(cfg, a, [x] + rest, w);
      if Exec(cfg, a, w).Running? {
        MoveToFront(cfg, rest, x, Exec(cfg, a, w).warp, strict);
      }
      SwapInFront(cfg, a, x, rest, w, strict);
    }
  }

  /** Any reordering whose inversions commute computes what program order computes. */
  lemma {:induction false} ReorderAgrees(cfg: Config, insts: seq<Inst>, kept: seq<nat>, order: seq<nat>,
                                         w: Warp, strict: bool)
    requires Increasing(kept) && Distinct(order) && SameElements(kept, order)
    requires InversionsCommute(cfg, insts, order, strict)
    ensures Within(insts, kept)
    ensures Agree(strict, ExecSeq(cfg, Pick(insts, kept), w), ExecSeq(cfg, Pick(insts, order), w))
    decreases |order|
  {
    forall k | 0 <= k < |kept| ensures kept[k] < |insts| {
      assert kept[k] in order;
    }
    if order != [] {
      assert order[0] in kept;
      var p :| 0 <= p < |kept| && kept[p] == order[0];
      RestOfOrder(kept, p, order);
      PickSplit(insts, kept, p);
      EarlierMayBeOvertaken(cfg, insts, kept, p, order, strict);
      MoveAndRest(cfg, Pick(insts, kept[..p]), insts[order[0]], Pick(insts, kept[p + 1..]), w, strict);
      ReorderTail(cfg, insts, kept[..p] + kept[p + 1..], order, w, strict);
    }
  }

  lemma PickSplit(insts: seq<Inst>, kept: seq<nat>, p: nat)
    requires p < |kept| && Within(insts, kept)
    ensures Within(insts, kept[..p]) && Within(insts, kept[p + 1..])
    ensures Pick(insts, kept) == Pick(insts, kept[..p]) + [insts[kept[p]]] + Pick(insts, kept[p + 1..])
    ensures Within(insts, kept[..p] + kept[p + 1..])
    ensures Pick(insts, kept[..p] + kept[p + 1..]) == Pick(insts, kept[..p]) + Pick(insts, kept[p + 1..])
  {
  }

  lemma EarlierMayBeOvertaken(cfg: Config, insts: seq<Inst>, kept: seq<nat>, p: nat, order: seq<nat>, strict: bool)
    requires Increasing(kept) && SameElements(kept, order) && order != []
    requires p < |kept| && kept[p] == order[0]
    requires Within(insts, kept) && InversionsCommute(cfg, insts, order, strict)
    ensures forall k | 0 <= k < p ::
              && MayOvertake(insts[kept[k]], insts[order[0]])
              && (strict && insts[kept[k]].opcode == ST ==> NeverTraps(cfg, insts[order[0]]))
  {
    forall k | 0 <= k < p
      ensures kept[k] < |insts|
      ensures MayOvertake(insts[kept[k]], insts[order[0]])
      ensures strict && insts[kept[k]].opcode == ST ==> NeverTraps(cfg, insts[order[0]])
    {
      assert kept[k] in order;
      var q :| 0 <= q < |order| && order[q] == kept[k];
      assert order[q] < order[0];
    }
  }

  lemma MoveAndRest(cfg: Config, before: seq<Inst>, x: Inst, after: seq<Inst>, w: Warp, strict: bool)
    requires forall k | 0 <= k < |before| ::
               && MayOvertake(before[k], x)
               && (strict && before[k].opcode == ST ==> NeverTraps(cfg, x))
    ensures Agree(strict, ExecSeq(cfg, before + [x] + after, w), ExecSeq(cfg, [x] + (before + after), w))
  {
    SeqAssociative([x], before, after);
    MoveToFront(cfg, before, x, w, strict);
    AgreeThen(cfg, strict, before + [x], [x] + before, after, w);
  }

  lemma SeqAssociative(a: seq<Inst>, b: seq<Inst>, c: seq<Inst>)
    ensures a + b + c == a + (b + c)
  {
  }

  /** Dropping the first issued index leaves the same situation, one index shorter. */
  lemma RestOfOrder(kept: seq<nat>, p: nat, order: seq<nat>)
    requires Increasing(kept) && Distinct(order) && SameElements(kept, order)
    requires order != [] && p < |kept| && kept[p] == order[0]
    ensures Increasing(kept[..p] + kept[p + 1..]) && Distinct(order[1..])
    ensures SameElements(kept[..p] + kept[p + 1..], order[1..])
  {
    var rest := kept[..p] + kept[p + 1..];
    forall i: nat ensures i in rest <==> i in order[1..] {
      assert order == [order[0]] + order[1..];
      assert kept == kept[..p] + ([kept[p]] + kept[p + 1..]);
      if i in rest {
        assert i in kept && i != order[0];
      }
      if i in order[1..] {
        assert i in kept && i != order[0];
      }
    }
  }

  lemma ReorderTail(cfg: Config, insts: seq<Inst>, rest: seq<nat>, order: seq<nat>, w: Warp, strict: bool)
    requires order != []
    requires Increasing(rest) && Distinct(order[1..]) && SameElements(rest, order[1..])
    requires InversionsCommute(cfg, insts, order, strict)
    ensures Within(insts, rest)
    ensures Agree(strict, ExecSeq(cfg, [insts[order[0]]] + Pick(insts, rest), w), ExecSeq(cfg, Pick(insts, order), w))
    decreases |order|, 0
  {
    forall k | 0 <= k < |rest| ensures rest[k] < |insts| {
      assert rest[k] in order[1..];
    }
    var x := insts[order[0]];
    assert Pick(insts, order) == [x] + Pick(insts, order[1..]);
    ExecCons(cfg, x, Pick(insts, rest), w);
    ExecCons(cfg, x, Pick(insts, order[1..]), w);
    if Exec(cfg, x, w).Running? {
      ReorderAgrees(cfg, insts, rest, order[1..], Exec(cfg, x, w).warp, strict);
    }
  }
}
