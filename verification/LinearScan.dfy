/** Linear-scan register allocation over merged live intervals. */
module LinearScan {
  import opened Wrappers
  import opened Ptx

  const MAX_GPR: nat := 239

  datatype Interval = Interval(reg: Reg, first: nat, last: nat)

  /** A physical register and where the interval holding it ends. */
  datatype Busy = Busy(end: nat, phys: nat)

  datatype Pool = Pool(free: seq<nat>, active: seq<Busy>, mapping: map<Reg, nat>)

  // ----- expiry -----

  function Expired(active: seq<Busy>, first: nat): (r: seq<nat>) {
    if active == [] then []
    else Expired(active[..|active| - 1], first)
         + if active[|active| - 1].end < first then [active[|active| - 1].phys] else []
  }

  function Lasting(active: seq<Busy>, first: nat): (r: seq<Busy>)
    ensures forall x :: x in r <==> x in active && x.end >= first
  {
    if active == [] then []
    else Lasting(active[..|active| - 1], first)
         + if active[|active| - 1].end < first then [] else [active[|active| - 1]]
  }

  /** The intervals that ended before `first` give their registers back. */
  function Expire(pool: Pool, first: nat): Pool {
    Pool(pool.free + Expired(pool.active, first), Lasting(pool.active, first), pool.mapping)
  }

  // ----- pairs -----

  predicate PairAt(free: seq<nat>, i: nat)
    requires i < |free|
  {
    free[i] % 2 == 0 && free[i] + 1 in free
  }

  /** The last position below `n` where an even register and its successor are both free. */
  function PairIndex(free: seq<nat>, n: nat): (r: Option<nat>)
    requires n <= |free|
    ensures r.Some? ==> r.value < n && PairAt(free, r.value)
    ensures r.None? ==> forall i: nat | i < n :: !PairAt(free, i)
    decreases n
  {
    if n == 0 then None else if PairAt(free, n - 1) then Some(n - 1) else PairIndex(free, n - 1)
  }

  /** The first position of `x`. */
  function IndexOf(s: seq<nat>, x: nat): (i: nat)
    requires x in s
    ensures i < |s| && s[i] == x && x !in s[..i]
  {
    if s[0] == x then 0 else 1 + IndexOf(s[1..], x)
  }

  function RemoveAt(s: seq<nat>, i: nat): (r: seq<nat>)
    requires i < |s|
    ensures |r| == |s| - 1
  {
    s[..i] + s[i + 1..]
  }

  /** Both positions popped, the later one first. */
  function RemoveBoth(s: seq<nat>, i: nat, j: nat): seq<nat>
    requires i < |s| && j < |s| && i != j
  {
    if i > j then RemoveAt(RemoveAt(s, i), j) else RemoveAt(RemoveAt(s, j), i)
  }

  // ----- one register -----

  function TakeSingle(pool: Pool, iv: Interval): Pool {
    if pool.free == [] then pool
    else
      var phys := pool.free[|pool.free| - 1];
      Pool(pool.free[..|pool.free| - 1], pool.active + [Busy(iv.last, phys)], pool.mapping[iv.reg := phys])
  }

  function HoldPair(free: seq<nat>, pool: Pool, iv: Interval, phys: nat): Pool {
    Pool(free, pool.active + [Busy(iv.last, phys), Busy(iv.last, phys + 1)], pool.mapping[iv.reg := phys])
  }

  /** No pair was found: the branch that takes the last free register and hopes for its neighbour. */
  function Fallback(pool: Pool, iv: Interval): Pool {
    if |pool.free| < 2 then pool
    else
      var top := pool.free[|pool.free| - 1];
      var rest := pool.free[..|pool.free| - 1];
      var phys := if top % 2 == 1 then top - 1 else top;
      if phys + 1 in rest then
        var without := RemoveAt(rest, IndexOf(rest, phys + 1));
        if phys > 0 && phys + 1 <= MAX_GPR then HoldPair(without, pool, iv, phys) else pool.(free := without)
      else pool.(free := rest + [phys])
  }

  function TakePair(pool: Pool, iv: Interval): Pool {
    match PairIndex(pool.free, |pool.free|)
    case None => Fallback(pool, iv)
    case Some(i) =>
      var even := pool.free[i];
      var without := RemoveBoth(pool.free, i, IndexOf(pool.free, even + 1));
      if even == 0 then Fallback(pool.(free := without), iv) else HoldPair(without, pool, iv, even)
  }

  /** One turn of the scan. */
  function Allocate(pool: Pool, iv: Interval): Pool {
    var expired := Expire(pool, iv.first);
    if IsPair(iv.reg) then TakePair(expired, iv) else TakeSingle(expired, iv)
  }

  function FullPool(): Pool {
    Pool(seq(MAX_GPR, i requires 0 <= i < MAX_GPR => MAX_GPR - i), [], map[])
  }

  function Scan(intervals: seq<Interval>, n: nat): Pool
    requires n <= |intervals|
  {
    if n == 0 then FullPool() else Allocate(Scan(intervals, n - 1), intervals[n - 1])
  }

  // ----- the free list and the busy registers -----

  function PhysOf(active: seq<Busy>): (r: seq<nat>)
    ensures |r| == |active| && forall i | 0 <= i < |active| :: r[i] == active[i].phys
  {
    seq(|active|, i requires 0 <= i < |active| => active[i].phys)
  }

  function One(b: bool): nat {
    if b then 1 else 0
  }

  /** How often `p` occurs. */
  function Count(s: seq<nat>, p: nat): (n: nat)
    ensures n > 0 <==> p in s
  {
    if s == [] then 0 else Count(s[..|s| - 1], p) + One(s[|s| - 1] == p)
  }

  lemma {:induction false} CountAppend(a: seq<nat>, b: seq<nat>, p: nat)
    ensures Count(a + b, p) == Count(a, p) + Count(b, p)
    decreases |b|
  {
    if b == [] {
      assert a + b == a;
    } else {
      assert (a + b)[..|a + b| - 1] == a + b[..|b| - 1];
      CountAppend(a, b[..|b| - 1], p);
    }
  }

  lemma CountOne(x: nat, p: nat)
    ensures Count([x], p) == One(x == p)
  {
    assert [x][..0] == [];
  }

  lemma CountRemove(s: seq<nat>, i: nat, p: nat)
    requires i < |s|
    ensures Count(s, p) == Count(RemoveAt(s, i), p) + One(s[i] == p)
  {
    assert s == s[..i] + ([s[i]] + s[i + 1..]);
    CountAppend(s[..i], [s[i]] + s[i + 1..], p);
    CountAppend([s[i]], s[i + 1..], p);
    CountOne(s[i], p);
    CountAppend(s[..i], s[i + 1..], p);
    hide Count;
  }

  lemma CountRemoveBoth(s: seq<nat>, i: nat, j: nat, p: nat)
    requires i < |s| && j < |s| && i != j
    ensures Count(s, p) == Count(RemoveBoth(s, i, j), p) + One(s[i] == p) + One(s[j] == p)
  {
    hide Count;
    if i > j {
      CountRemove(s, i, p);
      CountRemove(RemoveAt(s, i), j, p);
    } else {
      CountRemove(s, j, p);
      CountRemove(RemoveAt(s, j), i, p);
    }
  }

  /** How often `p` is free or busy. */
  function Total(pool: Pool, p: nat): nat {
    Count(pool.free, p) + Count(PhysOf(pool.active), p)
  }

  /** Every register from 1 to 239, and no other, is free or busy, once. */
  ghost predicate Partition(pool: Pool) {
    forall p: nat :: Total(pool, p) == One(1 <= p <= MAX_GPR)
  }

  lemma PhysOfAppend(a: seq<Busy>, b: seq<Busy>, p: nat)
    ensures Count(PhysOf(a + b), p) == Count(PhysOf(a), p) + Count(PhysOf(b), p)
  {
    assert PhysOf(a + b) == PhysOf(a) + PhysOf(b);
    CountAppend(PhysOf(a), PhysOf(b), p);
  }

  lemma PhysOfOne(b: Busy, p: nat)
    ensures Count(PhysOf([b]), p) == One(b.phys == p)
  {
    assert PhysOf([b]) == [b.phys];
    CountOne(b.phys, p);
  }

  lemma PhysOfNone(p: nat)
    ensures Count(PhysOf([]), p) == 0 && Count([], p) == 0
  {
  }

  lemma {:induction false} ExpireSplits(active: seq<Busy>, first: nat, p: nat)
    ensures Count(Expired(active, first), p) + Count(PhysOf(Lasting(active, first)), p) == Count(PhysOf(active), p)
    decreases |active|
  {
    hide Count, PhysOf;
    if active == [] {
      PhysOfNone(p);
    } else {
      var m := |active| - 1;
      ExpireSplits(active[..m], first, p);
      assert active == active[..m] + [active[m]];
      PhysOfAppend(active[..m], [active[m]], p);
      PhysOfOne(active[m], p);
      if active[m].end < first {
        CountAppend(Expired(active[..m], first), [active[m].phys], p);
        CountOne(active[m].phys, p);
        assert Lasting(active[..m], first) + [] == Lasting(active[..m], first);
      } else {
        PhysOfAppend(Lasting(active[..m], first), [active[m]], p);
        assert Expired(active[..m], first) + [] == Expired(active[..m], first);
      }
    }
  }

  lemma ExpireKeeps(pool: Pool, first: nat)
    ensures Partition(Expire(pool, first)) <==> Partition(pool)
  {
    forall p: nat ensures Total(Expire(pool, first), p) == Total(pool, p) {
      CountAppend(pool.free, Expired(pool.active, first), p);
      ExpireSplits(pool.active, first, p);
    }
    hide Total;
  }

  /** The turn that breaks the pool: a pair is wanted, none is free, and the last of several free registers is odd. */
  predicate Spoils(pool: Pool, iv: Interval) {
    var free := Expire(pool, iv.first).free;
    IsPair(iv.reg) && |free| >= 2 && PairIndex(free, |free|).None? && free[|free| - 1] % 2 == 1
  }

  lemma InPool(pool: Pool, p: nat)
    requires Partition(pool)
    ensures p in pool.free ==> 1 <= p <= MAX_GPR && p !in PhysOf(pool.active) && Count(pool.free, p) == 1
    ensures p in PhysOf(pool.active) ==> 1 <= p <= MAX_GPR && p !in pool.free && Count(PhysOf(pool.active), p) == 1
    ensures 1 <= p <= MAX_GPR ==> p in pool.free || p in PhysOf(pool.active)
  {
    assert Total(pool, p) == One(1 <= p <= MAX_GPR);
  }

  lemma SingleKeeps(pool: Pool, iv: Interval)
    requires Partition(pool)
    ensures Partition(TakeSingle(pool, iv))
  {
    hide Count, PhysOf;
    if pool.free != [] {
      var m := |pool.free| - 1;
      forall p: nat ensures Total(TakeSingle(pool, iv), p) == Total(pool, p) {
        assert pool.free == pool.free[..m] + [pool.free[m]];
        CountAppend(pool.free[..m], [pool.free[m]], p);
        CountOne(pool.free[m], p);
        PhysOfAppend(pool.active, [Busy(iv.last, pool.free[m])], p);
        PhysOfOne(Busy(iv.last, pool.free[m]), p);
      }
    }
  }

  lemma HoldPairTotal(pool: Pool, iv: Interval, free: seq<nat>, phys: nat, p: nat)
    requires Count(pool.free, p) == Count(free, p) + One(phys == p) + One(phys + 1 == p)
    ensures Total(HoldPair(free, pool, iv, phys), p) == Total(pool, p)
  {
    hide Count, PhysOf;
    var low, high := Busy(iv.last, phys), Busy(iv.last, phys + 1);
    assert pool.active + [low, high] == pool.active + [low] + [high];
    PhysOfAppend(pool.active + [low], [high], p);
    PhysOfAppend(pool.active, [low], p);
    PhysOfOne(low, p);
    PhysOfOne(high, p);
  }

  lemma HoldPairKeeps(pool: Pool, iv: Interval, i: nat, j: nat)
    requires Partition(pool) && i < |pool.free| && j < |pool.free| && pool.free[j] == pool.free[i] + 1
    ensures Partition(HoldPair(RemoveBoth(pool.free, i, j), pool, iv, pool.free[i]))
  {
    hide Count, Total;
    var free := RemoveBoth(pool.free, i, j);
    forall p: nat ensures Total(HoldPair(free, pool, iv, pool.free[i]), p) == Total(pool, p) {
      CountRemoveBoth(pool.free, i, j, p);
      HoldPairTotal(pool, iv, free, pool.free[i], p);
    }
  }

  /** One turn keeps the partition exactly if it does not take the odd fallback. */
  lemma AllocateKeepsExactly(pool: Pool, iv: Interval)
    requires Partition(pool)
    ensures Partition(Allocate(pool, iv)) <==> !Spoils(pool, iv)
  {
    hide Expire, Partition, TakePair, TakeSingle, PairIndex;
    var expired := Expire(pool, iv.first);
    ExpireKeeps(pool, iv.first);
    if IsPair(iv.reg) {
      PairKeepsExactly(expired, iv);
    } else {
      SingleKeeps(expired, iv);
    }
  }

  lemma PairKeepsExactly(pool: Pool, iv: Interval)
    requires Partition(pool)
    ensures Partition(TakePair(pool, iv)) <==>
            !(|pool.free| >= 2 && PairIndex(pool.free, |pool.free|).None? && pool.free[|pool.free| - 1] % 2 == 1)
  {
    hide Partition, Fallback, HoldPair, RemoveBoth;
    var free := pool.free;
    var at := PairIndex(free, |free|);
    if at.Some? {
      InPool(pool, free[at.value]);
      HoldPairKeeps(pool, iv, at.value, IndexOf(free, free[at.value] + 1));
    } else if |free| >= 2 {
      FallbackKeepsExactly(pool, iv);
    } else {
      FallbackNothing(pool, iv);
    }
  }

  lemma FallbackNothing(pool: Pool, iv: Interval)
    requires |pool.free| < 2
    ensures Fallback(pool, iv) == pool
  {
  }

  /** Without a free pair the fallback never assigns anything: it only puts one register back. */
  lemma FallbackPutsBack(pool: Pool, iv: Interval)
    requires Partition(pool) && |pool.free| >= 2 && PairIndex(pool.free, |pool.free|).None?
    ensures var m := |pool.free| - 1;
            var top := pool.free[m];
            Fallback(pool, iv) == pool.(free := pool.free[..m] + [if top % 2 == 1 then top - 1 else top])
  {
    var m := |pool.free| - 1;
    var top, rest := pool.free[m], pool.free[..m];
    InPool(pool, top);
    assert pool.free == rest + [top];
    CountAppend(rest, [top], top);
    CountOne(top, top);
    assert !PairAt(pool.free, m);
    assert top + 1 in rest ==> top + 1 in pool.free;
    hide Count;
  }

  lemma FallbackKeepsExactly(pool: Pool, iv: Interval)
    requires Partition(pool) && |pool.free| >= 2 && PairIndex(pool.free, |pool.free|).None?
    ensures Partition(Fallback(pool, iv)) <==> pool.free[|pool.free| - 1] % 2 == 0
  {
    hide Fallback, Count, PairIndex;
    FallbackPutsBack(pool, iv);
    var m := |pool.free| - 1;
    var top, rest := pool.free[m], pool.free[..m];
    assert pool.free == rest + [top];
    if top % 2 == 1 {
      CountAppend(rest, [top], top);
      CountAppend(rest, [top - 1], top);
      CountOne(top, top);
      CountOne(top - 1, top);
      assert Total(Fallback(pool, iv), top) != Total(pool, top);
    }
  }
}
