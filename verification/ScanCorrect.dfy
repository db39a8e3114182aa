/** Overlapping intervals never share a physical register, as long as the scan is not spoiled. */
module ScanCorrect {
  import opened Ptx
  import opened LinearScan

  /** Intervals as the pass scans them: one per register, by start. */
  ghost predicate Scannable(intervals: seq<Interval>) {
    && (forall i, j | 0 <= i < j < |intervals| :: intervals[i].reg != intervals[j].reg)
    && (forall i, j | 0 <= i < j < |intervals| :: intervals[i].first <= intervals[j].first)
    && (forall i | 0 <= i < |intervals| :: intervals[i].first <= intervals[i].last)
  }

  /** None of the first `n` turns takes the odd fallback. */
  ghost predicate Unspoiled(intervals: seq<Interval>, n: nat)
    requires n <= |intervals|
  {
    forall k: nat | k < n :: !Spoils(Scan(intervals, k), intervals[k])
  }

  lemma FullIsPartition()
    ensures Partition(FullPool())
  {
    forall p: nat ensures Total(FullPool(), p) == One(1 <= p <= MAX_GPR) {
      CountDown(MAX_GPR, MAX_GPR, p);
      assert PhysOf([]) == [];
    }
  }

  lemma {:induction false} CountDown(top: nat, n: nat, p: nat)
    requires n <= top
    ensures Count(seq<nat>(n, i requires 0 <= i < n => top - i), p) == One(top - n < p <= top)
    decreases n
  {
    var s := seq<nat>(n, i requires 0 <= i < n => top - i);
    if n > 0 {
      CountDown(top, n - 1, p);
      assert s[..n - 1] == seq<nat>(n - 1, i requires 0 <= i < n - 1 => top - i);
    }
  }

  lemma {:induction false} PartitionAt(intervals: seq<Interval>, n: nat)
    requires n <= |intervals| && Unspoiled(intervals, n)
    ensures Partition(Scan(intervals, n))
    decreases n
  {
    hide Partition, Spoils, Allocate;
    if n == 0 {
      FullIsPartition();
    } else {
      assert Unspoiled(intervals, n - 1) && !Spoils(Scan(intervals, n - 1), intervals[n - 1]);
      PartitionAt(intervals, n - 1);
      AllocateKeepsExactly(Scan(intervals, n - 1), intervals[n - 1]);
    }
  }

  lemma NextPartition(intervals: seq<Interval>, n: nat)
    requires n < |intervals| && Partition(Scan(intervals, n))
    ensures Partition(Scan(intervals, n + 1)) <==> !Spoils(Scan(intervals, n), intervals[n])
  {
    hide Partition, Spoils, Allocate;
    AllocateKeepsExactly(Scan(intervals, n), intervals[n]);
  }

  /** The pool is a partition at the start and after each of the first `n` turns. */
  ghost predicate AlwaysPartition(intervals: seq<Interval>, n: nat)
    requires n <= |intervals|
  {
    forall k: nat | k <= n :: Partition(Scan(intervals, k))
  }

  /** Every prefix of the scan leaves a partition exactly if no turn was spoiled. */
  lemma PartitionExactly(intervals: seq<Interval>, n: nat)
    requires n <= |intervals|
    ensures AlwaysPartition(intervals, n) <==> Unspoiled(intervals, n)
  {
    hide Partition, Spoils, Scan;
    if Unspoiled(intervals, n) {
      forall k: nat | k <= n ensures Partition(Scan(intervals, k)) {
        assert Unspoiled(intervals, k);
        PartitionAt(intervals, k);
      }
    }
    if AlwaysPartition(intervals, n) {
      forall k: nat | k < n ensures !Spoils(Scan(intervals, k), intervals[k]) {
        var next := k + 1;
        assert Partition(Scan(intervals, next));
        NextPartition(intervals, k);
      }
    }
  }

  // ----- who holds what -----

  /** The physical registers of a virtual one. */
  function Slots(r: Reg, p: nat): set<nat> {
    if IsPair(r) then {p, p + 1} else {p}
  }

  /** A register still running at `at` keeps its slots busy until its end. */
  ghost predicate Holding(pool: Pool, iv: Interval, at: nat) {
    iv.reg in pool.mapping && iv.last >= at ==>
      forall q | q in Slots(iv.reg, pool.mapping[iv.reg]) :: Busy(iv.last, q) in pool.active
  }

  lemma HoldingThroughExpiry(pool: Pool, iv: Interval, at: nat)
    requires Holding(pool, iv, at)
    ensures Holding(Expire(pool, at), iv, at)
  {
  }

  /** What one turn does to the pool, apart from the free list. */
  ghost predicate Turn(before: Pool, after: Pool, iv: Interval) {
    && (forall b | b in before.active :: b in after.active)
    && (forall r | r != iv.reg :: (r in after.mapping <==> r in before.mapping)
                                  && (r in before.mapping ==> after.mapping[r] == before.mapping[r]))
    && (iv.reg !in before.mapping && iv.reg in after.mapping ==>
          forall q | q in Slots(iv.reg, after.mapping[iv.reg]) :: Busy(iv.last, q) in after.active && q in before.free)
    && (iv.reg !in before.mapping && iv.reg in after.mapping && IsPair(iv.reg) ==> after.mapping[iv.reg] % 2 == 0)
  }

  lemma SingleTurn(pool: Pool, iv: Interval)
    requires !IsPair(iv.reg)
    ensures Turn(pool, TakeSingle(pool, iv), iv)
  {
    if pool.free != [] {
      var busy := Busy(iv.last, pool.free[|pool.free| - 1]);
      assert (pool.active + [busy])[|pool.active|] == busy;
    }
  }

  lemma HoldPairTurn(pool: Pool, iv: Interval, free: seq<nat>, p: nat)
    requires IsPair(iv.reg) && p in pool.free && p + 1 in pool.free && p % 2 == 0
    ensures Turn(pool, HoldPair(free, pool, iv, p), iv)
  {
    var held := pool.active + [Busy(iv.last, p), Busy(iv.last, p + 1)];
    assert held[|pool.active|] == Busy(iv.last, p) && held[|pool.active| + 1] == Busy(iv.last, p + 1);
  }

  lemma PairTurn(pool: Pool, iv: Interval)
    requires IsPair(iv.reg) && Partition(pool)
    ensures Turn(pool, TakePair(pool, iv), iv)
  {
    hide Partition, RemoveBoth, Fallback, HoldPair;
    var at := PairIndex(pool.free, |pool.free|);
    if at.Some? {
      InPool(pool, pool.free[at.value]);
      HoldPairTurn(pool, iv, RemoveBoth(pool.free, at.value, IndexOf(pool.free, pool.free[at.value] + 1)),
                   pool.free[at.value]);
    } else if |pool.free| >= 2 {
      FallbackPutsBack(pool, iv);
    } else {
      FallbackNothing(pool, iv);
    }
  }

  lemma AllocateTurn(pool: Pool, iv: Interval)
    requires Partition(pool)
    ensures Turn(Expire(pool, iv.first), Allocate(pool, iv), iv)
  {
    hide Turn, Partition, Expire, TakePair, TakeSingle;
    ExpireKeeps(pool, iv.first);
    if IsPair(iv.reg) {
      PairTurn(Expire(pool, iv.first), iv);
    } else {
      SingleTurn(Expire(pool, iv.first), iv);
    }
  }

  /** Only scanned registers are mapped. */
  lemma {:induction false} MappedAreScanned(intervals: seq<Interval>, n: nat, r: Reg)
    requires n <= |intervals| && Unspoiled(intervals, n)
    ensures r in Scan(intervals, n).mapping ==> exists i :: 0 <= i < n && intervals[i].reg == r
    decreases n
  {
    hide Allocate, Spoils, Expire, Partition;
    if n > 0 {
      assert Unspoiled(intervals, n - 1);
      MappedAreScanned(intervals, n - 1, r);
      PartitionAt(intervals, n - 1);
      AllocateTurn(Scan(intervals, n - 1), intervals[n - 1]);
      ExpireMapping(Scan(intervals, n - 1), intervals[n - 1].first);
      assert intervals[n - 1].reg == r || r !in Scan(intervals, n).mapping || r in Scan(intervals, n - 1).mapping;
    }
  }

  lemma ExpireMapping(pool: Pool, first: nat)
    ensures Expire(pool, first).mapping == pool.mapping
  {
  }

  lemma ScanNext(intervals: seq<Interval>, n: nat)
    requires n < |intervals|
    ensures Scan(intervals, n + 1) == Allocate(Scan(intervals, n), intervals[n])
  {
  }

  /** The turn for interval `n`: what it leaves alone, and what it adds. */
  lemma TurnAt(intervals: seq<Interval>, n: nat)
    requires Scannable(intervals) && n < |intervals| && Unspoiled(intervals, n + 1)
    ensures Unspoiled(intervals, n) && intervals[n].reg !in Scan(intervals, n).mapping
    ensures Partition(Expire(Scan(intervals, n), intervals[n].first))
    ensures Turn(Expire(Scan(intervals, n), intervals[n].first), Scan(intervals, n + 1), intervals[n])
  {
    hide Allocate, Spoils, Expire, Partition, Turn;
    assert Unspoiled(intervals, n);
    PartitionAt(intervals, n);
    ExpireKeeps(Scan(intervals, n), intervals[n].first);
    AllocateTurn(Scan(intervals, n), intervals[n]);
    ScanNext(intervals, n);
    MappedAreScanned(intervals, n, intervals[n].reg);
  }

  lemma {:induction false} HoldsOn(intervals: seq<Interval>, n: nat, i: nat, at: nat)
    requires Scannable(intervals) && i < n <= |intervals| && Unspoiled(intervals, n) && intervals[n - 1].first <= at
    ensures Holding(Scan(intervals, n), intervals[i], at)
    decreases n
  {
    hide Allocate, Spoils, Expire, Partition, Scan, Unspoiled;
    TurnAt(intervals, n - 1);
    ExpireMapping(Scan(intervals, n - 1), intervals[n - 1].first);
    if i < n - 1 {
      HoldsOn(intervals, n - 1, i, intervals[n - 1].first);
      HoldingThroughExpiry(Scan(intervals, n - 1), intervals[i], intervals[n - 1].first);
    }
  }

  /** A register keeps the physical register it was given. */
  lemma {:induction false} MappingStays(intervals: seq<Interval>, i: nat, n: nat)
    requires Scannable(intervals) && i < n <= |intervals| && Unspoiled(intervals, n)
    ensures Unspoiled(intervals, i + 1)
    ensures var r := intervals[i].reg;
            && (r in Scan(intervals, n).mapping <==> r in Scan(intervals, i + 1).mapping)
            && (r in Scan(intervals, n).mapping ==> Scan(intervals, n).mapping[r] == Scan(intervals, i + 1).mapping[r])
    decreases n
  {
    hide Allocate, Spoils, Expire, Partition, Scan;
    if i + 1 < n {
      TurnAt(intervals, n - 1);
      ExpireMapping(Scan(intervals, n - 1), intervals[n - 1].first);
      MappingStays(intervals, i, n - 1);
    }
  }

  /** Intervals that overlap hold disjoint physical registers. */
  lemma OverlapDisjoint(intervals: seq<Interval>, i: nat, j: nat)
    requires Scannable(intervals) && i < j < |intervals| && Unspoiled(intervals, |intervals|)
    requires intervals[j].first <= intervals[i].last
    ensures var m := Scan(intervals, |intervals|).mapping;
            intervals[i].reg in m && intervals[j].reg in m ==>
              Slots(intervals[i].reg, m[intervals[i].reg]) !! Slots(intervals[j].reg, m[intervals[j].reg])
  {
    hide Allocate, Spoils, Expire, Scan, Unspoiled, Partition;
    var n := |intervals|;
    MappingStays(intervals, i, n);
    MappingStays(intervals, j, n);
    MappingStays(intervals, i, j + 1);
    TurnAt(intervals, j);
    var before := Expire(Scan(intervals, j), intervals[j].first);
    ExpireMapping(Scan(intervals, j), intervals[j].first);
    HoldsOn(intervals, j, i, intervals[j].first);
    HoldingThroughExpiry(Scan(intervals, j), intervals[i], intervals[j].first);
    forall q | Busy(intervals[i].last, q) in before.active && q in before.free ensures false {
      BusyNotFree(before, Busy(intervals[i].last, q));
    }
  }

  lemma BusyNotFree(pool: Pool, b: Busy)
    requires Partition(pool) && b in pool.active
    ensures b.phys !in pool.free
  {
    var i :| 0 <= i < |pool.active| && pool.active[i] == b;
    assert PhysOf(pool.active)[i] == b.phys;
    InPool(pool, b.phys);
  }

  /** Registers alive at one point, such as the end of the loop hull, never share. */
  lemma AliveTogetherDisjoint(intervals: seq<Interval>, i: nat, j: nat, point: nat)
    requires Scannable(intervals) && i < |intervals| && j < |intervals| && i != j && Unspoiled(intervals, |intervals|)
    requires intervals[i].first <= point <= intervals[i].last && intervals[j].first <= point <= intervals[j].last
    ensures var m := Scan(intervals, |intervals|).mapping;
            intervals[i].reg in m && intervals[j].reg in m ==>
              Slots(intervals[i].reg, m[intervals[i].reg]) !! Slots(intervals[j].reg, m[intervals[j].reg])
  {
    hide Scan, Unspoiled, Slots;
    if i < j {
      OverlapDisjoint(intervals, i, j);
    } else {
      OverlapDisjoint(intervals, j, i);
    }
  }

  /** A mapped register lies in 1 to 239, a pair on an even base with its neighbour. */
  lemma {:induction false} MappedInRange(intervals: seq<Interval>, n: nat, i: nat)
    requires Scannable(intervals) && i < n <= |intervals| && Unspoiled(intervals, n)
    ensures var m := Scan(intervals, n).mapping;
            intervals[i].reg in m ==>
              && (forall q | q in Slots(intervals[i].reg, m[intervals[i].reg]) :: 1 <= q <= MAX_GPR)
              && (IsPair(intervals[i].reg) ==> m[intervals[i].reg] % 2 == 0)
  {
    hide Allocate, Spoils, Expire, Scan, Unspoiled, Partition;
    MappingStays(intervals, i, n);
    TurnAt(intervals, i);
    var before := Expire(Scan(intervals, i), intervals[i].first);
    ExpireMapping(Scan(intervals, i), intervals[i].first);
    forall q | q in before.free ensures 1 <= q <= MAX_GPR {
      InPool(before, q);
    }
  }

  // ----- when the fallback cannot be reached -----

  lemma {:induction false} LastingShorter(active: seq<Busy>, first: nat)
    ensures |Lasting(active, first)| <= |active|
    decreases |active|
  {
    if active != [] {
      LastingShorter(active[..|active| - 1], first);
    }
  }

  lemma TurnGrowth(pool: Pool, iv: Interval)
    ensures |Allocate(pool, iv).active| <= |pool.active| + 2
  {
    LastingShorter(pool.active, iv.first);
    hide PairIndex, IndexOf, RemoveBoth, RemoveAt, Lasting, Expired;
  }

  lemma {:induction false} BusyBound(intervals: seq<Interval>, n: nat)
    requires n <= |intervals|
    ensures |Scan(intervals, n).active| <= 2 * n
    decreases n
  {
    hide Allocate;
    if n > 0 {
      BusyBound(intervals, n - 1);
      TurnGrowth(Scan(intervals, n - 1), intervals[n - 1]);
    }
  }

  /** Register `2h` or its neighbour occurs. */
  predicate PairTouched(s: seq<nat>, h: nat) {
    2 * h in s || 2 * h + 1 in s
  }

  /** If every one of the pairs up to `n` is touched, there are at least `n` numbers. */
  lemma {:induction false} Pigeonhole(s: seq<nat>, n: nat)
    requires forall h: nat | 1 <= h <= n :: PairTouched(s, h)
    ensures |s| >= n
    decreases n
  {
    if n > 0 {
      assert PairTouched(s, n);
      var q := if 2 * n in s then 2 * n else 2 * n + 1;
      var i :| 0 <= i < |s| && s[i] == q;
      var rest := RemoveAt(s, i);
      forall h: nat | 1 <= h <= n - 1 ensures PairTouched(rest, h) {
        assert PairTouched(s, h);
        var x := if 2 * h in s then 2 * h else 2 * h + 1;
        var j :| 0 <= j < |s| && s[j] == x;
        assert rest[if j < i then j else j - 1] == x;
      }
      Pigeonhole(rest, n - 1);
    }
  }

  /** With few registers busy some even/odd pair is free. */
  lemma PairIsFree(pool: Pool)
    requires Partition(pool) && |pool.active| < 119
    ensures PairIndex(pool.free, |pool.free|).Some?
  {
    hide Partition, PairIndex;
    var busy := PhysOf(pool.active);
    if h: nat :| 1 <= h <= 119 && !PairTouched(busy, h) {
      InPool(pool, 2 * h);
      InPool(pool, 2 * h + 1);
      var i :| 0 <= i < |pool.free| && pool.free[i] == 2 * h;
      assert PairAt(pool.free, i);
    } else {
      Pigeonhole(busy, 119);
    }
  }

  /** A program with fewer than sixty allocated registers never reaches the fallback. */
  lemma {:induction false} FewRegistersUnspoiled(intervals: seq<Interval>, n: nat)
    requires n <= |intervals| < 60
    ensures Unspoiled(intervals, n)
    decreases n
  {
    hide Scan, Expire, PairIndex;
    if n > 0 {
      FewRegistersUnspoiled(intervals, n - 1);
      PartitionAt(intervals, n - 1);
      BusyBound(intervals, n - 1);
      ExpireKeeps(Scan(intervals, n - 1), intervals[n - 1].first);
      ExpireShorter(Scan(intervals, n - 1), intervals[n - 1].first);
      PairIsFree(Expire(Scan(intervals, n - 1), intervals[n - 1].first));
      assert !Spoils(Scan(intervals, n - 1), intervals[n - 1]);
    }
  }

  lemma ExpireShorter(pool: Pool, first: nat)
    ensures |Expire(pool, first).active| <= |pool.active|
  {
    LastingShorter(pool.active, first);
  }
}
