/** The scan leaves a register out only when there is no place: every home it could have is held by one still alive. */
module ScanComplete {
  import opened Ptx
  import opened LinearScan
  import opened ScanCorrect

  /** The `i`th register, still running at `at`, was given physical register `p` within the first `n` turns. */
  ghost predicate HoldsAt(intervals: seq<Interval>, n: nat, i: nat, p: nat, at: nat)
    requires n <= |intervals|
  {
    && i < n && at <= intervals[i].last
    && var m := Scan(intervals, n).mapping;
       intervals[i].reg in m && p in Slots(intervals[i].reg, m[intervals[i].reg])
  }

  /** A register that came earlier and is still alive holds `p`. */
  ghost predicate Taken(intervals: seq<Interval>, n: nat, p: nat, at: nat)
    requires n <= |intervals|
  {
    exists i: nat :: HoldsAt(intervals, n, i, p, at)
  }

  /** A busy register was held before the turn or is one the turn hands out. */
  ghost predicate NewlyBusy(before: Pool, after: Pool, iv: Interval) {
    forall b | b in after.active ::
      || b in before.active
      || (b.end == iv.last && iv.reg in after.mapping && b.phys in Slots(iv.reg, after.mapping[iv.reg]))
  }

  lemma SingleNewlyBusy(pool: Pool, iv: Interval)
    requires !IsPair(iv.reg)
    ensures NewlyBusy(pool, TakeSingle(pool, iv), iv)
    ensures iv.reg !in pool.mapping && iv.reg !in TakeSingle(pool, iv).mapping ==> pool.free == []
  {
  }

  lemma HoldPairNewlyBusy(free: seq<nat>, pool: Pool, iv: Interval, p: nat)
    requires IsPair(iv.reg)
    ensures NewlyBusy(pool, HoldPair(free, pool, iv, p), iv) && iv.reg in HoldPair(free, pool, iv, p).mapping
  {
  }

  /** Without a pair the fallback hands out nothing. */
  lemma PairNewlyBusy(pool: Pool, iv: Interval)
    requires IsPair(iv.reg) && Partition(pool)
    ensures NewlyBusy(pool, TakePair(pool, iv), iv)
    ensures iv.reg !in pool.mapping && iv.reg !in TakePair(pool, iv).mapping ==> PairIndex(pool.free, |pool.free|).None?
  {
    hide Partition, RemoveBoth, Fallback, HoldPair, NewlyBusy;
    var at := PairIndex(pool.free, |pool.free|);
    if at.Some? {
      InPool(pool, pool.free[at.value]);
      HoldPairNewlyBusy(RemoveBoth(pool.free, at.value, IndexOf(pool.free, pool.free[at.value] + 1)), pool, iv,
                        pool.free[at.value]);
    } else {
      assert TakePair(pool, iv) == Fallback(pool, iv);
      FallbackNewlyBusy(pool, iv);
    }
  }

  lemma FallbackNewlyBusy(pool: Pool, iv: Interval)
    requires IsPair(iv.reg)
    ensures NewlyBusy(pool, Fallback(pool, iv), iv)
  {
    hide RemoveAt, IndexOf;
  }

  lemma AllocateNewlyBusy(pool: Pool, iv: Interval)
    requires Partition(pool)
    ensures NewlyBusy(Expire(pool, iv.first), Allocate(pool, iv), iv)
    ensures iv.reg !in pool.mapping && iv.reg !in Allocate(pool, iv).mapping ==>
              var free := Expire(pool, iv.first).free;
              if IsPair(iv.reg) then PairIndex(free, |free|).None? else free == []
  {
    hide NewlyBusy, Partition, Expire, TakePair, TakeSingle, PairIndex;
    ExpireKeeps(pool, iv.first);
    ExpireMapping(pool, iv.first);
    if IsPair(iv.reg) {
      PairNewlyBusy(Expire(pool, iv.first), iv);
    } else {
      SingleNewlyBusy(Expire(pool, iv.first), iv);
    }
  }

  lemma ExpiredActive(pool: Pool, first: nat)
    ensures forall b | b in Expire(pool, first).active :: b in pool.active && b.end >= first
  {
  }

  lemma HoldsNext(intervals: seq<Interval>, n: nat, i: nat, p: nat, at: nat)
    requires Scannable(intervals) && 0 < n <= |intervals| && Unspoiled(intervals, n)
    requires HoldsAt(intervals, n - 1, i, p, at)
    ensures HoldsAt(intervals, n, i, p, at)
  {
    hide *;
    HoldsParts(intervals, n - 1, i, p, at);
    UnspoiledLess(intervals, n);
    MappingStays(intervals, i, n);
    MappingStays(intervals, i, n - 1);
    HoldsWhole(intervals, n, i, p, at);
  }

  lemma UnspoiledLess(intervals: seq<Interval>, n: nat)
    requires 0 < n <= |intervals| && Unspoiled(intervals, n)
    ensures Unspoiled(intervals, n - 1)
  {
    hide Spoils, Scan;
  }

  lemma HoldsParts(intervals: seq<Interval>, n: nat, i: nat, p: nat, at: nat)
    requires n <= |intervals| && HoldsAt(intervals, n, i, p, at)
    ensures i < n && at <= intervals[i].last && intervals[i].reg in Scan(intervals, n).mapping
    ensures p in Slots(intervals[i].reg, Scan(intervals, n).mapping[intervals[i].reg])
  {
    hide Scan, Slots;
  }

  lemma HoldsWhole(intervals: seq<Interval>, n: nat, i: nat, p: nat, at: nat)
    requires n <= |intervals| && i < n && at <= intervals[i].last && intervals[i].reg in Scan(intervals, n).mapping
    requires p in Slots(intervals[i].reg, Scan(intervals, n).mapping[intervals[i].reg])
    ensures HoldsAt(intervals, n, i, p, at)
  {
    hide Scan, Slots;
  }

  lemma HoldsNew(intervals: seq<Interval>, n: nat, b: Busy, at: nat)
    requires 0 < n <= |intervals| && at <= b.end && b.end == intervals[n - 1].last
    requires intervals[n - 1].reg in Scan(intervals, n).mapping
    requires b.phys in Slots(intervals[n - 1].reg, Scan(intervals, n).mapping[intervals[n - 1].reg])
    ensures HoldsAt(intervals, n, n - 1, b.phys, at)
  {
    hide Scan, Slots;
  }

  lemma BusyIn(before: Pool, after: Pool, iv: Interval, b: Busy)
    requires NewlyBusy(before, after, iv) && b in after.active && b !in before.active
    ensures b.end == iv.last && iv.reg in after.mapping && b.phys in Slots(iv.reg, after.mapping[iv.reg])
  {
    hide Slots;
  }

  lemma NothingBusy(intervals: seq<Interval>)
    ensures Scan(intervals, 0).active == []
  {
  }

  /** Everything busy is held by a register that came earlier. */
  lemma {:induction false} BusyIsHeld(intervals: seq<Interval>, n: nat, b: Busy, at: nat) returns (i: nat)
    requires Scannable(intervals) && n <= |intervals| && Unspoiled(intervals, n)
    requires b in Scan(intervals, n).active && at <= b.end
    ensures HoldsAt(intervals, n, i, b.phys, at)
    decreases n
  {
    hide *;
    i := 0;
    if n == 0 {
      NothingBusy(intervals);
    } else {
      TurnAt(intervals, n - 1);
      PartitionAt(intervals, n - 1);
      ScanNext(intervals, n - 1);
      var before, iv := Scan(intervals, n - 1), intervals[n - 1];
      AllocateNewlyBusy(before, iv);
      ExpiredActive(before, iv.first);
      if b in Expire(before, iv.first).active {
        i := BusyIsHeld(intervals, n - 1, b, at);
        HoldsNext(intervals, n, i, b.phys, at);
      } else {
        BusyIn(Expire(before, iv.first), Scan(intervals, n), iv, b);
        HoldsNew(intervals, n, b, at);
        i := n - 1;
      }
    }
  }

  lemma BusyOrFree(pool: Pool, p: nat) returns (b: Busy)
    requires Partition(pool) && 1 <= p <= 239 && p !in pool.free
    ensures b in pool.active && b.phys == p
  {
    InPool(pool, p);
    var k :| 0 <= k < |PhysOf(pool.active)| && PhysOf(pool.active)[k] == p;
    b := pool.active[k];
  }

  /** When its turn comes, whatever is not free is held by a register still alive. */
  lemma NotFreeIsTaken(intervals: seq<Interval>, k: nat, p: nat)
    requires Scannable(intervals) && k < |intervals| && Unspoiled(intervals, k + 1) && 1 <= p <= 239
    ensures p in Expire(Scan(intervals, k), intervals[k].first).free || Taken(intervals, k, p, intervals[k].first)
  {
    TurnAt(intervals, k);
    ExpiredActive(Scan(intervals, k), intervals[k].first);
    hide Allocate, Expire, Scan, Partition, Slots, Unspoiled, HoldsAt;
    if p !in Expire(Scan(intervals, k), intervals[k].first).free {
      var b := BusyOrFree(Expire(Scan(intervals, k), intervals[k].first), p);
      var i := BusyIsHeld(intervals, k, b, intervals[k].first);
    }
  }

  lemma FreeIsNotTaken(intervals: seq<Interval>, k: nat, p: nat)
    requires Scannable(intervals) && k < |intervals| && Unspoiled(intervals, k + 1)
    requires p in Expire(Scan(intervals, k), intervals[k].first).free
    ensures 1 <= p <= 239 && !Taken(intervals, k, p, intervals[k].first)
  {
    TurnAt(intervals, k);
    var pool := Expire(Scan(intervals, k), intervals[k].first);
    InPool(pool, p);
    hide Allocate, Expire, Partition, Unspoiled, Scan;
    forall i: nat ensures !HoldsAt(intervals, k, i, p, intervals[k].first) {
      if HoldsAt(intervals, k, i, p, intervals[k].first) {
        HoldsOn(intervals, k, i, intervals[k].first);
        HoldingThroughExpiry(Scan(intervals, k), intervals[i], intervals[k].first);
        ExpireMapping(Scan(intervals, k), intervals[k].first);
        BusyNotFree(pool, Busy(intervals[i].last, p));
      }
    }
  }

  lemma NoPair(free: seq<nat>, p: nat)
    requires PairIndex(free, |free|).None? && p % 2 == 0
    ensures p !in free || p + 1 !in free
  {
    if p in free {
      var i :| 0 <= i < |free| && free[i] == p;
      assert !PairAt(free, i);
    }
  }

  /** A single register goes without a home exactly if all 239 are held by registers still alive. */
  lemma SinglePlacedExactly(intervals: seq<Interval>, k: nat)
    requires Scannable(intervals) && k < |intervals| && Unspoiled(intervals, k + 1) && !IsPair(intervals[k].reg)
    ensures intervals[k].reg in Scan(intervals, k + 1).mapping <==>
            exists p: nat :: 1 <= p <= 239 && !Taken(intervals, k, p, intervals[k].first)
  {
    hide Taken;
    var iv, free := intervals[k], Expire(Scan(intervals, k), intervals[k].first).free;
    TurnFacts(intervals, k);
    hide *;
    forall p: nat | 1 <= p <= 239 ensures p in free <==> !Taken(intervals, k, p, iv.first) {
      NotFreeIsTaken(intervals, k, p);
      if p in free {
        FreeIsNotTaken(intervals, k, p);
      }
    }
    if iv.reg in Scan(intervals, k + 1).mapping {
      var p := HandedOne(intervals, k);
      FreeIsNotTaken(intervals, k, p);
    }
  }

  lemma TurnFacts(intervals: seq<Interval>, k: nat)
    requires Scannable(intervals) && k < |intervals| && Unspoiled(intervals, k + 1)
    ensures intervals[k].reg !in Scan(intervals, k + 1).mapping ==>
              var free := Expire(Scan(intervals, k), intervals[k].first).free;
              if IsPair(intervals[k].reg) then PairIndex(free, |free|).None? else free == []
  {
    hide NewlyBusy, Allocate, Expire, PairIndex, Partition, Scan;
    TurnAt(intervals, k);
    PartitionAt(intervals, k);
    ScanNext(intervals, k);
    AllocateNewlyBusy(Scan(intervals, k), intervals[k]);
  }

  /** A home that is handed out was free. */
  lemma HandedOne(intervals: seq<Interval>, k: nat) returns (p: nat)
    requires Scannable(intervals) && k < |intervals| && Unspoiled(intervals, k + 1)
    requires intervals[k].reg in Scan(intervals, k + 1).mapping
    ensures p in Expire(Scan(intervals, k), intervals[k].first).free
    ensures IsPair(intervals[k].reg) ==>
              p % 2 == 0 && p + 1 in Expire(Scan(intervals, k), intervals[k].first).free
  {
    hide *;
    TurnAt(intervals, k);
    ExpireMapping(Scan(intervals, k), intervals[k].first);
    p := Scan(intervals, k + 1).mapping[intervals[k].reg];
    TurnHands(Expire(Scan(intervals, k), intervals[k].first), Scan(intervals, k + 1), intervals[k]);
  }

  lemma TurnHands(before: Pool, after: Pool, iv: Interval)
    requires Turn(before, after, iv) && iv.reg !in before.mapping && iv.reg in after.mapping
    ensures var p := after.mapping[iv.reg];
            p in before.free && (IsPair(iv.reg) ==> p % 2 == 0 && p + 1 in before.free)
  {
    var p := after.mapping[iv.reg];
    assert p in Slots(iv.reg, p);
    assert IsPair(iv.reg) ==> p + 1 in Slots(iv.reg, p);
  }

  /** A pair goes without a home exactly if one half of each aligned pair is held by a register still alive. */
  lemma PairPlacedExactly(intervals: seq<Interval>, k: nat)
    requires Scannable(intervals) && k < |intervals| && Unspoiled(intervals, k + 1) && IsPair(intervals[k].reg)
    ensures intervals[k].reg in Scan(intervals, k + 1).mapping <==>
            exists p: nat :: 2 <= p <= 238 && p % 2 == 0 && !Taken(intervals, k, p, intervals[k].first)
                             && !TakenNext(intervals, k, p, intervals[k].first)
  {
    hide *;
    TurnFacts(intervals, k);
    forall p: nat | 2 <= p <= 238 && p % 2 == 0 && intervals[k].reg !in Scan(intervals, k + 1).mapping
      ensures Taken(intervals, k, p, intervals[k].first) || TakenNext(intervals, k, p, intervals[k].first)
    {
      HalfTaken(intervals, k, p);
    }
    if intervals[k].reg in Scan(intervals, k + 1).mapping {
      var p := HandedOne(intervals, k);
      NextFree(intervals, k, p);
    }
  }

  lemma HalfTaken(intervals: seq<Interval>, k: nat, p: nat)
    requires Scannable(intervals) && k < |intervals| && Unspoiled(intervals, k + 1) && 2 <= p <= 238 && p % 2 == 0
    requires var free := Expire(Scan(intervals, k), intervals[k].first).free; PairIndex(free, |free|).None?
    ensures Taken(intervals, k, p, intervals[k].first) || TakenNext(intervals, k, p, intervals[k].first)
  {
    hide Taken, Scan, Expire, PairIndex, Unspoiled, Scannable;
    NotFreeIsTaken(intervals, k, p);
    NotFreeIsTaken(intervals, k, p + 1);
    NoPair(Expire(Scan(intervals, k), intervals[k].first).free, p);
  }

  lemma NextFree(intervals: seq<Interval>, k: nat, p: nat)
    requires Scannable(intervals) && k < |intervals| && Unspoiled(intervals, k + 1) && p % 2 == 0
    requires var free := Expire(Scan(intervals, k), intervals[k].first).free; p in free && p + 1 in free
    ensures 2 <= p <= 238 && !Taken(intervals, k, p, intervals[k].first)
            && !TakenNext(intervals, k, p, intervals[k].first)
  {
    hide Taken, Scan, Expire, Unspoiled, Scannable;
    FreeIsNotTaken(intervals, k, p);
    FreeIsNotTaken(intervals, k, p + 1);
  }

  ghost predicate TakenNext(intervals: seq<Interval>, n: nat, p: nat, at: nat)
    requires n <= |intervals|
  {
    Taken(intervals, n, p + 1, at)
  }
}
