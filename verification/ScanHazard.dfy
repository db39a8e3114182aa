/** A list of intervals whose scan is spoiled: two registers that are alive together get one physical register. */
module ScanHazard {
  import opened Wrappers
  import opened Ptx
  import opened LinearScan
  import opened ScanCorrect

  /** The k-th of the single registers: it gets R(k + 1), and gives it back early if that is odd. */
  function SingleInterval(k: nat): Interval {
    Interval(Reg(ClassR, k), k, if k % 2 == 0 then 300 else 1000)
  }

  function PairInterval(): Interval {
    Interval(Reg(ClassRd, 0), 301, 301)
  }

  function LateInterval(): Interval {
    Interval(Reg(ClassR, MAX_GPR), 302, 1000)
  }

  /** Singles for all 239 registers; when half of them are free again a pair is wanted, then one more single. */
  function SpoilingIntervals(): (r: seq<Interval>)
    ensures |r| == MAX_GPR + 2 && r[MAX_GPR] == PairInterval() && r[MAX_GPR + 1] == LateInterval()
    ensures forall k: nat | k < MAX_GPR :: r[k] == SingleInterval(k)
  {
    seq(MAX_GPR, k requires 0 <= k < MAX_GPR => SingleInterval(k)) + [PairInterval(), LateInterval()]
  }

  lemma SpoilingScannable()
    ensures Scannable(SpoilingIntervals())
  {
  }

  function FullList(n: nat): seq<nat>
    requires n <= MAX_GPR
  {
    seq(n, i requires 0 <= i < n => MAX_GPR - i)
  }

  function HeldBy(n: nat): (r: seq<Busy>)
    ensures |r| == n && forall k: nat | k < n :: r[k] == Busy(SingleInterval(k).last, k + 1)
  {
    seq(n, k requires 0 <= k < n => Busy(SingleInterval(k).last, k + 1))
  }

  function Homes(n: nat): map<Reg, nat> {
    map k: nat | k < n :: Reg(ClassR, k) := k + 1
  }

  lemma {:induction false} NothingExpires(active: seq<Busy>, first: nat)
    requires forall k | 0 <= k < |active| :: active[k].end >= first
    ensures Expired(active, first) == []
    decreases |active|
  {
    if active != [] {
      NothingExpires(active[..|active| - 1], first);
    }
  }

  lemma {:induction false} AllLast(active: seq<Busy>, first: nat)
    requires forall k | 0 <= k < |active| :: active[k].end >= first
    ensures Lasting(active, first) == active
    decreases |active|
  {
    if active != [] {
      var front, b := active[..|active| - 1], active[|active| - 1];
      AllLast(front, first);
      assert b.end >= first && front + [b] == active;
      LastingNext(front, b, first);
    }
  }

  lemma LastingNext(front: seq<Busy>, b: Busy, first: nat)
    requires b.end >= first
    ensures Lasting(front + [b], first) == Lasting(front, first) + [b]
  {
    assert (front + [b])[..|front|] == front;
  }

  /** With nothing to expire a single register takes the top of the free list. */
  lemma TakesTop(pool: Pool, iv: Interval, rest: seq<nat>, top: nat)
    requires !IsPair(iv.reg) && pool.free == rest + [top]
    requires forall k | 0 <= k < |pool.active| :: pool.active[k].end >= iv.first
    ensures Allocate(pool, iv) == Pool(rest, pool.active + [Busy(iv.last, top)], pool.mapping[iv.reg := top])
  {
    NothingExpires(pool.active, iv.first);
    AllLast(pool.active, iv.first);
    assert pool.free + [] == pool.free;
    assert pool.free[..|rest|] == rest && pool.free[|rest|] == top;
  }

  lemma NextLists(n: nat)
    requires n < MAX_GPR
    ensures FullList(MAX_GPR - n) == FullList(MAX_GPR - n - 1) + [n + 1]
    ensures HeldBy(n + 1) == HeldBy(n) + [Busy(SingleInterval(n).last, n + 1)]
    ensures Homes(n + 1) == Homes(n)[Reg(ClassR, n) := n + 1]
  {
    hide SingleInterval;
  }

  lemma SingleTurnAt(n: nat)
    requires n < MAX_GPR
    ensures Allocate(Pool(FullList(MAX_GPR - n), HeldBy(n), Homes(n)), SingleInterval(n))
         == Pool(FullList(MAX_GPR - n - 1), HeldBy(n + 1), Homes(n + 1))
  {
    NextLists(n);
    hide Allocate, FullList, Homes;
    TakesTop(Pool(FullList(MAX_GPR - n), HeldBy(n), Homes(n)), SingleInterval(n), FullList(MAX_GPR - n - 1), n + 1);
  }

  /** After n singles the registers R1 to Rn are taken, in order. */
  lemma {:induction false} SinglesScanned(n: nat)
    requires n <= MAX_GPR
    ensures Scan(SpoilingIntervals(), n) == Pool(FullList(MAX_GPR - n), HeldBy(n), Homes(n))
  {
    if n == 0 {
      assert Homes(0) == map[] && HeldBy(0) == [];
    } else {
      SinglesScanned(n - 1);
      hide Allocate, FullList, HeldBy, Homes;
      SingleTurnAt(n - 1);
    }
  }

  function Odds(n: nat): (r: seq<nat>)
    ensures |r| == n && forall i: nat | i < n :: r[i] == 2 * i + 1
  {
    seq(n, i requires 0 <= i < n => 2 * i + 1)
  }

  /** When the pair is wanted the odd registers are free again. */
  lemma {:induction false} OddsExpire(n: nat)
    ensures Expired(HeldBy(n), 301) == Odds((n + 1) / 2)
  {
    if n > 0 {
      OddsExpire(n - 1);
      assert HeldBy(n)[..n - 1] == HeldBy(n - 1);
      assert HeldBy(n)[n - 1] == Busy(SingleInterval(n - 1).last, n);
      if n % 2 == 1 {
        assert Odds((n + 1) / 2) == Odds(n / 2) + [n];
      } else {
        assert Odds(n / 2) + [] == Odds(n / 2);
      }
    }
  }

  lemma {:induction false} OddsHoldNoPair(n: nat, k: nat)
    requires k <= n
    ensures PairIndex(Odds(n), k).None?
  {
    if k > 0 {
      OddsHoldNoPair(n, k - 1);
    }
  }

  lemma PutsBackBelow(pool: Pool, iv: Interval, rest: seq<nat>, top: nat)
    requires pool.free == rest + [top] && rest != [] && top % 2 == 1 && top !in rest
    ensures Fallback(pool, iv) == pool.(free := rest + [top - 1])
  {
    hide IndexOf, RemoveAt, HoldPair;
    assert pool.free[..|rest|] == rest && pool.free[|rest|] == top;
  }

  lemma NoPairTaken(pool: Pool, iv: Interval)
    requires PairIndex(pool.free, |pool.free|).None?
    ensures TakePair(pool, iv) == Fallback(pool, iv)
  {
    hide PairIndex, Fallback, HoldPair;
  }

  /** A pair with no pair free and an odd register on top: the register below the top is put back. */
  lemma OddFallback(pool: Pool, iv: Interval, rest: seq<nat>, top: nat)
    requires IsPair(iv.reg) && Expire(pool, iv.first).free == rest + [top] && rest != []
    requires PairIndex(rest + [top], |rest| + 1).None? && top % 2 == 1 && top !in rest
    ensures Spoils(pool, iv) && Allocate(pool, iv) == Expire(pool, iv.first).(free := rest + [top - 1])
  {
    hide Expire, PairIndex, TakePair, TakeSingle, Fallback;
    NoPairTaken(Expire(pool, iv.first), iv);
    PutsBackBelow(Expire(pool, iv.first), iv, rest, top);
  }

  lemma OddsSplit(n: nat)
    ensures Odds(n + 1) == Odds(n) + [2 * n + 1] && 2 * n + 1 !in Odds(n)
  {
  }

  /** What expires when the pair is wanted, after n singles. */
  lemma BeforePair(n: nat, pool: Pool)
    requires n == MAX_GPR && pool == Pool(FullList(MAX_GPR - n), HeldBy(n), Homes(n))
    ensures Expire(pool, PairInterval().first) == Pool(Odds((n + 1) / 2), Lasting(HeldBy(n), 301), Homes(n))
  {
    OddsExpire(n);
    assert FullList(MAX_GPR - n) + Odds((n + 1) / 2) == Odds((n + 1) / 2);
    hide FullList, Homes, Odds, HeldBy, Lasting, Expired;
  }

  lemma PairIsPair()
    ensures IsPair(PairInterval().reg) && !IsPair(LateInterval().reg) && LateInterval().reg == Reg(ClassR, MAX_GPR)
  {
  }

  /** After all singles the pair puts the busy R238 on top of the free list. */
  lemma PairSpoils(n: nat, half: nat)
    requires n == 239 == MAX_GPR && half == 119
    ensures var pool := Scan(SpoilingIntervals(), n);
            && Spoils(pool, PairInterval())
            && Allocate(pool, PairInterval()) == Pool(Odds(half) + [238], Lasting(HeldBy(n), 301), Homes(n))
  {
    hide *;
    var pool := Scan(SpoilingIntervals(), n);
    SinglesScanned(n);
    BeforePair(n, pool);
    OddsHoldNoPair(half + 1, half + 1);
    OddsSplit(half);
    PairIsPair();
    OddFallback(pool, PairInterval(), Odds(half), 2 * half + 1);
  }

  lemma StillRunning(n: nat, b: Busy)
    requires b in Lasting(HeldBy(n), 301)
    ensures b.end >= LateInterval().first
  {
    assert b in HeldBy(n);
  }

  lemma HomeOf(n: nat, k: nat)
    requires k < n
    ensures Reg(ClassR, k) in Homes(n) && Homes(n)[Reg(ClassR, k)] == k + 1
  {
  }

  /** The last single takes the register put back, which the 238th interval still holds. */
  lemma LateTakesBusy(n: nat, half: nat, held: nat)
    requires n == 239 == MAX_GPR && half == 119 && held == 237
    ensures var m := Scan(SpoilingIntervals(), n + 2).mapping;
            && Reg(ClassR, held) in m && m[Reg(ClassR, held)] == 238
            && LateInterval().reg in m && m[LateInterval().reg] == 238
  {
    hide *;
    PairSpoils(n, half);
    PairIsPair();
    var rest, lasting, homes := Odds(half), Lasting(HeldBy(n), 301), Homes(n);
    HomeOf(n, held);
    forall k | 0 <= k < |lasting| ensures lasting[k].end >= LateInterval().first {
      StillRunning(n, lasting[k]);
    }
    LastTwo(SpoilingIntervals(), n);
    TakesTop(Pool(rest + [238], lasting, homes), LateInterval(), rest, 238);
  }

  lemma LastTwo(intervals: seq<Interval>, n: nat)
    requires n + 2 == |intervals|
    ensures Scan(intervals, n + 2) == Allocate(Allocate(Scan(intervals, n), intervals[n]), intervals[n + 1])
  {
    hide Allocate;
    assert Scan(intervals, n + 1) == Allocate(Scan(intervals, n), intervals[n]);
  }

  /** Two intervals overlap and are given a physical register in common. */
  ghost predicate Clash(intervals: seq<Interval>, i: nat, j: nat) {
    && i < j < |intervals| && intervals[j].first <= intervals[i].last
    && var m := Scan(intervals, |intervals|).mapping;
       && intervals[i].reg in m && intervals[j].reg in m
       && !(Slots(intervals[i].reg, m[intervals[i].reg]) !! Slots(intervals[j].reg, m[intervals[j].reg]))
  }

  /** A list the pass may meet whose scan is spoiled, with the damage done. */
  lemma ScanCanBeSpoiled()
    ensures exists intervals: seq<Interval>, i: nat, j: nat ::
              Scannable(intervals) && !Unspoiled(intervals, |intervals|) && Clash(intervals, i, j)
  {
    SpoilingScannable();
    var intervals, n, half, i := SpoilingIntervals(), MAX_GPR, 119, 237;
    hide Scannable, Clash, Unspoiled, SpoilingIntervals;
    SpoiledClash(intervals, n, half, i);
  }

  lemma SpoiledClash(intervals: seq<Interval>, n: nat, half: nat, i: nat)
    requires intervals == SpoilingIntervals() && n == 239 == MAX_GPR && half == 119 && i == 237
    ensures !Unspoiled(intervals, |intervals|) && Clash(intervals, i, n + 1)
  {
    PairSpoils(n, half);
    LateTakesBusy(n, half, i);
    assert intervals[n] == PairInterval() && intervals[i] == SingleInterval(i) && intervals[n + 1] == LateInterval();
    hide Scan, Spoils, SpoilingIntervals, Scannable;
    assert Spoils(Scan(intervals, n), intervals[n]);
    var m := Scan(intervals, n + 2).mapping;
    assert 238 in Slots(intervals[i].reg, m[intervals[i].reg]);
    assert 238 in Slots(intervals[n + 1].reg, m[intervals[n + 1].reg]);
  }
}
