/** The whole pass: splitting a program into scopes, optimizing each, and why no run can tell. */
module CsePass {
  import opened Ptx
  import opened Cse
  import opened CseScope
  import opened CseExact

  /** A label or boundary instruction by itself, or a straight run of pure instructions. */
  datatype Scope = Single(item: Item) | Straight(insts: seq<Inst>)

  predicate GoodScope(sc: Scope) {
    match sc
    case Single(item) => item.Label? || IsBoundary(item.inst)
    case Straight(insts) => IsScope(insts)
  }

  function Codes(insts: seq<Inst>): (items: seq<Item>)
    ensures |items| == |insts| && forall i | 0 <= i < |insts| :: items[i] == Code(insts[i])
  {
    seq(|insts|, i requires 0 <= i < |insts| => Code(insts[i]))
  }

  function ItemsOf(sc: Scope): seq<Item> {
    match sc
    case Single(item) => [item]
    case Straight(insts) => Codes(insts)
  }

  function Flatten(scopes: seq<Scope>): seq<Item> {
    if scopes == [] then [] else Flatten(scopes[..|scopes| - 1]) + ItemsOf(scopes[|scopes| - 1])
  }

  lemma FlattenAppend(scopes: seq<Scope>, sc: Scope)
    ensures Flatten(scopes + [sc]) == Flatten(scopes) + ItemsOf(sc)
  {
    assert (scopes + [sc])[..|scopes|] == scopes;
  }

  /** Scopes are well formed, and no two straight ones are adjacent. */
  predicate Splits(scopes: seq<Scope>) {
    && (forall k | 0 <= k < |scopes| :: GoodScope(scopes[k]))
    && (forall k | 0 < k < |scopes| :: scopes[k - 1].Single? || scopes[k].Single?)
  }

  lemma SplitsNext(scopes: seq<Scope>, sc: Scope)
    requires Splits(scopes) && GoodScope(sc)
    requires scopes != [] ==> scopes[|scopes| - 1].Single? || sc.Single?
    ensures Splits(scopes + [sc]) && Flatten(scopes + [sc]) == Flatten(scopes) + ItemsOf(sc)
  {
    FlattenAppend(scopes, sc);
    hide GoodScope, Flatten;
    var more := scopes + [sc];
    assert forall k | 0 <= k < |scopes| :: more[k] == scopes[k];
  }

  /** What has been split off so far, and the straight run being collected. */
  datatype Cut = Cut(scopes: seq<Scope>, current: seq<Inst>)

  function Flushed(cut: Cut): seq<Scope> {
    if cut.current == [] then cut.scopes else cut.scopes + [Straight(cut.current)]
  }

  function CutAfter(items: seq<Item>, n: nat): Cut
    requires n <= |items|
  {
    if n == 0 then Cut([], [])
    else
      var cut, item := CutAfter(items, n - 1), items[n - 1];
      if item.Label? || IsBoundary(item.inst) then Cut(Flushed(cut) + [Single(item)], [])
      else cut.(current := cut.current + [item.inst])
  }

  function ScopesOf(items: seq<Item>): seq<Scope> {
    Flushed(CutAfter(items, |items|))
  }

  /** Nothing is lost, and no straight run touches another. */
  ghost predicate GoodCut(cut: Cut, items: seq<Item>) {
    && Flatten(cut.scopes) + Codes(cut.current) == items && IsScope(cut.current) && Splits(cut.scopes)
    && (cut.scopes != [] ==> cut.scopes[|cut.scopes| - 1].Single?)
  }

  lemma FlushedRight(cut: Cut, items: seq<Item>)
    requires GoodCut(cut, items)
    ensures Splits(Flushed(cut)) && Flatten(Flushed(cut)) == items
  {
    hide Flatten, IsBoundary, Splits;
    if cut.current == [] {
      assert Flatten(cut.scopes) + Codes(cut.current) == Flatten(cut.scopes);
    } else {
      SplitsNext(cut.scopes, Straight(cut.current));
    }
  }

  /** A boundary closes the run collected so far. */
  lemma CutAtBoundary(cut: Cut, items: seq<Item>, item: Item)
    requires GoodCut(cut, items) && (item.Label? || IsBoundary(item.inst))
    ensures GoodCut(Cut(Flushed(cut) + [Single(item)], []), items + [item])
  {
    hide Flatten, IsBoundary, Splits, Flushed;
    FlushedRight(cut, items);
    SplitsNext(Flushed(cut), Single(item));
    assert Flatten(Flushed(cut) + [Single(item)]) + Codes([]) == items + [item];
  }

  /** Anything else joins it. */
  lemma CutGoesOn(cut: Cut, items: seq<Item>, inst: Inst)
    requires GoodCut(cut, items) && !IsBoundary(inst)
    ensures GoodCut(cut.(current := cut.current + [inst]), items + [Code(inst)])
  {
    hide Flatten, IsBoundary, Splits;
    assert Codes(cut.current + [inst]) == Codes(cut.current) + [Code(inst)];
    assert Flatten(cut.scopes) + (Codes(cut.current) + [Code(inst)]) == Flatten(cut.scopes) + Codes(cut.current)
                                                                        + [Code(inst)];
  }

  lemma {:induction false} CutRight(items: seq<Item>, n: nat)
    requires n <= |items|
    ensures GoodCut(CutAfter(items, n), items[..n])
  {
    if n == 0 {
      FlattenNothing();
      assert items[..0] == [];
    } else {
      CutRight(items, n - 1);
      var cut, item := CutAfter(items, n - 1), items[n - 1];
      assert items[..n] == items[..n - 1] + [item];
      hide GoodCut, IsBoundary, Flushed;
      if item.Label? || IsBoundary(item.inst) {
        CutAtBoundary(cut, items[..n - 1], item);
      } else {
        CutGoesOn(cut, items[..n - 1], item.inst);
      }
    }
  }

  /** The scopes are the program cut up. */
  lemma ScopesCover(items: seq<Item>)
    ensures Flatten(ScopesOf(items)) == items && Splits(ScopesOf(items))
  {
    hide Flatten, Splits, GoodCut, Flushed, CutAfter;
    assert items[..|items|] == items;
    CutRight(items, |items|);
    FlushedRight(CutAfter(items, |items|), items);
  }

  /** The straight run collected so far becomes a scope. */
  method Flush(scopes: seq<Scope>, current: seq<Inst>) returns (flushed: seq<Scope>)
    ensures flushed == Flushed(Cut(scopes, current)) && Flatten(flushed) == Flatten(scopes) + Codes(current)
  {
    if current == [] {
      assert Flatten(scopes) + Codes(current) == Flatten(scopes);
      return scopes;
    }
    FlattenAppend(scopes, Straight(current));
    return scopes + [Straight(current)];
  }

  /** `_split_cse_scopes`. */
  method SplitScopes(items: seq<Item>) returns (scopes: seq<Scope>)
    ensures scopes == ScopesOf(items) && Flatten(scopes) == items && Splits(scopes)
  {
    hide Flatten, IsBoundary, Splits;
    scopes := [];
    var current: seq<Inst> := [];
    for i := 0 to |items|
      invariant CutAfter(items, i) == Cut(scopes, current)
    {
      if items[i].Label? || IsBoundary(items[i].inst) {
        var flushed := Flush(scopes, current);
        scopes, current := flushed + [Single(items[i])], [];
      } else {
        current := current + [items[i].inst];
      }
    }
    scopes := Flush(scopes, current);
    ScopesCover(items);
  }

  lemma FlattenNothing()
    ensures Flatten([]) == [] && Splits([])
  {
  }

  lemma FlattenLast(scopes: seq<Scope>)
    requires scopes != []
    ensures Flatten(scopes) == Flatten(scopes[..|scopes| - 1]) + ItemsOf(scopes[|scopes| - 1])
  {
  }

  // ----- who reads what where -----

  function ReadsOf(item: Item): multiset<Reg> {
    if item.Code? then multiset(ReadRegisters(item.inst)) else multiset{}
  }

  /** `_collect_read_register_counts`: each instruction counts once for each register it reads. */
  function ReadCounts(items: seq<Item>): multiset<Reg> {
    if items == [] then multiset{} else ReadCounts(items[..|items| - 1]) + ReadsOf(items[|items| - 1])
  }

  /** The registers read more often in the program than in this scope. */
  function OutsideReads(all: multiset<Reg>, inside: multiset<Reg>): (rs: set<Reg>)
    ensures forall r :: r in rs <==> all[r] > inside[r]
  {
    set r | r in all && all[r] > inside[r]
  }

  ghost function OutsideOf(scopes: seq<Scope>, k: nat): set<Reg>
    requires k < |scopes|
  {
    OutsideReads(ReadCounts(Flatten(scopes)), ReadCounts(ItemsOf(scopes[k])))
  }

  ghost predicate ReadIn(sc: Scope, r: Reg) {
    exists i | 0 <= i < |ItemsOf(sc)| :: ItemsOf(sc)[i].Code? && r in ReadRegisters(ItemsOf(sc)[i].inst)
  }

  lemma {:induction false} CountsAppend(a: seq<Item>, b: seq<Item>)
    ensures ReadCounts(a + b) == ReadCounts(a) + ReadCounts(b)
    decreases |b|
  {
    if b == [] {
      assert a + b == a;
    } else {
      assert (a + b)[..|a + b| - 1] == a + b[..|b| - 1];
      CountsAppend(a, b[..|b| - 1]);
    }
  }

  lemma {:induction false} ReadIsCounted(items: seq<Item>, i: nat, r: Reg)
    requires i < |items| && items[i].Code? && r in ReadRegisters(items[i].inst)
    ensures ReadCounts(items)[r] > 0
    decreases |items|
  {
    if i < |items| - 1 {
      ReadIsCounted(items[..|items| - 1], i, r);
    }
  }

  /** Every scope's reads are part of the program's. */
  lemma {:induction false} OneCounted(scopes: seq<Scope>, k: nat, r: Reg)
    requires k < |scopes|
    ensures ReadCounts(Flatten(scopes))[r] >= ReadCounts(ItemsOf(scopes[k]))[r]
    decreases |scopes|
  {
    hide Flatten, ItemsOf, ReadCounts;
    var m := |scopes| - 1;
    FlattenLast(scopes);
    CountsAppend(Flatten(scopes[..m]), ItemsOf(scopes[m]));
    if k < m {
      OneCounted(scopes[..m], k, r);
    }
  }

  lemma {:induction false} BothCounted(scopes: seq<Scope>, k: nat, j: nat, r: Reg)
    requires k < j < |scopes|
    ensures ReadCounts(Flatten(scopes))[r] >= ReadCounts(ItemsOf(scopes[k]))[r] + ReadCounts(ItemsOf(scopes[j]))[r]
    decreases |scopes|
  {
    hide Flatten, ItemsOf, ReadCounts;
    var m := |scopes| - 1;
    FlattenLast(scopes);
    CountsAppend(Flatten(scopes[..m]), ItemsOf(scopes[m]));
    if j < m {
      BothCounted(scopes[..m], k, j, r);
    } else {
      OneCounted(scopes[..m], k, r);
    }
  }

  lemma {:induction false} CountedIsRead(items: seq<Item>, r: Reg) returns (i: nat)
    requires ReadCounts(items)[r] > 0
    ensures i < |items| && items[i].Code? && r in ReadRegisters(items[i].inst)
    decreases |items|
  {
    var n := |items| - 1;
    if items[n].Code? && r in ReadRegisters(items[n].inst) {
      i := n;
    } else {
      i := CountedIsRead(items[..n], r);
    }
  }

  /** Scopes that do not read `r` add nothing to its count. */
  lemma {:induction false} OnlyCounted(scopes: seq<Scope>, k: nat, r: Reg)
    requires forall j: nat | j < |scopes| && j != k :: !ReadIn(scopes[j], r)
    ensures ReadCounts(Flatten(scopes))[r] == if k < |scopes| then ReadCounts(ItemsOf(scopes[k]))[r] else 0
    decreases |scopes|
  {
    hide Flatten, ItemsOf;
    if scopes == [] {
      FlattenNothing();
    } else {
      var m := |scopes| - 1;
      FlattenLast(scopes);
      CountsAppend(Flatten(scopes[..m]), ItemsOf(scopes[m]));
      OnlyCounted(scopes[..m], k, r);
      if ReadCounts(ItemsOf(scopes[m]))[r] > 0 {
        var i := CountedIsRead(ItemsOf(scopes[m]), r);
        assert ReadIn(scopes[m], r);
      }
    }
  }

  /** A register counts as read outside a scope iff another scope reads it. */
  lemma ReadElsewhere(scopes: seq<Scope>, k: nat, r: Reg)
    requires k < |scopes|
    ensures r in OutsideOf(scopes, k) <==> exists j: nat :: j < |scopes| && j != k && ReadIn(scopes[j], r)
  {
    if j: nat :| j < |scopes| && j != k && ReadIn(scopes[j], r) {
      var i :| 0 <= i < |ItemsOf(scopes[j])| && ItemsOf(scopes[j])[i].Code?
          && r in ReadRegisters(ItemsOf(scopes[j])[i].inst);
      ReadIsCounted(ItemsOf(scopes[j]), i, r);
      if k < j {
        BothCounted(scopes, k, j, r);
      } else {
        BothCounted(scopes, j, k, r);
      }
    } else {
      OnlyCounted(scopes, k, r);
    }
  }

  // ----- the pass -----

  function OutcomeOf(sc: Scope, outside: set<Reg>): Scope
    requires GoodScope(sc)
  {
    match sc
    case Single(_) => sc
    case Straight(insts) => Straight(Outcome(insts, outside))
  }

  function GoneFrom(sc: Scope, outside: set<Reg>): set<Reg>
    requires GoodScope(sc)
  {
    match sc
    case Single(_) => {}
    case Straight(insts) => Unwritten(insts, outside)
  }

  /** What becomes of all the scopes. */
  ghost function Outcomes(scopes: seq<Scope>): (outcome: seq<Scope>)
    requires Splits(scopes)
    ensures |outcome| == |scopes| && forall k: nat | k < |scopes| ::
            outcome[k] == OutcomeOf(scopes[k], OutsideOf(scopes, k))
  {
    seq(|scopes|, k requires 0 <= k < |scopes| => OutcomeOf(scopes[k], OutsideOf(scopes, k)))
  }

  /** The registers each scope leaves unwritten at its end and does not read first. */
  ghost function Gone(scopes: seq<Scope>): (gone: seq<set<Reg>>)
    requires Splits(scopes)
    ensures |gone| == |scopes| && forall k: nat | k < |scopes| :: gone[k] == GoneFrom(scopes[k], OutsideOf(scopes, k))
  {
    seq(|scopes|, k requires 0 <= k < |scopes| => GoneFrom(scopes[k], OutsideOf(scopes, k)))
  }

  /** `outcome` does for one scope; `gone` are the registers it may leave unwritten. */
  ghost predicate ScopeDone(sc: Scope, outside: set<Reg>, outcome: Scope, gone: set<Reg>) {
    match sc
    case Single(_) => outcome == sc && gone == {}
    case Straight(insts) =>
      && IsScope(insts) && outcome.Straight? && IsScope(outcome.insts) && gone !! outside
      && |outcome.insts| <= |insts|
      && (forall r | r in gone :: Defined(insts, |insts|, r) && !Exposed(insts, r))
      && (Sound(insts, outside) ==> Preserves(insts, outcome.insts, gone))
  }

  lemma OutcomeDoes(sc: Scope, outside: set<Reg>)
    requires GoodScope(sc)
    ensures ScopeDone(sc, outside, OutcomeOf(sc, outside), GoneFrom(sc, outside))
    ensures |ItemsOf(OutcomeOf(sc, outside))| <= |ItemsOf(sc)|
    ensures |ItemsOf(OutcomeOf(sc, outside))| == |ItemsOf(sc)| ==> OutcomeOf(sc, outside) == sc
  {
    if sc.Straight? {
      OutcomeRight(sc.insts, outside);
      if Sound(sc.insts, outside) {
        SoundPreserves(sc.insts, outside);
      }
      hide Preserves, Sound, Defined, Outcome, Dropped, Exposed;
    }
  }

  ghost predicate AllDone(scopes: seq<Scope>, outcome: seq<Scope>, gone: seq<set<Reg>>, n: nat)
    requires n <= |scopes|
  {
    |outcome| == |gone| == n
    && forall k: nat | k < n :: GoodScope(scopes[k]) && ScopeDone(scopes[k], OutsideOf(scopes, k), outcome[k], gone[k])
  }

  lemma OutcomesDo(scopes: seq<Scope>)
    requires Splits(scopes)
    ensures AllDone(scopes, Outcomes(scopes), Gone(scopes), |scopes|)
  {
    forall k: nat | k < |scopes|
      ensures GoodScope(scopes[k])
      ensures ScopeDone(scopes[k], OutsideOf(scopes, k), Outcomes(scopes)[k], Gone(scopes)[k])
    {
      OutcomeDoes(scopes[k], OutsideOf(scopes, k));
    }
    hide GoodScope, ScopeDone, OutsideOf;
  }

  /** What becomes of the program. */
  ghost function Eliminated(items: seq<Item>): seq<Item> {
    ScopesCover(items);
    Flatten(Outcomes(ScopesOf(items)))
  }

  /** `BasicBlockLocalCSEPass.run`. */
  method EliminateCommonSubexpressions(items: seq<Item>) returns (kept: seq<Item>, removedCount: nat)
    ensures kept == Eliminated(items) && |kept| + removedCount == |items|
    ensures removedCount == 0 ==> kept == items
  {
    hide ReadCounts, GoodScope, OutsideReads, Flatten, ItemsOf, Splits, OutcomeOf, ScopesOf;
    var split := SplitScopes(items);
    var allCounts := ReadCounts(items);
    kept, removedCount := [], 0;
    FlattenNothing();
    assert split[..0] == [] && Outcomes(split)[..0] == [];
    for k := 0 to |split|
      invariant kept == Flatten(Outcomes(split)[..k])
      invariant |kept| + removedCount == |Flatten(split[..k])|
      invariant removedCount == 0 ==> kept == Flatten(split[..k])
    {
      FlattenAppend(split[..k], split[k]);
      FlattenAppend(Outcomes(split)[..k], Outcomes(split)[k]);
      assert split[..k + 1] == split[..k] + [split[k]];
      assert Outcomes(split)[..k + 1] == Outcomes(split)[..k] + [Outcomes(split)[k]];
      EachGood(split, k);
      var done, removed := OptimizeOne(split[k], OutsideReads(allCounts, ReadCounts(ItemsOf(split[k]))));
      kept := kept + ItemsOf(done);
      removedCount := removedCount + removed;
    }
    assert split[..|split|] == split && Outcomes(split)[..|split|] == Outcomes(split);
  }

  lemma EachGood(scopes: seq<Scope>, k: nat)
    requires Splits(scopes) && k < |scopes|
    ensures GoodScope(scopes[k])
  {
  }

  /** One turn of the loop over scopes: a scope without gain comes out as it was. */
  method OptimizeOne(sc: Scope, outside: set<Reg>) returns (outcome: Scope, removed: nat)
    requires GoodScope(sc)
    ensures outcome == OutcomeOf(sc, outside) && |ItemsOf(outcome)| + removed == |ItemsOf(sc)|
    ensures removed == 0 ==> outcome == sc
  {
    OutcomeDoes(sc, outside);
    match sc {
      case Single(_) =>
        return sc, 0;
      case Straight(insts) =>
        hide Outcome, ScopeDone;
        var optimized, replacements;
        optimized, replacements, removed := OptimizeScope(insts, outside);
        return Straight(optimized), removed;
    }
  }
}
