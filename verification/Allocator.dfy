/** The lowerer's own register allocator: it never reuses what linear scan, or it itself, has handed out. */
module Allocator {
  import opened Wrappers
  import opened Ptx

  const FIRST_TEMP: nat := 240
  const LAST_REGISTER: nat := 255

  datatype AllocationError = OutOfRegisters | OutOfTemporaries

  /** The physical registers from `base` on, `width` of them. */
  function Span(base: nat, width: nat): (rs: set<nat>)
    ensures forall q :: q in rs <==> base <= q < base + width
  {
    if width == 0 then {} else Span(base, width - 1) + {base + width - 1}
  }

  function Width(pair: bool): nat {
    if pair then 2 else 1
  }

  lemma WidthIs(pair: bool)
    ensures Width(pair) in {1, 2}
  {
  }

  /** A place for `width` registers that is aligned, unreserved and below the temporaries. */
  predicate Fits(reserved: set<nat>, base: nat, width: nat) {
    (width == 2 ==> base % 2 == 0) && base + width <= FIRST_TEMP && Span(base, width) !! reserved
  }

  /** Everything handed out is reserved, and what was not mapped beforehand overlaps nothing else. */
  ghost predicate Separate(mapping: map<Reg, nat>, width: map<Reg, nat>, reserved: set<nat>,
                           preMapping: map<Reg, nat>) {
    && width.Keys == mapping.Keys
    && (forall r | r in preMapping :: r in mapping && mapping[r] == preMapping[r] && width[r] == Width(IsPair(r)))
    && (forall r | r in mapping :: Span(mapping[r], width[r]) <= reserved)
    && (forall r, q | r in mapping && q in mapping && r != q && (r !in preMapping || q !in preMapping) ::
          Span(mapping[r], width[r]) !! Span(mapping[q], width[q]))
    && (forall r | r in mapping && r !in preMapping ::
          width[r] in {1, 2} && mapping[r] + width[r] <= FIRST_TEMP && (width[r] == 2 ==> mapping[r] % 2 == 0))
  }

  lemma SeparateMore(mapping: map<Reg, nat>, width: map<Reg, nat>, reserved: set<nat>, preMapping: map<Reg, nat>,
                     token: Reg, base: nat, w: nat)
    requires Separate(mapping, width, reserved, preMapping) && token !in mapping && w in {1, 2}
    requires Fits(reserved, base, w)
    ensures Separate(mapping[token := base], width[token := w], reserved + Span(base, w), preMapping)
  {
    hide Span;
  }

  lemma SeparateReserved(mapping: map<Reg, nat>, width: map<Reg, nat>, reserved: set<nat>, preMapping: map<Reg, nat>,
                         more: set<nat>)
    requires Separate(mapping, width, reserved, preMapping)
    ensures Separate(mapping, width, reserved + more, preMapping)
  {
    hide Span;
  }

  /** The tokens that were given two registers. */
  function Doubled(width: map<Reg, nat>): set<Reg> {
    set r | r in width && width[r] == 2
  }

  /** A pair costs three registers at most: its two and one left out for its alignment. */
  function Cost(width: map<Reg, nat>): nat {
    |width| + 2 * |Doubled(width)|
  }

  lemma CostMore(width: map<Reg, nat>, token: Reg, w: nat)
    requires token !in width && w in {1, 2}
    ensures Cost(width[token := w]) == Cost(width) + if w == 2 then 3 else 1
  {
    assert Doubled(width[token := w]) == Doubled(width) + if w == 2 then {token} else {};
  }

  /** Started empty, the allocator leaves out no register but for alignment. */
  ghost predicate Economical(next: nat, width: map<Reg, nat>, reserved: set<nat>) {
    (forall q | q in reserved :: q < next) && next <= 1 + Cost(width)
  }

  /** No aligned place at or behind `next` is left. */
  ghost predicate NoRoom(next: nat, reserved: set<nat>, w: nat) {
    forall b: nat | b >= next :: !Fits(reserved, b, w)
  }

  /** The first place at or behind `next` that fits. */
  ghost predicate FirstFit(next: nat, reserved: set<nat>, base: nat, w: nat) {
    base >= next && Fits(reserved, base, w) && forall b: nat | next <= b < base :: !Fits(reserved, b, w)
  }

  /** Behind everything reserved it is the next place, or the one behind that. */
  lemma FirstPlace(next: nat, reserved: set<nat>, base: nat, w: nat)
    requires w in {1, 2} && FirstFit(next, reserved, base, w) && forall q | q in reserved :: q < next
    ensures base == next + (if w == 2 then next % 2 else 0)
  {
    var first := next + (if w == 2 then next % 2 else 0);
    assert first <= base;
    assert Fits(reserved, first, w);
  }

  /** What is handed out keeps the allocator economical. */
  lemma EconomicalMore(next: nat, width: map<Reg, nat>, reserved: set<nat>, token: Reg, base: nat, w: nat)
    requires Economical(next, width, reserved) && token !in width && w in {1, 2}
    requires FirstFit(next, reserved, base, w)
    ensures Economical(base + w, width[token := w], reserved + Span(base, w))
  {
    FirstPlace(next, reserved, base, w);
    CostMore(width, token, w);
    hide Fits, Span, Cost;
  }

  /** An economical allocator runs out only when it has handed out nearly all it has. */
  lemma NoRoomMeansMany(next: nat, width: map<Reg, nat>, reserved: set<nat>, w: nat)
    requires Economical(next, width, reserved) && NoRoom(next, reserved, w) && w in {1, 2}
    ensures Cost(width) >= 238
  {
    hide Cost, Doubled;
    var first := next + (if w == 2 then next % 2 else 0);
    assert !Fits(reserved, first, w);
  }

  lemma Recorded(from: nat, mapping: map<Reg, nat>, width: map<Reg, nat>, reserved: set<nat>, reserved': set<nat>,
                 preMapping: map<Reg, nat>, token: Reg, base: nat, w: nat)
    requires Separate(mapping, width, reserved, preMapping) && token !in mapping && token !in width && w in {1, 2}
    requires FirstFit(from, reserved, base, w) && reserved' == reserved + Span(base, w)
    ensures Separate(mapping[token := base], width[token := w], reserved', preMapping)
    ensures Economical(from, width, reserved) ==> Economical(base + w, width[token := w], reserved')
  {
    hide Separate, Economical, Fits, Span;
    SeparateMore(mapping, width, reserved, preMapping, token, base, w);
    if Economical(from, width, reserved) {
      EconomicalMore(from, width, reserved, token, base, w);
    }
  }

  class RegisterAllocator {
    var next: nat
    var mapping: map<Reg, nat>
    var reserved: set<nat>
    var tempNext: nat
    const preMapping: map<Reg, nat>
    ghost var width: map<Reg, nat>

    ghost predicate Valid()
      reads this
    {
      && Separate(mapping, width, reserved, preMapping) && tempNext >= FIRST_TEMP
      && (preMapping == map[] ==> Economical(next, width, reserved))
    }

    constructor (preMapping: map<Reg, nat>)
      ensures Valid() && this.preMapping == preMapping && mapping == preMapping && next == 1
      ensures forall q :: q in reserved <==> exists r :: r in preMapping && q in Span(preMapping[r], Width(IsPair(r)))
    {
      this.preMapping := preMapping;
      next, mapping, tempNext := 1, preMapping, FIRST_TEMP;
      width := map r | r in preMapping :: Width(IsPair(r));
      reserved := set r, q | r in preMapping && q in Span(preMapping[r], Width(IsPair(r))) :: q;
    }

    lemma Parts()
      requires Valid()
      ensures Separate(mapping, width, reserved, preMapping) && width.Keys == mapping.Keys && tempNext >= FIRST_TEMP
      ensures preMapping == map[] ==> Economical(next, width, reserved)
    {
      hide Economical;
    }

    lemma SameTokens()
      requires Valid()
      ensures width.Keys == mapping.Keys
    {
      hide Economical;
    }

    lemma Whole()
      requires Separate(mapping, width, reserved, preMapping) && tempNext >= FIRST_TEMP
      requires preMapping == map[] ==> Economical(next, width, reserved)
      ensures Valid()
    {
      hide Economical, Separate;
    }

    /** `_allocate`: the first place at or behind `next` that fits. */
    method Allocate(w: nat) returns (r: Result<nat, AllocationError>)
      requires Valid() && w in {1, 2}
      modifies this`next, this`reserved
      ensures Separate(mapping, width, reserved, preMapping) && mapping == old(mapping) && width == old(width)
      ensures r.Ok? ==>
                && FirstFit(old(next), old(reserved), r.value, w)
                && reserved == old(reserved) + Span(r.value, w) && next == r.value + w
      ensures r.Err? ==>
                r == Err(OutOfRegisters) && next == old(next) && reserved == old(reserved) && NoRoom(next, reserved, w)
    {
      hide Separate, Economical, Span;
      var base := next;
      while true
        invariant next == old(next) && reserved == old(reserved) && base >= next
        invariant forall b: nat | old(next) <= b < base :: !Fits(old(reserved), b, w)
        decreases FIRST_TEMP - base
      {
        if w == 2 && base % 2 == 1 {
          base := base + 1;
        }
        var needed := Span(base, w);
        if needed !! reserved && base + w <= FIRST_TEMP {
          SeparateReserved(mapping, width, reserved, preMapping, needed);
          reserved := reserved + needed;
          next := base + w;
          return Ok(base);
        }
        base := base + 1;
        if base >= FIRST_TEMP {
          return Err(OutOfRegisters);
        }
      }
    }

    /** `reg`: what the token is mapped to, or a new place for it. */
    method Register(token: Reg, pair: bool) returns (r: Result<nat, AllocationError>)
      requires Valid()
      modifies this`next, this`reserved, this`mapping, this`width
      ensures Valid()
      ensures token in old(mapping) ==> r == Ok(old(mapping)[token]) && mapping == old(mapping) && width == old(width)
      ensures token !in old(mapping) && r.Ok? ==>
                mapping == old(mapping)[token := r.value] && width == old(width)[token := Width(pair)]
      ensures r.Err? ==>
                && r == Err(OutOfRegisters) && token !in old(mapping) && mapping == old(mapping) && width == old(width)
                && NoRoom(next, reserved, Width(pair))
    {
      if token in mapping {
        return Ok(mapping[token]);
      }
      r := Reserve(token, pair);
    }

    method Reserve(token: Reg, pair: bool) returns (r: Result<nat, AllocationError>)
      requires Valid() && token !in mapping
      modifies this`next, this`reserved, this`mapping, this`width
      ensures Valid()
      ensures r.Ok? ==> mapping == old(mapping)[token := r.value] && width == old(width)[token := Width(pair)]
      ensures r.Err? ==>
                && r == Err(OutOfRegisters) && mapping == old(mapping) && width == old(width)
                && NoRoom(next, reserved, Width(pair))
    {
      hide *;
      ghost var from, before := next, reserved;
      Parts();
      WidthIs(pair);
      r := Allocate(Width(pair));
      if r.Ok? {
        Recorded(from, mapping, width, before, reserved, preMapping, token, r.value, Width(pair));
        mapping := mapping[token := r.value];
        width := width[token := Width(pair)];
      }
      Whole();
    }

    /** `temp`: registers 240 to 255, one after the other. */
    method Temp() returns (r: Result<nat, AllocationError>)
      requires Valid()
      modifies this`tempNext
      ensures Valid() && tempNext == old(tempNext) + 1
      ensures r == if old(tempNext) <= LAST_REGISTER == 255 then Ok(old(tempNext)) else Err(OutOfTemporaries)
    {
      r := if tempNext <= LAST_REGISTER then Ok(tempNext) else Err(OutOfTemporaries);
      tempNext := tempNext + 1;
    }

    /** `reset_temps`. */
    method ResetTemps()
      requires Valid()
      modifies this`tempNext
      ensures Valid() && tempNext == FIRST_TEMP == 240
    {
      tempNext := FIRST_TEMP;
    }
  }
}
