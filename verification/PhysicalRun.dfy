/** Running over the allocated physical registers gives every instruction the values it would read virtually. */
module PhysicalRun {
  import opened Wrappers
  import opened Words
  import opened Ptx
  import opened Liveness
  import opened LinearScan
  import opened ScanCorrect
  import opened RegisterAllocation
  import opened Allocator

  /** Where a virtual register lives: `width` registers from `base` on, the low word first. */
  datatype Home = Home(base: nat, width: nat)

  type Homes = map<Reg, Home>

  /** Predicates have registers of their own; general values lie in numbered slots. */
  datatype Physical = Physical(slots: map<nat, nat>, preds: Regs, gmem: seq<Byte>)

  function SlotAt(slots: map<nat, nat>, q: nat): nat {
    if q in slots then slots[q] else 0
  }

  function Read(homes: Homes, p: Physical, r: Reg): nat {
    if IsPredicate(r) then Get(p.preds, r)
    else if r !in homes then 0
    else if homes[r].width == 2 then SlotAt(p.slots, homes[r].base) + WORD * SlotAt(p.slots, homes[r].base + 1)
    else SlotAt(p.slots, homes[r].base)
  }

  function WriteSlots(home: Home, slots: map<nat, nat>, v: nat): map<nat, nat> {
    if home.width == 2 then slots[home.base := v % WORD][home.base + 1 := v / WORD] else slots[home.base := v]
  }

  function WriteReg(homes: Homes, p: Physical, r: Reg, v: nat): Physical {
    if IsPredicate(r) then p.(preds := p.preds[r := v])
    else if r in homes then p.(slots := WriteSlots(homes[r], p.slots, v))
    else p
  }

  /** The virtual registers as read off the physical ones. */
  function View(homes: Homes, p: Physical, rs: set<Reg>): State {
    State(map r | r in rs :: Read(homes, p, r), p.gmem)
  }

  datatype PhysicalStep = PNext(pc: nat, p: Physical) | PDone(p: Physical) | PFault(memory: seq<Byte>)

  function Step(host: Host, items: seq<Item>, homes: Homes, pc: nat, p: Physical): PhysicalStep {
    if pc >= |items| then PFault(p.gmem)
    else match items[pc]
         case Label(_) => PNext(pc + 1, p)
         case Code(inst) =>
           match GuardedEffect(host, inst, View(homes, p, ReadRegisters(inst)))
           case Nothing => PNext(pc + 1, p)
           case Write(r, v) => PNext(pc + 1, WriteReg(homes, p, r, v))
           case StoreTo(address, blob) =>
             if address + |blob| <= |p.gmem|
             then PNext(pc + 1, p.(gmem := p.gmem[..address] + blob + p.gmem[address + |blob|..]))
             else PFault(p.gmem)
           case Jump(l) => (match FindLabel(items, l, 0) case Some(t) => PNext(t, p) case None => PFault(p.gmem))
           case Exit => PDone(p)
           case Failure => PFault(p.gmem)
  }

  datatype PhysicalResult = PHalted(p: Physical) | PFailed(memory: seq<Byte>) | POutOfSteps

  function Run(host: Host, items: seq<Item>, homes: Homes, pc: nat, p: Physical, fuel: nat): PhysicalResult
    decreases fuel
  {
    if fuel == 0 then POutOfSteps
    else match Step(host, items, homes, pc, p)
         case PFault(m) => PFailed(m)
         case PDone(final) => PHalted(final)
         case PNext(pc', p') => Run(host, items, homes, pc', p', fuel - 1)
  }

  // ----- what is asked of program and homes -----

  /** No `fma`; comparisons write predicates and nothing else does. */
  predicate WellTyped(items: seq<Item>) {
    forall i | 0 <= i < |items| && items[i].Code? ::
      && items[i].inst.op.base != Fma
      && (Destination(items[i].inst).Some? ==>
            (items[i].inst.op.base == Setp <==> IsPredicate(Destination(items[i].inst).value)))
  }

  type Hull = Option<(nat, nat)>

  /** Item `i` is an instruction of the hull. */
  predicate InLoops(items: seq<Item>, hull: Hull, i: nat) {
    hull.Some? && hull.value.0 <= i <= hull.value.1 && i < |items| && items[i].Code?
  }

  /** From `pc` control is in the hull, or enters it without another instruction. */
  predicate Inside(items: seq<Item>, hull: Hull, pc: nat) {
    hull.Some? && pc <= hull.value.1 && forall i | pc <= i < hull.value.0 && i < |items| :: items[i].Label?
  }

  /** Every branch leads on, or from the hull back into it. */
  ghost predicate BranchesStay(items: seq<Item>, hull: Hull) {
    forall i: nat, name | i < |items| && JumpsTo(items[i], name) && FindLabel(items, name, 0).Some? ::
      FindLabel(items, name, 0).value > i
      || (Inside(items, hull, i) && Inside(items, hull, FindLabel(items, name, 0).value))
  }

  /**
   * What the loops define they also use: some recorded use in the hull has a definition at or in front of it.
   */
  ghost predicate LoopsUse(items: seq<Item>, hull: Hull) {
    forall d: nat, r | InLoops(items, hull, d) && IsDef(items, d, r)
        && !IsPredicate(r) :: RecordedInside(items, hull, r)
  }

  ghost predicate RecordedInside(items: seq<Item>, hull: Hull, r: Reg) {
    hull.Some? && exists e: nat, u: nat :: e <= u && IsDef(items, e, r) && InHull(items, hull.value, r, u)
  }

  predicate JumpsTo(item: Item, name: string) {
    item.Code? && item.inst.op.base == Bra && item.inst.operands == [Operand.Target(name)]
  }

  ghost predicate Mentions(items: seq<Item>, r: Reg) {
    exists i: nat :: IsUse(items, i, r) || IsDef(items, i, r)
  }

  /**
   * Every general register of the program has a home; a register written while another waits for a use shares nothing
   * with it.
   */
  ghost predicate SafeHomes(items: seq<Item>, hull: Hull, homes: Homes) {
    && (forall r | Mentions(items, r) && !IsPredicate(r) :: r in homes)
    && (forall d: nat, r, q | IsDef(items, d, r) && r != q && !IsPredicate(r) && !IsPredicate(q)
        && Waits(items, hull, d, q) ::
          r in homes && q in homes && Span(homes[r].base, homes[r].width) !! Span(homes[q].base, homes[q].width))
    && (forall r | r in homes :: homes[r].width in {1, 2})
  }

  /**
   * When control is at `pc`, item `e` may have been carried out: it lies in front, or a loop may lead from it to `pc`.
   */
  predicate Before(items: seq<Item>, hull: Hull, e: nat, pc: nat) {
    e < pc || (Inside(items, hull, pc) && InLoops(items, hull, e))
  }

  ghost predicate MayBeWritten(items: seq<Item>, hull: Hull, pc: nat, r: Reg) {
    exists e: nat :: Before(items, hull, e, pc) && IsDef(items, e, r)
  }

  /** From `pc` on, or round a loop, some item uses `r`. */
  ghost predicate Needed(items: seq<Item>, hull: Hull, pc: nat, r: Reg) {
    exists u: nat :: (u >= pc || (Inside(items, hull, pc) && InLoops(items, hull, u))) && IsUse(items, u, r)
  }

  /** `q` may be written when item `d` is reached and be needed behind it. */
  ghost predicate Waits(items: seq<Item>, hull: Hull, d: nat, q: Reg) {
    MayBeWritten(items, hull, d, q) && Needed(items, hull, d + 1, q)
  }

  /**
   * The run never reads a general register it has not written.  A definition in front of the use is not enough:
   * a branch may lead round it, and then the read finds zero virtually and what the slot was last used for physically.
   */
  ghost predicate ReadsWritten(host: Host, items: seq<Item>, pc: nat, s: State, fuel: nat)
    decreases fuel
  {
    fuel > 0 ==>
      && ReadsWrittenAt(items, pc, s)
      && (match Ptx.Step(host, items, pc, s)
          case Next(pc', s') => var rest: nat := fuel - 1; ReadsWritten(host, items, pc', s', rest)
          case _ => true)
  }

  predicate ReadsWrittenAt(items: seq<Item>, pc: nat, s: State) {
    pc < |items| && items[pc].Code? ==> forall r | r in ReadRegisters(items[pc].inst) && !IsPredicate(r) :: r in s.regs
  }

  // ----- agreement -----

  /** Written registers that are still needed are found at home. */
  ghost predicate Agree(items: seq<Item>, hull: Hull, homes: Homes, pc: nat, s: State, p: Physical) {
    && s.gmem == p.gmem
    && (forall r | IsPredicate(r) :: Get(p.preds, r) == Get(s.regs, r))
    && (forall r | r in s.regs && !IsPredicate(r) :: MayBeWritten(items, hull, pc, r))
    && (forall r | r in s.regs && !IsPredicate(r) && Needed(items, hull, pc, r) :: Read(homes, p, r) == s.regs[r])
  }

  /** Control moves from `pc` to `pc'` forwards, or within the loops. */
  predicate Leads(items: seq<Item>, hull: Hull, pc: nat, pc': nat) {
    pc < pc' || (Inside(items, hull, pc) && Inside(items, hull, pc'))
  }

  /** What may have been carried out stays so, and what will be needed was needed. */
  lemma LeadsOn(items: seq<Item>, hull: Hull, pc: nat, pc': nat, r: Reg)
    requires Leads(items, hull, pc, pc')
    ensures MayBeWritten(items, hull, pc, r) ==> MayBeWritten(items, hull, pc', r)
    ensures Needed(items, hull, pc', r) ==> Needed(items, hull, pc, r)
  {
    if MayBeWritten(items, hull, pc, r) {
      var e: nat :| Before(items, hull, e, pc) && IsDef(items, e, r);
      assert Before(items, hull, e, pc');
    }
    if Needed(items, hull, pc', r) {
      var u: nat :| (u >= pc' || (Inside(items, hull, pc') && InLoops(items, hull, u))) && IsUse(items, u, r);
      assert u >= pc || (Inside(items, hull, pc) && InLoops(items, hull, u));
    }
  }

  lemma ReadBack(homes: Homes, p: Physical, r: Reg, v: nat)
    requires IsPredicate(r) || r in homes
    ensures Read(homes, WriteReg(homes, p, r, v), r) == v
  {
    if !IsPredicate(r) && homes[r].width == 2 {
      assert v % WORD + WORD * (v / WORD) == v;
    }
  }

  lemma ReadOther(homes: Homes, p: Physical, r: Reg, q: Reg, v: nat)
    requires q != r
    requires !IsPredicate(r) && !IsPredicate(q) ==>
               r in homes && q in homes && homes[r].width in {1, 2} && homes[q].width in {1, 2}
               && Span(homes[r].base, homes[r].width) !! Span(homes[q].base, homes[q].width)
    ensures Read(homes, WriteReg(homes, p, r, v), q) == Read(homes, p, q)
  {
    if !IsPredicate(r) && !IsPredicate(q) {
      forall x | x in Span(homes[q].base, homes[q].width)
        ensures SlotAt(WriteSlots(homes[r], p.slots, v), x) == SlotAt(p.slots, x)
      {
        assert x !in Span(homes[r].base, homes[r].width);
        assert homes[r].base in Span(homes[r].base, homes[r].width);
      }
      hide WriteSlots, SlotAt;
    }
  }

  /** Agreement lasts while nothing is written. */
  lemma AgreeLater(items: seq<Item>, hull: Hull, homes: Homes, pc: nat, pc': nat, s: State, p: Physical)
    requires Agree(items, hull, homes, pc, s, p) && Leads(items, hull, pc, pc')
    ensures Agree(items, hull, homes, pc', s, p)
  {
    forall r
      ensures MayBeWritten(items, hull, pc, r) ==> MayBeWritten(items, hull, pc', r)
      ensures Needed(items, hull, pc', r) ==> Needed(items, hull, pc, r)
    {
      LeadsOn(items, hull, pc, pc', r);
    }
    hide MayBeWritten, Needed, Read;
  }

  /** Writing the destination of the item at hand keeps agreement behind it. */
  lemma AgreeAfterWrite(items: seq<Item>, hull: Hull, homes: Homes, pc: nat, s: State, p: Physical, r: Reg, v: nat)
    requires Agree(items, hull, homes, pc, s, p) && SafeHomes(items, hull, homes)
    requires !IsPredicate(r) ==> IsDef(items, pc, r)
    ensures Agree(items, hull, homes, pc + 1, s.(regs := s.regs[r := v]), WriteReg(homes, p, r, v))
  {
    var s', p' := s.(regs := s.regs[r := v]), WriteReg(homes, p, r, v);
    forall q | q in s'.regs && !IsPredicate(q) ensures MayBeWritten(items, hull, pc + 1, q) {
      if q == r {
        assert Before(items, hull, pc, pc + 1);
      } else {
        LeadsOn(items, hull, pc, pc + 1, q);
      }
    }
    forall q | q in s'.regs && !IsPredicate(q) && Needed(items, hull, pc + 1, q)
      ensures Read(homes, p', q) == s'.regs[q] {
      WrittenOrKept(items, hull, homes, pc, s, p, r, v, q);
    }
    hide IsDef, MayBeWritten, Needed, Read, SafeHomes;
  }

  lemma WrittenOrKept(items: seq<Item>, hull: Hull, homes: Homes, pc: nat, s: State, p: Physical, r: Reg, v: nat,
                      q: Reg)
    requires Agree(items, hull, homes, pc, s, p) && SafeHomes(items, hull, homes)
    requires !IsPredicate(r) ==> IsDef(items, pc, r)
    requires q in s.regs[r := v] && !IsPredicate(q) && Needed(items, hull, pc + 1, q)
    ensures Read(homes, WriteReg(homes, p, r, v), q) == s.regs[r := v][q]
  {
    hide Read, WriteReg, IsDef, Span, MayBeWritten, Needed;
    if q == r {
      assert Mentions(items, r);
      ReadBack(homes, p, r, v);
    } else {
      LeadsOn(items, hull, pc, pc + 1, q);
      if !IsPredicate(r) {
        assert Waits(items, hull, pc, q);
        assert r in homes && q in homes;
      }
      ReadOther(homes, p, r, q, v);
    }
  }

  // ----- one step, and whole runs -----

  lemma WritesDestination(host: Host, inst: Inst, s: State)
    requires inst.op.base != Fma
    ensures match GuardedEffect(host, inst, s) case Write(r, v) => Destination(inst) == Some(r) case _ => true
    ensures match GuardedEffect(host, inst, s)
            case Jump(l) => inst.op.base == Bra && inst.operands == [Operand.Target(l)]
            case _ => true
  {
  }

  /** Every instruction reads the same values, and so has the same effect. */
  lemma SameEffect(host: Host, items: seq<Item>, hull: Hull, homes: Homes, pc: nat, s: State, p: Physical)
    requires Agree(items, hull, homes, pc, s, p) && pc < |items| && items[pc].Code? && items[pc].inst.op.base != Fma
    requires forall r | r in ReadRegisters(items[pc].inst) && !IsPredicate(r) :: r in s.regs
    ensures forall r | r in ReadRegisters(items[pc].inst) :: Read(homes, p, r) == Get(s.regs, r)
    ensures GuardedEffect(host, items[pc].inst, View(homes, p, ReadRegisters(items[pc].inst)))
         == GuardedEffect(host, items[pc].inst, s)
  {
    var inst := items[pc].inst;
    var view := View(homes, p, ReadRegisters(inst));
    forall r | r in ReadRegisters(inst) ensures Get(view.regs, r) == Read(homes, p, r) == Get(s.regs, r) {
      SourcesAreReads(inst, r);
      if !IsPredicate(r) {
        assert IsUse(items, pc, r);
        assert Needed(items, hull, pc, r);
      }
    }
    hide ReadRegisters, Read, Needed, GuardedEffect;
    EffectFromReads(host, inst, view, s);
  }

  lemma DestinationIsDef(items: seq<Item>, pc: nat, r: Reg)
    requires WellTyped(items) && pc < |items| && items[pc].Code? && Destination(items[pc].inst) == Some(r)
    ensures !IsPredicate(r) ==> IsDef(items, pc, r)
  {
    SourcesAreReads(items[pc].inst, r);
  }

  /** Where an effect leads. */
  lemma EffectLeads(items: seq<Item>, hull: Hull, pc: nat, e: Effect)
    requires BranchesStay(items, hull) && pc < |items| && items[pc].Code?
    requires e.Jump? ==> items[pc].inst.op.base == Bra && items[pc].inst.operands == [Operand.Target(e.name)]
    ensures e.Jump? && FindLabel(items, e.name, 0).Some? ==> Leads(items, hull, pc, FindLabel(items, e.name, 0).value)
  {
    if e.Jump? {
      assert JumpsTo(items[pc], e.name);
    }
  }

  /** Both machines do with the same effect what keeps them together. */
  ghost predicate Together(items: seq<Item>, hull: Hull, homes: Homes, step: StepResult, physical: PhysicalStep) {
    match step
    case Next(pc', s') => physical.PNext? && physical.pc == pc' && Agree(items, hull, homes, pc', s', physical.p)
    case Done(s') => physical.PDone? && physical.p.gmem == s'.gmem
    case Fault(m) => physical == PFault(m)
  }

  function AfterEffect(items: seq<Item>, pc: nat, s: State, e: Effect): StepResult {
    match e
    case Nothing => Next(pc + 1, s)
    case Write(r, v) => Next(pc + 1, s.(regs := s.regs[r := v]))
    case StoreTo(address, blob) =>
      if address + |blob| <= |s.gmem|
      then Next(pc + 1, s.(gmem := s.gmem[..address] + blob + s.gmem[address + |blob|..]))
      else Fault(s.gmem)
    case Jump(l) => (match FindLabel(items, l, 0) case Some(t) => Next(t, s) case None => Fault(s.gmem))
    case Exit => Done(s)
    case Failure => Fault(s.gmem)
  }

  function PhysicalAfter(items: seq<Item>, homes: Homes, pc: nat, p: Physical, e: Effect): PhysicalStep {
    match e
    case Nothing => PNext(pc + 1, p)
    case Write(r, v) => PNext(pc + 1, WriteReg(homes, p, r, v))
    case StoreTo(address, blob) =>
      if address + |blob| <= |p.gmem|
      then PNext(pc + 1, p.(gmem := p.gmem[..address] + blob + p.gmem[address + |blob|..]))
      else PFault(p.gmem)
    case Jump(l) => (match FindLabel(items, l, 0) case Some(t) => PNext(t, p) case None => PFault(p.gmem))
    case Exit => PDone(p)
    case Failure => PFault(p.gmem)
  }

  lemma StepsAfter(host: Host, items: seq<Item>, homes: Homes, pc: nat, s: State, p: Physical)
    requires pc < |items| && items[pc].Code?
    ensures Ptx.Step(host, items, pc, s) == AfterEffect(items, pc, s, GuardedEffect(host, items[pc].inst, s))
    ensures Step(host, items, homes, pc, p) ==
            PhysicalAfter(items, homes, pc, p, GuardedEffect(host, items[pc].inst,
                                                             View(homes, p, ReadRegisters(items[pc].inst))))
  {
    hide GuardedEffect, FindLabel, View, WriteReg, ReadRegisters;
  }

  /** One effect on both sides. */
  lemma EffectTogether(items: seq<Item>, hull: Hull, homes: Homes, pc: nat, s: State, p: Physical, e: Effect)
    requires BranchesStay(items, hull) && SafeHomes(items, hull, homes) && WellTyped(items)
    requires Agree(items, hull, homes, pc, s, p) && pc < |items| && items[pc].Code?
    requires e.Write? ==> Destination(items[pc].inst) == Some(e.reg)
    requires e.Jump? ==> items[pc].inst.op.base == Bra && items[pc].inst.operands == [Operand.Target(e.name)]
    ensures Together(items, hull, homes, AfterEffect(items, pc, s, e), PhysicalAfter(items, homes, pc, p, e))
  {
    hide Agree, SafeHomes, BranchesStay, WellTyped, FindLabel, WriteReg, Destination;
    AgreeMemory(items, hull, homes, pc, s, p);
    AgreeLater(items, hull, homes, pc, pc + 1, s, p);
    match e {
      case Write(r, v) =>
        DestinationIsDef(items, pc, r);
        AgreeAfterWrite(items, hull, homes, pc, s, p, r, v);
      case StoreTo(address, blob) =>
        if address + |blob| <= |s.gmem| {
          AgreeStore(items, hull, homes, pc + 1, s, p, s.gmem[..address] + blob + s.gmem[address + |blob|..]);
        }
      case Jump(l) =>
        EffectLeads(items, hull, pc, e);
        if FindLabel(items, l, 0).Some? {
          AgreeLater(items, hull, homes, pc, FindLabel(items, l, 0).value, s, p);
        }
      case _ =>
    }
  }

  lemma AgreeStep(host: Host, items: seq<Item>, hull: Hull, homes: Homes, pc: nat, s: State, p: Physical)
    requires WellTyped(items) && BranchesStay(items, hull) && SafeHomes(items, hull, homes)
    requires Agree(items, hull, homes, pc, s, p) && ReadsWrittenAt(items, pc, s)
    ensures Together(items, hull, homes, Ptx.Step(host, items, pc, s), Step(host, items, homes, pc, p))
    ensures ReadsAtHome(items, homes, pc, s, p)
  {
    AgreeMemory(items, hull, homes, pc, s, p);
    if pc < |items| && items[pc].Code? {
      assert items[pc].inst.op.base != Fma;
      SameEffect(host, items, hull, homes, pc, s, p);
      WritesDestination(host, items[pc].inst, s);
      StepsAfter(host, items, homes, pc, s, p);
      hide *;
      EffectTogether(items, hull, homes, pc, s, p, GuardedEffect(host, items[pc].inst, s));
    } else {
      AgreeLater(items, hull, homes, pc, pc + 1, s, p);
      hide Agree, WellTyped, BranchesStay, SafeHomes;
    }
  }

  lemma AgreeMemory(items: seq<Item>, hull: Hull, homes: Homes, pc: nat, s: State, p: Physical)
    requires Agree(items, hull, homes, pc, s, p)
    ensures s.gmem == p.gmem
  {
  }

  lemma AgreeStore(items: seq<Item>, hull: Hull, homes: Homes, pc: nat, s: State, p: Physical, memory: seq<Byte>)
    requires Agree(items, hull, homes, pc, s, p)
    ensures Agree(items, hull, homes, pc, s.(gmem := memory), p.(gmem := memory))
  {
    forall r ensures Read(homes, p.(gmem := memory), r) == Read(homes, p, r) {
    }
    hide Read, MayBeWritten, Needed;
  }

  /** Allocation preserves execution: same end and same memory. */
  lemma {:induction false} PhysicalFollows(host: Host, items: seq<Item>, hull: Hull, homes: Homes, pc: nat, s: State,
                                           p: Physical, fuel: nat)
    requires WellTyped(items) && BranchesStay(items, hull) && SafeHomes(items, hull, homes)
    requires Agree(items, hull, homes, pc, s, p) && ReadsWritten(host, items, pc, s, fuel)
    ensures match Ptx.Run(host, items, pc, s, fuel)
            case Halted(s') =>
              (match Run(host, items, homes, pc, p, fuel) case PHalted(p') => p'.gmem == s'.gmem case _ => false)
            case Failed(m) => Run(host, items, homes, pc, p, fuel) == PFailed(m)
            case OutOfSteps => Run(host, items, homes, pc, p, fuel) == POutOfSteps
    decreases fuel
  {
    hide WellTyped, BranchesStay, SafeHomes, Agree, Ptx.Step, Step, ReadsWrittenAt, ReadsAtHome;
    if fuel > 0 {
      AgreeStep(host, items, hull, homes, pc, s, p);
      var step := Ptx.Step(host, items, pc, s);
      if step.Next? {
        PhysicalFollows(host, items, hull, homes, step.pc, step.state, Step(host, items, homes, pc, p).p, fuel - 1);
      }
    }
  }

  // ----- the values at every use -----

  /** What the item at hand reads is the virtual value. */
  ghost predicate ReadsAtHome(items: seq<Item>, homes: Homes, pc: nat, s: State, p: Physical) {
    pc < |items| && items[pc].Code? ==> forall r | r in ReadRegisters(items[pc].inst) ::
        Read(homes, p, r) == Get(s.regs, r)
  }

  /** Where a virtual run is after `n` steps. */
  function Reached(host: Host, items: seq<Item>, s: State, n: nat): Option<(nat, State)> {
    if n == 0 then Some((0, s))
    else match Reached(host, items, s, n - 1)
         case None => None
         case Some(c) => match Ptx.Step(host, items, c.0, c.1) case Next(pc, s') => Some((pc, s')) case _ => None
  }

  function PhysicalReached(host: Host, items: seq<Item>, homes: Homes, p: Physical, n: nat): Option<(nat, Physical)> {
    if n == 0 then Some((0, p))
    else match PhysicalReached(host, items, homes, p, n - 1)
         case None => None
         case Some(c) => match Step(host, items, homes, c.0, c.1) case PNext(pc, p') => Some((pc, p')) case _ => None
  }

  /** Both runs reach the same items, and each reads there the values the virtual run reads. */
  lemma {:induction false} SameValuesRead(host: Host, items: seq<Item>, hull: Hull, homes: Homes, s: State, p: Physical,
                                          n: nat)
    requires WellTyped(items) && BranchesStay(items, hull) && SafeHomes(items, hull, homes)
             && Agree(items, hull, homes, 0, s, p)
    requires forall m: nat | m <= n && Reached(host, items, s, m).Some? ::
               ReadsWrittenAt(items, Reached(host, items, s, m).value.0, Reached(host, items, s, m).value.1)
    ensures Reached(host, items, s, n).Some? <==> PhysicalReached(host, items, homes, p, n).Some?
    ensures Reached(host, items, s, n).Some? ==>
              var c, c' := Reached(host, items, s, n).value, PhysicalReached(host, items, homes, p, n).value;
              c.0 == c'.0 && Agree(items, hull, homes, c.0, c.1, c'.1) && ReadsAtHome(items, homes, c.0, c.1, c'.1)
  {
    hide WellTyped, BranchesStay, SafeHomes, Agree, Ptx.Step, Step, ReadsWrittenAt, ReadsAtHome;
    if n > 0 {
      SameValuesRead(host, items, hull, homes, s, p, n - 1);
      if Reached(host, items, s, n - 1).Some? {
        var c, c' := Reached(host, items, s, n - 1).value, PhysicalReached(host, items, homes, p, n - 1).value;
        AgreeStep(host, items, hull, homes, c.0, c.1, c'.1);
      }
    }
    if Reached(host, items, s, n).Some? {
      var c, c' := Reached(host, items, s, n).value, PhysicalReached(host, items, homes, p, n).value;
      AgreeStep(host, items, hull, homes, c.0, c.1, c'.1);
    }
  }

  /** Before the first step nothing is written, so any contents of the physical registers will do. */
  lemma StartAgrees(items: seq<Item>, hull: Hull, homes: Homes, gmem: seq<Byte>, slots: map<nat, nat>)
    ensures Agree(items, hull, homes, 0, State(map[], gmem), Physical(slots, map[], gmem))
  {
  }

  // ----- the homes the passes hand out are safe -----

  /** Homes by linear scan where it mapped, by the lowerer's allocator elsewhere. */
  ghost predicate HandedOut(items: seq<Item>, preMapping: map<Reg, nat>, homes: Homes) {
    && (forall r | r in preMapping :: r in homes && homes[r] == Home(preMapping[r], Width(IsPair(r))))
    && (forall r | r in homes :: homes[r].width in {1, 2})
    && (forall r, q | r in homes && q in homes && r != q && (r !in preMapping || q !in preMapping) ::
          Span(homes[r].base, homes[r].width) !! Span(homes[q].base, homes[q].width))
    && (forall r | Mentions(items, r) && !IsPredicate(r) :: r in homes)
  }

  lemma SlotsAreSpan(r: Reg, p: nat)
    ensures Slots(r, p) == Span(p, Width(IsPair(r)))
  {
  }

  /** Unspoiled scanning and the lowerer's allocator together give safe homes. */
  lemma HandedOutSafe(items: seq<Item>, hull: Hull, intervals: seq<Interval>, homes: Homes)
    requires Scannable(intervals) && Unspoiled(intervals, |intervals|) && LoopsUse(items, hull)
    requires forall k | 0 <= k < |intervals| :: Spans(items, hull, intervals[k].reg, intervals[k].first,
                                                      intervals[k].last)
    requires HandedOut(items, Scan(intervals, |intervals|).mapping, homes)
    ensures SafeHomes(items, hull, homes)
  {
    hide Scan, Unspoiled, Scannable, Spans, Slots, Span, LoopsUse;
    var m := Scan(intervals, |intervals|).mapping;
    forall d: nat, r, q | IsDef(items, d, r) && r != q && !IsPredicate(r) && !IsPredicate(q) && Waits(items, hull, d, q)
      ensures r in homes && q in homes && Span(homes[r].base, homes[r].width) !! Span(homes[q].base, homes[q].width)
    {
      assert Mentions(items, r);
      var e: nat :| Before(items, hull, e, d) && IsDef(items, e, q);
      assert Mentions(items, q);
      if r in m && q in m {
        ScannedApart(items, hull, intervals, d, r, q);
        SlotsAreSpan(r, m[r]);
        SlotsAreSpan(q, m[q]);
      }
    }
  }

  /** The interval of a register the loops define reaches the end of the hull. */
  lemma LoopsReachEnd(items: seq<Item>, hull: Hull, d: nat, r: Reg, first: nat, last: nat)
    requires LoopsUse(items, hull) && InLoops(items, hull, d) && IsDef(items, d, r) && !IsPredicate(r)
    requires Spans(items, hull, r, first, last)
    ensures hull.value.1 <= last
  {
    assert RecordedInside(items, hull, r);
    var e: nat, u: nat :| e <= u && IsDef(items, e, r) && InHull(items, hull.value, r, u);
    assert first <= e;
  }

  lemma DefAlive(items: seq<Item>, hull: Hull, r: Reg, first: nat, last: nat, d: nat)
    requires Spans(items, hull, r, first, last) && IsDef(items, d, r)
    ensures first <= d <= last
  {
  }

  /** A definition in front of item `d`, a use behind it or round a loop: the interval contains `d`. */
  lemma WaitingAlive(items: seq<Item>, hull: Hull, d: nat, q: Reg, first: nat, last: nat, e: nat)
    requires LoopsUse(items, hull) && !IsPredicate(q) && Spans(items, hull, q, first, last)
    requires IsDef(items, e, q) && e < d < |items| && items[d].Code? && Needed(items, hull, d + 1, q)
    ensures first <= d <= last
  {
    DefAlive(items, hull, q, first, last, e);
    var u: nat :| (u >= d + 1 || (Inside(items, hull, d + 1) && InLoops(items, hull, u))) && IsUse(items, u, q);
    if u <= d {
      assert InLoops(items, hull, d);
      if IsDef(items, u, q) {
        LoopsReachEnd(items, hull, u, q, first, last);
      } else if first <= u {
        assert InHull(items, hull.value, q, u);
      } else {
        LoopsReachEnd(items, hull, e, q, first, last);
      }
    }
  }

  /** A register written while another waits: some item lies in both intervals. */
  lemma IntervalsMeet(items: seq<Item>, hull: Hull, d: nat, r: Reg, q: Reg, rFirst: nat, rLast: nat, qFirst: nat,
                      qLast: nat)
    returns (point: nat)
    requires LoopsUse(items, hull) && Spans(items, hull, r, rFirst, rLast) && Spans(items, hull, q, qFirst, qLast)
             && r != q
    requires IsDef(items, d, r) && Waits(items, hull, d, q) && !IsPredicate(r) && !IsPredicate(q)
    ensures rFirst <= point <= rLast && qFirst <= point <= qLast
  {
    var e: nat :| Before(items, hull, e, d) && IsDef(items, e, q);
    assert d < |items| && items[d].Code? && e < |items| && items[e].Code? && e != d;
    assert e > d ==> InLoops(items, hull, d) && InLoops(items, hull, e);
    hide IsDef, Spans, Needed, LoopsUse, Inside;
    DefAlive(items, hull, r, rFirst, rLast, d);
    DefAlive(items, hull, q, qFirst, qLast, e);
    if e < d {
      WaitingAlive(items, hull, d, q, qFirst, qLast, e);
      point := d;
    } else {
      LoopsReachEnd(items, hull, d, r, rFirst, rLast);
      point := e;
    }
  }

  /** So the scan kept them apart. */
  lemma ScannedApart(items: seq<Item>, hull: Hull, intervals: seq<Interval>, d: nat, r: Reg, q: Reg)
    requires Scannable(intervals) && Unspoiled(intervals, |intervals|) && LoopsUse(items, hull)
    requires forall k | 0 <= k < |intervals| :: Spans(items, hull, intervals[k].reg, intervals[k].first,
                                                      intervals[k].last)
    requires var m := Scan(intervals, |intervals|).mapping; r in m && q in m && r != q
    requires IsDef(items, d, r) && Waits(items, hull, d, q) && !IsPredicate(r) && !IsPredicate(q)
    ensures var m := Scan(intervals, |intervals|).mapping; Slots(r, m[r]) !! Slots(q, m[q])
  {
    hide Scan, Unspoiled, Scannable, Slots, IsDef, Spans, Waits, LoopsUse;
    MappedAreScanned(intervals, |intervals|, r);
    MappedAreScanned(intervals, |intervals|, q);
    var i :| 0 <= i < |intervals| && intervals[i].reg == r;
    var j :| 0 <= j < |intervals| && intervals[j].reg == q;
    var point := IntervalsMeet(items, hull, d, r, q, intervals[i].first, intervals[i].last, intervals[j].first,
                               intervals[j].last);
    AliveTogetherDisjoint(intervals, i, j, point);
  }

  function HomesOf(mapping: map<Reg, nat>, width: map<Reg, nat>): Homes
    requires width.Keys == mapping.Keys
  {
    map r | r in mapping :: Home(mapping[r], width[r])
  }

  /** The lowerer's allocator, started from the scan's mapping, hands out homes as required. */
  lemma AllocatorHandsOut(a: RegisterAllocator, items: seq<Item>)
    requires a.Valid() && forall r | Mentions(items, r) && !IsPredicate(r) :: r in a.mapping
    ensures a.width.Keys == a.mapping.Keys && HandedOut(items, a.preMapping, HomesOf(a.mapping, a.width))
  {
    hide Span, Mentions;
  }

  /**
   * Linear scan, then the lowerer's allocator for the rest: a kernel whose loops lie in the hull and use what they
   * define runs as on virtual registers.
   */
  lemma AllocationPreservesExecution(host: Host, items: seq<Item>, hull: Hull, intervals: seq<Interval>,
                                     homes: Homes, gmem: seq<Byte>, slots: map<nat, nat>, fuel: nat)
    requires WellTyped(items) && BranchesStay(items, hull) && LoopsUse(items, hull)
    requires ReadsWritten(host, items, 0, State(map[], gmem), fuel)
    requires Scannable(intervals) && Unspoiled(intervals, |intervals|)
    requires forall k | 0 <= k < |intervals| :: Spans(items, hull, intervals[k].reg, intervals[k].first,
                                                      intervals[k].last)
    requires HandedOut(items, Scan(intervals, |intervals|).mapping, homes)
    ensures match Ptx.Run(host, items, 0, State(map[], gmem), fuel)
            case Halted(s') =>
              (match Run(host, items, homes, 0, Physical(slots, map[], gmem), fuel)
               case PHalted(p') => p'.gmem == s'.gmem
               case _ => false)
            case Failed(m) => Run(host, items, homes, 0, Physical(slots, map[], gmem), fuel) == PFailed(m)
            case OutOfSteps => Run(host, items, homes, 0, Physical(slots, map[], gmem), fuel) == POutOfSteps
  {
    hide *;
    HandedOutSafe(items, hull, intervals, homes);
    StartAgrees(items, hull, homes, gmem, slots);
    PhysicalFollows(host, items, hull, homes, 0, State(map[], gmem), Physical(slots, map[], gmem), fuel);
  }

  // ----- without sharing: any control flow -----

  /** No two registers share a slot: what the lowerer's allocator hands out when nothing was mapped beforehand. */
  ghost predicate Unshared(homes: Homes) {
    && (forall r | r in homes :: homes[r].width in {1, 2})
    && (forall r, q | r in homes && q in homes && r != q ::
          Span(homes[r].base, homes[r].width) !! Span(homes[q].base, homes[q].width))
  }

  /** All registers hold their virtual values. */
  ghost predicate Same(homes: Homes, s: State, p: Physical) {
    && s.gmem == p.gmem
    && forall r | r in homes || IsPredicate(r) :: Read(homes, p, r) == Get(s.regs, r)
  }

  /** Homes cover what the program reads and writes. */
  ghost predicate Covers(items: seq<Item>, homes: Homes) {
    && (forall i, r | 0 <= i < |items| && items[i].Code? && r in ReadRegisters(items[i].inst)
        && !IsPredicate(r) :: r in homes)
    && (forall i | 0 <= i < |items| && items[i].Code? && Written(items[i].inst).Some?
        && !IsPredicate(Written(items[i].inst).value) ::
          Written(items[i].inst).value in homes)
  }

  lemma SameAfterWrite(homes: Homes, s: State, p: Physical, r: Reg, v: nat)
    requires Unshared(homes) && Same(homes, s, p) && (r in homes || IsPredicate(r))
    ensures Same(homes, s.(regs := s.regs[r := v]), WriteReg(homes, p, r, v))
  {
    forall q | q in homes || IsPredicate(q) ensures Read(homes, WriteReg(homes, p, r, v), q) == Get(s.regs[r := v], q) {
      if q == r {
        ReadBack(homes, p, r, v);
      } else {
        ReadOther(homes, p, r, q, v);
      }
    }
    hide Read, Unshared;
  }

  lemma SameMemory(homes: Homes, s: State, p: Physical, memory: seq<Byte>)
    requires Same(homes, s, p)
    ensures Same(homes, s.(gmem := memory), p.(gmem := memory))
  {
    forall r ensures Read(homes, p.(gmem := memory), r) == Read(homes, p, r) {
    }
    hide Read;
  }

  lemma SameView(homes: Homes, items: seq<Item>, pc: nat, s: State, p: Physical, host: Host)
    requires Same(homes, s, p) && Covers(items, homes) && pc < |items| && items[pc].Code?
    ensures GuardedEffect(host, items[pc].inst, View(homes, p, ReadRegisters(items[pc].inst)))
         == GuardedEffect(host, items[pc].inst, s)
  {
    hide Read, GuardedEffect, ReadRegisters;
    var inst := items[pc].inst;
    EffectFromReads(host, inst, View(homes, p, ReadRegisters(inst)), s);
  }

  lemma WritesWritten(host: Host, inst: Inst, s: State)
    ensures match GuardedEffect(host, inst, s) case Write(r, v) => Written(inst) == Some(r) case _ => true
  {
  }

  lemma SameStep(host: Host, items: seq<Item>, homes: Homes, pc: nat, s: State, p: Physical)
    requires Unshared(homes) && Covers(items, homes) && Same(homes, s, p)
    ensures match Ptx.Step(host, items, pc, s)
            case Next(pc', s') =>
              (match Step(host, items, homes, pc, p)
               case PNext(pc'', p') => pc'' == pc' && Same(homes, s', p')
               case _ => false)
            case Done(s') => s' == s && Step(host, items, homes, pc, p) == PDone(p)
            case Fault(m) => Step(host, items, homes, pc, p) == PFault(m)
  {
    hide GuardedEffect, View, WriteReg, Read, FindLabel, Unshared, Written;
    if pc < |items| && items[pc].Code? {
      SameView(homes, items, pc, s, p, host);
      WritesWritten(host, items[pc].inst, s);
      var e := GuardedEffect(host, items[pc].inst, s);
      if e.Write? {
        SameAfterWrite(homes, s, p, e.reg, e.value);
      } else if e.StoreTo? && e.address + |e.blob| <= |s.gmem| {
        SameMemory(homes, s, p, s.gmem[..e.address] + e.blob + s.gmem[e.address + |e.blob|..]);
      }
    }
  }

  /** Over unshared homes every kernel, loops included, runs as on virtual registers, to the same register values. */
  lemma {:induction false} UnsharedFollows(host: Host, items: seq<Item>, homes: Homes, pc: nat, s: State, p: Physical,
                                           fuel: nat)
    requires Unshared(homes) && Covers(items, homes) && Same(homes, s, p)
    ensures match Ptx.Run(host, items, pc, s, fuel)
            case Halted(s') =>
              (match Run(host, items, homes, pc, p, fuel) case PHalted(p') => Same(homes, s', p') case _ => false)
            case Failed(m) => Run(host, items, homes, pc, p, fuel) == PFailed(m)
            case OutOfSteps => Run(host, items, homes, pc, p, fuel) == POutOfSteps
    decreases fuel
  {
    hide Unshared, Covers, Same, Ptx.Step, Step;
    if fuel > 0 {
      SameStep(host, items, homes, pc, s, p);
      var step := Ptx.Step(host, items, pc, s);
      if step.Next? {
        UnsharedFollows(host, items, homes, step.pc, step.state, Step(host, items, homes, pc, p).p, fuel - 1);
      }
    }
  }
}
