/**
 The cycle and retired-instruction counters (source/riscvCSR.c).  Each is one base value,
 which is the count itself while the counter is inhibited and the difference from the
 simulator's instruction count while it runs.
 */
module Counters {
  import opened Words

  type Uns64 = x: nat | x < TWO64

  // Arithmetic on Uns64
  function Sub64(a: Uns64, b: Uns64): Uns64 {
    if a >= b then a - b else a - b + TWO64
  }

  function Inc64(a: Uns64): Uns64 {
    if a == TWO64 - 1 then 0 else a + 1
  }

  function Dec64(a: Uns64): Uns64 {
    if a == 0 then TWO64 - 1 else a - 1
  }

  // setLower and setUpper
  function SetLower(value: Uns64, previous: Uns64): Uns64 {
    previous - previous % 0x1_0000_0000 + value % 0x1_0000_0000
  }

  function SetUpper(value: Uns64, previous: Uns64): Uns64 {
    value % 0x1_0000_0000 * 0x1_0000_0000 + previous % 0x1_0000_0000
  }

  datatype CounterState = CounterState(
    icount: Uns64,          // vmirtGetICount
    executed: Uns64,        // vmirtGetExecutedICount
    baseCycles: Uns64,
    baseInstructions: Uns64,
    cy: bool, ir: bool,     // mcountinhibit
    dm: bool,
    stopcount: bool,        // dcsr.stopcount
    child: bool             // the hart has a parent
  )

  // riscvInhibitCycle and riscvInhibitInstret
  predicate InhibitCycle(s: CounterState) {
    s.cy || (s.dm && s.stopcount && !s.child)
  }

  predicate InhibitInstret(s: CounterState) {
    s.ir || (s.dm && s.stopcount)
  }

  // cycleR and instretR
  function CycleR(s: CounterState): Uns64 {
    if InhibitCycle(s) then s.baseCycles else Sub64(s.icount, s.baseCycles)
  }

  function InstretR(s: CounterState): Uns64 {
    if InhibitInstret(s) then s.baseInstructions else Sub64(s.executed, s.baseInstructions)
  }

  // cycleW and instretW
  function CycleW(s: CounterState, value: Uns64, preIncrement: bool): CounterState {
    s.(baseCycles := if InhibitCycle(s) then value
                     else if preIncrement then Inc64(Sub64(s.icount, value))
                     else Sub64(s.icount, value))
  }

  function InstretW(s: CounterState, value: Uns64): CounterState {
    s.(baseInstructions := if InhibitInstret(s) then value else Inc64(Sub64(s.executed, value)))
  }

  /** riscvPreInhibit, an update `s'` of the inhibiting state of `s`, and riscvPostInhibit. */
  function Reinhibit(s: CounterState, s': CounterState, preIncrement: bool): CounterState {
    var t := if InhibitCycle(s) != InhibitCycle(s') then CycleW(s', CycleR(s), preIncrement) else s';
    if InhibitInstret(s) != InhibitInstret(s') then InstretW(t, InstretR(s)) else t
  }

  /** The simulator's counts after an instruction. */
  function Retire(s: CounterState): CounterState {
    s.(icount := Inc64(s.icount), executed := Inc64(s.executed))
  }

  datatype Half = Full | Low | High

  function SetPart(half: Half, value: Uns64, previous: Uns64): Uns64 {
    match half
    case Full => value
    case Low => SetLower(value, previous)
    case High => SetUpper(value, previous)
  }

  // the counter part of riscvTakeException, and of riscvEBREAK entering Debug mode
  function Unretired(s: CounterState): CounterState {
    if InhibitInstret(s) then s else s.(baseInstructions := Inc64(s.baseInstructions))
  }

  function Uncycled(s: CounterState): CounterState {
    if InhibitCycle(s) then s else s.(baseCycles := Inc64(s.baseCycles))
  }

  /** A change of the bits that inhibit counting. */
  datatype Control = CountInhibit(newCy: bool, newIr: bool) | Stopcount(newStop: bool) | DebugMode(newDm: bool)

  function Set(s: CounterState, k: Control): (s': CounterState)
    ensures s' == s.(cy := s'.cy, ir := s'.ir, dm := s'.dm, stopcount := s'.stopcount)
  {
    match k
    case CountInhibit(newCy, newIr) => s.(cy := newCy, ir := newIr)
    case Stopcount(newStop) => s.(stopcount := newStop)
    case DebugMode(newDm) => s.(dm := newDm)
  }

  /**
   What happens to the counters: an instruction, by what it does to them, or an event from
   outside.  The debugger's register writes are artifact accesses, without pre-increment.
   */
  datatype CounterStep =
    | NoWrite
    | WriteCycle(half: Half, value: Uns64)
    | WriteInstret(half: Half, value: Uns64)
    | WriteControl(k: Control)
    | DretStep
    | Fault(retires: bool)          // an exception, by whether its code counts as retired
    | EbreakStep                    // EBREAK that enters Debug mode
    | Idle                          // time passes without an instruction
    | PokeCycle(half: Half, value: Uns64)
    | PokeInstret(half: Half, value: Uns64)
    | PokeControl(k: Control)       // also a change of Debug mode from outside

  function Apply(s: CounterState, e: CounterStep): CounterState {
    match e
    case NoWrite => Retire(s)
    case WriteCycle(half, value) => Retire(CycleW(s, SetPart(half, value, CycleR(s)), true))
    case WriteInstret(half, value) => Retire(InstretW(s, SetPart(half, value, InstretR(s))))
    case WriteControl(k) => Retire(Reinhibit(s, Set(s, k), true))
    case DretStep => Retire(Reinhibit(s, Set(s, DebugMode(false)), false))
    case Fault(retires) => Retire(if retires then s else Unretired(s))
    case EbreakStep =>
      var t := if s.stopcount then Unretired(Uncycled(s)) else s;
      Retire(Reinhibit(t, t.(dm := true), false))
    case Idle => s.(icount := Inc64(s.icount))
    case PokeCycle(half, value) => CycleW(s, SetPart(half, value, CycleR(s)), false)
    case PokeInstret(half, value) => InstretW(s, SetPart(half, value, InstretR(s)))
    case PokeControl(k) => Reinhibit(s, Set(s, k), false)
  }

  // ---------------------------------------------------------------- the simple counters

  /** Two plain counters and the bits that stop them. */
  datatype Simple = Simple(cycle: Uns64, instret: Uns64, cy: bool, ir: bool, dm: bool, stopcount: bool, child: bool)

  predicate CycleStopped(p: Simple) {
    p.cy || (p.dm && p.stopcount && !p.child)
  }

  predicate InstretStopped(p: Simple) {
    p.ir || (p.dm && p.stopcount)
  }

  function Switch(p: Simple, k: Control): Simple {
    match k
    case CountInhibit(newCy, newIr) => p.(cy := newCy, ir := newIr)
    case Stopcount(newStop) => p.(stopcount := newStop)
    case DebugMode(newDm) => p.(dm := newDm)
  }

  /** Running counters one on: what the instruction after this one reads. */
  function Ticked(p: Simple): Simple {
    p.(cycle := if CycleStopped(p) then p.cycle else Inc64(p.cycle),
       instret := if InstretStopped(p) then p.instret else Inc64(p.instret))
  }

  /** A counter across a change of what inhibits it: `early` if instretW or cycleW pre-increments. */
  function Across(value: Uns64, before: bool, after: bool, early: bool): Uns64 {
    if early && before && !after then Dec64(value) else value
  }

  /** The counters of p as read once its inhibiting bits have become those of q. */
  function Resumed(p: Simple, q: Simple, preIncrement: bool): Simple {
    q.(cycle := Across(p.cycle, CycleStopped(p), CycleStopped(q), preIncrement),
       instret := Across(p.instret, InstretStopped(p), InstretStopped(q), true))
  }

  /** Both counters one back where they run: what the instruction before this one read. */
  function Back(p: Simple): Simple {
    p.(cycle := if CycleStopped(p) then p.cycle else Dec64(p.cycle),
       instret := if InstretStopped(p) then p.instret else Dec64(p.instret))
  }

  /**
   Two plain counters.  A written value is what the next instruction reads.  A fault that
   does not retire is a cycle but not an instruction.  EBREAK into Debug mode under stopcount
   takes both counters back to what the instruction before it read.  instret restarted or
   written from outside is one short, since instretW always pre-increments.
   */
  function SimpleStep(p: Simple, e: CounterStep): Simple {
    match e
    case NoWrite => Ticked(p)
    case WriteCycle(half, value) => Ticked(p).(cycle := SetPart(half, value, p.cycle))
    case WriteInstret(half, value) => Ticked(p).(instret := SetPart(half, value, p.instret))
    case WriteControl(k) => Ticked(Resumed(p, Switch(p, k), true))
    case DretStep => Ticked(Resumed(p, Switch(p, DebugMode(false)), false))
    case Fault(retires) => if retires then Ticked(p) else Ticked(p).(instret := p.instret)
    case EbreakStep => Ticked(Resumed(if p.stopcount then Back(p) else p, p.(dm := true), false))
    case Idle => Ticked(p).(instret := p.instret)
    case PokeCycle(half, value) => p.(cycle := SetPart(half, value, p.cycle))
    case PokeInstret(half, value) =>
      var v := SetPart(half, value, p.instret);
      p.(instret := if InstretStopped(p) then v else Dec64(v))
    case PokeControl(k) => Resumed(p, Switch(p, k), false)
  }

  /** The counters as software reads them. */
  function Seen(s: CounterState): Simple {
    Simple(CycleR(s), InstretR(s), s.cy, s.ir, s.dm, s.stopcount, s.child)
  }

  // ---------------------------------------------------------------- refinement

  lemma RetireTicks(s: CounterState)
    ensures Seen(Retire(s)) == Ticked(Seen(s))
  {
  }

  /** A written value is what the next instruction reads, and the other counter just counts. */
  lemma WrittenIsRead(s: CounterState, v: Uns64)
    ensures Seen(Retire(CycleW(s, v, true))) == Ticked(Seen(s)).(cycle := v)
    ensures Seen(Retire(InstretW(s, v))) == Ticked(Seen(s)).(instret := v)
  {
  }

  /** A value poked from outside reads back at once in cycle, but one short in a running instret. */
  lemma PokedIsRead(s: CounterState, v: Uns64)
    ensures Seen(CycleW(s, v, false)) == Seen(s).(cycle := v)
    ensures Seen(InstretW(s, v)) == Seen(s).(instret := if InhibitInstret(s) then v else Dec64(v))
  {
  }

  lemma ReinhibitCycle(s: CounterState, s': CounterState, preIncrement: bool)
    requires s' == s.(cy := s'.cy, ir := s'.ir, dm := s'.dm, stopcount := s'.stopcount)
    ensures CycleR(Reinhibit(s, s', preIncrement)) ==
            Across(CycleR(s), InhibitCycle(s), InhibitCycle(s'), preIncrement)
  {
  }

  lemma ReinhibitInstret(s: CounterState, s': CounterState, preIncrement: bool)
    requires s' == s.(cy := s'.cy, ir := s'.ir, dm := s'.dm, stopcount := s'.stopcount)
    ensures InstretR(Reinhibit(s, s', preIncrement)) ==
            Across(InstretR(s), InhibitInstret(s), InhibitInstret(s'), true)
  {
  }

  lemma ReinhibitReads(s: CounterState, s': CounterState, preIncrement: bool)
    requires s' == s.(cy := s'.cy, ir := s'.ir, dm := s'.dm, stopcount := s'.stopcount)
    ensures Seen(Reinhibit(s, s', preIncrement)) == Resumed(Seen(s), Seen(s'), preIncrement)
  {
    ReinhibitCycle(s, s', preIncrement);
    ReinhibitInstret(s, s', preIncrement);
  }

  lemma BaseReads(s: CounterState)
    ensures Seen(Retire(Unretired(s))) == Ticked(Seen(s)).(instret := InstretR(s))
    ensures Seen(Unretired(Uncycled(s))) == Back(Seen(s))
  {
  }

  lemma EbreakRefines(s: CounterState)
    ensures Seen(Apply(s, EbreakStep)) == SimpleStep(Seen(s), EbreakStep)
  {
    var t := if s.stopcount then Unretired(Uncycled(s)) else s;
    BaseReads(s);
    ReinhibitReads(t, t.(dm := true), false);
    RetireTicks(Reinhibit(t, t.(dm := true), false));
  }

  lemma SwitchRefines(s: CounterState, k: Control, preIncrement: bool)
    ensures var r := Resumed(Seen(s), Switch(Seen(s), k), preIncrement);
            && Seen(Reinhibit(s, Set(s, k), preIncrement)) == r
            && Seen(Retire(Reinhibit(s, Set(s, k), preIncrement))) == Ticked(r)
  {
    ReinhibitReads(s, Set(s, k), preIncrement);
    RetireTicks(Reinhibit(s, Set(s, k), preIncrement));
  }

  predicate IsWrite(e: CounterStep) {
    e.WriteCycle? || e.WriteInstret? || e.PokeCycle? || e.PokeInstret?
  }

  /** `v` is the whole value that the write leaves in its counter. */
  lemma ValueRefines(s: CounterState, e: CounterStep, v: Uns64)
    requires IsWrite(e)
    requires v == SetPart(e.half, e.value, if e.WriteCycle? || e.PokeCycle? then CycleR(s) else InstretR(s))
    ensures Seen(Apply(s, e)) == SimpleStep(Seen(s), e)
  {
    WrittenIsRead(s, v);
    PokedIsRead(s, v);
  }

  lemma WriteRefines(s: CounterState, e: CounterStep)
    requires IsWrite(e)
    ensures Seen(Apply(s, e)) == SimpleStep(Seen(s), e)
  {
    if e.WriteCycle? || e.PokeCycle? {
      ValueRefines(s, e, SetPart(e.half, e.value, CycleR(s)));
    } else {
      ValueRefines(s, e, SetPart(e.half, e.value, InstretR(s)));
    }
  }

  lemma ControlRefines(s: CounterState, e: CounterStep)
    requires e.WriteControl? || e.PokeControl? || e.DretStep?
    ensures Seen(Apply(s, e)) == SimpleStep(Seen(s), e)
  {
    if e.DretStep? {
      SwitchRefines(s, DebugMode(false), false);
    } else {
      SwitchRefines(s, e.k, e.WriteControl?);
    }
  }

  lemma CountRefines(s: CounterState, e: CounterStep)
    requires e.NoWrite? || e.Fault? || e.Idle?
    ensures Seen(Apply(s, e)) == SimpleStep(Seen(s), e)
  {
    RetireTicks(s);
    BaseReads(s);
  }

  lemma StepRefines(s: CounterState, e: CounterStep)
    ensures Seen(Apply(s, e)) == SimpleStep(Seen(s), e)
  {
    if IsWrite(e) {
      WriteRefines(s, e);
    } else if e.WriteControl? || e.PokeControl? || e.DretStep? {
      ControlRefines(s, e);
    } else if e.EbreakStep? {
      EbreakRefines(s);
    } else {
      CountRefines(s, e);
    }
  }

  // ---------------------------------------------------------------- where a count is lost

  /** A change of Debug mode from outside keeps cycle, and instret if and only if it does not restart it. */
  lemma DebugChangeLosesCount(s: CounterState, dm: bool)
    ensures var s' := Apply(s, PokeControl(DebugMode(dm)));
            && CycleR(s') == CycleR(s)
            && (InstretR(s') == InstretR(s) <==> !(InhibitInstret(s) && !InhibitInstret(s.(dm := dm))))
            && (InstretR(s') != InstretR(s) ==> InstretR(s') == Dec64(InstretR(s)))
  {
    StepRefines(s, PokeControl(DebugMode(dm)));
  }

  /** The debugger reads back the instret it wrote if and only if the counter is inhibited. */
  lemma PokeInstretShort(s: CounterState, v: Uns64)
    ensures InstretR(Apply(s, PokeInstret(Full, v))) == v <==> InhibitInstret(s)
    ensures CycleR(Apply(s, PokeCycle(Full, v))) == v
  {
    PokedIsRead(s, v);
  }

  /** Instructions of a Debug session that write no counter. */
  predicate Inert(e: CounterStep) {
    e.NoWrite? || e.Idle? || e.Fault?
  }

  /** Each counter that is stopped stays as it is. */
  lemma {:induction false} StoppedRun(s: CounterState, es: seq<CounterStep>)
    requires forall e :: e in es ==> Inert(e)
    ensures var t := ApplyAll(s, es);
            && t.cy == s.cy && t.ir == s.ir && t.dm == s.dm && t.stopcount == s.stopcount && t.child == s.child
            && (InhibitCycle(s) ==> CycleR(t) == CycleR(s))
            && (InhibitInstret(s) ==> InstretR(t) == InstretR(s))
    decreases |es|
  {
    if es != [] {
      assert Inert(es[0]);
      StepRefines(s, es[0]);
      StoppedRun(Apply(s, es[0]), es[1..]);
    }
  }

  /** A counter after losing one count, unless it is stopped. */
  function Lost(value: Uns64, stopped: bool): Uns64 {
    if stopped then value else Dec64(value)
  }

  /**
   A whole Debug session under stopcount, entered and left from outside, costs a running
   instret one; cycle is kept, unless it runs through the session because the hart has a
   parent.
   */
  lemma DebugSessionCost(s: CounterState, es: seq<CounterStep>)
    requires !s.dm && s.stopcount && forall e :: e in es ==> Inert(e)
    ensures var t := Apply(ApplyAll(Apply(s, PokeControl(DebugMode(true))), es), PokeControl(DebugMode(false)));
            && InstretR(t) == Lost(InstretR(s), s.ir)
            && (s.cy || !s.child ==> CycleR(t) == CycleR(s))
  {
    var d := Apply(s, PokeControl(DebugMode(true)));
    StepRefines(s, PokeControl(DebugMode(true)));
    StoppedRun(d, es);
    StepRefines(ApplyAll(d, es), PokeControl(DebugMode(false)));
  }

  /**
   Entered by EBREAK instead, the session sees both counters frozen one below what EBREAK
   itself would have read, that is without EBREAK.
   */
  lemma EbreakFreezes(s: CounterState, es: seq<CounterStep>)
    requires !s.dm && s.stopcount && forall e :: e in es ==> Inert(e)
    ensures var t := ApplyAll(Apply(s, EbreakStep), es);
            && InstretR(t) == Lost(InstretR(s), s.ir)
            && (s.cy || !s.child ==> CycleR(t) == Lost(CycleR(s), s.cy))
  {
    StepRefines(s, EbreakStep);
    StoppedRun(Apply(s, EbreakStep), es);
  }

  // ---------------------------------------------------------------- runs

  function ApplyAll(s: CounterState, es: seq<CounterStep>): CounterState
    decreases |es|
  {
    if es == [] then s else ApplyAll(Apply(s, es[0]), es[1..])
  }

  function SimpleAll(p: Simple, es: seq<CounterStep>): Simple
    decreases |es|
  {
    if es == [] then p else SimpleAll(SimpleStep(p, es[0]), es[1..])
  }

  /** Over every sequence of steps the base-value counters read as the simple ones. */
  lemma {:induction false} CountersRefineSimple(s: CounterState, es: seq<CounterStep>)
    ensures Seen(ApplyAll(s, es)) == SimpleAll(Seen(s), es)
    decreases |es|
  {
    if es != [] {
      StepRefines(s, es[0]);
      CountersRefineSimple(Apply(s, es[0]), es[1..]);
    }
  }

  /** Each half write changes its half only; writing both halves writes the whole counter. */
  lemma HalvesCompose(previous: Uns64, low: Uns64, high: Uns64)
    ensures SetLower(low, previous) / 0x1_0000_0000 == previous / 0x1_0000_0000
    ensures SetUpper(high, previous) % 0x1_0000_0000 == previous % 0x1_0000_0000
    ensures SetUpper(high, SetLower(low, previous)) == SetLower(low, SetUpper(high, previous))
    ensures low < 0x1_0000_0000 && high < 0x1_0000_0000 ==>
              SetUpper(high, SetLower(low, previous)) == high * 0x1_0000_0000 + low
  {
    var (hi, lo) := (previous / 0x1_0000_0000, previous % 0x1_0000_0000);
    HalfParts(hi, low % 0x1_0000_0000);
    HalfParts(high % 0x1_0000_0000, lo);
    HalfParts(high % 0x1_0000_0000, low % 0x1_0000_0000);
    assert SetLower(low, previous) == hi * 0x1_0000_0000 + low % 0x1_0000_0000;
    assert SetUpper(high, previous) == high % 0x1_0000_0000 * 0x1_0000_0000 + lo;
  }

  lemma HalfParts(hi: nat, lo: nat)
    requires lo < 0x1_0000_0000
    ensures (hi * 0x1_0000_0000 + lo) / 0x1_0000_0000 == hi
    ensures (hi * 0x1_0000_0000 + lo) % 0x1_0000_0000 == lo
  {
  }

  // ---------------------------------------------------------------- in place

  /** The counter fields of the processor and the routines that update them. */
  class CounterUnit {
    var icount: Uns64
    var executed: Uns64
    var baseCycles: Uns64
    var baseInstructions: Uns64
    var cy: bool
    var ir: bool
    var dm: bool
    var stopcount: bool
    const child: bool

    function State(): CounterState
      reads this
    {
      CounterState(icount, executed, baseCycles, baseInstructions, cy, ir, dm, stopcount, child)
    }

    method WriteCycles(value: Uns64, preIncrement: bool)
      modifies this`baseCycles
      ensures State() == CycleW(old(State()), value, preIncrement)
    {
      var newValue := value;
      if !InhibitCycle(State()) {
        newValue := Sub64(icount, newValue);
        if preIncrement {
          newValue := Inc64(newValue);
        }
      }
      baseCycles := newValue;
    }

    method WriteInstructions(value: Uns64)
      modifies this`baseInstructions
      ensures State() == InstretW(old(State()), value)
    {
      var newValue := value;
      if !InhibitInstret(State()) {
        newValue := Inc64(Sub64(executed, newValue));
      }
      baseInstructions := newValue;
    }

    /** riscvPostInhibit, given what riscvPreInhibit saved from the state `before`. */
    method PostInhibit(ghost before: CounterState, inhibitCycle: bool, inhibitInstret: bool,
                       cycle: Uns64, instret: Uns64, preIncrement: bool)
      requires inhibitCycle == InhibitCycle(before) && inhibitInstret == InhibitInstret(before)
      requires cycle == CycleR(before) && instret == InstretR(before)
      modifies this`baseCycles, this`baseInstructions
      ensures State() == Reinhibit(before, old(State()), preIncrement)
    {
      if inhibitCycle != InhibitCycle(State()) {
        WriteCycles(cycle, preIncrement);
      }
      if inhibitInstret != InhibitInstret(State()) {
        WriteInstructions(instret);
      }
    }

    /** mcountinhibitW, up to the retirement of its instruction. */
    method WriteCountInhibit(newCy: bool, newIr: bool)
      modifies this`cy, this`ir, this`baseCycles, this`baseInstructions
      ensures Retire(State()) == Apply(old(State()), WriteControl(CountInhibit(newCy, newIr)))
    {
      ghost var before := State();
      var inhibitCycle, inhibitInstret := InhibitCycle(State()), InhibitInstret(State());
      var cycle, instret := CycleR(State()), InstretR(State());
      cy, ir := newCy, newIr;
      PostInhibit(before, inhibitCycle, inhibitInstret, cycle, instret, true);
    }

    /** The counter part of enterDM and leaveDM. */
    method ChangeDebugMode(newDm: bool)
      modifies this`dm, this`baseCycles, this`baseInstructions
      ensures State() == Apply(old(State()), PokeControl(DebugMode(newDm)))
    {
      ghost var before := State();
      var inhibitCycle, inhibitInstret := InhibitCycle(State()), InhibitInstret(State());
      var cycle, instret := CycleR(State()), InstretR(State());
      dm := newDm;
      PostInhibit(before, inhibitCycle, inhibitInstret, cycle, instret, false);
    }

    /** The adjustment that riscvTakeException makes, up to the end of the faulting instruction. */
    method CountException(retired: bool)
      modifies this`baseInstructions
      ensures Retire(State()) == Apply(old(State()), Fault(retired))
    {
      if !retired && !InhibitInstret(State()) {
        baseInstructions := Inc64(baseInstructions);
      }
    }

    /** The counter part of riscvEBREAK when it enters Debug mode. */
    method CountEbreak()
      modifies this`dm, this`baseCycles, this`baseInstructions
      ensures Retire(State()) == Apply(old(State()), EbreakStep)
    {
      if stopcount {
        if !InhibitCycle(State()) {
          baseCycles := Inc64(baseCycles);
        }
        if !InhibitInstret(State()) {
          baseInstructions := Inc64(baseInstructions);
        }
      }
      ChangeDebugMode(true);
    }

    /** mcycleW and mcyclehW, up to retirement. */
    method WriteMcycle(half: Half, value: Uns64)
      modifies this`baseCycles
      ensures Retire(State()) == Apply(old(State()), WriteCycle(half, value))
    {
      match half
      case Full => WriteCycles(value, true);
      case Low => WriteCycles(SetLower(value, CycleR(State())), true);
      case High => WriteCycles(SetUpper(value, CycleR(State())), true);
    }
  }
}
