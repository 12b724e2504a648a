/**
 Traps and their returns nest (source/riscvExceptions.c): however many handlers run inside
 one another, each return resumes exactly what its trap interrupted.
 */
module Nesting {
  import opened Words
  import opened HartState
  import opened Traps
  import opened Csr
  import opened Machine
  import opened DebugMode

  /**
   A run is a list of items: an ordinary event; an event that takes a trap, with the whole
   run of its handler up to the matching xRET; or an event that enters Debug mode, with all
   that happens there until the event that leaves it.
   */
  datatype Item =
    | Plain(e: Event)
    | Handled(e: Event, isInt: bool, ecode: nat, tval: nat, body: Run)
    | Halted(e: Event, cause: nat, es: seq<Event>, exit: Event)
  datatype Run = Done | Then(item: Item, rest: Run)

  /** Entry for resethaltreq (cause 5) clears the request that was latched at reset. */
  function Acknowledged(h: Hart, cause: nat): Hart {
    if cause == 5 then h.(nets := h.nets.(resethaltreqS := false)) else h
  }

  ghost function ItemAfter(c: Config, h: Hart, item: Item): Hart
    decreases item
  {
    match item
    case Plain(e) => if IrqOK(h.irq) && Enabled(c, h, e) then Step(c, h, e) else h
    case Handled(_, isInt, ecode, tval, body) =>
      if ecode < 32
      then Xret(c, RunAfter(c, Trap(c, h, isInt, ecode, tval), body), TargetMode(h, isInt, ecode))
      else h
    case Halted(_, cause, es, _) =>
      var g := Acknowledged(h, cause);
      if Feasible(c, EnterDM(c, g, cause), es) then DebugSession(c, g, cause, es) else h
  }

  ghost function RunAfter(c: Config, h: Hart, r: Run): Hart
    decreases r
  {
    match r
    case Done => h
    case Then(item, rest) => RunAfter(c, ItemAfter(c, h, item), rest)
  }

  // the events of an item and of a run, in order
  ghost function ItemTrace(c: Config, h: Hart, item: Item): seq<Event>
    decreases item
  {
    match item
    case Plain(e) => [e]
    case Handled(e, isInt, ecode, tval, body) =>
      if ecode < 32
      then [e] + RunTrace(c, Trap(c, h, isInt, ecode, tval), body) + [Execute(XretI(TargetMode(h, isInt, ecode)))]
      else []
    case Halted(e, cause, es, exit) => [e] + es + [exit]
  }

  ghost function RunTrace(c: Config, h: Hart, r: Run): seq<Event>
    decreases r
  {
    match r
    case Done => []
    case Then(item, rest) => ItemTrace(c, h, item) + RunTrace(c, ItemAfter(c, h, item), rest)
  }

  predicate SameBit(w: Bits, w': Bits, k: nat) {
    k in w <==> k in w'
  }

  /** xIE agrees, for the mode x. */
  predicate SameEnables(w: Bits, w': Bits) {
    SameBit(w, w', USER) && SameBit(w, w', SUPERVISOR) && SameBit(w, w', MACHINE)
  }

  /** The part of mstatus that a trap to x saves for its return: xPIE and xPP. */
  predicate SameSaved(w: Bits, w': Bits, x: Mode) {
    SameBit(w, w', x + PIE) && PreviousMode(w, x) == PreviousMode(w', x)
  }

  /** All the fields of mstatus that traps use. */
  predicate SameTrapFields(w: Bits, w': Bits) {
    SameEnables(w, w') && SameSaved(w, w', USER) && SameSaved(w, w', SUPERVISOR) && SameSaved(w, w', MACHINE)
  }

  predicate SameStack(h: Hart, h': Hart, x: Mode) {
    SameSaved(h.status, h'.status, x) && Regs(h, x).epc == Regs(h', x).epc
  }

  /** Mode, interrupt enables, delegation and the saved state of every mode below `floor` agree. */
  predicate Restored(h: Hart, h': Hart, floor: nat) {
    && h'.mode == h.mode
    && h'.debug.dm == h.debug.dm
    && h'.deleg == h.deleg
    && ('C' in h'.arch <==> 'C' in h.arch)
    && SameEnables(h.status, h'.status)
    && (USER < floor ==> SameStack(h, h', USER))
    && (SUPERVISOR < floor ==> SameStack(h, h', SUPERVISOR))
    && (MACHINE < floor ==> SameStack(h, h', MACHINE))
  }

  /** Running user code between traps: Inv, outside Debug mode, at a possible instruction address. */
  ghost predicate Running(c: Config, h: Hart) {
    Inv(c, h) && !h.debug.dm && h.pc % 2 == 0
  }

  // which events take a trap, enter and leave Debug mode
  ghost predicate TakesTrap(c: Config, h: Hart, e: Event, isInt: bool, ecode: nat, tval: nat) {
    IrqOK(h.irq) && Enabled(c, h, e) && ecode < 32 && Step(c, h, e) == Trap(c, h, isInt, ecode, tval)
  }

  ghost predicate EntersDebug(c: Config, h: Hart, e: Event, cause: nat) {
    IrqOK(h.irq) && Enabled(c, h, e) && Step(c, h, e) == EnterDM(c, Acknowledged(h, cause), cause)
  }

  predicate LeavesDebug(e: Event) {
    e == External(DebugRequest(false)) || (e.Execute? && e.i.DretI?)
  }

  /**
   Each trap is directed to a mode of at least `floor`; a handler in mode x is interrupted
   only by traps to modes above x, since another trap to x would overwrite its saved state.
   Ordinary events do not write the trap state of the modes below `floor`.
   */
  ghost predicate ItemOK(c: Config, h: Hart, item: Item, floor: nat)
    decreases item
  {
    match item
    case Plain(e) =>
      IrqOK(h.irq) && Enabled(c, h, e) && Step(c, h, e).pc % 2 == 0 && Restored(h, Step(c, h, e), floor)
    case Handled(e, isInt, ecode, tval, body) =>
      && TakesTrap(c, h, e, isInt, ecode, tval)
      && TargetMode(h, isInt, ecode) >= floor
      && RunOK(c, Trap(c, h, isInt, ecode, tval), body, TargetMode(h, isInt, ecode) + 1)
    case Halted(e, cause, es, exit) =>
      && EntersDebug(c, h, e, cause) && LeavesDebug(exit)
      && Feasible(c, EnterDM(c, Acknowledged(h, cause), cause), es) && forall e :: e in es ==> Opaque(e)
  }

  ghost predicate RunOK(c: Config, h: Hart, r: Run, floor: nat)
    decreases r
  {
    match r
    case Done => true
    case Then(item, rest) => ItemOK(c, h, item, floor) && RunOK(c, ItemAfter(c, h, item), rest, floor)
  }

  // ---------------------------------------------------------------- one trap and its return

  /** Pushing for a trap from y to x, then popping for its return, on mstatus alone. */
  lemma PushSaves(w: Bits, x: Mode, y: Mode)
    requires x != 2 && (x == USER ==> y == USER) && (x == SUPERVISOR ==> y <= SUPERVISOR)
    ensures var v := PushStatus(w, x, y);
            && SameEnables(Put(w, x, false), v)
            && (x + PIE in v <==> x in w)
            && PreviousMode(v, x) == y
            && (x != USER ==> SameSaved(w, v, USER))
            && (x != SUPERVISOR ==> SameSaved(w, v, SUPERVISOR))
            && (x != MACHINE ==> SameSaved(w, v, MACHINE))
  {
  }

  lemma PopRestores(c: Config, w: Bits, x: Mode)
    requires x != 2
    ensures var v := PopStatus(c, w, x);
            && SameEnables(Put(w, x, x + PIE in w), v)
            && (x != USER ==> SameSaved(w, v, USER))
            && (x != SUPERVISOR ==> SameSaved(w, v, SUPERVISOR))
            && (x != MACHINE ==> SameSaved(w, v, MACHINE))
  {
  }

  /** The target of a trap is an implemented mode, and below S only modes at or below it trap there. */
  lemma TrapTarget(c: Config, h: Hart, isInt: bool, ecode: nat)
    requires ModesOK(c, h) && ecode < 32
    ensures var x := TargetMode(h, isInt, ecode);
            x != 2 && HasMode(c, x) && (x == USER ==> h.mode == USER) && (x == SUPERVISOR ==> h.mode <= SUPERVISOR)
  {
  }

  lemma TrapRuns(c: Config, h: Hart, isInt: bool, ecode: nat, tval: nat)
    requires ValidConfig(c) && Running(c, h) && ecode < 32
    ensures Running(c, Trap(c, h, isInt, ecode, tval))
  {
    TrapKeepsInv(c, h, isInt, ecode, tval);
  }

  /** Taking a trap to x saves what it interrupts and disturbs only x's own saved state. */
  lemma TrapSaves(c: Config, h: Hart, isInt: bool, ecode: nat, tval: nat)
    requires ValidConfig(c) && Running(c, h) && ecode < 32
    ensures var x := TargetMode(h, isInt, ecode);
            var t := Trap(c, h, isInt, ecode, tval);
            && Regs(t, x).epc == h.pc
            && t.status == PushStatus(h.status, x, h.mode)
            && (x != USER ==> t.u.epc == h.u.epc)
            && (x != SUPERVISOR ==> t.s.epc == h.s.epc)
            && (x != MACHINE ==> t.m.epc == h.m.epc)
            && t.deleg == h.deleg && t.debug == h.debug && t.arch == h.arch
  {
  }

  /** What the handler of a trap to x, taken from h, must find at its end for the return to work. */
  predicate Resumable(h: Hart, b: Hart, x: Mode, floor: nat) {
    && Regs(b, x).epc == h.pc
    && PreviousMode(b.status, x) == h.mode
    && (x + PIE in b.status <==> x in h.status)
    && SameEnables(Put(h.status, x, false), b.status)
    && b.debug.dm == h.debug.dm && b.deleg == h.deleg && ('C' in b.arch <==> 'C' in h.arch)
    && (USER < floor ==> SameStack(h, b, USER))
    && (SUPERVISOR < floor ==> SameStack(h, b, SUPERVISOR))
    && (MACHINE < floor ==> SameStack(h, b, MACHINE))
  }

  lemma HandlerResumable(c: Config, h: Hart, isInt: bool, ecode: nat, tval: nat, b: Hart, floor: nat)
    requires ValidConfig(c) && Running(c, h) && ecode < 32
    requires Restored(Trap(c, h, isInt, ecode, tval), b, TargetMode(h, isInt, ecode) + 1)
    requires TargetMode(h, isInt, ecode) >= floor
    ensures Resumable(h, b, TargetMode(h, isInt, ecode), floor)
  {
  }

  /** The matching return restores what was interrupted. */
  lemma ReturnRestores(c: Config, h: Hart, b: Hart, x: Mode, floor: nat)
    requires ValidConfig(c) && Running(c, h) && Running(c, b) && x != 2 && HasMode(c, x)
    requires Resumable(h, b, x, floor) && floor <= x && (x == USER ==> h.mode == USER)
    ensures var h' := Xret(c, b, x);
            Running(c, h') && Restored(h, h', floor) && h'.pc == h.pc
  {
    PopRestores(c, b.status, x);
    XretKeepsInv(c, b, x);
  }

  /** A whole handler: b is the state at its end. */
  lemma HandlerRestores(c: Config, h: Hart, isInt: bool, ecode: nat, tval: nat, b: Hart, floor: nat)
    requires ValidConfig(c) && Running(c, h) && ecode < 32 && TargetMode(h, isInt, ecode) >= floor
    requires Running(c, b) && Restored(Trap(c, h, isInt, ecode, tval), b, TargetMode(h, isInt, ecode) + 1)
    ensures var h' := Xret(c, b, TargetMode(h, isInt, ecode));
            Running(c, h') && Restored(h, h', floor) && h'.pc == h.pc
  {
    var x := TargetMode(h, isInt, ecode);
    TrapTarget(c, h, isInt, ecode);
    HandlerResumable(c, h, isInt, ecode, tval, b, floor);
    ReturnRestores(c, h, b, x, floor);
  }

  // ---------------------------------------------------------------- whole runs

  lemma RestoredTrans(h: Hart, g: Hart, k: Hart, floor: nat)
    requires Restored(h, g, floor) && Restored(g, k, floor)
    ensures Restored(h, k, floor)
  {
  }

  lemma AcknowledgedRuns(c: Config, h: Hart, cause: nat)
    requires Running(c, h)
    ensures var g := Acknowledged(h, cause); Running(c, g) && Restored(h, g, 4) && g.pc == h.pc
  {
    NetsKeepInv(c, h, Acknowledged(h, cause).nets);
  }

  lemma DebugSessionKeepsInv(c: Config, h: Hart, cause: nat, es: seq<Event>)
    requires ValidConfig(c) && Inv(c, h) && Feasible(c, EnterDM(c, h, cause), es)
    ensures Inv(c, DebugSession(c, h, cause, es))
  {
    EnterDMKeepsInv(c, h, cause);
    RunKeepsInv(c, EnterDM(c, h, cause), es);
    LeaveDMKeepsInv(c, After(c, EnterDM(c, h, cause), es));
  }

  /** The trap state depends on mstatus only in the fields that traps use, which MPRV is not. */
  lemma ClearMPRVKeepsTrapFields(c: Config, w: Bits, x: Mode)
    ensures SameTrapFields(w, ClearMPRV(c, w, x))
  {
  }

  lemma DebugSessionRuns(c: Config, h: Hart, cause: nat, es: seq<Event>)
    requires ValidConfig(c) && Running(c, h)
    requires Feasible(c, EnterDM(c, h, cause), es) && forall e :: e in es ==> Opaque(e)
    ensures var h' := DebugSession(c, h, cause, es);
            Running(c, h') && Restored(h, h', 4) && h'.pc == h.pc
  {
    DebugSessionKeepsInv(c, h, cause, es);
    DebugSessionRestores(c, h, cause, es);
    ClearMPRVKeepsTrapFields(c, h.status, h.mode);
  }

  lemma DebugItemRestores(c: Config, h: Hart, cause: nat, es: seq<Event>, floor: nat)
    requires ValidConfig(c) && Running(c, h) && floor <= 4
    requires Feasible(c, EnterDM(c, Acknowledged(h, cause), cause), es) && forall e :: e in es ==> Opaque(e)
    ensures var h' := DebugSession(c, Acknowledged(h, cause), cause, es);
            Running(c, h') && Restored(h, h', floor) && h'.pc == h.pc
  {
    var g := Acknowledged(h, cause);
    AcknowledgedRuns(c, h, cause);
    DebugSessionRuns(c, g, cause, es);
    RestoredTrans(h, g, DebugSession(c, g, cause, es), 4);
    RestoredBelow(h, DebugSession(c, g, cause, es), floor);
  }

  lemma RestoredBelow(h: Hart, k: Hart, floor: nat)
    requires Restored(h, k, 4)
    ensures Restored(h, k, floor)
  {
  }

  /** An item leaves the hart running as it was; a handler or Debug session restores the PC too. */
  lemma {:induction false} ItemRestores(c: Config, h: Hart, item: Item, floor: nat)
    requires ValidConfig(c) && Running(c, h) && floor <= 4 && ItemOK(c, h, item, floor)
    ensures var h' := ItemAfter(c, h, item);
            Running(c, h') && Restored(h, h', floor) && (item.Plain? || h'.pc == h.pc)
    decreases item
  {
    match item
    case Plain(e) => StepKeepsInv(c, h, e);
    case Handled(_, isInt, ecode, tval, body) => HandledRestores(c, h, isInt, ecode, tval, body, floor);
    case Halted(_, cause, es, _) => DebugItemRestores(c, h, cause, es, floor);
  }

  /** A trap, any properly nested run of its handler, and the matching return. */
  lemma {:induction false} HandledRestores(c: Config, h: Hart, isInt: bool, ecode: nat, tval: nat, body: Run, floor: nat)
    requires ValidConfig(c) && Running(c, h) && floor <= 4 && ecode < 32 && TargetMode(h, isInt, ecode) >= floor
    requires RunOK(c, Trap(c, h, isInt, ecode, tval), body, TargetMode(h, isInt, ecode) + 1)
    ensures var h' := Xret(c, RunAfter(c, Trap(c, h, isInt, ecode, tval), body), TargetMode(h, isInt, ecode));
            Running(c, h') && Restored(h, h', floor) && h'.pc == h.pc
    decreases body, 1
  {
    var t := Trap(c, h, isInt, ecode, tval);
    TrapRuns(c, h, isInt, ecode, tval);
    NestedRunRestores(c, t, body, TargetMode(h, isInt, ecode) + 1);
    HandlerRestores(c, h, isInt, ecode, tval, RunAfter(c, t, body), floor);
  }

  /**
   Every well-bracketed run of traps, handlers, Debug sessions and ordinary steps ends in the
   mode it began in, with MIE, SIE and UIE as they were.
   */
  lemma {:induction false} NestedRunRestores(c: Config, h: Hart, r: Run, floor: nat)
    requires ValidConfig(c) && Running(c, h) && floor <= 4 && RunOK(c, h, r, floor)
    ensures Running(c, RunAfter(c, h, r)) && Restored(h, RunAfter(c, h, r), floor)
    decreases r, 0
  {
    match r
    case Done =>
    case Then(item, rest) =>
      ItemRestores(c, h, item, floor);
      NestedRunRestores(c, ItemAfter(c, h, item), rest, floor);
      RestoredTrans(h, ItemAfter(c, h, item), RunAfter(c, h, r), floor);
  }

  // ---------------------------------------------------------------- nested runs are runs

  lemma ExitStep(c: Config, h: Hart, e: Event)
    requires IrqOK(h.irq) && h.debug.dm && LeavesDebug(e)
    ensures Enabled(c, h, e) && Step(c, h, e) == LeaveDM(c, h)
  {
  }

  /** An event from h to t, a run from there to b, and one more event. */
  lemma Bracket(c: Config, h: Hart, e: Event, t: Hart, es: seq<Event>, b: Hart, exit: Event)
    requires IrqOK(h.irq) && Enabled(c, h, e) && Step(c, h, e) == t
    requires Feasible(c, t, es) && After(c, t, es) == b && IrqOK(b.irq) && Enabled(c, b, exit)
    ensures Feasible(c, h, [e] + es + [exit]) && After(c, h, [e] + es + [exit]) == Step(c, b, exit)
  {
    RunOne(c, h, e);
    RunAppend(c, h, [e], es);
    RunOne(c, b, exit);
    RunAppend(c, h, [e] + es, [exit]);
  }

  lemma HaltedIsRun(c: Config, h: Hart, item: Item, floor: nat)
    requires ValidConfig(c) && Running(c, h) && item.Halted? && ItemOK(c, h, item, floor)
    ensures Feasible(c, h, ItemTrace(c, h, item)) && After(c, h, ItemTrace(c, h, item)) == ItemAfter(c, h, item)
  {
    var g := Acknowledged(h, item.cause);
    var t := EnterDM(c, g, item.cause);
    var d := After(c, t, item.es);
    AcknowledgedRuns(c, h, item.cause);
    EnterDMKeepsInv(c, g, item.cause);
    RunKeepsInv(c, t, item.es);
    OpaqueRun(c, t, item.es);
    ExitStep(c, d, item.exit);
    Bracket(c, h, item.e, t, item.es, d, item.exit);
  }

  /** A handler that begins in t, and the return from mode x that ends it. */
  lemma {:induction false} HandlerIsRun(c: Config, h: Hart, e: Event, t: Hart, body: Run, x: Mode, floor: nat)
    requires ValidConfig(c) && IrqOK(h.irq) && Enabled(c, h, e) && Step(c, h, e) == t
    requires Running(c, t) && floor <= 4 && RunOK(c, t, body, floor) && x != 2 && HasMode(c, x)
    ensures var es := [e] + RunTrace(c, t, body) + [Execute(XretI(x))];
            Feasible(c, h, es) && After(c, h, es) == Xret(c, RunAfter(c, t, body), x)
    decreases body, 1
  {
    NestedRunRestores(c, t, body, floor);
    NestedRunIsRun(c, t, body, floor);
    Bracket(c, h, e, t, RunTrace(c, t, body), RunAfter(c, t, body), Execute(XretI(x)));
  }

  lemma {:induction false} HandledIsRun(c: Config, h: Hart, item: Item, floor: nat)
    requires ValidConfig(c) && Running(c, h) && item.Handled? && ItemOK(c, h, item, floor)
    ensures Feasible(c, h, ItemTrace(c, h, item)) && After(c, h, ItemTrace(c, h, item)) == ItemAfter(c, h, item)
    decreases item, 0
  {
    var Handled(e, isInt, ecode, tval, body) := item;
    TrapTarget(c, h, isInt, ecode);
    TrapRuns(c, h, isInt, ecode, tval);
    HandlerIsRun(c, h, e, Trap(c, h, isInt, ecode, tval), body, TargetMode(h, isInt, ecode),
                 TargetMode(h, isInt, ecode) + 1);
  }

  lemma {:induction false} ItemIsRun(c: Config, h: Hart, item: Item, floor: nat)
    requires ValidConfig(c) && Running(c, h) && floor <= 4 && ItemOK(c, h, item, floor)
    ensures Feasible(c, h, ItemTrace(c, h, item)) && After(c, h, ItemTrace(c, h, item)) == ItemAfter(c, h, item)
    decreases item, 1
  {
    match item
    case Plain(e) => RunOne(c, h, e);
    case Handled(_, _, _, _, _) => HandledIsRun(c, h, item, floor);
    case Halted(_, _, _, _) => HaltedIsRun(c, h, item, floor);
  }

  /** The events of a nested run, one after the other, are a feasible run of the hart to the same state. */
  lemma {:induction false} NestedRunIsRun(c: Config, h: Hart, r: Run, floor: nat)
    requires ValidConfig(c) && Running(c, h) && floor <= 4 && RunOK(c, h, r, floor)
    ensures Feasible(c, h, RunTrace(c, h, r)) && After(c, h, RunTrace(c, h, r)) == RunAfter(c, h, r)
    decreases r, 0
  {
    match r
    case Done =>
    case Then(item, rest) =>
      var g := ItemAfter(c, h, item);
      ItemRestores(c, h, item, floor);
      ItemIsRun(c, h, item, floor);
      NestedRunIsRun(c, g, rest, floor);
      RunAppend(c, h, ItemTrace(c, h, item), RunTrace(c, g, rest));
  }

  /**
   The outermost return: from any running state, after an event that takes a trap, the events
   of any properly nested handler and its xRET, the mode, the PC and all three interrupt
   enables are exactly restored.
   */
  lemma HandledTrapIsTransparent(c: Config, h: Hart, item: Item)
    requires ValidConfig(c) && Running(c, h) && item.Handled? && ItemOK(c, h, item, 0)
    ensures Feasible(c, h, ItemTrace(c, h, item))
    ensures var h' := After(c, h, ItemTrace(c, h, item));
            h'.mode == h.mode && h'.pc == h.pc && SameEnables(h.status, h'.status)
  {
    ItemIsRun(c, h, item, 0);
    ItemRestores(c, h, item, 0);
  }

  // ---------------------------------------------------------------- which events are which

  // Events that leave the trap state of every mode alone

  predicate OrdinaryI(i: Instruction) {
    i.Advance? || i.WfiI? || i.LoadReserved? || i.StoreConditional?
  }

  predicate OrdinaryA(a: Access) {
    a.ReadStatus? || a.WriteIe? || a.WriteIp? || a.WriteTvec?
  }

  predicate OrdinaryS(s: Signal) {
    || s.Pin? || s.HaltreqNet? || s.ResethaltreqNet? || s.IntIDNet?
    || s.DebugStall? || s.WriteDcsr? || s.WriteDpc?
  }

  predicate Ordinary(e: Event) {
    match e
    case Execute(i) => OrdinaryI(i)
    case Csr(a) => OrdinaryA(a)
    case Float(_) => true
    case External(s) => OrdinaryS(s)
  }

  lemma DirtyKeepsTrapFields(c: Config, w: Bits)
    ensures SameTrapFields(w, PutField2(w, FS, DIRTY))
    ensures SameTrapFields(w, PutField2(w, VSField(c), DIRTY))
  {
  }

  lemma StatusReadKeepsTrapFields(c: Config, h: Hart)
    ensures SameTrapFields(h.status, StatusR(c, h).status)
  {
  }

  lemma FloatKeepsTrapFields(c: Config, h: Hart, f: FpStep)
    ensures SameTrapFields(h.status, StepFloat(c, h, f).status)
  {
    DirtyKeepsTrapFields(c, h.status);
    DirtyKeepsTrapFields(c, PutField2(h.status, VSField(c), DIRTY));
  }

  lemma FloatRestores(c: Config, h: Hart, f: FpStep)
    ensures Restored(h, StepFloat(c, h, f), 4) && StepFloat(c, h, f).pc == h.pc
  {
    FloatKeepsTrapFields(c, h, f);
  }

  lemma AccessRestores(c: Config, h: Hart, a: Access)
    requires IrqOK(h.irq) && CanAccess(c, a) && OrdinaryA(a)
    ensures Restored(h, StepAccess(c, h, a), 4) && StepAccess(c, h, a).pc == h.pc
  {
    StatusReadKeepsTrapFields(c, h);
  }

  lemma OrdinaryRestores(c: Config, h: Hart, e: Event)
    requires IrqOK(h.irq) && Enabled(c, h, e) && Ordinary(e)
    ensures Restored(h, Step(c, h, e), 4)
    ensures Step(c, h, e).pc == h.pc || (e.Execute? && e.i.Advance?)
  {
    match e
    case Csr(a) => AccessRestores(c, h, a);
    case Float(f) => FloatRestores(c, h, f);
    case _ =>
  }

  // Outside Debug mode exceptions, ECALL and DRET take traps, and so does EBREAK unless it enters Debug mode

  lemma ExceptionTraps(c: Config, h: Hart, ecode: nat, tval: nat)
    requires IrqOK(h.irq) && !h.debug.dm && ecode < 32
    ensures TakesTrap(c, h, Execute(Exception(ecode, tval)), false, ecode, tval)
  {
  }

  lemma EcallTraps(c: Config, h: Hart)
    requires IrqOK(h.irq) && !h.debug.dm
    ensures TakesTrap(c, h, Execute(EcallI), false, 8 + h.mode, 0)
  {
  }

  lemma DretTraps(c: Config, h: Hart, tval: nat)
    requires IrqOK(h.irq) && !h.debug.dm
    ensures TakesTrap(c, h, Execute(DretI(tval)), false, 2, tval)
  {
  }

  lemma EbreakTrapsOrHalts(c: Config, h: Hart)
    requires IrqOK(h.irq) && !h.debug.dm
    ensures if BreaksToDebug(h) then EntersDebug(c, h, Execute(EbreakI), 1)
            else TakesTrap(c, h, Execute(EbreakI), false, 3, h.pc)
  {
  }

  /** At a fetch, unless a halt request is pending, the selected interrupt or else the fetch fault is taken. */
  lemma FetchEvents(c: Config, h: Hart, check: FetchCheck)
    requires IrqOK(h.irq) && !h.debug.dm && (check.FetchFault? ==> check.ecode < 32)
    requires !h.nets.resethaltreqS && !h.nets.haltreq
    ensures PendingAndEnabled(h) != {} ==>
              TakesTrap(c, h, Execute(FetchStep(check)), true, Selected(h, PendingAndEnabled(h)), 0)
    ensures PendingAndEnabled(h) == {} && check.FetchFault? ==>
              TakesTrap(c, h, Execute(FetchStep(check)), false, check.ecode, check.tval)
  {
  }

  /** Requests of the debugger and single steps enter Debug mode. */
  lemma RequestHalts(c: Config, h: Hart)
    requires IrqOK(h.irq) && !h.debug.dm
    ensures EntersDebug(c, h, External(DebugRequest(true)), 3)
  {
  }

  lemma StepHalts(c: Config, h: Hart)
    requires IrqOK(h.irq) && !h.debug.dm && h.debug.dcsr.step
    ensures EntersDebug(c, h, External(StepTimerExpired), 4)
  {
  }

  /** A fetch honours the request latched at reset first, then the halt request. */
  lemma FetchHalts(c: Config, h: Hart, check: FetchCheck)
    requires IrqOK(h.irq) && !h.debug.dm && (check.FetchFault? ==> check.ecode < 32)
    ensures h.nets.resethaltreqS ==> EntersDebug(c, h, Execute(FetchStep(check)), 5)
    ensures h.nets.haltreq && !h.nets.resethaltreqS ==> EntersDebug(c, h, Execute(FetchStep(check)), 3)
  {
  }

  // ---------------------------------------------------------------- why the floor is needed

  /**
   A second trap to the mode of a running handler leads back into the handler, not to the
   interrupted program: wherever in the handler b it strikes, after both returns the PC is
   that of the program h if and only if the handler was at that very address.
   */
  lemma SameModeNestingLosesPC(c: Config, h: Hart, b: Hart, isInt: bool, ecode: nat, tval: nat)
    requires ValidConfig(c) && Running(c, h) && Running(c, b)
    requires ecode < 32 && TargetMode(b, isInt, ecode) == b.mode
    ensures var x := b.mode;
            Xret(c, Xret(c, Trap(c, b, isInt, ecode, tval), x), x).pc == h.pc <==> b.pc == h.pc
  {
  }
}
