/**
 Why a hart is halted (source/riscvExceptions.c): over every run each reason stands for what
 caused it, and a hart that waits for an interrupt waits exactly until it is woken.
 */
module Waiting {
  import opened HartState
  import opened Traps
  import opened Csr
  import opened Machine

  // ---------------------------------------------------------------- waiting for an interrupt

  predicate IsWaiting(h: Hart) {
    WFI in h.activity.disable
  }

  predicate FallingNmi(h: Hart, e: Event) {
    e == External(NmiNet(false)) && h.nets.nmi && !h.debug.dm
  }

  predicate FallingReset(h: Hart, e: Event) {
    e == External(ResetNet(false)) && h.nets.reset
  }

  /** An event that leaves something enabled pending, an NMI, or a reset. */
  ghost predicate Wakes(c: Config, h: Hart, e: Event)
    requires IrqOK(h.irq) && Enabled(c, h, e)
  {
    Pending(Step(c, h, e).irq) != {} || FallingNmi(h, e) || FallingReset(h, e)
  }

  /** WFI itself, where it waits. */
  predicate StartsWaiting(h: Hart, e: Event) {
    e == Execute(WfiI) && !h.debug.dm && Pending(h.irq) == {}
  }

  /** After an instruction, access or signal: still waiting, unless woken by a test for interrupts. */
  predicate WaitKept(h: Hart, h': Hart) {
    IsWaiting(h') <==> IsWaiting(h) && Pending(h'.irq) == {}
  }

  // Entering Debug mode, taking a trap and returning do not start a wait, and end it only by a test

  lemma EnterWait(c: Config, h: Hart, cause: nat)
    ensures IsWaiting(EnterDM(c, h, cause)) == IsWaiting(h) && EnterDM(c, h, cause).irq == h.irq
  {
  }

  lemma TakeWait(c: Config, h: Hart, isInt: bool, ecode: nat, tval: nat)
    requires ecode < 32
    ensures var h' := TakeException(c, h, isInt, ecode, tval); IsWaiting(h') == IsWaiting(h) && h'.irq == h.irq
  {
    EnterWait(c, h, 0);
  }

  lemma ReturnWait(c: Config, h: Hart, x: Mode)
    requires ActivityOK(h.activity, h.irq)
    ensures WaitKept(h, Xret(c, h, x)) && WaitKept(h, LeaveDM(c, h))
  {
  }

  lemma FetchWait(c: Config, h: Hart, check: FetchCheck)
    requires Inv(c, h) && (check.FetchFault? ==> check.ecode < 32)
    ensures WaitKept(h, Fetch(c, h, check))
  {
    var mask := PendingAndEnabled(h);
    if h.nets.resethaltreqS {
      EnterWait(c, h.(nets := h.nets.(resethaltreqS := false)), 5);
    } else if h.nets.haltreq && !h.debug.dm {
      EnterWait(c, h, 3);
    } else if mask != {} {
      TakeWait(c, h, true, Selected(h, mask), 0);
    } else if check.FetchFault? {
      TakeWait(c, h, false, check.ecode, check.tval);
    }
  }

  lemma InstructionWait(c: Config, h: Hart, i: Instruction)
    requires ValidConfig(c) && Inv(c, h) && CanExecute(c, h, i)
    ensures var h' := StepInstruction(c, h, i);
            IsWaiting(h') <==> (IsWaiting(h) && Pending(h'.irq) == {}) || StartsWaiting(h, Execute(i))
  {
    match i
    case Exception(ecode, tval) => TakeWait(c, h, false, ecode, tval);
    case FetchStep(check) => FetchWait(c, h, check);
    case EcallI => TakeWait(c, h, false, 8 + h.mode, 0);
    case EbreakI => EnterWait(c, h, 1); TakeWait(c, h, false, 3, h.pc);
    case DretI(itval) => ReturnWait(c, h, MACHINE); TakeWait(c, h, false, 2, itval);
    case XretI(x) => ReturnWait(c, h, x);
    case _ =>
  }

  lemma AccessWait(c: Config, h: Hart, a: Access)
    requires ValidConfig(c) && Inv(c, h) && CanAccess(c, a)
    ensures WaitKept(h, StepAccess(c, h, a))
  {
    AccessKeepsInv(c, h, a);
  }

  lemma ResetPinWait(c: Config, h: Hart, level: bool)
    ensures var h' := ResetPin(c, h, level);
            h'.irq == h.irq && (IsWaiting(h') <==> IsWaiting(h) && !(h.nets.reset && !level))
  {
    if h.nets.reset && !level {
      assert !IsWaiting(Restart(h, {WFI, RESET}));
    }
  }

  lemma NmiPinWait(c: Config, h: Hart, level: bool)
    ensures var h' := NmiPin(c, h, level);
            h'.irq == h.irq && (IsWaiting(h') <==> IsWaiting(h) && !(!h.debug.dm && h.nets.nmi && !level))
  {
  }

  lemma SignalWait(c: Config, h: Hart, s: Signal)
    requires ValidConfig(c) && Inv(c, h) && CanSignal(c, h, s)
    ensures var h' := StepSignal(c, h, s);
            IsWaiting(h') <==>
            IsWaiting(h) && Pending(h'.irq) == {} && !FallingNmi(h, External(s)) && !FallingReset(h, External(s))
  {
    match s
    case Pin(index, level) => PinKeepsInv(c, h, index, level);
    case ResetNet(level) => ResetPinWait(c, h, level);
    case NmiNet(level) => NmiPinWait(c, h, level);
    case StepTimerExpired => EnterWait(c, h, 4);
    case DebugRequest(_) => EnterWait(c, h, 3); ReturnWait(c, h, MACHINE);
    case _ =>
  }

  lemma FloatWait(c: Config, h: Hart, f: FpStep)
    ensures StepFloat(c, h, f).activity == h.activity && StepFloat(c, h, f).irq == h.irq
  {
  }

  /** A hart waits after an event if and only if it waited and was not woken, or the event is WFI with nothing pending. */
  lemma StepWaits(c: Config, h: Hart, e: Event)
    requires ValidConfig(c) && Inv(c, h) && Enabled(c, h, e)
    ensures IsWaiting(Step(c, h, e)) <==> (IsWaiting(h) && !Wakes(c, h, e)) || StartsWaiting(h, e)
  {
    match e
    case Execute(i) => InstructionWait(c, h, i);
    case Csr(a) => AccessWait(c, h, a);
    case Float(f) => FloatWait(c, h, f);
    case External(s) => SignalWait(c, h, s);
  }

  ghost predicate WaitsThroughout(c: Config, h: Hart, es: seq<Event>)
    requires Feasible(c, h, es)
    decreases |es|
  {
    IsWaiting(h) && (es == [] || WaitsThroughout(c, Step(c, h, es[0]), es[1..]))
  }

  ghost predicate NeverWoken(c: Config, h: Hart, es: seq<Event>)
    requires Feasible(c, h, es)
    decreases |es|
  {
    es == [] || (!Wakes(c, h, es[0]) && NeverWoken(c, Step(c, h, es[0]), es[1..]))
  }

  /** Over every run a waiting hart goes on waiting exactly as long as nothing wakes it. */
  lemma {:induction false} RunWaits(c: Config, h: Hart, es: seq<Event>)
    requires ValidConfig(c) && Inv(c, h) && IsWaiting(h) && Feasible(c, h, es)
    ensures WaitsThroughout(c, h, es) <==> NeverWoken(c, h, es)
    decreases |es|
  {
    if es != [] {
      StepWaits(c, h, es[0]);
      StepKeepsInv(c, h, es[0]);
      if IsWaiting(Step(c, h, es[0])) {
        RunWaits(c, Step(c, h, es[0]), es[1..]);
      }
    }
  }

  // ---------------------------------------------------------------- the other reasons

  /** RESET is the level of the reset pin, and DEBUG the stall indication where that halts. */
  predicate ReasonsOK(c: Config, h: Hart) {
    && (RESET in h.activity.disable <==> h.nets.reset)
    && (DEBUG in h.activity.disable <==> c.debugHalts && h.debug.stall)
  }

  lemma StallReasons(c: Config, h: Hart, stall: bool)
    requires ReasonsOK(c, h)
    ensures ReasonsOK(c, UpdateDMStall(c, h, stall))
  {
  }

  lemma EnterReasons(c: Config, h: Hart, cause: nat)
    requires ReasonsOK(c, h)
    ensures ReasonsOK(c, EnterDM(c, h, cause))
  {
  }

  lemma TakeReasons(c: Config, h: Hart, isInt: bool, ecode: nat, tval: nat)
    requires ReasonsOK(c, h) && ecode < 32
    ensures ReasonsOK(c, TakeException(c, h, isInt, ecode, tval))
  {
    EnterReasons(c, h, 0);
  }

  lemma ReturnReasons(c: Config, h: Hart, x: Mode)
    requires ReasonsOK(c, h)
    ensures ReasonsOK(c, Xret(c, h, x)) && ReasonsOK(c, LeaveDM(c, h))
  {
  }

  lemma FetchReasons(c: Config, h: Hart, check: FetchCheck)
    requires IrqOK(h.irq) && (check.FetchFault? ==> check.ecode < 32) && ReasonsOK(c, h)
    ensures ReasonsOK(c, Fetch(c, h, check))
  {
    var mask := PendingAndEnabled(h);
    if h.nets.resethaltreqS {
      EnterReasons(c, h.(nets := h.nets.(resethaltreqS := false)), 5);
    } else if h.nets.haltreq && !h.debug.dm {
      EnterReasons(c, h, 3);
    } else if mask != {} {
      TakeReasons(c, h, true, Selected(h, mask), 0);
    } else if check.FetchFault? {
      TakeReasons(c, h, false, check.ecode, check.tval);
    }
  }

  lemma InstructionReasons(c: Config, h: Hart, i: Instruction)
    requires IrqOK(h.irq) && CanExecute(c, h, i) && ReasonsOK(c, h)
    ensures ReasonsOK(c, StepInstruction(c, h, i))
  {
    match i
    case Exception(ecode, tval) => TakeReasons(c, h, false, ecode, tval);
    case FetchStep(check) => FetchReasons(c, h, check);
    case EcallI => TakeReasons(c, h, false, 8 + h.mode, 0);
    case EbreakI => EnterReasons(c, h, 1); TakeReasons(c, h, false, 3, h.pc);
    case DretI(itval) => ReturnReasons(c, h, MACHINE); TakeReasons(c, h, false, 2, itval);
    case XretI(x) => ReturnReasons(c, h, x);
    case _ =>
  }

  lemma AccessReasons(c: Config, h: Hart, a: Access)
    requires IrqOK(h.irq) && CanAccess(c, a) && ReasonsOK(c, h)
    ensures ReasonsOK(c, StepAccess(c, h, a))
  {
  }

  /** Reset leaves Debug mode, and with it the stall, or keeps both reason and indication. */
  lemma ResetReasons(c: Config, h: Hart)
    requires DEBUG in h.activity.disable <==> c.debugHalts && h.debug.stall
    ensures var h' := Reset(c, h);
            RESET !in h'.activity.disable && (DEBUG in h'.activity.disable <==> c.debugHalts && h'.debug.stall)
  {
    var h1 := Restart(h, {WFI, RESET});
    var h2 := SetDM(c, h1, false);
    assert DEBUG in h1.activity.disable <==> DEBUG in h.activity.disable;
    assert RESET !in h2.activity.disable && (DEBUG in h2.activity.disable <==> c.debugHalts && h2.debug.stall);
    assert Reset(c, h).activity == h2.activity && Reset(c, h).debug.stall == h2.debug.stall;
  }

  lemma ResetPinReasons(c: Config, h: Hart, level: bool)
    requires ReasonsOK(c, h)
    ensures ReasonsOK(c, ResetPin(c, h, level))
  {
    ResetReasons(c, h);
  }

  lemma SignalReasons(c: Config, h: Hart, s: Signal)
    requires IrqOK(h.irq) && CanSignal(c, h, s) && ReasonsOK(c, h)
    ensures ReasonsOK(c, StepSignal(c, h, s))
  {
    match s
    case ResetNet(level) => ResetPinReasons(c, h, level);
    case StepTimerExpired => EnterReasons(c, h, 4);
    case DebugRequest(_) => EnterReasons(c, h, 3); ReturnReasons(c, h, MACHINE);
    case DebugStall(stall) => StallReasons(c, h, stall);
    case _ =>
  }

  lemma {:induction false} RunReasons(c: Config, h: Hart, es: seq<Event>)
    requires Feasible(c, h, es) && ReasonsOK(c, h)
    ensures ReasonsOK(c, After(c, h, es))
    decreases |es|
  {
    if es != [] {
      match es[0] {
        case Execute(i) => InstructionReasons(c, h, i);
        case Csr(a) => AccessReasons(c, h, a);
        case Float(_) =>
        case External(s) => SignalReasons(c, h, s);
      }
      RunReasons(c, Step(c, h, es[0]), es[1..]);
    }
  }

  /**
   In every reachable state the simulator has halted the hart if and only if it waits, or
   the reset pin is high, or Debug mode stalls it.
   */
  lemma HaltedMeans(c: Config, ipWords: nat, es: seq<Event>)
    requires ValidConfig(c) && ipWords > 0 && Feasible(c, PowerOn(c, ipWords), es)
    ensures var h := After(c, PowerOn(c, ipWords), es);
            h.activity.halted <==> IsWaiting(h) || h.nets.reset || (c.debugHalts && h.debug.stall)
  {
    PowerOnReasons(c, ipWords);
    RunReasons(c, PowerOn(c, ipWords), es);
    EveryReachableStateOK(c, ipWords, es);
    HaltedIff(c, After(c, PowerOn(c, ipWords), es));
  }

  lemma PowerOnReasons(c: Config, ipWords: nat)
    ensures ReasonsOK(c, PowerOn(c, ipWords))
  {
  }

  lemma HaltedIff(c: Config, h: Hart)
    requires HaltOK(h.activity) && ReasonsOK(c, h)
    ensures h.activity.halted <==> IsWaiting(h) || h.nets.reset || (c.debugHalts && h.debug.stall)
  {
    if h.activity.disable != {} {
      var r :| r in h.activity.disable;
      assert r == WFI || r == RESET || r == DEBUG;
    }
  }
}
