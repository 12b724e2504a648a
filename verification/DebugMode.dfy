/**
 Debug mode is opaque (source/riscvExceptions.c): whatever is executed from the program
 buffer or arrives on the ports while the hart is in Debug mode, leaving Debug mode
 resumes the interrupted program.
 */
module DebugMode {
  import opened HartState
  import opened Traps
  import opened Machine

  // Events that may happen in Debug mode without writing control registers, leaving it or resetting

  predicate OpaqueI(i: Instruction) {
    !i.DretI?
  }

  /** LR and SC use the reservation, which Debug mode does not save. */
  predicate Reserves(e: Event) {
    e.Execute? && (e.i.LoadReserved? || e.i.StoreConditional?)
  }

  predicate OpaqueS(s: Signal) {
    || s.Pin? || s.NmiNet? || s.HaltreqNet? || s.ResethaltreqNet? || s.IntIDNet?
    || s.StepTimerExpired? || s.DebugStall? || s == DebugRequest(true)
  }

  predicate Opaque(e: Event) {
    (e.Execute? && OpaqueI(e.i)) || (e.External? && OpaqueS(e.s))
  }

  /** h' is h with only the PC, the reservation, inputs, halt state, the stall indication and dcsr.nmip changed. */
  predicate Undisturbed(h: Hart, h': Hart) {
    h' == h.(pc := h'.pc, tag := h'.tag, irq := h'.irq, activity := h'.activity, nets := h'.nets, extInt := h'.extInt,
             debug := h.debug.(stall := h'.debug.stall, dcsr := h.debug.dcsr.(nmip := h'.debug.dcsr.nmip)))
  }

  lemma StallUndisturbed(c: Config, h: Hart, stall: bool)
    ensures Undisturbed(h, UpdateDMStall(c, h, stall)) && UpdateDMStall(c, h, stall).tag == h.tag
  {
  }

  /** In Debug mode an exception or EBREAK only stalls, and a fetch takes no interrupt. */
  lemma TakeInDebug(c: Config, h: Hart, cause: nat)
    requires h.debug.dm
    ensures EnterDM(c, h, cause) == UpdateDMStall(c, h, true)
  {
  }

  lemma FetchInDebug(c: Config, h: Hart, check: FetchCheck)
    requires h.debug.dm && IrqOK(h.irq) && (check.FetchFault? ==> check.ecode < 32)
    ensures Undisturbed(h, Fetch(c, h, check)) && Fetch(c, h, check).tag == h.tag
  {
    var g := h.(nets := h.nets.(resethaltreqS := false));
    TakeInDebug(c, g, 5);
    StallUndisturbed(c, g, true);
    TakeInDebug(c, h, 0);
    StallUndisturbed(c, h, true);
  }

  lemma OpaqueInstruction(c: Config, h: Hart, i: Instruction)
    requires h.debug.dm && IrqOK(h.irq) && CanExecute(c, h, i) && OpaqueI(i)
    ensures Undisturbed(h, StepInstruction(c, h, i))
    ensures !Reserves(Execute(i)) ==> StepInstruction(c, h, i).tag == h.tag
  {
    StallUndisturbed(c, h, true);
    match i
    case Exception(_, _) => TakeInDebug(c, h, 0);
    case FetchStep(check) => FetchInDebug(c, h, check);
    case EcallI => TakeInDebug(c, h, 0);
    case EbreakI => TakeInDebug(c, h, 1);
    case _ =>
  }

  lemma OpaqueSignal(c: Config, h: Hart, s: Signal)
    requires h.debug.dm && IrqOK(h.irq) && CanSignal(c, h, s) && OpaqueS(s)
    ensures Undisturbed(h, StepSignal(c, h, s)) && StepSignal(c, h, s).tag == h.tag
  {
  }

  lemma OpaqueStep(c: Config, h: Hart, e: Event)
    requires h.debug.dm && IrqOK(h.irq) && Enabled(c, h, e) && Opaque(e)
    ensures Undisturbed(h, Step(c, h, e))
    ensures !Reserves(e) ==> Step(c, h, e).tag == h.tag
  {
    match e
    case Execute(i) => OpaqueInstruction(c, h, i);
    case External(s) => OpaqueSignal(c, h, s);
  }

  lemma {:induction false} OpaqueRun(c: Config, h: Hart, es: seq<Event>)
    requires h.debug.dm && Feasible(c, h, es) && forall e :: e in es ==> Opaque(e)
    ensures Undisturbed(h, After(c, h, es))
    ensures (forall e :: e in es ==> !Reserves(e)) ==> After(c, h, es).tag == h.tag
    decreases |es|
  {
    if es != [] {
      OpaqueStep(c, h, es[0]);
      OpaqueRun(c, Step(c, h, es[0]), es[1..]);
    }
  }

  /** The state after a Debug session: entered for `cause`, left by DRET or the debugger. */
  ghost function DebugSession(c: Config, h: Hart, cause: nat, es: seq<Event>): Hart
    requires Feasible(c, EnterDM(c, h, cause), es)
  {
    LeaveDM(c, After(c, EnterDM(c, h, cause), es))
  }

  /** Mode, PC, mstatus (but for MPRV), trap registers and everything else are as before. */
  lemma DebugSessionRestores(c: Config, h: Hart, cause: nat, es: seq<Event>)
    requires !h.debug.dm && PcOK(h.misa, h.arch, h.pc)
    requires Feasible(c, EnterDM(c, h, cause), es) && forall e :: e in es ==> Opaque(e)
    ensures After(c, EnterDM(c, h, cause), es).debug.dcsr.cause == cause
    ensures var h' := DebugSession(c, h, cause, es);
            && !h'.debug.dm
            && h'.mode == h.mode && h'.pc == h.pc
            && h'.status == ClearMPRV(c, h.status, h.mode)
            && h'.u == h.u && h'.s == h.s && h'.m == h.m
            && h'.deleg == h.deleg && h'.misa == h.misa && h'.arch == h.arch
            && h'.fp == h.fp
            && ((forall e :: e in es ==> !Reserves(e)) ==> h'.tag == h.tag)
  {
    OpaqueRun(c, EnterDM(c, h, cause), es);
  }
}
