/**
 What each operation does to each register, bit by bit and register by register, in terms
 of the registers before it alone (source/riscvExceptions.c, source/riscvCSR.c).
 */
module Effects {
  import opened Words
  import opened HartState
  import opened Traps
  import opened Csr

  function Greater(a: Mode, b: Mode): Mode {
    if a > b then a else b
  }

  // ---------------------------------------------------------------- traps

  /**
   An exception enters Machine mode unless medeleg delegates it; then Supervisor mode unless
   sedeleg delegates it further, but never a mode below the current one.
   */
  lemma ExceptionTarget(c: Config, h: Hart, e: nat, tval: nat)
    requires !h.debug.dm && e < 32
    ensures TakeException(c, h, false, e, tval).mode ==
            if e !in h.deleg.medeleg then MACHINE
            else Greater(h.mode, if e !in h.deleg.sedeleg then SUPERVISOR else USER)
  {
  }

  /** The same of interrupts, with mideleg and sideleg. */
  lemma InterruptTarget(c: Config, h: Hart, e: nat)
    requires !h.debug.dm && e < 32
    ensures TakeException(c, h, true, e, 0).mode ==
            if e !in h.deleg.mideleg then MACHINE
            else Greater(h.mode, if e !in h.deleg.sideleg then SUPERVISOR else USER)
  {
  }

  /** mstatus after a trap to x from mode y, bit by bit: xPIE := xIE, xIE := 0, xPP := y. */
  lemma TrapStatus(w: Bits, x: Mode, y: Mode, k: nat)
    requires x != 2
    ensures k in PushStatus(w, x, y) <==>
            if k == x then false
            else if k == x + 4 then x in w
            else if x == SUPERVISOR && k == 8 then y == 1 || y == 3
            else if x == MACHINE && k == 11 then y == 1 || y == 3
            else if x == MACHINE && k == 12 then y >= 2
            else k in w
  {
  }

  /** The registers that a trap writes, where x is the mode it enters. */
  lemma TrapRegisters(c: Config, h: Hart, isInt: bool, e: nat, tval: nat)
    requires e < 32
    ensures var h' := Trap(c, h, isInt, e, tval);
            var x := h'.mode;
            && h'.status == PushStatus(h.status, x, h.mode)
            && Regs(h', x).epc == h.pc - h.pc % (if 'C' in c.arch then 2 else 4)
            && Regs(h', x).tvec == Regs(h, x).tvec
            && (x != USER ==> h'.u == h.u) && (x != SUPERVISOR ==> h'.s == h.s)
            && (x == USER || x == SUPERVISOR ==> h'.m == h.m)
            && h'.tag == NO_TAG
  {
  }

  /** Interrupts alone are vectored, where xtvec or a custom mode says so. */
  lemma TrapEntry(c: Config, h: Hart, isInt: bool, e: nat, tval: nat)
    requires e < 32
    ensures var h' := Trap(c, h, isInt, e, tval);
            var tvec := Regs(h, h'.mode).tvec;
            h'.pc == if isInt && (tvec.vectored || h'.mode in c.customVectored)
                     then (tvec.base + 4 * e) % TWO64 else tvec.base
  {
  }

  /** ECALL reports 8, 9 or 11 by the mode it comes from, and no value. */
  lemma EcallEffect(c: Config, h: Hart)
    requires !h.debug.dm && h.mode != 2
    ensures var h' := Ecall(c, h);
            var r := Regs(h', h'.mode);
            r.tval == 0 && r.cause == Cause(false, if h.mode == MACHINE then 11 else if h.mode == SUPERVISOR then 9 else 8)
  {
  }

  /**
   The order at a fetch outside Debug mode: the halt request latched at reset, the halt
   request, the greatest pending and enabled interrupt, the fetch fault.
   */
  lemma FetchEffect(c: Config, h: Hart, check: FetchCheck)
    requires !h.debug.dm && (forall k :: k in h.irq.mie ==> k < 32) && (check.FetchFault? ==> check.ecode < 32)
    ensures var h' := Fetch(c, h, check);
            if h.nets.resethaltreqS then h' == EnterDM(c, h.(nets := h.nets.(resethaltreqS := false)), 5)
            else if h.nets.haltreq then h' == EnterDM(c, h, 3)
            else if PendingAndEnabled(h) != {} then
              exists e :: IsSelected(h, PendingAndEnabled(h), e) && h' == Trap(c, h, true, e, 0)
            else h' == match check case FetchOK => h case FetchFault(e, tval) => Trap(c, h, false, e, tval)
  {
    var mask := PendingAndEnabled(h);
    if mask != {} {
      assert IsSelected(h, mask, Selected(h, mask));
    }
  }

  // ---------------------------------------------------------------- returns

  /** m is the least implemented mode. */
  predicate Least(c: Config, m: Mode) {
    HasMode(c, m) && forall n: Mode :: n < m ==> !HasMode(c, n)
  }

  /** The mode that a return from x enters: the saved one, or the least if that is not implemented. */
  lemma ReturnMode(c: Config, h: Hart, x: Mode)
    requires !h.debug.dm && x != 2
    ensures var m := Xret(c, h, x).mode;
            match x {
              case 0 => m == USER
              case 1 => var p := if 8 in h.status then SUPERVISOR else USER;
                        if HasMode(c, p) then m == p else Least(c, m)
              case _ => var p := (if 11 in h.status then 1 else 0) + (if 12 in h.status then 2 else 0);
                        if HasMode(c, p) then m == p else Least(c, m)
            }
  {
  }

  /**
   mstatus after a return from x, bit by bit: xIE := xPIE, xPIE := 1, xPP := the least mode,
   and from version 1.12 MPRV := 0 unless Machine mode is entered.
   */
  lemma ReturnStatus(c: Config, h: Hart, x: Mode, k: nat, least: Mode)
    requires !h.debug.dm && x != 2 && Least(c, least)
    ensures var h' := Xret(c, h, x);
            k in h'.status <==>
            if k == x then x + 4 in h.status
            else if k == x + 4 then true
            else if x == SUPERVISOR && k == 8 then least == SUPERVISOR || least == MACHINE
            else if x == MACHINE && k == 11 then least == SUPERVISOR || least == MACHINE
            else if x == MACHINE && k == 12 then least == MACHINE
            else if x != USER && k == 17 then 17 in h.status && !(c.priv == Priv1_12 && h'.mode != MACHINE)
            else k in h.status
  {
    LeastIsMin(c, least);
  }

  lemma LeastIsMin(c: Config, least: Mode)
    requires Least(c, least)
    ensures MinMode(c) == least
  {
  }

  /** The PC, the reservation, and the end of a wait. */
  lemma ReturnRest(c: Config, h: Hart, x: Mode)
    requires !h.debug.dm
    ensures var h' := Xret(c, h, x);
            && h'.pc == Regs(h, x).epc - (if 'C' in h.arch then 0 else Regs(h, x).epc % 4)
            && h'.tag == (if c.xretPreservesLR then h.tag else NO_TAG)
            && h'.activity.disable == h.activity.disable - (if h.irq.mie * h.irq.mip != {} then {WFI} else {})
  {
  }

  /** In Debug mode a return does nothing. */
  lemma ReturnInDebug(c: Config, h: Hart, x: Mode)
    requires h.debug.dm
    ensures Xret(c, h, x) == h
  {
  }

  // ---------------------------------------------------------------- halting

  /** WFI waits if and only if it is outside Debug mode with nothing enabled pending. */
  lemma WfiEffect(h: Hart)
    requires HaltOK(h.activity)
    ensures !h.debug.dm && h.irq.mie * h.irq.mip == {} ==>
              Wfi(h) == h.(activity := Activity(h.activity.disable + {WFI}, true))
    ensures h.debug.dm || h.irq.mie * h.irq.mip != {} ==> Wfi(h) == h
  {
  }

  /** The wakeup test ends a wait if and only if something enabled is pending, and nothing else. */
  lemma TestInterruptEffect(h: Hart)
    requires HaltOK(h.activity)
    ensures var h' := TestInterrupt(h);
            && HaltOK(h'.activity)
            && h'.activity.disable == (if h.irq.mie * h.irq.mip != {} then h.activity.disable - {WFI} else h.activity.disable)
  {
  }

  // ---------------------------------------------------------------- Debug mode

  /** The stall indication halts or restarts the hart, unless Debug mode is signalled by an interrupt. */
  lemma StallEffect(c: Config, h: Hart, stall: bool)
    requires HaltOK(h.activity)
    ensures var h' := UpdateDMStall(c, h, stall);
            && h'.debug == h.debug.(stall := stall) && HaltOK(h'.activity)
            && h'.activity.disable == (if !c.debugHalts then h.activity.disable
                                       else if stall then h.activity.disable + {DEBUG} else h.activity.disable - {DEBUG})
  {
  }

  /** Debug mode is entered in Machine mode with mode, PC and cause saved; a second entry only stalls. */
  lemma EnterEffect(c: Config, h: Hart, cause: nat)
    ensures var h' := EnterDM(c, h, cause);
            && h'.debug.dm && h'.debug.stall
            && (if h.debug.dm then h'.mode == h.mode && h'.debug.dcsr == h.debug.dcsr && h'.debug.dpc == h.debug.dpc
                else h'.mode == MACHINE && h'.debug.dpc == h.pc
                     && h'.debug.dcsr == h.debug.dcsr.(prv := h.mode, cause := cause))
  {
  }

  /** It is left in the saved mode at the saved PC; MPRV as for a return. */
  lemma LeaveEffect(c: Config, h: Hart, k: nat)
    ensures var h' := LeaveDM(c, h);
            && !h'.debug.dm && !h'.debug.stall && h'.mode == h.debug.dcsr.prv
            && h'.pc == h.debug.dpc - (if 'C' in h.arch then 0 else h.debug.dpc % 4)
            && h'.debug.dcsr == h.debug.dcsr && h'.debug.dpc == h.debug.dpc
            && (k in h'.status <==> k in h.status && !(k == 17 && c.priv == Priv1_12 && h'.mode != MACHINE))
  {
  }

  /** Requests from outside are for the other state only; the step timer acts outside Debug mode with dcsr.step set. */
  lemma RequestEffect(c: Config, h: Hart)
    ensures SetDM(c, h, true) == (if h.debug.dm then h else EnterDM(c, h, 3))
    ensures SetDM(c, h, false) == (if h.debug.dm then LeaveDM(c, h) else h)
    ensures StepTimer(c, h) == (if h.debug.dcsr.step && !h.debug.dm then EnterDM(c, h, 4) else h)
  {
  }

  /** Each mode has its own ebreak bit; without it EBREAK is exception 3 with the PC as tval. */
  lemma EbreakEffect(c: Config, h: Hart)
    requires !h.debug.dm && h.mode != 2
    ensures var d := h.debug.dcsr;
            var enters := if h.mode == MACHINE then d.ebreakm else if h.mode == SUPERVISOR then d.ebreaks else d.ebreaku;
            Ebreak(c, h) == if enters then EnterDM(c, h, 1) else Trap(c, h, false, 3, h.pc)
  {
  }

  lemma DretEffect(c: Config, h: Hart, tval: nat)
    ensures Dret(c, h, tval) == if h.debug.dm then LeaveDM(c, h) else Trap(c, h, false, 2, tval)
  {
  }

  // ---------------------------------------------------------------- pins

  /** A pin drives its own bit of its own word, and mip follows word 0 and the software bits. */
  lemma PinEffect(h: Hart, index: nat, level: bool, j: nat, k: nat)
    requires index / 64 < |h.irq.ip| && j < |h.irq.ip|
    ensures var h' := InterruptPin(h, index, level);
            && |h'.irq.ip| == |h.irq.ip|
            && (k in h'.irq.ip[j] <==> if j == index / 64 && k == index % 64 then level else k in h.irq.ip[j])
            && h'.irq.mip == h'.irq.ip[0] + h.irq.swip
            && h'.irq.swip == h.irq.swip && h'.irq.mie == h.irq.mie
  {
  }

  /** A falling NMI edge outside Debug mode enters Machine mode at the NMI address and saves the PC. */
  lemma NmiEffect(c: Config, h: Hart, level: bool)
    ensures var h' := NmiPin(c, h, level);
            && h'.nets == h.nets.(nmi := level)
            && h'.debug == h.debug.(dcsr := h.debug.dcsr.(nmip := level))
            && (if !h.debug.dm && h.nets.nmi && !level
                then h'.mode == MACHINE && h'.pc == c.nmiAddress && WFI !in h'.activity.disable
                     && h'.m == h.m.(epc := h.pc, cause := Cause(false, 0))
                else h'.mode == h.mode && h'.pc == h.pc && h'.m == h.m && h'.activity == h.activity)
            && h'.status == h.status && h'.u == h.u && h'.s == h.s
  {
  }

  /** Reset leaves Debug mode, ends every wait, and starts Machine mode at the reset address with mcause 0. */
  lemma ResetEffect(c: Config, h: Hart)
    ensures var h' := Reset(c, h);
            && h'.mode == MACHINE && h'.pc == c.resetAddress && !h'.debug.dm
            && WFI !in h'.activity.disable && RESET !in h'.activity.disable
            && h'.misa == c.arch && h'.status == ResetStatus(c)
            && h'.m == h.m.(cause := Cause(false, 0)) && h'.u == h.u && h'.s == h.s
            && h'.debug.dcsr == Dcsr(MACHINE, false, false, 0, false, false, false, false)
            && h'.tag == NO_TAG && h'.deleg == h.deleg && h'.irq == h.irq && h'.fp == h.fp
            && h'.nets == h.nets.(resethaltreqS := h.nets.resethaltreq)
  {
  }

  /** The reset pin holds the hart while it is high and resets it when it falls. */
  lemma ResetPinEffect(c: Config, h: Hart, level: bool)
    ensures var h' := ResetPin(c, h, level);
            && h' == (if h.nets.reset == level then h else if level then Halt(h, RESET) else Reset(c, h)).(nets := h'.nets)
            && (level && !h.nets.reset ==> h'.activity.disable == h.activity.disable + {RESET} && (HaltOK(h.activity) ==> h'.activity.halted))
            && h'.nets.reset == level
  {
  }
}
