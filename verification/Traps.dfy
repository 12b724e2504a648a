/**
 Taking and returning from exceptions, Debug mode, interrupt selection, halting and reset
 (source/riscvExceptions.c), as functions from state to state.
 */
module Traps {
  import opened Words
  import opened HartState

  // ---------------------------------------------------------------- halt and restart

  /** The simulator halts exactly the disabled harts. */
  predicate HaltOK(a: Activity) {
    a.halted <==> a.disable != {}
  }

  /** haltProcessor */
  function Halt(h: Hart, r: Reason): (h': Hart)
    ensures h' == h.(activity := h'.activity)
    ensures HaltOK(h.activity) ==> HaltOK(h'.activity)
  {
    h.(activity := Activity(h.activity.disable + {r}, h.activity.halted || h.activity.disable == {}))
  }

  /** restartProcessor */
  function Restart(h: Hart, rs: set<Reason>): (h': Hart)
    ensures h' == h.(activity := h'.activity)
    ensures HaltOK(h.activity) ==> HaltOK(h'.activity)
  {
    var disable := h.activity.disable - rs;
    h.(activity := Activity(disable, h.activity.halted && disable != {}))
  }

  /** getPendingInterrupts */
  function Pending(irq: Irq): Bits {
    irq.mie * irq.mip
  }

  /** No lost wakeup: a hart waiting for an interrupt has none pending. */
  predicate ActivityOK(a: Activity, irq: Irq) {
    HaltOK(a) && (WFI in a.disable ==> Pending(irq) == {})
  }

  /** riscvTestInterrupt: a pending interrupt, even a masked one, ends WFI. */
  function TestInterrupt(h: Hart): (h': Hart)
    ensures h' == h.(activity := h'.activity)
    ensures HaltOK(h.activity) ==> ActivityOK(h'.activity, h'.irq)
  {
    if Pending(h.irq) != {} then Restart(h, {WFI}) else h
  }

  /** riscvWFI */
  function Wfi(h: Hart): (h': Hart)
    ensures h' == h.(activity := h'.activity)
    ensures ActivityOK(h.activity, h.irq) ==> ActivityOK(h'.activity, h'.irq)
  {
    if h.debug.dm || Pending(h.irq) != {} then h else Halt(h, WFI)
  }

  // ---------------------------------------------------------------- target mode

  /** The mode to which the delegation registers direct a code. */
  function DelegatedMode(mMask: Bits, sMask: Bits, ecode: nat): Mode {
    if ecode !in mMask then MACHINE else if ecode !in sMask then SUPERVISOR else USER
  }

  /** getModeX: never below the current mode.  The source tests `1<<ecode` in 32 bits. */
  function ModeX(h: Hart, mMask: Bits, sMask: Bits, ecode: nat): Mode
    requires ecode < 32
  {
    var modeX := DelegatedMode(mMask, sMask, ecode);
    if modeX > h.mode then modeX else h.mode
  }

  /** getInterruptModeX and getExceptionModeX */
  function InterruptModeX(h: Hart, ecode: nat): Mode
    requires ecode < 32
  {
    ModeX(h, h.deleg.mideleg, h.deleg.sideleg, ecode)
  }

  function TargetMode(h: Hart, isInt: bool, ecode: nat): Mode
    requires ecode < 32
  {
    if isInt then InterruptModeX(h, ecode) else ModeX(h, h.deleg.medeleg, h.deleg.sedeleg, ecode)
  }

  // ---------------------------------------------------------------- taking an exception

  /** The interrupt-enable stack and xPP after a trap from mode y to mode x. */
  function PushStatus(w: Bits, x: Mode, y: Mode): Bits {
    var w := Put(Put(w, x + PIE, x in w), x, false);
    if x == USER then w
    else if x == SUPERVISOR then Put(w, SPP, y % 2 == 1)   // a one-bit field
    else PutField2(w, MPP, y)
  }

  /** Code reported in xcause: external interrupts may be renumbered by their ID ports. */
  function ReportedCode(h: Hart, isInt: bool, ecode: nat): nat {
    if isInt && 8 <= ecode <= 11 && ecode - 8 < |h.extInt| && h.extInt[ecode - 8] != 0
    then h.extInt[ecode - 8] else ecode
  }

  /** Writable bits of xepc: bit 1 only if compressed instructions are implemented. */
  function EpcMasked(c: Config, pc: nat): (r: nat)
    ensures 'C' !in c.arch ==> r % 4 == 0
    ensures pc % 4 == 0 || ('C' in c.arch && pc % 2 == 0) ==> r == pc
  {
    if 'C' in c.arch then pc - pc % 2 else Align4(pc)
  }

  function HandlerPC(c: Config, x: Mode, tvec: Tvec, isInt: bool, ecode: nat): (pc: nat)
    ensures tvec.base % 4 == 0 ==> pc % 4 == 0 && pc % 2 == 0
  {
    if isInt && (tvec.vectored || x in c.customVectored) then
      if tvec.base % 4 == 0 then WrapKeepsAlignment(tvec.base + 4 * ecode); (tvec.base + 4 * ecode) % TWO64
      else (tvec.base + 4 * ecode) % TWO64
    else tvec.base
  }

  /** The part of riscvTakeException that applies outside Debug mode. */
  function Trap(c: Config, h: Hart, isInt: bool, ecode: nat, tval: nat): (h': Hart)
    requires ecode < 32
    ensures h' == h.(mode := h'.mode, pc := h'.pc, status := h'.status, tag := NO_TAG, u := h'.u, s := h'.s, m := h'.m)
  {
    var x := TargetMode(h, isInt, ecode);
    var tvec := Regs(h, x).tvec;
    var regs := TrapRegs(EpcMasked(c, h.pc), Cause(isInt, ReportedCode(h, isInt, ecode)), tval, tvec);
    WithRegs(h, x, regs).(
      status := PushStatus(h.status, x, h.mode),
      mode := x,
      pc := HandlerPC(c, x, tvec, isInt, ecode),
      tag := NO_TAG
    )
  }

  /** riscvTakeException */
  function TakeException(c: Config, h: Hart, isInt: bool, ecode: nat, tval: nat): Hart
    requires ecode < 32
  {
    if h.debug.dm then EnterDM(c, h, 0) else Trap(c, h, isInt, ecode, tval)
  }

  /** riscvECALL */
  function Ecall(c: Config, h: Hart): Hart {
    TakeException(c, h, false, 8 + h.mode, 0)
  }

  // ---------------------------------------------------------------- returning

  /** clearMPRV */
  function ClearMPRV(c: Config, w: Bits, newMode: Mode): Bits {
    if c.priv == Priv1_12 && newMode != MACHINE then Put(w, MPRV, false) else w
  }

  /** setPCxRET: the low bits of the return address count only if C is currently enabled. */
  function ReturnPC(h: Hart, epc: nat): (pc: nat)
    ensures 'C' !in h.arch ==> pc % 4 == 0
    ensures 'C' in h.arch || epc % 4 == 0 ==> pc == epc
  {
    if 'C' in h.arch then epc else Align4(epc)
  }

  /** doERETCommon */
  function EretCommon(h: Hart, newMode: Mode, epc: nat): (h': Hart)
    ensures h' == h.(mode := newMode, pc := ReturnPC(h, epc), activity := h'.activity)
  {
    TestInterrupt(h.(mode := newMode, pc := ReturnPC(h, epc)))
  }

  /** The previous mode recorded for a return from mode x. */
  function PreviousMode(w: Bits, x: Mode): Mode {
    if x == USER then USER
    else if x == SUPERVISOR then (if SPP in w then SUPERVISOR else USER)
    else Field2(w, MPP)
  }

  /** The mode entered by a return from mode x (getERETMode; URET always enters User mode). */
  function EretMode(c: Config, w: Bits, x: Mode): Mode {
    var previous := PreviousMode(w, x);
    if x == USER || HasMode(c, previous) then previous else MinMode(c)
  }

  /** The interrupt-enable stack and xPP after a return from mode x. */
  function PopStatus(c: Config, w: Bits, x: Mode): Bits {
    var v := Put(Put(w, x, x + PIE in w), x + PIE, true);
    if x == USER then v
    else
      var v := if x == SUPERVISOR then Put(v, SPP, MinMode(c) % 2 == 1) else PutField2(v, MPP, MinMode(c));
      ClearMPRV(c, v, EretMode(c, w, x))
  }

  /** riscvMRET, riscvSRET and riscvURET, for x = M, S and U: no operation in Debug mode. */
  function Xret(c: Config, h: Hart, x: Mode): (h': Hart)
    ensures h' == h.(mode := h'.mode, pc := h'.pc, status := h'.status, tag := h'.tag, activity := h'.activity)
  {
    if h.debug.dm then h else
      EretCommon(h.(tag := if c.xretPreservesLR then h.tag else NO_TAG,
                    status := PopStatus(c, h.status, x)),
                 EretMode(c, h.status, x), Regs(h, x).epc)
  }

  // ---------------------------------------------------------------- Debug mode

  /** updateDMStall */
  function UpdateDMStall(c: Config, h: Hart, stall: bool): (h': Hart)
    ensures h' == h.(debug := h.debug.(stall := stall), activity := h'.activity)
  {
    var h := h.(debug := h.debug.(stall := stall));
    if !c.debugHalts then h else if stall then Halt(h, DEBUG) else Restart(h, {DEBUG})
  }

  /** enterDM; `cause` is a dmCause value. */
  function EnterDM(c: Config, h: Hart, cause: nat): (h': Hart)
    ensures h' == h.(mode := h'.mode, debug := h'.debug, activity := h'.activity)
  {
    var h := if h.debug.dm then h else
               h.(mode := MACHINE,
                  debug := h.debug.(dm := true, dcsr := h.debug.dcsr.(prv := h.mode, cause := cause), dpc := h.pc));
    UpdateDMStall(c, h, true)
  }

  /** leaveDM; also riscvDRET in Debug mode. */
  function LeaveDM(c: Config, h: Hart): (h': Hart)
    ensures h' == h.(mode := h'.mode, pc := h'.pc, status := h'.status, debug := h'.debug, activity := h'.activity)
  {
    var newMode := h.debug.dcsr.prv;
    var h := h.(debug := h.debug.(dm := false), status := ClearMPRV(c, h.status, newMode));
    UpdateDMStall(c, EretCommon(h, newMode, h.debug.dpc), false)
  }

  /** riscvSetDM */
  function SetDM(c: Config, h: Hart, dm: bool): (h': Hart)
    ensures h' == h.(mode := h'.mode, pc := h'.pc, status := h'.status, debug := h'.debug, activity := h'.activity)
  {
    if h.debug.dm == dm then h else if dm then EnterDM(c, h, 3) else LeaveDM(c, h)
  }

  /** riscvStepExcept */
  function StepTimer(c: Config, h: Hart): Hart {
    if !h.debug.dm && h.debug.dcsr.step then EnterDM(c, h, 4) else h
  }

  /** riscvDRET: illegal instruction outside Debug mode. */
  function Dret(c: Config, h: Hart, tval: nat): Hart {
    if h.debug.dm then LeaveDM(c, h) else TakeException(c, h, false, 2, tval)
  }

  /** Does EBREAK enter Debug mode, by the ebreak bit of the current mode? */
  predicate BreaksToDebug(h: Hart) {
    if h.debug.dm then true
    else if h.mode == USER then h.debug.dcsr.ebreaku
    else if h.mode == SUPERVISOR then h.debug.dcsr.ebreaks
    else h.mode == MACHINE && h.debug.dcsr.ebreakm
  }

  /** riscvEBREAK */
  function Ebreak(c: Config, h: Hart): Hart {
    if BreaksToDebug(h) then EnterDM(c, h, 1) else TakeException(c, h, false, 3, h.pc)
  }

  // ---------------------------------------------------------------- interrupts

  /** getIE: the effective enable of interrupts that target mode x. */
  predicate EnabledFor(h: Hart, x: Mode) {
    if h.mode < x then true else if h.mode > x then false else x in h.status
  }

  /** getPendingAndEnabledInterrupts */
  function PendingAndEnabled(h: Hart): Bits {
    if h.debug.dm then {} else
      var result := Pending(h.irq);
      var mideleg := h.deleg.mideleg;
      var sideleg := h.deleg.sideleg * mideleg;
      var result := if EnabledFor(h, MACHINE) then result else result * mideleg;
      var result := if EnabledFor(h, SUPERVISOR) then result else result - (mideleg - sideleg);
      if EnabledFor(h, USER) then result else result - sideleg
  }

  /** getIntPri: fixed priority of the standard interrupts, 0 for all others. */
  function IntPri(n: nat): nat {
    match n
    case 4 => 1   // UTimerInterrupt
    case 0 => 2   // USWInterrupt
    case 8 => 3   // UExternalInterrupt
    case 5 => 4   // STimerInterrupt
    case 1 => 5   // SSWInterrupt
    case 9 => 6   // SExternalInterrupt
    case 7 => 7   // MTimerInterrupt
    case 3 => 8   // MSWInterrupt
    case 11 => 9  // MExternalInterrupt
    case _ => 0
  }

  /** `e` comes at or after `f` in the order (target mode, fixed priority, number). */
  predicate AtLeast(h: Hart, e: nat, f: nat)
    requires e < 32 && f < 32
  {
    var (x, y) := (InterruptModeX(h, e), InterruptModeX(h, f));
    x > y || (x == y && (IntPri(e) > IntPri(f) || (IntPri(e) == IntPri(f) && e >= f)))
  }

  /** `e` is the greatest member of `mask` in that order. */
  ghost predicate IsSelected(h: Hart, mask: Bits, e: nat)
    requires forall k :: k in mask ==> k < 32
  {
    e in mask && forall f :: f in mask ==> AtLeast(h, e, f)
  }

  lemma {:induction false} SelectedExists(h: Hart, mask: Bits)
    requires forall k :: k in mask ==> k < 32
    requires mask != {}
    ensures exists e :: IsSelected(h, mask, e)
    decreases mask
  {
    var f :| f in mask;
    var rest := mask - {f};
    if rest == {} {
      assert mask == {f};
      assert IsSelected(h, mask, f);
    } else {
      SelectedExists(h, rest);
      var e :| IsSelected(h, rest, e);
      if AtLeast(h, e, f) {
        assert IsSelected(h, mask, e);
      } else {
        forall g | g in mask ensures AtLeast(h, f, g) {
          assert g != f ==> g in rest;
        }
        assert IsSelected(h, mask, f);
      }
    }
  }

  /** The order is total, so the selected interrupt is unique. */
  lemma SelectedUnique(h: Hart, mask: Bits, e: nat, f: nat)
    requires forall k :: k in mask ==> k < 32
    requires IsSelected(h, mask, e) && IsSelected(h, mask, f)
    ensures e == f
  {
  }

  ghost function Selected(h: Hart, mask: Bits): (e: nat)
    requires forall k :: k in mask ==> k < 32
    requires mask != {}
    ensures IsSelected(h, mask, e)
  {
    SelectedExists(h, mask);
    var e :| IsSelected(h, mask, e);
    e
  }

  /** doInterrupt */
  ghost function DoInterrupt(c: Config, h: Hart, mask: Bits): Hart
    requires forall k :: k in mask ==> k < 32
    requires mask != {}
  {
    TakeException(c, h, true, Selected(h, mask), 0)
  }

  /** Outcome of validating the fetch address: no fault, or an exception code and tval. */
  datatype FetchCheck = FetchOK | FetchFault(ecode: nat, tval: nat)

  /** riscvIFetchExcept, when it completes. */
  ghost function Fetch(c: Config, h: Hart, check: FetchCheck): Hart
    requires forall k :: k in h.irq.mie ==> k < 32
    requires check.FetchFault? ==> check.ecode < 32
  {
    var mask := PendingAndEnabled(h);
    if h.nets.resethaltreqS then EnterDM(c, h.(nets := h.nets.(resethaltreqS := false)), 5)
    else if h.nets.haltreq && !h.debug.dm then EnterDM(c, h, 3)
    else if mask != {} then DoInterrupt(c, h, mask)
    else if check.FetchFault? then TakeException(c, h, false, check.ecode, check.tval)
    else h
  }

  // ---------------------------------------------------------------- pins

  /** riscvUpdatePending */
  function UpdatePending(h: Hart): (h': Hart)
    requires |h.irq.ip| > 0
    ensures h' == h.(irq := h.irq.(mip := h.irq.ip[0] + h.irq.swip), activity := h'.activity)
  {
    var newValue := h.irq.ip[0] + h.irq.swip;
    if h.irq.mip != newValue then TestInterrupt(h.(irq := h.irq.(mip := newValue))) else h
  }

  /** interruptPortCB */
  function InterruptPin(h: Hart, index: nat, level: bool): (h': Hart)
    requires index / 64 < |h.irq.ip|
    ensures h' == h.(irq := h'.irq, activity := h'.activity)
  {
    var word := Put(h.irq.ip[index / 64], index % 64, level);
    UpdatePending(h.(irq := h.irq.(ip := h.irq.ip[index / 64 := word])))
  }

  /** doNMI: no interrupt-enable stack, and xepc is not masked. */
  function DoNMI(c: Config, h: Hart): Hart {
    var h := Restart(h, {WFI});
    h.(mode := MACHINE, m := h.m.(cause := Cause(false, 0), epc := h.pc), pc := c.nmiAddress)
  }

  /** nmiPortCB */
  function NmiPin(c: Config, h: Hart, level: bool): Hart {
    var h := if !h.debug.dm && h.nets.nmi && !level then DoNMI(c, h) else h;
    h.(debug := h.debug.(dcsr := h.debug.dcsr.(nmip := level)), nets := h.nets.(nmi := level))
  }
}
