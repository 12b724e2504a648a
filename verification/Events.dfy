/**
 When events are possible, in terms of misa and mstatus, which routine each of them runs, and
 the state that runs begin in (source/riscvMain.c, source/riscvCSR.c, source/riscvMorph.c).
 */
module Events {
  import opened Words
  import opened HartState
  import opened Traps
  import opened Csr
  import opened Machine
  import opened ArchCache

  // ---------------------------------------------------------------- availability

  predicate FSOn(h: Hart) {
    FS in h.status || FS + 1 in h.status
  }

  /** Is the vector extension on? */
  predicate VectorOn(c: Config, h: Hart) {
    && 'V' in h.misa
    && (c.vs == VS8 ==> VS_8 in h.status || VS_8 + 1 in h.status)
    && (c.vs == VS9 ==> VS_9 in h.status || VS_9 + 1 in h.status)
  }

  /** Is the floating point unit on? */
  predicate FloatOn(h: Hart) {
    ('D' in h.misa || 'F' in h.misa) && FSOn(h)
  }

  lemma FeaturesOn(c: Config, h: Hart)
    requires ValidConfig(c) && MisaOK(c, h.misa) && CacheRight(c, h)
    ensures ('D' in h.arch || 'F' in h.arch) <==> FloatOn(h)
    ensures 'V' in h.arch <==> VectorOn(c, h)
    ensures MSTATUS_FS_CHAR in h.arch <==> FSOn(h)
  {
  }

  /** Floating point and vector instructions, where currentArch is right. */
  lemma InstructionsAvailable(c: Config, h: Hart, flags: set<FpFlag>, sat: bool)
    requires ValidConfig(c) && MisaOK(c, h.misa) && CacheRight(c, h)
    ensures CanFloat(c, h, FprI) <==> FloatOn(h)
    ensures CanFloat(c, h, VectorI) <==> VectorOn(c, h)
    ensures CanFloat(c, h, FpI(flags)) <==> FloatOn(h) || (VectorOn(c, h) && VectorFp(c) && (c.vs == NoVS || FSOn(h)))
    ensures CanFloat(c, h, SatI(sat)) <==> VectorOn(c, h) && (c.vs == VS8 ==> FSOn(h))
  {
    FeaturesOn(c, h);
  }

  /** Their registers: fcsr is shared with the vector unit up to version 0.8. */
  lemma RegistersAvailable(c: Config, h: Hart, w: FpWrite)
    requires ValidConfig(c) && MisaOK(c, h.misa) && CacheRight(c, h)
    ensures CanFloat(c, h, WriteFp(w)) <==>
            match w
            case ToFcsr(_, _, _) => (if c.vs == VS8 then FSOn(h) else FloatOn(h) || (c.vs == NoVS && VectorOn(c, h)))
            case ToVxsat(_) => VectorOn(c, h) && (c.vs == VS8 ==> FSOn(h))
            case ToVxrm => VectorOn(c, h) && (c.vs == VS8 ==> FSOn(h))
            case ToVcsr(_) => VectorOn(c, h) && c.vs == VS9
            case _ => FloatOn(h)
  {
    FeaturesOn(c, h);
  }

  /** A register that an instruction can write is present, so that the debugger can. */
  lemma PokesAvailable(c: Config, h: Hart, w: FpWrite)
    requires ValidConfig(c) && MisaOK(c, h.misa) && CacheRight(c, h)
    ensures CanFloat(c, h, WriteFp(w)) && !(w.ToFcsr? && c.vs == VS8) ==> CanFloat(c, h, PokeFp(w))
    ensures CanFloat(c, h, PokeFp(w)) ==> 'D' in c.arch || 'F' in c.arch || 'V' in c.arch
  {
    FeaturesOn(c, h);
    RegistersAvailable(c, h, w);
  }

  /** Exceptions, ECALL, EBREAK, WFI, DRET and fetches are always possible; returns from implemented modes. */
  lemma ControlAvailable(c: Config, h: Hart, tval: nat, ecode: nat, x: Mode, pc: nat)
    ensures CanExecute(c, h, EcallI) && CanExecute(c, h, EbreakI) && CanExecute(c, h, WfiI) && CanExecute(c, h, DretI(tval))
    ensures CanExecute(c, h, LoadReserved(tval)) && CanExecute(c, h, StoreConditional) && CanExecute(c, h, FetchStep(FetchOK))
    ensures ecode < 32 ==> CanExecute(c, h, Exception(ecode, tval)) && CanExecute(c, h, FetchStep(FetchFault(ecode, tval)))
    ensures CanExecute(c, h, XretI(MACHINE)) && (CanExecute(c, h, XretI(SUPERVISOR)) <==> 'S' in c.arch)
    ensures CanExecute(c, h, XretI(USER)) <==> 'U' in c.arch
    ensures pc % 4 == 0 || 'C' in h.arch ==> CanExecute(c, h, Advance(pc))
  {
  }

  /** The delegation registers exist where there is a mode to delegate to; everything else always. */
  lemma AccessAvailable(c: Config, view: View, v: Bits, extensions: set<char>, x: Mode, address: nat, vectored: bool)
    ensures CanAccess(c, ReadStatus) && CanAccess(c, WriteIe(view, v)) && CanAccess(c, WriteIp(view, v))
    ensures CanAccess(c, WriteMisa(extensions)) && CanAccess(c, WriteEpc(x, address))
    ensures CanAccess(c, WriteTvec(x, address, vectored))
    ensures CanAccess(c, WriteStatus(MView, v)) && (CanAccess(c, WriteStatus(SView, v)) <==> 'S' in c.arch)
    ensures CanAccess(c, WriteStatus(UView, v)) <==> 'N' in c.arch
    ensures CanAccess(c, WriteMideleg(v)) == CanAccess(c, WriteMedeleg(v)) == ('S' in c.arch || 'N' in c.arch)
    ensures CanAccess(c, WriteSideleg(v)) == CanAccess(c, WriteSedeleg(v)) == ('S' in c.arch && 'N' in c.arch)
  {
  }

  /** Signals are possible at any time, for ports that exist; dcsr in Debug mode or by the debugger. */
  lemma SignalAvailable(c: Config, h: Hart, level: bool, index: nat, id: nat, d: Dcsr, address: nat)
    ensures CanSignal(c, h, ResetNet(level)) && CanSignal(c, h, NmiNet(level)) && CanSignal(c, h, HaltreqNet(level))
    ensures CanSignal(c, h, ResethaltreqNet(level)) && CanSignal(c, h, StepTimerExpired) && CanSignal(c, h, WriteDpc(address))
    ensures CanSignal(c, h, DebugRequest(level)) && CanSignal(c, h, DebugStall(level))
    ensures CanSignal(c, h, Pin(index, level)) <==> index < 64 * |h.irq.ip|
    ensures CanSignal(c, h, IntIDNet(index, id)) <==> index < |h.extInt|
    ensures CanSignal(c, h, WriteDcsr(d, level)) <==>
            && (level || h.debug.dm)
            && (d.prv == MACHINE || (d.prv == SUPERVISOR && 'S' in c.arch) || (d.prv == USER && 'U' in c.arch))
  {
  }

  // ---------------------------------------------------------------- what events run

  lemma InstructionRuns(c: Config, h: Hart, i: Instruction)
    requires IrqOK(h.irq) && CanExecute(c, h, i)
    ensures match i
            case Advance(pc) => StepInstruction(c, h, i) == h.(pc := pc)
            case LoadReserved(newTag) => StepInstruction(c, h, i) == h.(tag := newTag)
            case StoreConditional => StepInstruction(c, h, i) == h.(tag := NO_TAG)
            case EcallI => StepInstruction(c, h, i) == Ecall(c, h)
            case EbreakI => StepInstruction(c, h, i) == Ebreak(c, h)
            case WfiI => StepInstruction(c, h, i) == Wfi(h)
            case DretI(itval) => StepInstruction(c, h, i) == Dret(c, h, itval)
            case XretI(x) => StepInstruction(c, h, i) == Xret(c, h, x)
            case Exception(ecode, tval) => StepInstruction(c, h, i) == TakeException(c, h, false, ecode, tval)
            case FetchStep(check) => StepInstruction(c, h, i) == Fetch(c, h, check)
  {
  }

  lemma AccessRuns(c: Config, h: Hart, a: Access)
    requires IrqOK(h.irq) && CanAccess(c, a)
    ensures match a
            case ReadStatus => StepAccess(c, h, a) == StatusR(c, h)
            case WriteStatus(view, v) => StepAccess(c, h, a) == StatusViewW(c, h, view, v)
            case WriteIe(view, v) => StepAccess(c, h, a) == IeViewW(c, h, view, v)
            case WriteIp(view, v) => StepAccess(c, h, a) == IpViewW(c, h, view, v)
            case WriteMideleg(v) => StepAccess(c, h, a) == MidelegW(c, h, v)
            case WriteSideleg(v) => StepAccess(c, h, a) == SidelegW(c, h, v)
            case WriteMedeleg(v) => StepAccess(c, h, a) == MedelegW(c, h, v)
            case WriteSedeleg(v) => StepAccess(c, h, a) == SedelegW(c, h, v)
            case WriteMisa(extensions) => StepAccess(c, h, a) == MisaW(c, h, extensions)
            case WriteTvec(x, address, vectored) => StepAccess(c, h, a) == TvecW(c, h, x, address, vectored)
            case WriteEpc(x, address) => StepAccess(c, h, a) == EpcW(c, h, x, address)
  {
  }

  lemma FloatStepsRun(c: Config, h: Hart, flags: set<FpFlag>, sat: bool, w: FpWrite)
    ensures StepFloat(c, h, FpI(flags)) == FpOperation(c, h, flags) && StepFloat(c, h, SatI(sat)) == Saturate(c, h, sat)
    ensures StepFloat(c, h, FprI) == UpdateFS(c, h) && StepFloat(c, h, VectorI) == UpdateVS(c, h)
    ensures StepFloat(c, h, PokeFp(w)) == SetFp(c, h, w)
    ensures StepFloat(c, h, WriteFp(w)) == MarkFp(c, StepFloat(c, h, PokeFp(w)), w)
  {
  }

  lemma SignalRuns(c: Config, h: Hart, s: Signal)
    requires IrqOK(h.irq) && CanSignal(c, h, s)
    ensures match s
            case Pin(index, level) => StepSignal(c, h, s) == InterruptPin(h, index, level)
            case ResetNet(level) => StepSignal(c, h, s) == ResetPin(c, h, level)
            case NmiNet(level) => StepSignal(c, h, s) == NmiPin(c, h, level)
            case HaltreqNet(level) => StepSignal(c, h, s) == h.(nets := h.nets.(haltreq := level))
            case ResethaltreqNet(level) => StepSignal(c, h, s) == h.(nets := h.nets.(resethaltreq := level))
            case IntIDNet(offset, id) => StepSignal(c, h, s) == h.(extInt := h.extInt[offset := id])
            case StepTimerExpired => StepSignal(c, h, s) == StepTimer(c, h)
            case DebugRequest(dm) => StepSignal(c, h, s) == SetDM(c, h, dm)
            case DebugStall(stall) => StepSignal(c, h, s) == UpdateDMStall(c, h, stall)
            case WriteDcsr(dcsr, artifact) => StepSignal(c, h, s) == DcsrW(c, h, dcsr, artifact)
            case WriteDpc(address) => StepSignal(c, h, s) == h.(debug := h.debug.(dpc := address))
  {
  }

  // ---------------------------------------------------------------- the beginning

  /** Every register after construction. */
  lemma PowerOnRegisters(c: Config, ipWords: nat)
    ensures var h := PowerOn(c, ipWords);
            var blank := TrapRegs(0, Cause(false, 0), 0, Tvec(0, false));
            && h.mode == MACHINE && h.pc == c.resetAddress && h.status == ResetStatus(c) && h.misa == c.arch
            && h.u == blank && h.s == blank && h.m == blank.(tvec := Tvec(c.mtvec - c.mtvec % 4, c.mtvec % 2 == 1))
            && h.deleg.mideleg == h.deleg.medeleg == {}
            && (forall k :: k in h.deleg.sideleg <==> 0 <= k < 64 && 'N' in c.arch && 'S' !in c.arch)
            && h.deleg.sedeleg == h.deleg.sideleg
            && h.irq.mie == h.irq.mip == h.irq.swip == {}
            && |h.irq.ip| == ipWords && (forall i :: 0 <= i < ipWords ==> h.irq.ip[i] == {})
  {
  }

  lemma PowerOnRest(c: Config, ipWords: nat)
    ensures var h := PowerOn(c, ipWords);
            && h.debug == Debug(false, false, Dcsr(MACHINE, false, false, 0, false, false, false, false), 0)
            && h.activity == Activity({}, false) && h.fp == Fp({}, {}, false, false, 0) && h.tag == NO_TAG
            && h.extInt == [0, 0, 0, 0] && h.nets == Nets(false, false, false, false, false)
            && (RM_INVALID_CHAR !in c.arch ==> RM_INVALID_CHAR !in h.arch)
  {
  }
}
