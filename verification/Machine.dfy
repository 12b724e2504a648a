/**
 The hart as a state machine: every entry point of the model is an event, and the
 invariant below holds in every state that any sequence of events can reach.
 */
module Machine {
  import opened Words
  import opened HartState
  import opened Traps
  import opened Csr

  /** Instructions and steps of the instruction stream. */
  datatype Instruction =
    | Advance(pc: nat)
    | Exception(ecode: nat, tval: nat)
    | FetchStep(check: FetchCheck)
    | EcallI | EbreakI | WfiI | DretI(itval: nat)
    | XretI(x: Mode)
    | LoadReserved(newTag: nat) | StoreConditional

  /** Accesses to control and status registers. */
  datatype Access =
    | ReadStatus
    | WriteStatus(view: View, v: Bits) | WriteIe(view: View, v: Bits) | WriteIp(view: View, v: Bits)
    | WriteMideleg(v: Bits) | WriteSideleg(v: Bits) | WriteMedeleg(v: Bits) | WriteSedeleg(v: Bits)
    | WriteMisa(extensions: set<char>)
    | WriteTvec(x: Mode, address: nat, vectored: bool)
    | WriteEpc(x: Mode, address: nat)

  /**
   Floating point and vector instructions (those that accrue flags, that saturate, that write
   a floating point register, that write vector state) and register writes.
   */
  datatype FpStep =
    | FpI(flags: set<FpFlag>) | SatI(sat: bool) | FprI | VectorI
    | WriteFp(w: FpWrite)       // by an instruction
    | PokeFp(w: FpWrite)        // by the debugger: no dirty-state update

  /** Net ports, the step timer and the external debugger. */
  datatype Signal =
    | Pin(index: nat, level: bool)
    | ResetNet(level: bool) | NmiNet(level: bool) | HaltreqNet(level: bool) | ResethaltreqNet(level: bool)
    | IntIDNet(offset: nat, id: nat)
    | StepTimerExpired
    | DebugRequest(dm: bool) | DebugStall(stall: bool)
    | WriteDcsr(dcsr: Dcsr, artifact: bool) | WriteDpc(address: nat)

  datatype Event = Execute(i: Instruction) | Csr(a: Access) | Float(f: FpStep) | External(s: Signal)

  /**
   May floating point flags accrue?  Vector instructions without an F register operand need
   FS only from version 0.8, and a floating point format configured but not enabled.
   */
  predicate FpAllowed(c: Config, h: Hart) {
    || 'D' in h.arch || 'F' in h.arch
    || ('V' in h.arch && VectorFp(c) && (c.vs == NoVS || MSTATUS_FS_CHAR in h.arch))
  }

  /** Is fcsr accessible? */
  predicate FcsrAllowed(c: Config, h: Hart) {
    match c.vs
    case VS8 => MSTATUS_FS_CHAR in h.arch
    case VS9 => 'D' in h.arch || 'F' in h.arch
    case NoVS => 'D' in h.arch || 'F' in h.arch || 'V' in h.arch
  }

  /** Are vxsat and vxrm accessible, and fixed point instructions enabled? */
  predicate VxAllowed(c: Config, h: Hart) {
    'V' in h.arch && (c.vs == VS8 ==> MSTATUS_FS_CHAR in h.arch)
  }

  /** Is the register accessible to an instruction? */
  predicate CanWriteFp(c: Config, h: Hart, w: FpWrite) {
    match w
    case ToFflags(_) => 'D' in h.arch || 'F' in h.arch
    case ToFrm(_) => 'D' in h.arch || 'F' in h.arch
    case ToFcsr(_, _, _) => FcsrAllowed(c, h)
    case ToVxsat(_) => VxAllowed(c, h)
    case ToVxrm => VxAllowed(c, h)
    case ToVcsr(_) => 'V' in h.arch && c.vs == VS9
  }

  /** Is the register present? */
  predicate HasFp(c: Config, w: FpWrite) {
    match w
    case ToFflags(_) => 'D' in c.arch || 'F' in c.arch
    case ToFrm(_) => 'D' in c.arch || 'F' in c.arch
    case ToFcsr(_, _, _) => 'D' in c.arch || 'F' in c.arch || ('V' in c.arch && VxFieldsInFcsr(c))
    case ToVxsat(_) => 'V' in c.arch
    case ToVxrm => 'V' in c.arch
    case ToVcsr(_) => 'V' in c.arch && c.vs == VS9
  }

  // What instruction decode, register access checks and port creation guarantee of an event

  predicate CanExecute(c: Config, h: Hart, i: Instruction) {
    match i
    case Advance(pc) => 'C' in h.arch || pc % 4 == 0
    case Exception(ecode, _) => ecode < 32
    case FetchStep(check) => check.FetchFault? ==> check.ecode < 32
    case XretI(x) => x != 2 && HasMode(c, x)
    case _ => true
  }

  predicate CanAccess(c: Config, a: Access) {
    match a
    case WriteStatus(view, _) => view == MView || (view == SView && 'S' in c.arch) || (view == UView && 'N' in c.arch)
    case WriteMideleg(_) => 'S' in c.arch || 'N' in c.arch
    case WriteMedeleg(_) => 'S' in c.arch || 'N' in c.arch
    case WriteSideleg(_) => 'S' in c.arch && 'N' in c.arch
    case WriteSedeleg(_) => 'S' in c.arch && 'N' in c.arch
    case _ => true
  }

  predicate CanFloat(c: Config, h: Hart, f: FpStep) {
    match f
    case FpI(_) => FpAllowed(c, h)
    case SatI(_) => VxAllowed(c, h)
    case FprI => 'D' in h.arch || 'F' in h.arch
    case VectorI => 'V' in h.arch
    case WriteFp(w) => CanWriteFp(c, h, w)
    case PokeFp(w) => HasFp(c, w)
  }

  predicate CanSignal(c: Config, h: Hart, s: Signal) {
    match s
    case Pin(index, _) => index / 64 < |h.irq.ip|
    case IntIDNet(offset, _) => offset < |h.extInt|
    case WriteDcsr(dcsr, artifact) => HasMode(c, dcsr.prv) && (artifact || h.debug.dm)
    case _ => true
  }

  predicate Enabled(c: Config, h: Hart, e: Event) {
    match e
    case Execute(i) => CanExecute(c, h, i)
    case Csr(a) => CanAccess(c, a)
    case Float(f) => CanFloat(c, h, f)
    case External(s) => CanSignal(c, h, s)
  }

  // ---------------------------------------------------------------- the invariant

  /** The modes saved in mstatus are implemented. */
  predicate SavedModesOK(c: Config, w: Bits) {
    && HasMode(c, Field2(w, MPP))
    && ('S' in c.arch ==> HasMode(c, PreviousMode(w, SUPERVISOR)))
  }

  /** No code is directed to an unimplemented mode. */
  predicate DelegationOK(c: Config, d: Delegation) {
    && (forall k :: k in d.mideleg ==> k < 32)
    && ('S' !in c.arch ==> d.mideleg <= d.sideleg && d.medeleg <= d.sedeleg)
    && ('S' !in c.arch && 'N' !in c.arch ==> d.mideleg == {} && d.medeleg == {})
    && ('N' in c.arch && 'S' !in c.arch ==> Range(0, 32) <= d.sideleg && Range(0, 32) <= d.sedeleg)
  }

  predicate ModesOK(c: Config, h: Hart) {
    && HasMode(c, h.mode)
    && HasMode(c, h.debug.dcsr.prv)
    && SavedModesOK(c, h.status)
    && DelegationOK(c, h.deleg)
  }

  /** mip caches pins and software bits; only codes below 32 can be enabled. */
  predicate IrqOK(irq: Irq) {
    && |irq.ip| > 0
    && irq.mip == irq.ip[0] + irq.swip
    && (forall k :: k in irq.mie ==> k < 32)
  }

  /** Where both are implemented, D needs F if so configured, and they go together if only one is writable. */
  predicate DFLaw(c: Config, misa: set<char>) {
    {'D', 'F'} <= c.arch ==>
      && ({'D', 'F'} <= c.archMask && c.dRequiresF && 'D' in misa ==> 'F' in misa)
      && (('D' in c.archMask) != ('F' in c.archMask) ==> ('D' in misa <==> 'F' in misa))
  }

  /** misa is legal: one base ISA, the configured D/F constraint, nothing unimplemented. */
  predicate MisaOK(c: Config, misa: set<char>) {
    && ('I' in misa <==> 'E' !in misa)
    && DFLaw(c, misa)
    && misa <= c.arch + {'E'}
    && c.arch - c.archMask - {'D', 'E', 'F'} <= misa
  }

  /** Without compressed instructions every PC is word-aligned. */
  predicate PcOK(misa: set<char>, arch: set<char>, pc: nat) {
    && ('C' in arch <==> 'C' in misa)
    && ('C' !in arch ==> pc % 4 == 0)
  }

  predicate TvecOK(h: Hart) {
    h.u.tvec.base % 4 == 0 && h.s.tvec.base % 4 == 0 && h.m.tvec.base % 4 == 0
  }

  ghost predicate Inv(c: Config, h: Hart) {
    && ModesOK(c, h)
    && IrqOK(h.irq)
    && ActivityOK(h.activity, h.irq)
    && MisaOK(c, h.misa)
    && PcOK(h.misa, h.arch, h.pc)
    && TvecOK(h)
  }

  // ---------------------------------------------------------------- transitions

  ghost function StepInstruction(c: Config, h: Hart, i: Instruction): Hart
    requires IrqOK(h.irq) && CanExecute(c, h, i)
  {
    match i
    case Advance(pc) => h.(pc := pc)
    case Exception(ecode, tval) => TakeException(c, h, false, ecode, tval)
    case FetchStep(check) => Fetch(c, h, check)
    case EcallI => Ecall(c, h)
    case EbreakI => Ebreak(c, h)
    case WfiI => Wfi(h)
    case DretI(itval) => Dret(c, h, itval)
    case XretI(x) => Xret(c, h, x)
    case LoadReserved(newTag) => h.(tag := newTag)
    case StoreConditional => h.(tag := NO_TAG)
  }

  function StepAccess(c: Config, h: Hart, a: Access): Hart
    requires IrqOK(h.irq) && CanAccess(c, a)
  {
    match a
    case ReadStatus => StatusR(c, h)
    case WriteStatus(view, v) => StatusViewW(c, h, view, v)
    case WriteIe(view, v) => IeViewW(c, h, view, v)
    case WriteIp(view, v) => IpViewW(c, h, view, v)
    case WriteMideleg(v) => MidelegW(c, h, v)
    case WriteSideleg(v) => SidelegW(c, h, v)
    case WriteMedeleg(v) => MedelegW(c, h, v)
    case WriteSedeleg(v) => SedelegW(c, h, v)
    case WriteMisa(extensions) => MisaW(c, h, extensions)
    case WriteTvec(x, address, vectored) => TvecW(c, h, x, address, vectored)
    case WriteEpc(x, address) => EpcW(c, h, x, address)
  }

  function StepFloat(c: Config, h: Hart, f: FpStep): Hart {
    match f
    case FpI(flags) => FpOperation(c, h, flags)
    case SatI(sat) => Saturate(c, h, sat)
    case FprI => UpdateFS(c, h)
    case VectorI => UpdateVS(c, h)
    case WriteFp(w) => MarkFp(c, SetFp(c, h, w), w)
    case PokeFp(w) => SetFp(c, h, w)
  }

  function StepSignal(c: Config, h: Hart, s: Signal): Hart
    requires IrqOK(h.irq) && CanSignal(c, h, s)
  {
    match s
    case Pin(index, level) => InterruptPin(h, index, level)
    case ResetNet(level) => ResetPin(c, h, level)
    case NmiNet(level) => NmiPin(c, h, level)
    case HaltreqNet(level) => h.(nets := h.nets.(haltreq := level))
    case ResethaltreqNet(level) => h.(nets := h.nets.(resethaltreq := level))
    case IntIDNet(offset, id) => h.(extInt := h.extInt[offset := id])
    case StepTimerExpired => StepTimer(c, h)
    case DebugRequest(dm) => SetDM(c, h, dm)
    case DebugStall(stall) => UpdateDMStall(c, h, stall)
    case WriteDcsr(dcsr, artifact) => DcsrW(c, h, dcsr, artifact)
    case WriteDpc(address) => h.(debug := h.debug.(dpc := address))
  }

  ghost function Step(c: Config, h: Hart, e: Event): Hart
    requires IrqOK(h.irq) && Enabled(c, h, e)
  {
    match e
    case Execute(i) => StepInstruction(c, h, i)
    case Csr(a) => StepAccess(c, h, a)
    case Float(f) => StepFloat(c, h, f)
    case External(s) => StepSignal(c, h, s)
  }

  // ---------------------------------------------------------------- preservation

  lemma TrapKeepsInv(c: Config, h: Hart, isInt: bool, ecode: nat, tval: nat)
    requires ValidConfig(c) && Inv(c, h) && ecode < 32
    ensures Inv(c, Trap(c, h, isInt, ecode, tval))
  {
  }

  lemma EnterDMKeepsInv(c: Config, h: Hart, cause: nat)
    requires ValidConfig(c) && Inv(c, h)
    ensures Inv(c, EnterDM(c, h, cause))
  {
  }

  lemma LeaveDMKeepsInv(c: Config, h: Hart)
    requires ValidConfig(c) && Inv(c, h)
    ensures Inv(c, LeaveDM(c, h))
  {
  }

  lemma TakeKeepsInv(c: Config, h: Hart, isInt: bool, ecode: nat, tval: nat)
    requires ValidConfig(c) && Inv(c, h) && ecode < 32
    ensures Inv(c, TakeException(c, h, isInt, ecode, tval))
  {
    if h.debug.dm {
      EnterDMKeepsInv(c, h, 0);
    } else {
      TrapKeepsInv(c, h, isInt, ecode, tval);
    }
  }

  lemma XretKeepsInv(c: Config, h: Hart, x: Mode)
    requires ValidConfig(c) && Inv(c, h) && x != 2 && HasMode(c, x)
    ensures Inv(c, Xret(c, h, x))
  {
  }

  lemma FetchKeepsInv(c: Config, h: Hart, check: FetchCheck)
    requires ValidConfig(c) && Inv(c, h) && (check.FetchFault? ==> check.ecode < 32)
    ensures Inv(c, Fetch(c, h, check))
  {
    var mask := PendingAndEnabled(h);
    if h.nets.resethaltreqS {
      EnterDMKeepsInv(c, h.(nets := h.nets.(resethaltreqS := false)), 5);
    } else if h.nets.haltreq && !h.debug.dm {
      EnterDMKeepsInv(c, h, 3);
    } else if mask != {} {
      TakeKeepsInv(c, h, true, Selected(h, mask), 0);
    } else if check.FetchFault? {
      TakeKeepsInv(c, h, false, check.ecode, check.tval);
    }
  }

  lemma InstructionKeepsInv(c: Config, h: Hart, i: Instruction)
    requires ValidConfig(c) && Inv(c, h) && CanExecute(c, h, i)
    ensures Inv(c, StepInstruction(c, h, i))
  {
    match i
    case Exception(ecode, tval) => TakeKeepsInv(c, h, false, ecode, tval);
    case FetchStep(check) => FetchKeepsInv(c, h, check);
    case EcallI => TakeKeepsInv(c, h, false, 8 + h.mode, 0);
    case EbreakI => EnterDMKeepsInv(c, h, 1); TakeKeepsInv(c, h, false, 3, h.pc);
    case DretI(itval) => LeaveDMKeepsInv(c, h); TakeKeepsInv(c, h, false, 2, itval);
    case XretI(x) => XretKeepsInv(c, h, x);
    case _ =>
  }

  lemma LegalStatusKeepsModes(c: Config, w: Bits, value: Bits, mask: Bits)
    requires SavedModesOK(c, w) && mask <= StatusMask(c)
    ensures SavedModesOK(c, LegalStatus(c, w, value, mask))
  {
  }

  lemma StatusKeepsInv(c: Config, h: Hart, value: Bits, mask: Bits)
    requires ValidConfig(c) && Inv(c, h) && mask <= StatusMask(c)
    ensures Inv(c, StatusW(c, h, value, mask))
  {
    LegalStatusKeepsModes(c, Consolidate(c, h).status, value, mask);
  }

  lemma StatusReadKeepsInv(c: Config, h: Hart)
    requires ValidConfig(c) && Inv(c, h)
    ensures Inv(c, StatusR(c, h))
  {
  }

  lemma IeKeepsInv(c: Config, h: Hart, value: Bits, rMask: Bits)
    requires ValidConfig(c) && Inv(c, h)
    ensures Inv(c, IeW(c, h, value, rMask))
  {
  }

  lemma IpKeepsInv(c: Config, h: Hart, value: Bits, rMask: Bits)
    requires ValidConfig(c) && Inv(c, h)
    ensures Inv(c, IpW(c, h, value, rMask))
  {
  }

  lemma LegalMisaOK(c: Config, misa: set<char>, pc: nat, value: set<char>)
    requires ValidConfig(c) && MisaOK(c, misa) && ('C' !in misa ==> pc % 4 == 0)
    ensures var misa' := LegalMisa(c, misa, pc, value); MisaOK(c, misa') && ('C' !in misa' ==> pc % 4 == 0)
  {
  }

  lemma MisaKeepsInv(c: Config, h: Hart, value: set<char>)
    requires ValidConfig(c) && Inv(c, h)
    ensures Inv(c, MisaW(c, h, value))
  {
    LegalMisaOK(c, h.misa, h.pc, value);
  }

  lemma OneModeRegsKeepInv(c: Config, h: Hart, r: TrapRegs)
    requires Inv(c, h) && r.tvec.base % 4 == 0
    ensures Inv(c, h.(u := r)) && Inv(c, h.(s := r)) && Inv(c, h.(m := r))
  {
  }

  lemma RegsKeepInv(c: Config, h: Hart, x: Mode, r: TrapRegs)
    requires Inv(c, h) && r.tvec.base % 4 == 0
    ensures Inv(c, WithRegs(h, x, r))
  {
    OneModeRegsKeepInv(c, h, r);
  }

  lemma TvecKeepsInv(c: Config, h: Hart, x: Mode, base: nat, vectored: bool)
    requires Inv(c, h)
    ensures Inv(c, WithRegs(h, x, Regs(h, x).(tvec := Tvec(Align4(base), vectored))))
  {
    RegsKeepInv(c, h, x, Regs(h, x).(tvec := Tvec(Align4(base), vectored)));
  }

  lemma EpcKeepsInv(c: Config, h: Hart, x: Mode, address: nat)
    requires Inv(c, h)
    ensures Inv(c, EpcW(c, h, x, address))
  {
  }

  /** A masked write keeps bounds that the register, and every writable bit, satisfy. */
  lemma MergeBounded(previous: Bits, value: Bits, mask: Bits, upper: Bits)
    requires previous <= upper && mask <= upper
    ensures Merge(previous, value, mask) <= upper
  {
  }

  /** Only codes below 32 can be delegated. */
  lemma DelegationMasksBelow32(c: Config)
    ensures MidelegMask(c) <= Range(0, 32) && MedelegMask(c) <= Range(0, 32)
  {
  }

  lemma MidelegWriteOK(c: Config, d: Delegation, value: Bits)
    requires DelegationOK(c, d) && ('S' in c.arch || 'N' in c.arch)
    ensures DelegationOK(c, d.(mideleg := Merge(Low32(d.mideleg), value, MidelegMask(c))))
  {
    DelegationMasksBelow32(c);
    MergeBounded(Low32(d.mideleg), value, MidelegMask(c), Range(0, 32));
    if 'S' !in c.arch {
      MergeBounded(Low32(d.mideleg), value, MidelegMask(c), d.sideleg);
    }
  }

  lemma MedelegWriteOK(c: Config, d: Delegation, value: Bits)
    requires DelegationOK(c, d) && ('S' in c.arch || 'N' in c.arch)
    ensures DelegationOK(c, d.(medeleg := Merge(d.medeleg, value, MedelegMask(c))))
  {
    if 'S' !in c.arch {
      DelegationMasksBelow32(c);
      MergeBounded(d.medeleg, value, MedelegMask(c), d.sedeleg);
    }
  }

  /** The invariant depends on delegation only through DelegationOK. */
  lemma DelegationKeepsInv(c: Config, h: Hart, d: Delegation)
    requires Inv(c, h) && DelegationOK(c, d)
    ensures Inv(c, h.(deleg := d)) && Inv(c, TestInterrupt(h.(deleg := d)))
  {
  }

  lemma DelegationWriteKeepsInv(c: Config, h: Hart, value: Bits)
    requires Inv(c, h)
    ensures 'S' in c.arch || 'N' in c.arch ==> Inv(c, MidelegW(c, h, value)) && Inv(c, MedelegW(c, h, value))
    ensures 'S' in c.arch && 'N' in c.arch ==> Inv(c, SidelegW(c, h, value)) && Inv(c, SedelegW(c, h, value))
  {
    if 'S' in c.arch || 'N' in c.arch {
      MidelegWriteOK(c, h.deleg, value);
      DelegationKeepsInv(c, h, MidelegW(c, h, value).deleg);
      MedelegWriteOK(c, h.deleg, value);
      DelegationKeepsInv(c, h, MedelegW(c, h, value).deleg);
    }
    if 'S' in c.arch && 'N' in c.arch {
      DelegationKeepsInv(c, h, SidelegW(c, h, value).deleg);
      DelegationKeepsInv(c, h, SedelegW(c, h, value).deleg);
    }
  }

  lemma AccessKeepsInv(c: Config, h: Hart, a: Access)
    requires ValidConfig(c) && Inv(c, h) && CanAccess(c, a)
    ensures Inv(c, StepAccess(c, h, a))
  {
    match a
    case ReadStatus => StatusReadKeepsInv(c, h);
    case WriteStatus(view, v) => StatusKeepsInv(c, h, v, StatusViewMask(c, view));
    case WriteIe(view, v) => IeKeepsInv(c, h, v, IeViewMask(h, view));
    case WriteIp(view, v) => IpKeepsInv(c, h, v, IpViewMask(h, view));
    case WriteMideleg(v) => DelegationWriteKeepsInv(c, h, v);
    case WriteSideleg(v) => DelegationWriteKeepsInv(c, h, v);
    case WriteMedeleg(v) => DelegationWriteKeepsInv(c, h, v);
    case WriteSedeleg(v) => DelegationWriteKeepsInv(c, h, v);
    case WriteMisa(extensions) => MisaKeepsInv(c, h, extensions);
    case WriteTvec(x, address, vectored) => TvecKeepsInv(c, h, x, TvecBase(c, address, vectored), vectored);
    case WriteEpc(x, address) => EpcKeepsInv(c, h, x, address);
  }

  /** The invariant looks at floating point state only through C in currentArch. */
  lemma FpFrameKeepsInv(c: Config, h: Hart, fp: Fp, arch: set<char>)
    requires Inv(c, h) && arch - {RM_INVALID_CHAR} == h.arch - {RM_INVALID_CHAR}
    ensures Inv(c, h.(fp := fp, arch := arch))
  {
    assert 'C' in arch <==> 'C' in arch - {RM_INVALID_CHAR};
    assert 'C' in h.arch <==> 'C' in h.arch - {RM_INVALID_CHAR};
  }

  lemma SetFpKeepsInv(c: Config, h: Hart, w: FpWrite)
    requires Inv(c, h)
    ensures Inv(c, SetFp(c, h, w))
  {
    FpFrameKeepsInv(c, h, SetFp(c, h, w).fp, SetFp(c, h, w).arch);
  }

  lemma DirtyKeepsInv(c: Config, h: Hart)
    requires Inv(c, h)
    ensures Inv(c, UpdateFS(c, h)) && Inv(c, UpdateVS(c, h))
  {
  }

  lemma MarkFpKeepsInv(c: Config, h: Hart, w: FpWrite)
    requires Inv(c, h)
    ensures Inv(c, MarkFp(c, h, w))
  {
    DirtyKeepsInv(c, h);
    DirtyKeepsInv(c, UpdateVS(c, h));
  }

  lemma AccrueKeepsInv(c: Config, h: Hart, flags: set<FpFlag>, sat: bool)
    requires Inv(c, h)
    ensures Inv(c, FpOperation(c, h, flags)) && Inv(c, Saturate(c, h, sat))
  {
    DirtyKeepsInv(c, h);
  }

  lemma FloatKeepsInv(c: Config, h: Hart, f: FpStep)
    requires Inv(c, h)
    ensures Inv(c, StepFloat(c, h, f))
  {
    match f
    case FpI(flags) => AccrueKeepsInv(c, h, flags, false);
    case SatI(sat) => AccrueKeepsInv(c, h, {}, sat);
    case FprI => DirtyKeepsInv(c, h);
    case VectorI => DirtyKeepsInv(c, h);
    case WriteFp(w) => SetFpKeepsInv(c, h, w); MarkFpKeepsInv(c, SetFp(c, h, w), w);
    case PokeFp(w) => SetFpKeepsInv(c, h, w);
  }

  lemma ResetKeepsInv(c: Config, h: Hart)
    requires ValidConfig(c) && Inv(c, h)
    ensures Inv(c, Reset(c, h))
  {
    var h1 := Restart(h, {WFI, RESET});
    if h1.debug.dm {
      LeaveDMKeepsInv(c, h1);
    }
    CsrResetEstablishes(c, SetDM(c, h1, false).(mode := MACHINE));
  }

  /** CSR reset makes mstatus, misa and dcsr legal whatever they were. */
  lemma CsrResetEstablishes(c: Config, h: Hart)
    requires ValidConfig(c) && DelegationOK(c, h.deleg) && HasMode(c, h.mode)
    ensures ModesOK(c, CsrReset(c, h)) && MisaOK(c, CsrReset(c, h).misa)
    ensures 'C' in CsrReset(c, h).arch <==> 'C' in c.arch
  {
  }

  lemma NetsKeepInv(c: Config, h: Hart, nets: Nets)
    requires Inv(c, h)
    ensures Inv(c, h.(nets := nets))
  {
  }

  lemma ResetPinKeepsInv(c: Config, h: Hart, level: bool)
    requires ValidConfig(c) && Inv(c, h)
    ensures Inv(c, ResetPin(c, h, level))
  {
    var h' := if !h.nets.reset && level then Halt(h, RESET)
              else if h.nets.reset && !level then Reset(c, h)
              else h;
    assert Inv(c, h') by {
      if h.nets.reset && !level { ResetKeepsInv(c, h); }
    }
    NetsKeepInv(c, h', h'.nets.(reset := level));
  }

  lemma PinKeepsInv(c: Config, h: Hart, index: nat, level: bool)
    requires Inv(c, h) && index / 64 < |h.irq.ip|
    ensures Inv(c, InterruptPin(h, index, level))
  {
  }

  lemma NmiKeepsInv(c: Config, h: Hart, level: bool)
    requires ValidConfig(c) && Inv(c, h)
    ensures Inv(c, NmiPin(c, h, level))
  {
  }

  lemma SignalKeepsInv(c: Config, h: Hart, s: Signal)
    requires ValidConfig(c) && Inv(c, h) && CanSignal(c, h, s)
    ensures Inv(c, StepSignal(c, h, s))
  {
    match s
    case Pin(index, level) => PinKeepsInv(c, h, index, level);
    case ResetNet(level) => ResetPinKeepsInv(c, h, level);
    case NmiNet(level) => NmiKeepsInv(c, h, level);
    case StepTimerExpired => EnterDMKeepsInv(c, h, 4);
    case DebugRequest(dm) => EnterDMKeepsInv(c, h, 3); LeaveDMKeepsInv(c, h);
    case _ =>
  }

  lemma StepKeepsInv(c: Config, h: Hart, e: Event)
    requires ValidConfig(c) && Inv(c, h) && Enabled(c, h, e)
    ensures Inv(c, Step(c, h, e))
  {
    match e
    case Execute(i) => InstructionKeepsInv(c, h, i);
    case Csr(a) => AccessKeepsInv(c, h, a);
    case Float(f) => FloatKeepsInv(c, h, f);
    case External(s) => SignalKeepsInv(c, h, s);
  }

  // ---------------------------------------------------------------- runs

  /** Each event of the run is enabled when it happens. */
  ghost predicate Feasible(c: Config, h: Hart, es: seq<Event>)
    decreases |es|
  {
    es == [] || (IrqOK(h.irq) && Enabled(c, h, es[0]) && Feasible(c, Step(c, h, es[0]), es[1..]))
  }

  ghost function After(c: Config, h: Hart, es: seq<Event>): Hart
    requires Feasible(c, h, es)
    decreases |es|
  {
    if es == [] then h else After(c, Step(c, h, es[0]), es[1..])
  }

  lemma RunCons(c: Config, h: Hart, e: Event, es: seq<Event>)
    requires IrqOK(h.irq) && Enabled(c, h, e) && Feasible(c, Step(c, h, e), es)
    ensures Feasible(c, h, [e] + es) && After(c, h, [e] + es) == After(c, Step(c, h, e), es)
  {
    assert ([e] + es)[1..] == es;
  }

  /** Runs compose. */
  lemma {:induction false} RunAppend(c: Config, h: Hart, es: seq<Event>, fs: seq<Event>)
    requires Feasible(c, h, es) && Feasible(c, After(c, h, es), fs)
    ensures Feasible(c, h, es + fs) && After(c, h, es + fs) == After(c, After(c, h, es), fs)
    decreases |es|
  {
    if es == [] {
      assert es + fs == fs;
    } else {
      RunAppend(c, Step(c, h, es[0]), es[1..], fs);
      RunCons(c, h, es[0], es[1..] + fs);
      assert [es[0]] + (es[1..] + fs) == es + fs;
    }
  }

  lemma RunOne(c: Config, h: Hart, e: Event)
    requires IrqOK(h.irq) && Enabled(c, h, e)
    ensures Feasible(c, h, [e]) && After(c, h, [e]) == Step(c, h, e)
  {
  }

  /** The zeroed processor structure with the initial delegation and mtvec values of riscvCSRInit. */
  function Zeroed(c: Config, ipWords: nat): Hart {
    var none := TrapRegs(0, Cause(false, 0), 0, Tvec(0, false));
    var all := if 'N' in c.arch && 'S' !in c.arch then Range(0, 64) else {};
    Hart(MACHINE, 0, {}, {}, {XlenChar(c)}, none, none,
         none.(tvec := Tvec(Align4(c.mtvec), c.mtvec % 2 == 1)),
         Delegation({}, all, {}, all),
         Irq({}, {}, {}, seq(ipWords, _ => {})),
         Debug(false, false, Dcsr(USER, false, false, 0, false, false, false, false), 0),
         Activity({}, false), Fp({}, {}, false, false, 0), NO_TAG, [0, 0, 0, 0],
         Nets(false, false, false, false, false))
  }

  /** State at the end of riscvConstructor. */
  function PowerOn(c: Config, ipWords: nat): Hart {
    Reset(c, CsrReset(c, Zeroed(c, ipWords)))
  }

  lemma PowerOnInv(c: Config, ipWords: nat)
    requires ValidConfig(c) && ipWords > 0
    ensures Inv(c, PowerOn(c, ipWords))
  {
    CsrResetEstablishes(c, Zeroed(c, ipWords));
    ResetKeepsInv(c, CsrReset(c, Zeroed(c, ipWords)));
  }

  lemma {:induction false} RunKeepsInv(c: Config, h: Hart, es: seq<Event>)
    requires ValidConfig(c) && Inv(c, h) && Feasible(c, h, es)
    ensures Inv(c, After(c, h, es))
    decreases |es|
  {
    if es != [] {
      StepKeepsInv(c, h, es[0]);
      RunKeepsInv(c, Step(c, h, es[0]), es[1..]);
    }
  }

  /** Every state reachable from power-on satisfies the invariant. */
  lemma EveryReachableStateOK(c: Config, ipWords: nat, es: seq<Event>)
    requires ValidConfig(c) && ipWords > 0 && Feasible(c, PowerOn(c, ipWords), es)
    ensures Inv(c, After(c, PowerOn(c, ipWords), es))
  {
    PowerOnInv(c, ipWords);
    RunKeepsInv(c, PowerOn(c, ipWords), es);
  }

  /** In particular D and F obey their configured constraint in every reachable state. */
  lemma ReachableDF(c: Config, ipWords: nat, es: seq<Event>)
    requires ValidConfig(c) && ipWords > 0 && Feasible(c, PowerOn(c, ipWords), es) && {'D', 'F'} <= c.arch
    ensures var misa := After(c, PowerOn(c, ipWords), es).misa;
            && ({'D', 'F'} <= c.archMask && c.dRequiresF ==> ('D' in misa ==> 'F' in misa))
            && (('D' in c.archMask) != ('F' in c.archMask) ==> ('D' in misa <==> 'F' in misa))
  {
    EveryReachableStateOK(c, ipWords, es);
  }

  // ---------------------------------------------------------------- what cannot be delegated

  /** Only codes that the delegation masks allow are delegated. */
  predicate Delegable(c: Config, d: Delegation) {
    d.mideleg <= MidelegMask(c) && d.medeleg <= MedelegMask(c)
  }

  lemma InstructionKeepsDelegation(c: Config, h: Hart, i: Instruction)
    requires IrqOK(h.irq) && CanExecute(c, h, i)
    ensures StepInstruction(c, h, i).deleg == h.deleg
  {
  }

  lemma AccessKeepsDelegable(c: Config, h: Hart, a: Access)
    requires IrqOK(h.irq) && CanAccess(c, a) && Delegable(c, h.deleg)
    ensures Delegable(c, StepAccess(c, h, a).deleg)
  {
  }

  lemma SignalKeepsDelegation(c: Config, h: Hart, s: Signal)
    requires IrqOK(h.irq) && CanSignal(c, h, s)
    ensures StepSignal(c, h, s).deleg == h.deleg
  {
  }

  lemma {:induction false} RunKeepsDelegable(c: Config, h: Hart, es: seq<Event>)
    requires Feasible(c, h, es) && Delegable(c, h.deleg)
    ensures Delegable(c, After(c, h, es).deleg)
    decreases |es|
  {
    if es != [] {
      match es[0] {
        case Execute(i) => InstructionKeepsDelegation(c, h, i);
        case Csr(a) => AccessKeepsDelegable(c, h, a);
        case Float(f) =>
        case External(s) => SignalKeepsDelegation(c, h, s);
      }
      RunKeepsDelegable(c, Step(c, h, es[0]), es[1..]);
    }
  }

  /**
   So, whatever software writes to the delegation registers, Machine interrupts, local
   interrupts and ECALL from Machine mode are taken in Machine mode.
   */
  lemma MachineCodesStayInMachine(c: Config, ipWords: nat, es: seq<Event>, e: nat)
    requires ipWords > 0 && Feasible(c, PowerOn(c, ipWords), es) && e < 32
    ensures var h := After(c, PowerOn(c, ipWords), es);
            && (e in {3, 7, 11} || e in LocalIntMask(c) ==> TargetMode(h, true, e) == MACHINE)
            && (e == 11 ==> TargetMode(h, false, e) == MACHINE)
  {
    assert PowerOn(c, ipWords).deleg == Zeroed(c, ipWords).deleg;
    RunKeepsDelegable(c, PowerOn(c, ipWords), es);
  }
}
