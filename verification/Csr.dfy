/**
 Control and status register accesses (source/riscvCSR.c) and the derived currentArch
 (source/riscvUtils.c), as functions from state to state.
 */
module Csr {
  import opened Words
  import opened HartState
  import opened Traps

  // ---------------------------------------------------------------- current architecture

  /** Does a zero mstatus.VS disable the vector extension? */
  predicate VectorOff(c: Config, w: Bits) {
    (c.vs == VS8 && Field2(w, VS_8) == 0) || (c.vs == VS9 && Field2(w, VS_9) == 0)
  }

  function XlenChar(c: Config): char {
    if c.xlen64 then XLEN64_CHAR else XLEN32_CHAR
  }

  /** Features enabled by misa and mstatus, without the rounding-mode indication. */
  function Features(c: Config, misa: set<char>, w: Bits): set<char> {
    var off := (if Field2(w, FS) == 0 then {'D', 'F'} else {}) + (if VectorOff(c, w) then {'V'} else {});
    (misa - off) + {XlenChar(c)} + (if Field2(w, FS) == 0 then {} else {MSTATUS_FS_CHAR})
  }

  /** What currentArch is meant to be: a function of misa, mstatus and frm. */
  function ArchOf(c: Config, misa: set<char>, w: Bits, frm: nat): set<char> {
    Features(c, misa, w) + (if frm >= 5 then {RM_INVALID_CHAR} else {})
  }

  /** riscvSetCurrentArch: keeps the rounding-mode indication it finds. */
  function SetCurrentArch(c: Config, h: Hart): (h': Hart)
    ensures h' == h.(arch := h'.arch)
    ensures 'C' in h'.arch <==> 'C' in h.misa
  {
    h.(arch := (h.arch * {RM_INVALID_CHAR}) + Features(c, h.misa, h.status))
  }

  // ---------------------------------------------------------------- misa

  /** The constraint between D and F enforced by misaW, given the writable features. */
  function LegalDF(c: Config, v: set<char>): set<char> {
    if !({'D', 'F'} <= c.arch) then v
    else if {'D', 'F'} <= c.archMask then (if c.dRequiresF && 'F' !in v then v - {'D'} else v)
    else if 'D' in c.archMask then (if 'D' in v then v + {'F'} else v - {'F'})
    else if 'F' in c.archMask then (if 'F' in v then v + {'D'} else v - {'D'})
    else v
  }

  /** The features that a write of misa leaves enabled. */
  function LegalMisa(c: Config, misa: set<char>, pc: nat, value: set<char>): set<char> {
    var v := (value * c.archMask) + (misa - c.archMask);
    var v := if 'C' in misa && 'C' !in v && pc % 4 != 0 then misa else v;
    var v := if 'I' in v then v - {'E'} else v + {'E'};
    LegalDF(c, v)
  }

  /** misaW */
  function MisaW(c: Config, h: Hart, value: set<char>): Hart {
    SetCurrentArch(c, h.(misa := LegalMisa(c, h.misa, h.pc, value)))
  }

  // ---------------------------------------------------------------- floating point

  /** Are there JIT flags whose consolidation marks mstatus.FS dirty? */
  predicate PendingFlags(c: Config, fp: Fp) {
    fp.flagsMT != {} || (fp.satMT && c.vs == VS8)
  }

  /** consolidateFPFlags */
  function Consolidate(c: Config, h: Hart): (h': Hart)
    ensures h' == h.(fp := h'.fp, status := h'.status)
  {
    h.(fp := h.fp.(flagsCSR := h.fp.flagsCSR + h.fp.flagsMT, flagsMT := {},
                   satCSR := h.fp.satCSR || h.fp.satMT, satMT := false),
       status := if PendingFlags(c, h.fp) then PutField2(h.status, FS, DIRTY) else h.status)
  }

  /** updateFS, run by code that writes floating point state. */
  function UpdateFS(c: Config, h: Hart): (h': Hart)
    ensures h' == h.(status := h'.status)
  {
    if c.fsMode == AlwaysDirty then h else h.(status := PutField2(h.status, FS, DIRTY))
  }

  /** An instruction that accrues floating point flags (riscvGetFPFlagsMT). */
  function FpOperation(c: Config, h: Hart, flags: set<FpFlag>): Hart {
    var h := if c.fsMode == WriteAny then UpdateFS(c, h) else h;
    h.(fp := h.fp.(flagsMT := h.fp.flagsMT + flags))
  }

  /** An instruction that saturates (updateVXSat): vxsat belongs to FS in version 0.8 only. */
  function Saturate(c: Config, h: Hart, sat: bool): Hart {
    var h := if c.fsMode == WriteAny && c.vs == VS8 then UpdateFS(c, h) else h;
    h.(fp := h.fp.(satMT := h.fp.satMT || sat))
  }

  /** getFPFlags: the value seen in fflags and fcsr. */
  function AccruedFlags(h: Hart): set<FpFlag> {
    h.fp.flagsCSR + h.fp.flagsMT
  }

  /** The fields of fcsr; in version 0.9 and later vxsat is not among them and reads as 0. */
  datatype Fcsr = Fcsr(flags: set<FpFlag>, frm: nat, sat: bool)

  /** fcsrR */
  function FcsrR(c: Config, h: Hart): Fcsr {
    Fcsr(AccruedFlags(h), h.fp.frm, VxFieldsInFcsr(c) && (h.fp.satCSR || h.fp.satMT))
  }

  /** setFPFlags */
  function SetFlags(h: Hart, flags: set<FpFlag>): Hart {
    h.(fp := h.fp.(flagsCSR := flags, flagsMT := {}))
  }

  /** setFPRoundingMode and updateCurrentRMValid */
  function SetRounding(h: Hart, oldRM: nat, newRM: nat): (h': Hart)
    ensures h' == h.(fp := h'.fp, arch := h'.arch)
    ensures h'.arch - {RM_INVALID_CHAR} == h.arch - {RM_INVALID_CHAR}
  {
    if oldRM == newRM then h
    else h.(fp := h.fp.(frm := newRM),
            arch := if newRM >= 5 then h.arch + {RM_INVALID_CHAR} else h.arch - {RM_INVALID_CHAR})
  }

  /** Are vxsat and vxrm visible in fcsr?  (vxFieldsInFCSR) */
  predicate VxFieldsInFcsr(c: Config) {
    c.vs != VS9
  }

  /** setSatFlags */
  function SetSat(h: Hart, sat: bool): Hart {
    h.(fp := h.fp.(satCSR := sat, satMT := false))
  }

  /** The location of mstatus.VS read and written by getStatusVS and setStatusVS. */
  function VSField(c: Config): nat {
    if c.vs == VS8 then VS_8 else VS_9
  }

  /** updateVS, run by code that writes vector state. */
  function UpdateVS(c: Config, h: Hart): (h': Hart)
    ensures h' == h.(status := h'.status)
  {
    if c.fsMode == AlwaysDirty || c.vs == NoVS then h else h.(status := PutField2(h.status, VSField(c), DIRTY))
  }

  /** The dirty-state update of an instruction that writes vxsat or vxrm (riscvWFSVS). */
  function MarkVx(c: Config, h: Hart): (h': Hart)
    ensures h' == h.(status := h'.status)
  {
    match c.vs
    case VS9 => UpdateVS(c, h)
    case VS8 => UpdateFS(c, h)
    case NoVS => h
  }

  /** The dirty-state update of an instruction that writes vcsr (riscvWVCSR). */
  function MarkVcsr(c: Config, h: Hart): (h': Hart)
    ensures h' == h.(status := h'.status)
  {
    if MSTATUS_FS_CHAR in h.arch then UpdateFS(c, UpdateVS(c, h)) else UpdateVS(c, h)
  }

  /** fcsrW: the floating point fields exist only with D or F, vxsat only with V. */
  function SetFcsr(c: Config, h: Hart, flags: set<FpFlag>, frm: nat, sat: bool): (h': Hart)
    ensures h' == h.(fp := h'.fp, arch := h'.arch)
    ensures h'.arch - {RM_INVALID_CHAR} == h.arch - {RM_INVALID_CHAR}
  {
    var fpu := 'D' in c.arch || 'F' in c.arch;
    var h' := SetFlags(h, if fpu then flags else {});
    var h' := SetRounding(h', h.fp.frm, if fpu then frm % 8 else 0);
    if VxFieldsInFcsr(c) then SetSat(h', sat && 'V' in c.arch) else h'
  }

  /** fcsrW followed by the FS update of its instruction. */
  function FcsrW(c: Config, h: Hart, flags: set<FpFlag>, frm: nat, sat: bool): Hart {
    UpdateFS(c, SetFcsr(c, h, flags, frm, sat))
  }

  /** A write of a floating or fixed point register.  The value of vxrm is not modelled. */
  datatype FpWrite =
    | ToFflags(flags: set<FpFlag>) | ToFrm(frm: nat) | ToFcsr(flags: set<FpFlag>, frm: nat, sat: bool)
    | ToVxsat(sat: bool) | ToVxrm | ToVcsr(sat: bool)

  /** fflagsW, frmW, fcsrW, vxsatW, vxrmW and vcsrW */
  function SetFp(c: Config, h: Hart, w: FpWrite): (h': Hart)
    ensures h' == h.(fp := h'.fp, arch := h'.arch)
    ensures h'.arch - {RM_INVALID_CHAR} == h.arch - {RM_INVALID_CHAR}
  {
    match w
    case ToFflags(flags) => SetFlags(h, flags)
    case ToFrm(frm) => SetRounding(h, h.fp.frm, frm % 8)
    case ToFcsr(flags, frm, sat) => SetFcsr(c, h, flags, frm, sat)
    case ToVxsat(sat) => SetSat(h, sat)
    case ToVxrm => h
    case ToVcsr(sat) => SetSat(h, sat)
  }

  /** The dirty-state update of the instruction that makes the write (riscvWFS, riscvWFSVS, riscvWVCSR). */
  function MarkFp(c: Config, h: Hart, w: FpWrite): (h': Hart)
    ensures h' == h.(status := h'.status)
  {
    match w
    case ToVxsat(_) => MarkVx(c, h)
    case ToVxrm => MarkVx(c, h)
    case ToVcsr(_) => MarkVcsr(c, h)
    case _ => UpdateFS(c, h)
  }

  // ---------------------------------------------------------------- status

  /** statusR: the state it leaves; the value read is the new mstatus. */
  function StatusR(c: Config, h: Hart): Hart {
    var h := Consolidate(c, h);
    var w := h.status;
    var w := if c.fsMode == AlwaysDirty && Field2(w, FS) != 0 then PutField2(w, FS, DIRTY) else w;
    var w := if c.fsMode == AlwaysDirty && Field2(w, VSField(c)) != 0 then PutField2(w, VSField(c), DIRTY) else w;
    var sd := Field2(w, FS) == DIRTY || Field2(w, VSField(c)) == DIRTY || Field2(w, XS) == DIRTY;
    h.(status := Put(Put(Put(w, 31, false), 63, false), if c.xlen64 then 63 else 31, sd))
  }

  /** The masked write of mstatus, which keeps the old MPP if the new one is not implemented. */
  function LegalStatus(c: Config, w: Bits, value: Bits, mask: Bits): Bits {
    var v := Merge(w, value, mask);
    if HasMode(c, Field2(v, MPP)) then v else PutField2(v, MPP, Field2(w, MPP))
  }

  /** statusW */
  function StatusW(c: Config, h: Hart, value: Bits, mask: Bits): (h': Hart)
    ensures h' == h.(fp := h'.fp, status := h'.status, arch := h'.arch, activity := h'.activity)
  {
    var h := Consolidate(c, h);
    var w := LegalStatus(c, h.status, value, mask);
    var h' := SetCurrentArch(c, h.(status := w));
    if (w - h.status) * {0, 1, 2, 3} != {} then TestInterrupt(h') else h'
  }

  /** Write mask of mstatus, sstatus or ustatus. */
  function StatusViewMask(c: Config, view: View): Bits {
    match view
    case MView => StatusMask(c)
    case SView => StatusMask(c) * SSTATUS_AMASK
    case UView => StatusMask(c) * USTATUS_AMASK
  }

  /** mstatusW, sstatusW and ustatusW */
  function StatusViewW(c: Config, h: Hart, view: View, value: Bits): Hart {
    StatusW(c, h, value, StatusViewMask(c, view))
  }

  // ---------------------------------------------------------------- interrupt registers

  /** Interrupts visible in Supervisor and User mode (getSIRMask, getUIRMask). */
  function SIRMask(h: Hart): Bits {
    Low32(h.deleg.mideleg)
  }

  function UIRMask(h: Hart): Bits {
    Low32(h.deleg.mideleg * h.deleg.sideleg)
  }

  /** ipR: the value seen by a read, or by the read half of a read-modify-write. */
  function IpR(h: Hart, rMask: Bits, isWrite: bool): Bits {
    (if isWrite then h.irq.swip else h.irq.mip) * rMask
  }

  /** ipW */
  function IpW(c: Config, h: Hart, value: Bits, rMask: Bits): (h': Hart)
    requires |h.irq.ip| > 0
    ensures h' == h.(irq := h'.irq, activity := h'.activity)
  {
    var swip := Merge(h.irq.swip, value, Low32(InterruptMask(c)) * rMask);
    if swip == h.irq.swip then h else UpdatePending(h.(irq := h.irq.(swip := swip)))
  }

  /** ieW */
  function IeW(c: Config, h: Hart, value: Bits, rMask: Bits): (h': Hart)
    ensures h' == h.(irq := h'.irq, activity := h'.activity)
  {
    var old32 := Low32(h.irq.mie);
    var mie := Merge(old32, Low32(value), Low32(InterruptMask(c)) * rMask);
    var h := h.(irq := h.irq.(mie := mie));
    if mie != old32 then TestInterrupt(h) else h
  }

  /** Interrupts visible in mie, sie or uie. */
  function IeViewMask(h: Hart, view: View): Bits {
    match view
    case MView => Range(0, 32)
    case SView => SIRMask(h)
    case UView => UIRMask(h)
  }

  /** Software-writable interrupts of mip, sip or uip. */
  function IpViewMask(h: Hart, view: View): Bits {
    match view
    case MView => WM32_MIP
    case SView => SIRMask(h) * WM32_SIP
    case UView => UIRMask(h) * WM32_UIP
  }

  /** mieW, sieW and uieW */
  function IeViewW(c: Config, h: Hart, view: View, value: Bits): Hart {
    IeW(c, h, value, IeViewMask(h, view))
  }

  /** mipW, sipW and uipW */
  function IpViewW(c: Config, h: Hart, view: View, value: Bits): Hart
    requires |h.irq.ip| > 0
  {
    IpW(c, h, value, IpViewMask(h, view))
  }

  /** midelegW and sidelegW; medeleg and sedeleg are plain masked registers. */
  function MidelegW(c: Config, h: Hart, value: Bits): (h': Hart)
    ensures h' == h.(deleg := h'.deleg, activity := h'.activity)
  {
    var v := Merge(Low32(h.deleg.mideleg), value, MidelegMask(c));
    var g := h.(deleg := h.deleg.(mideleg := v));
    if v != Low32(h.deleg.mideleg) then TestInterrupt(g) else g
  }

  function SidelegW(c: Config, h: Hart, value: Bits): (h': Hart)
    ensures h' == h.(deleg := h'.deleg, activity := h'.activity)
  {
    var v := Merge(Low32(h.deleg.sideleg), value, SidelegMask(c));
    var g := h.(deleg := h.deleg.(sideleg := v));
    if v != Low32(h.deleg.sideleg) then TestInterrupt(g) else g
  }

  function MedelegW(c: Config, h: Hart, value: Bits): (h': Hart)
    ensures h' == h.(deleg := h'.deleg, activity := h'.activity)
  {
    h.(deleg := h.deleg.(medeleg := Merge(h.deleg.medeleg, value, MedelegMask(c))))
  }

  function SedelegW(c: Config, h: Hart, value: Bits): (h': Hart)
    ensures h' == h.(deleg := h'.deleg, activity := h'.activity)
  {
    h.(deleg := h.deleg.(sedeleg := Merge(h.deleg.sedeleg, value, SedelegMask(c))))
  }

  // ---------------------------------------------------------------- trap vectors and epc

  /** The extra alignment that tvecW applies to vectored addresses. */
  function TvecBase(c: Config, address: nat, vectored: bool): nat {
    if vectored && c.tvecAlign > 0 then address - address % c.tvecAlign else address
  }

  /** tvecW without CLIC: a word address and a vectored bit. */
  function TvecW(c: Config, h: Hart, x: Mode, address: nat, vectored: bool): (h': Hart)
    ensures h' == h.(u := h'.u, s := h'.s, m := h'.m)
  {
    WithRegs(h, x, Regs(h, x).(tvec := Tvec(Align4(TvecBase(c, address, vectored)), vectored)))
  }

  /** Write of xepc through its mask. */
  function EpcW(c: Config, h: Hart, x: Mode, address: nat): (h': Hart)
    ensures h' == h.(u := h'.u, s := h'.s, m := h'.m)
  {
    WithRegs(h, x, Regs(h, x).(epc := EpcMasked(c, address)))
  }

  // ---------------------------------------------------------------- dcsr and reset

  /** dcsrW through the dcsr mask; only the debugger's (artifact) writes reach `cause` and `nmip`. */
  function DcsrW(c: Config, h: Hart, v: Dcsr, artifact: bool): Hart {
    h.(debug := h.debug.(dcsr := v.(cause := if artifact then v.cause else h.debug.dcsr.cause,
                                    nmip := if artifact then v.nmip else h.debug.dcsr.nmip,
                                    ebreaks := v.ebreaks && 'S' in c.arch,
                                    ebreaku := v.ebreaku && 'U' in c.arch)))
  }

  /** riscvCSRReset; mie, mip and the delegation registers keep their values. */
  function CsrReset(c: Config, h: Hart): Hart {
    var h := SetCurrentArch(c, h.(misa := c.arch, status := ResetStatus(c), m := h.m.(cause := Cause(false, 0))));
    h.(tag := NO_TAG,
       debug := h.debug.(dcsr := Dcsr(MACHINE, false, false, 0, false, false, false, false)))
  }

  /** riscvReset */
  function Reset(c: Config, h: Hart): Hart {
    var h := SetDM(c, Restart(h, {WFI, RESET}), false);
    var h := CsrReset(c, h.(mode := MACHINE));
    h.(pc := c.resetAddress, nets := h.nets.(resethaltreqS := h.nets.resethaltreq))
  }

  /** resetPortCB */
  function ResetPin(c: Config, h: Hart, level: bool): Hart {
    var h' := if !h.nets.reset && level then Halt(h, RESET)
              else if h.nets.reset && !level then Reset(c, h)
              else h;
    h'.(nets := h'.nets.(reset := level))
  }
}
