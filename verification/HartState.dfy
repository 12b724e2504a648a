/**
 Configuration and state of one hart (source/riscvStructure.h), with the register
 layouts of source/riscvCSR.h that the operations depend on.
 */
module HartState {
  import opened Words

  // ---------------------------------------------------------------- modes

  type Mode = m: nat | m <= 3

  const USER: Mode := 0
  const SUPERVISOR: Mode := 1
  const MACHINE: Mode := 3

  // ---------------------------------------------------------------- mstatus layout

  // xIE is bit x and xPIE is bit x+4 of mstatus, for x the mode number
  const PIE: nat := 4
  const SPP: nat := 8
  const VS_9: nat := 9
  const MPP: nat := 11
  const FS: nat := 13
  const XS: nat := 15
  const MPRV: nat := 17
  const VS_8: nat := 23
  const UXL: nat := 32
  const SXL: nat := 34

  const DIRTY: nat := 3

  /** `sstatus_AMASK`, 0x80000003818de133 */
  const SSTATUS_AMASK: Bits := {0, 1, 4, 5, 8, 13, 14, 15, 16, 18, 19, 23, 24, 31, 32, 33, 63}

  /** `ustatus_AMASK`, 0x11 */
  const USTATUS_AMASK: Bits := {0, 4}

  /** `WM32_mip`, 0x333; `WM32_sip`, 0x103; `WM32_uip`, 0x1 */
  const WM32_MIP: Bits := {0, 1, 4, 5, 8, 9}
  const WM32_SIP: Bits := {0, 1, 8}
  const WM32_UIP: Bits := {0}

  /** The Machine, Supervisor and User names of one underlying register. */
  datatype View = MView | SView | UView

  // pseudo-features of currentArch, named by the characters that follow 'Z'
  const XLEN32_CHAR: char := '['
  const XLEN64_CHAR: char := '\\'
  const RM_INVALID_CHAR: char := ']'
  const MSTATUS_FS_CHAR: char := '_'

  /** `RISCV_NO_TAG`, -1 as Uns64 */
  const NO_TAG: nat := TWO64 - 1

  // ---------------------------------------------------------------- configuration

  /** Location of mstatus.VS, by vector extension version: absent before 0.8. */
  datatype VectorStatus = NoVS | VS8 | VS9

  /** Privileged architecture versions, in order. */
  datatype PrivVersion = Priv1_10 | Priv1_11 | Priv20190405 | Priv1_12

  /** mstatus_fs_mode */
  datatype FSMode = WriteNZ | WriteAny | AlwaysDirty

  datatype Config = Config(
    arch: set<char>,            // implemented features
    archMask: set<char>,        // features writable in misa
    xlen64: bool,
    localInts: nat,             // local_int_num
    unimpInts: Bits,            // unimp_int_mask
    noIdeleg: Bits,
    noEdeleg: Bits,
    resetFS: nat,               // mstatus_FS
    resetAddress: nat,
    nmiAddress: nat,
    mtvec: nat,                 // initial mtvec
    tvecAlign: nat,             // tvec_align
    customVectored: set<Mode>,  // modes with a custom vectored interrupt mode
    dRequiresF: bool,           // d_requires_f
    priv: PrivVersion,          // priv_version
    debugHalts: bool,           // debug_mode is not RVDM_INTERRUPT
    xretPreservesLR: bool,
    fsMode: FSMode,
    vs: VectorStatus,
    fp16: bool,                 // fp16_version: is there a 16-bit floating point format?
    elen: nat,                  // ELEN
    sewMin: nat                 // SEW_min
  )

  /** Is there an element width for which floating point vector instructions exist?  (validateFPArgWidth) */
  predicate VectorFp(c: Config) {
    || (c.fp16 && c.sewMin <= 16 <= c.elen)
    || ('F' in c.arch && c.sewMin <= 32 <= c.elen)
    || ('D' in c.arch && c.sewMin <= 64 <= c.elen)
  }

  /** riscvHasMode */
  predicate HasMode(c: Config, m: Mode) {
    match m
    case 0 => 'U' in c.arch
    case 1 => 'S' in c.arch
    case 3 => true
    case _ => false
  }

  /** riscvGetMinMode */
  function MinMode(c: Config): (m: Mode)
    ensures HasMode(c, m)
    ensures forall n: Mode :: HasMode(c, n) ==> m <= n
  {
    if 'U' in c.arch then USER else if 'S' in c.arch then SUPERVISOR else MACHINE
  }

  /** Interrupts described by the standard exception table that this variant implements. */
  function StandardInterrupts(c: Config): Bits {
    {3, 7, 11} + (if 'S' in c.arch then {1, 5, 9} else {}) + (if 'N' in c.arch then {0, 4, 8} else {})
  }

  /** riscvGetLocalIntMask */
  function LocalIntMask(c: Config): Bits {
    Range(16, 16 + (if c.localInts < 48 then c.localInts else 48))
  }

  /** riscv->interruptMask and riscv->exceptionMask (riscvSetExceptionMask) */
  function InterruptMask(c: Config): Bits {
    StandardInterrupts(c) + LocalIntMask(c) - c.unimpInts
  }

  function ExceptionMask(c: Config): Bits {
    {0, 1, 2, 3, 4, 5, 6, 7, 11, 12, 13, 15}
    + (if 'U' in c.arch then {8} else {}) + (if 'S' in c.arch then {9} else {})
  }

  // write masks of the delegation registers (riscvCSRInit)
  function MidelegMask(c: Config): (r: Bits)
    ensures forall k: nat :: k in r ==> k < 32
  {
    Low32(InterruptMask(c) - {3, 7, 11} - LocalIntMask(c) - c.noIdeleg)
  }

  function SidelegMask(c: Config): Bits {
    MidelegMask(c) - {1, 5, 9} - {2, 6, 10}
  }

  function MedelegMask(c: Config): (r: Bits)
    ensures forall k: nat :: k in r ==> k < 32
  {
    ExceptionMask(c) - {11} - c.noEdeleg
  }

  function SedelegMask(c: Config): Bits {
    MedelegMask(c) - {9, 10}
  }

  /** Is mstatus.FS writable? */
  predicate FSWritable(c: Config) {
    'D' in c.arch || 'F' in c.arch || ('V' in c.arch && c.vs == VS8)
  }

  /** Is bit k of mstatus writable?  (riscvCSRInit) */
  predicate StatusBitWritable(c: Config, k: nat) {
    if k in {3, 7} then true
    else if k in {11, 12} then 'U' in c.arch || 'S' in c.arch
    else if k in {1, 5, 18, 19, 20, 22} then 'S' in c.arch
    else if k == 21 then 'S' in c.arch || ('U' in c.arch && c.priv != Priv1_10)
    else if k == SPP then 'S' in c.arch && 'U' in c.arch
    else if k == MPRV then 'U' in c.arch
    else if k in {0, 4} then 'N' in c.arch
    else if k in {FS, FS + 1} then FSWritable(c)
    else if k in {VS_8, VS_8 + 1} then 'V' in c.arch && c.vs == VS8
    else if k in {VS_9, VS_9 + 1} then 'V' in c.arch && c.vs == VS9
    else if k == 6 then c.priv == Priv1_12 && 'U' in c.arch
    else if k == 36 then c.priv == Priv1_12 && c.xlen64 && 'S' in c.arch
    else k == 37 && c.priv == Priv1_12 && c.xlen64
  }

  function StatusMask(c: Config): Bits {
    set k: nat | k < 38 && StatusBitWritable(c, k)
  }

  /** Reset value of mstatus (riscvCSRInitialReset): FS from the parameters, xPP the least mode. */
  function ResetStatus(c: Config): (w: Bits)
    ensures Field2(w, MPP) == MinMode(c)
    ensures SPP in w <==> 'S' in c.arch && MinMode(c) == SUPERVISOR
    ensures c.resetFS <= 3 ==> Field2(w, FS) == c.resetFS
    ensures w !! {0, 1, 3, 4, 5, 7}
  {
    var mxl := if c.xlen64 then 2 else 1;
    var w := PutField2(PutField2({}, FS, c.resetFS), MPP, MinMode(c));
    var w := Put(w, SPP, 'S' in c.arch && MinMode(c) == SUPERVISOR);
    var w := if 'U' in c.arch then PutField2(w, UXL, mxl) else w;
    if 'S' in c.arch then PutField2(w, SXL, mxl) else w
  }

  /** What the rest of the source relies on configuration to provide (see `Configuration`). */
  predicate ValidConfig(c: Config) {
    && ('I' in c.arch <==> 'E' !in c.arch)
    && c.archMask <= c.arch - {'E'}
    && (forall f :: f in c.arch ==> 'A' <= f <= 'Z')
    && c.resetFS <= 3
    && c.resetAddress % 4 == 0 && c.nmiAddress % 4 == 0
  }

  // ---------------------------------------------------------------- state

  datatype Cause = Cause(interrupt: bool, code: nat)

  datatype Tvec = Tvec(base: nat, vectored: bool)

  /** xepc, xcause, xtval and xtvec of one target mode. */
  datatype TrapRegs = TrapRegs(epc: nat, cause: Cause, tval: nat, tvec: Tvec)

  datatype Delegation = Delegation(mideleg: Bits, sideleg: Bits, medeleg: Bits, sedeleg: Bits)

  /** Interrupt enables, software pending bits, pin levels and the mip cache. */
  datatype Irq = Irq(mie: Bits, mip: Bits, swip: Bits, ip: seq<Bits>)

  datatype Dcsr = Dcsr(prv: Mode, step: bool, nmip: bool, cause: nat, stopcount: bool,
                       ebreakm: bool, ebreaks: bool, ebreaku: bool)

  datatype Debug = Debug(dm: bool, stall: bool, dcsr: Dcsr, dpc: nat)

  datatype Reason = WFI | RESET | DEBUG

  /** riscv->disable, and whether the simulator has halted the processor. */
  datatype Activity = Activity(disable: set<Reason>, halted: bool)

  datatype FpFlag = NX | UF | OF | DZ | NV

  /** The two halves of the accrued flags (CSR and JIT), for floating and fixed point, and fcsr.frm. */
  datatype Fp = Fp(flagsCSR: set<FpFlag>, flagsMT: set<FpFlag>, satCSR: bool, satMT: bool, frm: nat)

  datatype Nets = Nets(reset: bool, nmi: bool, haltreq: bool, resethaltreq: bool, resethaltreqS: bool)

  datatype Hart = Hart(
    mode: Mode,
    pc: nat,
    status: Bits,       // mstatus
    misa: set<char>,    // misa.Extensions
    arch: set<char>,    // currentArch
    u: TrapRegs, s: TrapRegs, m: TrapRegs,
    deleg: Delegation,
    irq: Irq,
    debug: Debug,
    activity: Activity,
    fp: Fp,
    tag: nat,           // exclusiveTag
    extInt: seq<nat>,   // external interrupt code override, per mode
    nets: Nets
  )

  /** The trap registers of target mode `x`; anything but U and S is M, as in the source. */
  function Regs(h: Hart, x: Mode): TrapRegs {
    if x == USER then h.u else if x == SUPERVISOR then h.s else h.m
  }

  function WithRegs(h: Hart, x: Mode, r: TrapRegs): Hart {
    if x == USER then h.(u := r) else if x == SUPERVISOR then h.(s := r) else h.(m := r)
  }
}
