/**
 What register accesses do, bit by bit (source/riscvCSR.c): which bits can be written, what
 a write leaves in every bit, and what a read returns.
 */
module RegisterEffects {
  import opened Words
  import opened HartState
  import opened Traps
  import opened Csr

  // ---------------------------------------------------------------- write masks

  /** The interrupts that exist: standard ones of implemented modes and local ones, but for exclusions. */
  lemma InterruptMaskBits(c: Config, k: nat)
    ensures k in InterruptMask(c) <==>
            k !in c.unimpInts &&
            (k in {3, 7, 11} || ('S' in c.arch && k in {1, 5, 9}) || ('N' in c.arch && k in {0, 4, 8})
             || (16 <= k < 64 && k - 16 < c.localInts))
  {
  }

  /** So exactly the Supervisor and User interrupts can be delegated, and User ones twice. */
  lemma IdelegMaskBits(c: Config, k: nat)
    ensures k in MidelegMask(c) <==>
            k !in c.unimpInts && k !in c.noIdeleg &&
            (('S' in c.arch && k in {1, 5, 9}) || ('N' in c.arch && k in {0, 4, 8}))
    ensures k in SidelegMask(c) <==> k !in c.unimpInts && k !in c.noIdeleg && 'N' in c.arch && k in {0, 4, 8}
  {
    InterruptMaskBits(c, k);
  }

  /** Exceptions can be delegated but for ECALL from Machine mode; from S to U but for ECALL from S. */
  lemma EdelegMaskBits(c: Config, k: nat)
    ensures k in MedelegMask(c) <==>
            && k !in c.noEdeleg
            && (k in {0, 1, 2, 3, 4, 5, 6, 7, 12, 13, 15} || ('U' in c.arch && k == 8) || ('S' in c.arch && k == 9))
    ensures k in SedelegMask(c) <==>
            k !in c.noEdeleg && (k in {0, 1, 2, 3, 4, 5, 6, 7, 12, 13, 15} || ('U' in c.arch && k == 8))
  {
  }

  /** MIE and MPIE are always writable; fields of a mode or extension exactly if it is implemented. */
  lemma StatusMaskBits(c: Config)
    ensures {3, 7} <= StatusMask(c)
    ensures if 'S' in c.arch then {1, 5, 18, 19, 20, 21, 22} <= StatusMask(c) else {1, 5, 8, 18, 19, 20, 22, 36} !! StatusMask(c)
    ensures if 'U' in c.arch then 17 in StatusMask(c) else {6, 8, 17} !! StatusMask(c)
    ensures if 'U' in c.arch || 'S' in c.arch then {11, 12} <= StatusMask(c) else {11, 12, 21} !! StatusMask(c)
  {
  }

  lemma SharedStatusMaskBits(c: Config)
    ensures if 'N' in c.arch then {0, 4} <= StatusMask(c) else {0, 4} !! StatusMask(c)
    ensures 8 in StatusMask(c) <==> 'S' in c.arch && 'U' in c.arch
    ensures 21 in StatusMask(c) <==> 'S' in c.arch || ('U' in c.arch && c.priv != Priv1_10)
    ensures {2, 15, 16, 31, 32, 33, 34, 35, 63} !! StatusMask(c)
  {
  }

  /** FS is writable with D or F, or with vectors 0.8; VS at its place in the versions that have it. */
  lemma ExtensionMaskBits(c: Config)
    ensures if 'D' in c.arch || 'F' in c.arch || ('V' in c.arch && c.vs == VS8)
            then {13, 14} <= StatusMask(c) else {13, 14} !! StatusMask(c)
    ensures if 'V' in c.arch && c.vs == VS8 then {23, 24} <= StatusMask(c) else {23, 24} !! StatusMask(c)
    ensures if 'V' in c.arch && c.vs == VS9 then {9, 10} <= StatusMask(c) else {9, 10} !! StatusMask(c)
    ensures 6 in StatusMask(c) <==> c.priv == Priv1_12 && 'U' in c.arch
    ensures 36 in StatusMask(c) <==> c.priv == Priv1_12 && c.xlen64 && 'S' in c.arch
    ensures 37 in StatusMask(c) <==> c.priv == Priv1_12 && c.xlen64
  {
  }

  /** The bits that reset sets in mstatus. */
  lemma ResetStatusBits(c: Config, k: nat)
    requires c.resetFS <= 3
    ensures k in ResetStatus(c) <==>
            || (k == 13 && c.resetFS in {1, 3}) || (k == 14 && c.resetFS in {2, 3})
            || (k in {11, 12} && 'U' !in c.arch && 'S' !in c.arch)
            || (k in {8, 11} && 'U' !in c.arch && 'S' in c.arch)
            || (k == (if c.xlen64 then 33 else 32) && 'U' in c.arch)
            || (k == (if c.xlen64 then 35 else 34) && 'S' in c.arch)
  {
  }

  /** What the Supervisor and User names of the interrupt registers reach. */
  lemma ViewMaskBits(h: Hart, k: nat)
    ensures k in IeViewMask(h, MView) <==> k < 32
    ensures k in IeViewMask(h, SView) <==> k < 32 && k in h.deleg.mideleg
    ensures k in IeViewMask(h, UView) <==> k < 32 && k in h.deleg.mideleg && k in h.deleg.sideleg
    ensures k in IpViewMask(h, MView) <==> k in {0, 1, 4, 5, 8, 9}
    ensures k in IpViewMask(h, SView) <==> k in {0, 1, 8} && k in h.deleg.mideleg
    ensures k in IpViewMask(h, UView) <==> k == 0 && k in h.deleg.mideleg && k in h.deleg.sideleg
  {
  }

  // ---------------------------------------------------------------- interrupt registers

  /** A write of mie, sie or uie: the visible existing interrupts take the value, the others stay. */
  lemma IeEffect(c: Config, h: Hart, view: View, value: Bits, k: nat)
    requires k < 32
    ensures var h' := IeViewW(c, h, view, value);
            && (k in h'.irq.mie <==> if k in InterruptMask(c) && k in IeViewMask(h, view) then k in value else k in h.irq.mie)
            && h'.irq == h.irq.(mie := h'.irq.mie)
  {
  }

  /** A write of mip, sip or uip: the same of the software bits; pins stay and mip follows. */
  lemma IpEffect(c: Config, h: Hart, view: View, value: Bits, k: nat)
    requires |h.irq.ip| > 0 && h.irq.mip == h.irq.ip[0] + h.irq.swip
    ensures var h' := IpViewW(c, h, view, value);
            && (k in h'.irq.swip <==>
                if k < 32 && k in InterruptMask(c) && k in IpViewMask(h, view) then k in value else k in h.irq.swip)
            && h'.irq == h.irq.(swip := h'.irq.swip, mip := h.irq.ip[0] + h'.irq.swip)
  {
  }

  /** A read sees pins and software bits; the read half of a read-modify-write software bits alone. */
  lemma IpReads(h: Hart, rMask: Bits, k: nat)
    requires |h.irq.ip| > 0 && h.irq.mip == h.irq.ip[0] + h.irq.swip
    ensures k in IpR(h, rMask, false) <==> k in rMask && (k in h.irq.ip[0] || k in h.irq.swip)
    ensures k in IpR(h, rMask, true) <==> k in rMask && k in h.irq.swip
  {
  }

  /** Writes of the delegation registers: delegable codes take the value, the others stay. */
  lemma DelegationEffect(c: Config, h: Hart, value: Bits, k: nat)
    requires k < 32
    ensures var d := MidelegW(c, h, value).deleg;
            d == h.deleg.(mideleg := d.mideleg) &&
            (k in d.mideleg <==> if k in MidelegMask(c) then k in value else k in h.deleg.mideleg)
    ensures var d := SidelegW(c, h, value).deleg;
            d == h.deleg.(sideleg := d.sideleg) &&
            (k in d.sideleg <==> if k in SidelegMask(c) then k in value else k in h.deleg.sideleg)
    ensures var d := MedelegW(c, h, value).deleg;
            d == h.deleg.(medeleg := d.medeleg) &&
            (k in d.medeleg <==> if k in MedelegMask(c) then k in value else k in h.deleg.medeleg)
    ensures var d := SedelegW(c, h, value).deleg;
            d == h.deleg.(sedeleg := d.sedeleg) &&
            (k in d.sedeleg <==> if k in SedelegMask(c) then k in value else k in h.deleg.sedeleg)
  {
  }

  /** Changes of enables and of interrupt delegation test for interrupts. */
  lemma IeWakes(c: Config, h: Hart, view: View, value: Bits)
    requires forall k :: k in h.irq.mie ==> k < 32
    ensures var h' := IeViewW(c, h, view, value);
            h'.activity == (if h'.irq.mie != h.irq.mie then TestInterrupt(h').activity else h.activity)
  {
    assert Low32(h.irq.mie) == h.irq.mie;
  }

  lemma DelegationWakes(c: Config, h: Hart, value: Bits)
    requires forall k :: k in h.deleg.mideleg || k in h.deleg.sideleg ==> k < 32
    ensures var h' := MidelegW(c, h, value);
            h'.activity == (if h'.deleg.mideleg != h.deleg.mideleg then TestInterrupt(h).activity else h.activity)
    ensures var h' := SidelegW(c, h, value);
            h'.activity == (if h'.deleg.sideleg != h.deleg.sideleg then TestInterrupt(h).activity else h.activity)
  {
    assert Low32(h.deleg.mideleg) == h.deleg.mideleg && Low32(h.deleg.sideleg) == h.deleg.sideleg;
  }

  // ---------------------------------------------------------------- trap registers and dcsr

  /** xtvec of x takes the mode bit and the address, rounded down; the other modes keep theirs. */
  lemma TvecEffect(c: Config, h: Hart, x: Mode, address: nat, vectored: bool)
    ensures var b := if vectored && c.tvecAlign > 0 then address - address % c.tvecAlign else address;
            Regs(TvecW(c, h, x, address, vectored), x) == Regs(h, x).(tvec := Tvec(b - b % 4, vectored))
    ensures forall y: Mode :: {x, y} != {2, 3} && y != x ==> Regs(TvecW(c, h, x, address, vectored), y) == Regs(h, y)
  {
  }

  lemma EpcEffect(c: Config, h: Hart, x: Mode, address: nat)
    ensures Regs(EpcW(c, h, x, address), x) ==
            Regs(h, x).(epc := address - address % (if 'C' in c.arch then 2 else 4))
    ensures forall y: Mode :: {x, y} != {2, 3} && y != x ==> Regs(EpcW(c, h, x, address), y) == Regs(h, y)
  {
  }

  /** cause and nmip are the debugger's alone; the ebreak bits exist for implemented modes. */
  lemma DcsrEffect(c: Config, h: Hart, v: Dcsr, artifact: bool)
    ensures var d := DcsrW(c, h, v, artifact).debug.dcsr;
            && d.prv == v.prv && d.step == v.step && d.stopcount == v.stopcount && d.ebreakm == v.ebreakm
            && d.ebreaks == (v.ebreaks && 'S' in c.arch) && d.ebreaku == (v.ebreaku && 'U' in c.arch)
            && (if artifact then d.cause == v.cause && d.nmip == v.nmip
                else d.cause == h.debug.dcsr.cause && d.nmip == h.debug.dcsr.nmip)
  {
  }

  // ---------------------------------------------------------------- status

  /** A write of mstatus, sstatus or ustatus leaves bits outside its mask alone, but for FS. */
  lemma StatusOutside(c: Config, h: Hart, view: View, value: Bits, k: nat)
    requires k !in StatusViewMask(c, view) && k != FS && k != FS + 1
    requires k == MPP || k == MPP + 1 ==> view != MView && HasMode(c, Field2(h.status, MPP))
    ensures k in StatusViewW(c, h, view, value).status <==> k in h.status
  {
    if k == MPP || k == MPP + 1 {
      assert StatusViewMask(c, view) !! {MPP, MPP + 1};
    }
  }

  /** The views of the status register, and FS by consolidation where it is not written. */
  lemma StatusViews(c: Config, h: Hart, view: View, value: Bits, k: nat)
    ensures k in StatusViewMask(c, view) <==>
            && k in StatusMask(c)
            && (view == SView ==> k in {0, 1, 4, 5, 8, 13, 14, 15, 16, 18, 19, 23, 24, 31, 32, 33, 63})
            && (view == UView ==> k in {0, 4})
    ensures FS !in StatusViewMask(c, view) && FS + 1 !in StatusViewMask(c, view) ==>
              Field2(StatusViewW(c, h, view, value).status, FS) ==
              if h.fp.flagsMT != {} || (h.fp.satMT && c.vs == VS8) then DIRTY else Field2(h.status, FS)
  {
  }

  /** Turning an enable on tests for interrupts. */
  lemma StatusWakes(c: Config, h: Hart, view: View, value: Bits)
    ensures var h' := StatusViewW(c, h, view, value);
            h'.activity.disable ==
            if (exists k :: k in {0, 1, 2, 3} && k in h'.status && k !in h.status) && h.irq.mie * h.irq.mip != {}
            then h.activity.disable - {WFI} else h.activity.disable
  {
    var g := Consolidate(c, h);
    var w := LegalStatus(c, g.status, value, StatusViewMask(c, view));
    if (w - g.status) * {0, 1, 2, 3} != {} {
      var k :| k in (w - g.status) * {0, 1, 2, 3};
      assert k in {0, 1, 2, 3} && k in w && k !in h.status;
    }
    assert forall k :: k in {0, 1, 2, 3} && k in w && k !in h.status ==> k in (w - g.status) * {0, 1, 2, 3};
  }

  /** A read of status moves flags to the CSR half, marks FS, and composes SD at the top of the word. */
  lemma StatusReads(c: Config, h: Hart, k: nat)
    ensures var h' := StatusR(c, h);
            var vs := if c.vs == VS8 then 23 else 9;
            var dirty := {13, 14} <= h'.status || {vs, vs + 1} <= h'.status || {15, 16} <= h'.status;
            && (k == 63 ==> (k in h'.status <==> c.xlen64 && dirty))
            && (k == 31 ==> (k in h'.status <==> !c.xlen64 && dirty))
            && (k !in {13, 14, vs, vs + 1, 31, 63} ==> (k in h'.status <==> k in h.status))
            && (Field2(h'.status, vs) == if c.fsMode == AlwaysDirty && Field2(h.status, vs) != 0 then 3 else Field2(h.status, vs))
            && h'.fp == h.fp.(flagsCSR := h.fp.flagsCSR + h.fp.flagsMT, flagsMT := {},
                              satCSR := h.fp.satCSR || h.fp.satMT, satMT := false)
  {
  }

  // ---------------------------------------------------------------- floating point

  /** What each write leaves in the flags, the rounding mode and vxsat. */
  lemma FpWriteEffect(c: Config, h: Hart, w: FpWrite)
    ensures var h' := SetFp(c, h, w);
            match w {
              case ToFflags(flags) => AccruedFlags(h') == flags && h'.fp.frm == h.fp.frm
              case ToFrm(frm) => h'.fp == h.fp.(frm := frm % 8)
              case ToFcsr(_, frm, _) => h'.fp.frm == if 'D' in c.arch || 'F' in c.arch then frm % 8 else 0
              case ToVxsat(sat) => (h'.fp.satCSR || h'.fp.satMT) == sat && AccruedFlags(h') == AccruedFlags(h)
              case ToVxrm => h' == h
              case ToVcsr(sat) => (h'.fp.satCSR || h'.fp.satMT) == sat && AccruedFlags(h') == AccruedFlags(h)
            }
  {
  }

  /** Which status field an instruction that makes the write marks dirty. */
  lemma FpMarkEffect(c: Config, h: Hart, w: FpWrite, k: nat)
    ensures var vector := w.ToVxsat? || w.ToVxrm?;
            var marksFS := if vector then c.vs == VS8 else if w.ToVcsr? then MSTATUS_FS_CHAR in h.arch else true;
            var marksVS := (vector && c.vs == VS9) || (w.ToVcsr? && c.vs != NoVS);
            k in MarkFp(c, h, w).status <==>
            || k in h.status
            || (c.fsMode != AlwaysDirty && marksFS && k in {13, 14})
            || (c.fsMode != AlwaysDirty && marksVS && k in (if c.vs == VS8 then {23, 24} else {9, 10}))
  {
  }

  /** Flags and saturation accrue in the JIT half; FS is marked at once only in mode write-any. */
  lemma AccrueEffect(c: Config, h: Hart, flags: set<FpFlag>, sat: bool, k: nat)
    ensures var h' := FpOperation(c, h, flags);
            && h'.fp == h.fp.(flagsMT := h.fp.flagsMT + flags)
            && (k in h'.status <==> k in h.status || (c.fsMode == WriteAny && k in {13, 14}))
    ensures var h' := Saturate(c, h, sat);
            && h'.fp == h.fp.(satMT := h.fp.satMT || sat)
            && (k in h'.status <==> k in h.status || (c.fsMode == WriteAny && c.vs == VS8 && k in {13, 14}))
  {
  }

  /** A vector instruction marks VS where there is one. */
  lemma VectorMarkEffect(c: Config, h: Hart, k: nat)
    ensures k in UpdateVS(c, h).status <==>
            k in h.status || (c.fsMode != AlwaysDirty && ((c.vs == VS8 && k in {23, 24}) || (c.vs == VS9 && k in {9, 10})))
  {
  }

  // ---------------------------------------------------------------- misa and currentArch

  /** A feature is enabled if misa has it and neither FS (for D and F) nor VS (for V) turns it off. */
  lemma ArchMeaning(c: Config, misa: set<char>, w: Bits, frm: nat, f: char)
    requires 'A' <= f <= 'Z'
    ensures var a := ArchOf(c, misa, w, frm);
            && (f in a <==>
                && f in misa
                && (f == 'D' || f == 'F' ==> 13 in w || 14 in w)
                && (f == 'V' && c.vs == VS8 ==> 23 in w || 24 in w)
                && (f == 'V' && c.vs == VS9 ==> 9 in w || 10 in w))
    ensures MSTATUS_FS_CHAR !in misa ==> (MSTATUS_FS_CHAR in ArchOf(c, misa, w, frm) <==> 13 in w || 14 in w)
    ensures RM_INVALID_CHAR !in misa ==> (RM_INVALID_CHAR in ArchOf(c, misa, w, frm) <==> frm >= 5)
    ensures XLEN64_CHAR !in misa ==> (XLEN64_CHAR in ArchOf(c, misa, w, frm) <==> c.xlen64)
  {
  }

  /** Would the write turn C off at an address that is not a multiple of 4? */
  predicate Refused(c: Config, misa: set<char>, pc: nat, value: set<char>) {
    'C' in misa && 'C' in c.archMask && 'C' !in value && pc % 4 != 0
  }

  /** What misa asks of D and F, where both are implemented. */
  lemma MisaDF(c: Config, h: Hart, value: set<char>)
    requires !Refused(c, h.misa, h.pc, value) && {'D', 'F'} <= c.arch
    ensures var m := MisaW(c, h, value).misa;
            if {'D', 'F'} <= c.archMask
            then ('F' in m <==> 'F' in value) && ('D' in m <==> 'D' in value && ('F' in value || !c.dRequiresF))
            else if 'D' in c.archMask then ('D' in m <==> 'D' in value) && ('F' in m <==> 'D' in value)
            else if 'F' in c.archMask then ('D' in m <==> 'F' in value) && ('F' in m <==> 'F' in value)
            else ('D' in m <==> 'D' in h.misa) && ('F' in m <==> 'F' in h.misa)
  {
  }

  /** Every other feature takes the value written if it is writable and stays otherwise; E is the complement of I. */
  lemma MisaOthers(c: Config, h: Hart, value: set<char>, f: char)
    requires !Refused(c, h.misa, h.pc, value)
    ensures var m := MisaW(c, h, value).misa;
            && ('E' in m <==> 'I' !in m)
            && (f != 'E' && !({'D', 'F'} <= c.arch && f in {'D', 'F'}) ==>
                  (f in m <==> if f in c.archMask then f in value else f in h.misa))
  {
  }
}
