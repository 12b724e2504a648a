/**
 The processor structure (source/riscvStructure.h) and the routines that update it in
 place, in the order of their statements.  Each routine is proved against the function of
 the state that specifies it in `Traps` or `Csr`.
 */
module Processor {
  import opened Words
  import opened HartState
  import T = Traps
  import C = Csr
  import I = Interrupts
  import M = Machine

  class Processor {
    const configInfo: Config

    var mode: Mode
    var pc: nat
    var mstatus: Bits
    var misa: set<char>
    var currentArch: set<char>
    var u: TrapRegs
    var s: TrapRegs
    var m: TrapRegs
    var deleg: Delegation
    var irq: Irq
    var debug: Debug
    var activity: Activity
    var fp: Fp
    var exclusiveTag: nat
    var extInt: seq<nat>
    var netValue: Nets

    /** The state as a value. */
    function State(): Hart
      reads this
    {
      Hart(mode, pc, mstatus, misa, currentArch, u, s, m, deleg, irq, debug, activity, fp, exclusiveTag, extInt, netValue)
    }

    /** riscvConstructor, for the state modelled here. */
    constructor (config: Config, ipWords: nat)
      ensures configInfo == config && State() == M.PowerOn(config, ipWords)
    {
      var z := M.Zeroed(config, ipWords);
      configInfo := config;
      mode, pc, mstatus, misa, currentArch := z.mode, z.pc, z.status, z.misa, z.arch;
      u, s, m := z.u, z.s, z.m;
      deleg, irq, debug, activity, fp := z.deleg, z.irq, z.debug, z.activity, z.fp;
      exclusiveTag, extInt, netValue := z.tag, z.extInt, z.nets;
      new;
      assert State() == z;
      CSRReset();
      Reset();
    }

    // ---------------------------------------------------------------- halt and restart

    method HaltProcessor(reason: Reason)
      modifies this`activity
      ensures State() == T.Halt(old(State()), reason)
    {
      if activity.disable == {} {
        activity := activity.(halted := true);
      }
      activity := activity.(disable := activity.disable + {reason});
    }

    method RestartProcessor(reasons: set<Reason>)
      modifies this`activity
      ensures State() == T.Restart(old(State()), reasons)
    {
      activity := activity.(disable := activity.disable - reasons);
      if activity.disable == {} {
        activity := activity.(halted := false);
      }
    }

    method TestInterrupt()
      modifies this`activity
      ensures State() == T.TestInterrupt(old(State()))
    {
      if irq.mie * irq.mip != {} {
        RestartProcessor({WFI});
      }
    }

    method Wfi()
      modifies this`activity
      ensures State() == T.Wfi(old(State()))
    {
      if !(debug.dm || irq.mie * irq.mip != {}) {
        HaltProcessor(WFI);
      }
    }

    // ---------------------------------------------------------------- exceptions

    /** getModeX */
    function ModeX(mMask: Bits, sMask: Bits, ecode: nat): Mode
      reads this`mode
    {
      var modeX := if ecode !in mMask then MACHINE else if ecode !in sMask then SUPERVISOR else USER;
      if modeX > mode then modeX else mode
    }

    /** The update of the interrupt-enable stack that TARGET_MODE_X makes for mode x. */
    method PushEnable(x: Mode)
      modifies this`mstatus
      ensures mstatus == Put(Put(old(mstatus), x + PIE, x in old(mstatus)), x, false)
    {
      var IE := x in mstatus;
      mstatus := Put(mstatus, x + PIE, IE);
      mstatus := Put(mstatus, x, false);
    }

    /** The TARGET_MODE_X step of riscvTakeException, with the xPP update that follows it. */
    method TargetModeX(x: Mode, modeY: Mode, cause: Cause, epc: nat, tval: nat) returns (tvec: Tvec)
      modifies this`mstatus, this`u, this`s, this`m
      ensures mstatus == T.PushStatus(old(mstatus), x, modeY)
      ensures tvec == Regs(old(State()), x).tvec
      ensures u == if x == USER then TrapRegs(epc, cause, tval, tvec) else old(u)
      ensures s == if x == SUPERVISOR then TrapRegs(epc, cause, tval, tvec) else old(s)
      ensures m == if x == USER || x == SUPERVISOR then old(m) else TrapRegs(epc, cause, tval, tvec)
    {
      PushEnable(x);
      if x == USER {
        tvec := u.tvec;
        u := TrapRegs(epc, cause, tval, tvec);
      } else if x == SUPERVISOR {
        tvec := s.tvec;
        s := TrapRegs(epc, cause, tval, tvec);
        mstatus := Put(mstatus, SPP, modeY % 2 == 1);
      } else {
        tvec := m.tvec;
        m := TrapRegs(epc, cause, tval, tvec);
        mstatus := PutField2(mstatus, MPP, modeY);
      }
    }

    /** The last steps of riscvTakeException. */
    method EnterHandler(modeX: Mode, handlerPC: nat)
      modifies this`exclusiveTag, this`pc, this`mode
      ensures exclusiveTag == NO_TAG && pc == handlerPC && mode == modeX
    {
      exclusiveTag := NO_TAG;
      mode := modeX;
      pc := handlerPC;
    }

    /** riscvTakeException outside Debug mode. */
    method Trap(isInt: bool, ecode: nat, tval: nat)
      requires ecode < 32
      modifies this`exclusiveTag, this`mstatus, this`u, this`s, this`m, this`pc, this`mode
      ensures State() == T.Trap(configInfo, old(State()), isInt, ecode, tval)
    {
      ghost var h := State();
      var modeX := if isInt then ModeX(deleg.mideleg, deleg.sideleg, ecode)
                   else ModeX(deleg.medeleg, deleg.sedeleg, ecode);
      var ecodeMod := T.ReportedCode(State(), isInt, ecode);
      assert modeX == T.TargetMode(h, isInt, ecode);
      var epc := T.EpcMasked(configInfo, pc);
      var tvec := TargetModeX(modeX, mode, Cause(isInt, ecodeMod), epc, tval);
      EnterHandler(modeX, T.HandlerPC(configInfo, modeX, tvec, isInt, ecode));
    }

    method TakeException(isInt: bool, ecode: nat, tval: nat)
      requires ecode < 32
      modifies this
      ensures State() == T.TakeException(configInfo, old(State()), isInt, ecode, tval)
    {
      if debug.dm {
        EnterDM(0);
      } else {
        Trap(isInt, ecode, tval);
      }
    }

    method DoERETCommon(newMode: Mode, epc: nat)
      modifies this`mode, this`pc, this`activity
      ensures State() == T.EretCommon(old(State()), newMode, epc)
    {
      mode := newMode;
      pc := if 'C' in currentArch then epc else Align4(epc);
      TestInterrupt();
    }

    method ClearMPRV(newMode: Mode)
      modifies this`mstatus
      ensures mstatus == T.ClearMPRV(configInfo, old(mstatus), newMode)
    {
      if configInfo.priv == Priv1_12 && newMode != MACHINE {
        mstatus := Put(mstatus, MPRV, false);
      }
    }

    method ClearEAxRET()
      modifies this`exclusiveTag
      ensures exclusiveTag == if configInfo.xretPreservesLR then old(exclusiveTag) else NO_TAG
    {
      if !configInfo.xretPreservesLR {
        exclusiveTag := NO_TAG;
      }
    }

    method MRET()
      modifies this`exclusiveTag, this`mstatus, this`mode, this`pc, this`activity
      ensures State() == T.Xret(configInfo, old(State()), MACHINE)
    {
      if !debug.dm {
        var mpp := Field2(mstatus, MPP);
        var minMode := MinMode(configInfo);
        var newMode: Mode := if HasMode(configInfo, mpp) then mpp else minMode;
        ClearEAxRET();
        mstatus := Put(mstatus, MACHINE, MACHINE + PIE in mstatus);
        mstatus := Put(mstatus, MACHINE + PIE, true);
        mstatus := PutField2(mstatus, MPP, minMode);
        ClearMPRV(newMode);
        DoERETCommon(newMode, m.epc);
      }
    }

    method SRET()
      modifies this`exclusiveTag, this`mstatus, this`mode, this`pc, this`activity
      ensures State() == T.Xret(configInfo, old(State()), SUPERVISOR)
    {
      if !debug.dm {
        var spp: Mode := if SPP in mstatus then SUPERVISOR else USER;
        var minMode := MinMode(configInfo);
        var newMode: Mode := if HasMode(configInfo, spp) then spp else minMode;
        ClearEAxRET();
        mstatus := Put(mstatus, SUPERVISOR, SUPERVISOR + PIE in mstatus);
        mstatus := Put(mstatus, SUPERVISOR + PIE, true);
        mstatus := Put(mstatus, SPP, minMode % 2 == 1);
        ClearMPRV(newMode);
        DoERETCommon(newMode, s.epc);
      }
    }

    method URET()
      modifies this`exclusiveTag, this`mstatus, this`mode, this`pc, this`activity
      ensures State() == T.Xret(configInfo, old(State()), USER)
    {
      if !debug.dm {
        ClearEAxRET();
        mstatus := Put(mstatus, USER, USER + PIE in mstatus);
        mstatus := Put(mstatus, USER + PIE, true);
        DoERETCommon(USER, u.epc);
      }
    }

    // ---------------------------------------------------------------- Debug mode

    method UpdateDMStall(stall: bool)
      modifies this`debug, this`activity
      ensures State() == T.UpdateDMStall(configInfo, old(State()), stall)
    {
      debug := debug.(stall := stall);
      if !configInfo.debugHalts {
      } else if stall {
        HaltProcessor(DEBUG);
      } else {
        RestartProcessor({DEBUG});
      }
    }

    method EnterDM(cause: nat)
      modifies this`debug, this`mode, this`activity
      ensures State() == T.EnterDM(configInfo, old(State()), cause)
    {
      if !debug.dm {
        debug := debug.(dm := true);
        debug := debug.(dcsr := debug.dcsr.(prv := mode));
        debug := debug.(dcsr := debug.dcsr.(cause := cause));
        debug := debug.(dpc := pc);
        mode := MACHINE;
      }
      UpdateDMStall(true);
    }

    method LeaveDM()
      modifies this`debug, this`mstatus, this`mode, this`pc, this`activity
      ensures State() == T.LeaveDM(configInfo, old(State()))
    {
      var newMode := debug.dcsr.prv;
      debug := debug.(dm := false);
      ClearMPRV(newMode);
      DoERETCommon(newMode, debug.dpc);
      UpdateDMStall(false);
    }

    method SetDM(dm: bool)
      modifies this`debug, this`mstatus, this`mode, this`pc, this`activity
      ensures State() == T.SetDM(configInfo, old(State()), dm)
    {
      if debug.dm == dm {
      } else if dm {
        EnterDM(3);
      } else {
        LeaveDM();
      }
    }

    method EBREAK()
      modifies this
      ensures State() == T.Ebreak(configInfo, old(State()))
    {
      var useDM := false;
      if debug.dm {
        useDM := true;
      } else if mode == USER {
        useDM := debug.dcsr.ebreaku;
      } else if mode == SUPERVISOR {
        useDM := debug.dcsr.ebreaks;
      } else if mode == MACHINE {
        useDM := debug.dcsr.ebreakm;
      }
      if useDM {
        EnterDM(1);
      } else {
        TakeException(false, 3, pc);
      }
    }

    // ---------------------------------------------------------------- interrupts

    function GetIE(ie: bool, modeIE: Mode): bool
      reads this`mode
    {
      if mode < modeIE then true else if mode > modeIE then false else ie
    }

    method GetPendingAndEnabledInterrupts() returns (result: Bits)
      ensures result == T.PendingAndEnabled(State())
    {
      result := if debug.dm then {} else irq.mie * irq.mip;
      if result != {} {
        var MIE := GetIE(MACHINE in mstatus, MACHINE);
        var SIE := GetIE(SUPERVISOR in mstatus, SUPERVISOR);
        var UIE := GetIE(USER in mstatus, USER);
        var mideleg := deleg.mideleg;
        var sideleg := deleg.sideleg * mideleg;
        if !MIE { result := result * mideleg; }
        if !SIE { result := result - (mideleg - sideleg); }
        if !UIE { result := result - sideleg; }
      }
    }

    /** doInterrupt: find the highest priority interrupt in the mask and take it. */
    method DoInterrupt(intMask: Bits)
      requires intMask != {} && forall k :: k in intMask ==> k < 32
      modifies this
      ensures State() == T.DoInterrupt(configInfo, old(State()), intMask)
    {
      var selected := I.SelectInterrupt(State(), intMask);
      T.SelectedUnique(State(), intMask, selected, T.Selected(State(), intMask));
      TakeException(true, selected, 0);
    }

    /** riscvIFetchExcept, when it completes. */
    method IFetchExcept(check: T.FetchCheck)
      requires forall k :: k in irq.mie ==> k < 32
      requires check.FetchFault? ==> check.ecode < 32
      modifies this
      ensures State() == T.Fetch(configInfo, old(State()), check)
    {
      var intMask := GetPendingAndEnabledInterrupts();
      if netValue.resethaltreqS {
        netValue := netValue.(resethaltreqS := false);
        EnterDM(5);
      } else if netValue.haltreq && !debug.dm {
        EnterDM(3);
      } else if intMask != {} {
        DoInterrupt(intMask);
      } else if check.FetchFault? {
        TakeException(false, check.ecode, check.tval);
      }
    }

    // ---------------------------------------------------------------- pins

    method UpdatePending()
      requires |irq.ip| > 0
      modifies this`irq, this`activity
      ensures State() == T.UpdatePending(old(State()))
    {
      var oldValue := irq.mip;
      var newValue := irq.ip[0] + irq.swip;
      if oldValue != newValue {
        irq := irq.(mip := newValue);
        TestInterrupt();
      }
    }

    method InterruptPort(index: nat, newValue: bool)
      requires index / 64 < |irq.ip|
      modifies this`irq, this`activity
      ensures State() == T.InterruptPin(old(State()), index, newValue)
    {
      var offset, bit := index / 64, index % 64;
      irq := irq.(ip := irq.ip[offset := Put(irq.ip[offset], bit, newValue)]);
      UpdatePending();
    }

    method DoNMI()
      modifies this`activity, this`mode, this`m, this`pc
      ensures State() == T.DoNMI(configInfo, old(State()))
    {
      RestartProcessor({WFI});
      mode := MACHINE;
      m := m.(cause := Cause(false, 0));
      m := m.(epc := pc);
      pc := configInfo.nmiAddress;
    }

    method NmiPort(newValue: bool)
      modifies this`activity, this`mode, this`m, this`pc, this`debug, this`netValue
      ensures State() == T.NmiPin(configInfo, old(State()), newValue)
    {
      if !debug.dm && netValue.nmi && !newValue {
        DoNMI();
      }
      debug := debug.(dcsr := debug.dcsr.(nmip := newValue));
      netValue := netValue.(nmi := newValue);
    }

    // ---------------------------------------------------------------- control and status registers

    method SetCurrentArch()
      modifies this`currentArch
      ensures State() == C.SetCurrentArch(configInfo, old(State()))
    {
      var fsOn := Field2(mstatus, FS) != 0;
      var arch := (currentArch * {RM_INVALID_CHAR}) + misa;
      if !fsOn {
        arch := arch - {'D', 'F'};
      }
      if 'V' in arch && C.VectorOff(configInfo, mstatus) {
        arch := arch - {'V'};
      }
      arch := arch + {C.XlenChar(configInfo)};
      if fsOn {
        arch := arch + {MSTATUS_FS_CHAR};
      }
      assert arch == C.SetCurrentArch(configInfo, State()).arch;
      currentArch := arch;
    }

    method MisaW(value: set<char>)
      modifies this`misa, this`currentArch
      ensures State() == C.MisaW(configInfo, old(State()), value)
    {
      var arch, archMask := configInfo.arch, configInfo.archMask;
      var oldValue := misa;
      var newValue := (value * archMask) + (oldValue - archMask);

      // C stays on while turning it off would leave the PC misaligned
      if 'C' in oldValue && 'C' !in newValue && pc % 4 != 0 {
        newValue := oldValue;
      }
      if 'I' in newValue {
        newValue := newValue - {'E'};
      } else {
        newValue := newValue + {'E'};
      }

      if !({'D', 'F'} <= arch) {
      } else if {'D', 'F'} <= archMask {
        if configInfo.dRequiresF && 'F' !in newValue {
          newValue := newValue - {'D'};
        }
      } else if 'D' in archMask {
        newValue := if 'D' in newValue then newValue + {'F'} else newValue - {'F'};
      } else if 'F' in archMask {
        newValue := if 'F' in newValue then newValue + {'D'} else newValue - {'D'};
      }

      misa := newValue;
      SetCurrentArch();
    }

    method ConsolidateFPFlags()
      modifies this`fp, this`mstatus
      ensures State() == C.Consolidate(configInfo, old(State()))
    {
      var flagsMT, satMT := fp.flagsMT, fp.satMT;
      fp := fp.(flagsCSR := fp.flagsCSR + flagsMT, flagsMT := {});
      fp := fp.(satCSR := fp.satCSR || satMT, satMT := false);
      if flagsMT != {} || (satMT && configInfo.vs == VS8) {
        mstatus := PutField2(mstatus, FS, DIRTY);
      }
    }

    method StatusR() returns (value: Bits)
      modifies this`fp, this`mstatus
      ensures State() == C.StatusR(configInfo, old(State())) && value == mstatus
    {
      ConsolidateFPFlags();
      var vsField := C.VSField(configInfo);
      if configInfo.fsMode == AlwaysDirty {
        if Field2(mstatus, FS) != 0 { mstatus := PutField2(mstatus, FS, DIRTY); }
        if Field2(mstatus, vsField) != 0 { mstatus := PutField2(mstatus, vsField, DIRTY); }
      }
      var SD := Field2(mstatus, FS) == DIRTY || Field2(mstatus, vsField) == DIRTY || Field2(mstatus, XS) == DIRTY;
      mstatus := Put(mstatus, 31, false);
      mstatus := Put(mstatus, 63, false);
      mstatus := Put(mstatus, if configInfo.xlen64 then 63 else 31, SD);
      value := mstatus;
    }

    method StatusW(value: Bits, mask: Bits)
      modifies this`fp, this`mstatus, this`currentArch, this`activity
      ensures State() == C.StatusW(configInfo, old(State()), value, mask)
    {
      ConsolidateFPFlags();
      var oldValue := mstatus;
      var oldMPP := Field2(mstatus, MPP);
      mstatus := Merge(oldValue, value, mask);
      var newIE := (mstatus - oldValue) * {0, 1, 2, 3};
      if !HasMode(configInfo, Field2(mstatus, MPP)) {
        mstatus := PutField2(mstatus, MPP, oldMPP);
      }
      assert newIE == (mstatus - oldValue) * {0, 1, 2, 3};
      SetCurrentArch();
      if newIE != {} {
        TestInterrupt();
      }
    }

    method IpW(value: Bits, rMask: Bits)
      requires |irq.ip| > 0
      modifies this`irq, this`activity
      ensures State() == C.IpW(configInfo, old(State()), value, rMask)
    {
      var oldValue := irq.swip;
      var wMask := Low32(InterruptMask(configInfo)) * rMask;
      var newValue := Merge(oldValue, value, wMask);
      irq := irq.(swip := newValue);
      if oldValue != newValue {
        UpdatePending();
      }
    }

    method IeW(value: Bits, rMask: Bits)
      modifies this`irq, this`activity
      ensures State() == C.IeW(configInfo, old(State()), value, rMask)
    {
      var oldValue := Low32(irq.mie);
      var wMask := Low32(InterruptMask(configInfo)) * rMask;
      var newValue := Merge(oldValue, Low32(value), wMask);
      irq := irq.(mie := newValue);
      if oldValue != newValue {
        TestInterrupt();
      }
    }

    method MidelegW(value: Bits)
      modifies this`deleg, this`activity
      ensures State() == C.MidelegW(configInfo, old(State()), value)
    {
      var oldValue := Low32(deleg.mideleg);
      var newValue := Merge(oldValue, value, MidelegMask(configInfo));
      deleg := deleg.(mideleg := newValue);
      if oldValue != newValue {
        TestInterrupt();
      }
    }

    method SetFPRoundingMode(oldRM: nat, newRM: nat)
      modifies this`fp, this`currentArch
      ensures State() == C.SetRounding(old(State()), oldRM, newRM)
    {
      if oldRM != newRM {
        fp := fp.(frm := newRM);
        var oldInvalid, newInvalid := RM_INVALID_CHAR in currentArch, newRM >= 5;
        if oldInvalid != newInvalid {
          currentArch := if newInvalid then currentArch + {RM_INVALID_CHAR} else currentArch - {RM_INVALID_CHAR};
        }
        assert currentArch == C.SetRounding(old(State()), oldRM, newRM).arch;
      }
    }

    /** fcsrW followed by the FS update of its instruction. */
    method FcsrW(flags: set<FpFlag>, newFrm: nat, sat: bool)
      modifies this`fp, this`currentArch, this`mstatus
      ensures State() == C.FcsrW(configInfo, old(State()), flags, newFrm, sat)
    {
      var fpu := 'D' in configInfo.arch || 'F' in configInfo.arch;
      var oldRM := fp.frm;
      fp := fp.(flagsCSR := if fpu then flags else {}, flagsMT := {});
      SetFPRoundingMode(oldRM, if fpu then newFrm % 8 else 0);
      if C.VxFieldsInFcsr(configInfo) {
        fp := fp.(satCSR := sat && 'V' in configInfo.arch, satMT := false);
      }
      if configInfo.fsMode != AlwaysDirty {
        mstatus := PutField2(mstatus, FS, DIRTY);
      }
    }

    method SidelegW(value: Bits)
      modifies this`deleg, this`activity
      ensures State() == C.SidelegW(configInfo, old(State()), value)
    {
      var oldValue := Low32(deleg.sideleg);
      var newValue := Merge(oldValue, value, SidelegMask(configInfo));
      deleg := deleg.(sideleg := newValue);
      if oldValue != newValue {
        TestInterrupt();
      }
    }

    // ---------------------------------------------------------------- reset

    /** The part of riscvCSRReset that writes misa, mstatus and mcause, then refreshes currentArch. */
    method WriteResetValues(extensions: set<char>, status: Bits)
      modifies this`misa, this`mstatus, this`m, this`currentArch
      ensures State() == C.SetCurrentArch(configInfo, old(State()).(misa := extensions, status := status,
                                                                    m := old(m).(cause := Cause(false, 0))))
    {
      misa := extensions;
      mstatus := status;
      m := m.(cause := Cause(false, 0));
      SetCurrentArch();
    }

    method CSRReset()
      modifies this`misa, this`mstatus, this`m, this`currentArch, this`debug, this`exclusiveTag
      ensures State() == C.CsrReset(configInfo, old(State()))
    {
      WriteResetValues(configInfo.arch, ResetStatus(configInfo));
      debug := debug.(dcsr := Dcsr(MACHINE, false, false, 0, false, false, false, false));
      exclusiveTag := NO_TAG;
    }

    method Reset()
      modifies this
      ensures State() == C.Reset(configInfo, old(State()))
    {
      ghost var h := State();
      RestartProcessor({WFI, RESET});
      SetDM(false);
      mode := MACHINE;
      assert State() == T.SetDM(configInfo, T.Restart(h, {WFI, RESET}), false).(mode := MACHINE);
      CSRReset();
      pc := configInfo.resetAddress;
      netValue := netValue.(resethaltreqS := netValue.resethaltreq);
    }

    method ResetPort(newValue: bool)
      modifies this
      ensures State() == C.ResetPin(configInfo, old(State()), newValue)
    {
      if !netValue.reset && newValue {
        HaltProcessor(RESET);
      } else if netValue.reset && !newValue {
        Reset();
      }
      netValue := netValue.(reset := newValue);
    }
  }
}
