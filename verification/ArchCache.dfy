/**
 currentArch caches a function of misa, mstatus and frm (source/riscvUtils.c,
 riscvSetCurrentArch).  Several operations change mstatus.FS without refreshing it; this
 module shows exactly when the cache stays right.
 */
module ArchCache {
  import opened Words
  import opened HartState
  import opened Traps
  import opened Csr
  import opened Machine

  /** The cache agrees with its inputs. */
  predicate CacheRight(c: Config, h: Hart) {
    h.arch == ArchOf(c, h.misa, h.status, h.fp.frm)
  }

  /** It agrees now, and the next status read will not change that: flags are pending only while FS is on. */
  predicate ArchOK(c: Config, h: Hart) {
    && CacheRight(c, h)
    && (PendingFlags(c, h.fp) ==> Field2(h.status, FS) != 0)
  }

  /** The steps that keep the cache right. */
  predicate ArchSafe(c: Config, h: Hart, e: Event) {
    match e
    case Float(FpI(flags)) => Field2(h.status, FS) != 0 || (flags == {} && c.fsMode != WriteAny)
    case Float(WriteFp(ToFcsr(_, _, _))) => Field2(h.status, FS) != 0 || c.fsMode == AlwaysDirty
    case External(ResetNet(level)) => h.nets.reset && !level && PendingFlags(c, h.fp) ==> c.resetFS != 0
    case _ => true
  }

  // ---------------------------------------------------------------- what ArchOf depends on

  /** mstatus words that enable the same features. */
  predicate SameFeatureBits(c: Config, w: Bits, w': Bits) {
    && (Field2(w, FS) == 0 <==> Field2(w', FS) == 0)
    && (VectorOff(c, w) <==> VectorOff(c, w'))
  }

  /** h' has the same cached value and the same inputs to it. */
  predicate SameArch(c: Config, h: Hart, h': Hart) {
    h'.arch == h.arch && h'.misa == h.misa && h'.fp == h.fp && SameFeatureBits(c, h.status, h'.status)
  }

  lemma SameArchOK(c: Config, h: Hart, h': Hart)
    requires SameArch(c, h, h')
    ensures ArchOK(c, h) <==> ArchOK(c, h')
  {
  }

  lemma TrapStatusFeatures(c: Config, w: Bits, x: Mode, y: Mode)
    ensures SameFeatureBits(c, w, PushStatus(w, x, y))
    ensures SameFeatureBits(c, w, PopStatus(c, w, x))
    ensures SameFeatureBits(c, w, ClearMPRV(c, w, x))
  {
  }

  /** Refreshing restores the cache if the rounding-mode indication is right. */
  lemma RefreshRestores(c: Config, h: Hart)
    requires RM_INVALID_CHAR in h.arch <==> h.fp.frm >= 5
    ensures SetCurrentArch(c, h).arch == ArchOf(c, h.misa, h.status, h.fp.frm)
  {
  }

  lemma RoundingIndication(c: Config, h: Hart)
    requires ValidConfig(c) && MisaOK(c, h.misa) && ArchOK(c, h)
    ensures RM_INVALID_CHAR in h.arch <==> h.fp.frm >= 5
    ensures MSTATUS_FS_CHAR in h.arch <==> Field2(h.status, FS) != 0
    ensures 'D' in h.arch || 'F' in h.arch ==> Field2(h.status, FS) != 0
    ensures 'V' in h.arch ==> 'V' in c.arch
    ensures RM_INVALID_CHAR !in Features(c, h.misa, h.status) && MSTATUS_FS_CHAR !in h.misa
  {
  }

  // ---------------------------------------------------------------- steps

  lemma TrapArch(c: Config, h: Hart, isInt: bool, ecode: nat, tval: nat)
    requires ecode < 32
    ensures SameArch(c, h, TakeException(c, h, isInt, ecode, tval))
  {
    TrapStatusFeatures(c, h.status, TargetMode(h, isInt, ecode), h.mode);
  }

  lemma ReturnArch(c: Config, h: Hart, x: Mode)
    ensures SameArch(c, h, Xret(c, h, x))
    ensures SameArch(c, h, LeaveDM(c, h))
  {
    TrapStatusFeatures(c, h.status, x, h.mode);
    TrapStatusFeatures(c, h.status, h.debug.dcsr.prv, h.mode);
  }

  lemma FetchArch(c: Config, h: Hart, check: FetchCheck)
    requires IrqOK(h.irq) && (check.FetchFault? ==> check.ecode < 32)
    ensures SameArch(c, h, Fetch(c, h, check))
  {
    var mask := PendingAndEnabled(h);
    if h.nets.resethaltreqS || (h.nets.haltreq && !h.debug.dm) {
    } else if mask != {} {
      TrapArch(c, h, true, Selected(h, mask), 0);
    } else if check.FetchFault? {
      TrapArch(c, h, false, check.ecode, check.tval);
    }
  }

  lemma InstructionArch(c: Config, h: Hart, i: Instruction)
    requires IrqOK(h.irq) && CanExecute(c, h, i)
    ensures SameArch(c, h, StepInstruction(c, h, i))
  {
    match i
    case Exception(ecode, tval) => TrapArch(c, h, false, ecode, tval);
    case FetchStep(check) => FetchArch(c, h, check);
    case EcallI => TrapArch(c, h, false, 8 + h.mode, 0);
    case EbreakI => TrapArch(c, h, false, 3, h.pc);
    case DretI(itval) => ReturnArch(c, h, MACHINE); TrapArch(c, h, false, 2, itval);
    case XretI(x) => ReturnArch(c, h, x);
    case _ =>
  }

  lemma StatusReadArch(c: Config, h: Hart)
    requires ArchOK(c, h)
    ensures ArchOK(c, StatusR(c, h))
  {
  }

  lemma StatusWriteArch(c: Config, h: Hart, value: Bits, mask: Bits)
    requires ValidConfig(c) && MisaOK(c, h.misa) && ArchOK(c, h)
    ensures ArchOK(c, StatusW(c, h, value, mask))
  {
  }

  lemma AccessArch(c: Config, h: Hart, a: Access)
    requires ValidConfig(c) && Inv(c, h) && ArchOK(c, h) && CanAccess(c, a)
    ensures ArchOK(c, StepAccess(c, h, a))
  {
    match a
    case ReadStatus => StatusReadArch(c, h);
    case WriteStatus(view, v) => StatusWriteArch(c, h, v, StatusViewMask(c, view));
    case WriteMisa(v) => RoundingIndication(c, h); RefreshRestores(c, h.(misa := StepAccess(c, h, a).misa));
    case _ => SameArchOK(c, h, StepAccess(c, h, a));
  }

  /** The cache depends on fcsr only through frm. */
  lemma CacheIgnoresFlags(c: Config, h: Hart, fp: Fp)
    requires CacheRight(c, h) && fp.frm == h.fp.frm
    ensures CacheRight(c, h.(fp := fp))
  {
  }

  lemma RoundingRight(c: Config, h: Hart, newRM: nat)
    requires CacheRight(c, h) && RM_INVALID_CHAR !in Features(c, h.misa, h.status)
    ensures CacheRight(c, SetRounding(h, h.fp.frm, newRM))
  {
  }

  lemma MarkDirtyArch(c: Config, h: Hart)
    requires ArchOK(c, h) && MSTATUS_FS_CHAR !in h.misa
    ensures ArchOK(c, UpdateFS(c, h)) <==> Field2(h.status, FS) != 0 || c.fsMode == AlwaysDirty
  {
  }

  lemma VectorDirtyArch(c: Config, h: Hart)
    requires ArchOK(c, h) && 'V' in h.arch
    ensures ArchOK(c, UpdateVS(c, h))
  {
  }

  lemma FpOperationArch(c: Config, h: Hart, flags: set<FpFlag>)
    requires ValidConfig(c) && Inv(c, h) && ArchOK(c, h)
    ensures ArchOK(c, FpOperation(c, h, flags)) <==> ArchSafe(c, h, Float(FpI(flags)))
  {
    RoundingIndication(c, h);
    MarkDirtyArch(c, h);
  }

  lemma SaturateArch(c: Config, h: Hart, sat: bool)
    requires ValidConfig(c) && Inv(c, h) && ArchOK(c, h) && VxAllowed(c, h)
    ensures ArchOK(c, Saturate(c, h, sat))
  {
    RoundingIndication(c, h);
    MarkDirtyArch(c, h);
  }

  lemma SetFcsrArch(c: Config, h: Hart, flags: set<FpFlag>, frm: nat, sat: bool)
    requires CacheRight(c, h) && RM_INVALID_CHAR !in Features(c, h.misa, h.status)
    ensures ArchOK(c, SetFcsr(c, h, flags, frm, sat))
  {
    var fpu := 'D' in c.arch || 'F' in c.arch;
    var h1 := SetFlags(h, if fpu then flags else {});
    CacheIgnoresFlags(c, h, h1.fp);
    var h2 := SetRounding(h1, h.fp.frm, if fpu then frm % 8 else 0);
    RoundingRight(c, h1, if fpu then frm % 8 else 0);
    CacheIgnoresFlags(c, h2, SetSat(h2, sat && 'V' in c.arch).fp);
  }

  lemma SetFpCache(c: Config, h: Hart, w: FpWrite)
    requires CacheRight(c, h) && RM_INVALID_CHAR !in Features(c, h.misa, h.status)
    ensures CacheRight(c, SetFp(c, h, w))
  {
    match w
    case ToFrm(frm) => RoundingRight(c, h, frm % 8);
    case ToFcsr(flags, frm, sat) => SetFcsrArch(c, h, flags, frm, sat);
    case _ => CacheIgnoresFlags(c, h, SetFp(c, h, w).fp);
  }

  lemma SetFpPending(c: Config, h: Hart, w: FpWrite)
    requires PendingFlags(c, SetFp(c, h, w).fp)
    ensures PendingFlags(c, h.fp)
  {
  }

  /** The register writes themselves keep the cache right. */
  lemma SetFpArch(c: Config, h: Hart, w: FpWrite)
    requires ValidConfig(c) && Inv(c, h) && ArchOK(c, h)
    ensures ArchOK(c, SetFp(c, h, w))
  {
    RoundingIndication(c, h);
    SetFpCache(c, h, w);
    if PendingFlags(c, SetFp(c, h, w).fp) {
      SetFpPending(c, h, w);
    }
  }

  /** Marking the state dirty keeps it right if and only if FS is on, or is not marked. */
  lemma MarkFpArch(c: Config, h: Hart, w: FpWrite)
    requires ArchOK(c, h) && MSTATUS_FS_CHAR !in h.misa
    requires w.ToVxsat? || w.ToVxrm? ==> VxAllowed(c, h)
    requires w.ToVcsr? ==> 'V' in h.arch
    ensures w.ToVxsat? || w.ToVxrm? || w.ToVcsr? ==> ArchOK(c, MarkFp(c, h, w))
    ensures w.ToFflags? || w.ToFrm? || w.ToFcsr? ==>
              (ArchOK(c, MarkFp(c, h, w)) <==> Field2(h.status, FS) != 0 || c.fsMode == AlwaysDirty)
  {
    MarkDirtyArch(c, h);
    if 'V' in h.arch {
      VectorDirtyArch(c, h);
      MarkDirtyArch(c, UpdateVS(c, h));
    }
  }

  lemma FpWriteArch(c: Config, h: Hart, w: FpWrite)
    requires ValidConfig(c) && Inv(c, h) && ArchOK(c, h) && CanWriteFp(c, h, w)
    ensures ArchOK(c, MarkFp(c, SetFp(c, h, w), w)) <==> ArchSafe(c, h, Float(WriteFp(w)))
  {
    RoundingIndication(c, h);
    SetFpArch(c, h, w);
    MarkFpArch(c, SetFp(c, h, w), w);
  }

  lemma FloatArch(c: Config, h: Hart, f: FpStep)
    requires ValidConfig(c) && Inv(c, h) && ArchOK(c, h) && CanFloat(c, h, f)
    ensures ArchOK(c, StepFloat(c, h, f)) <==> ArchSafe(c, h, Float(f))
  {
    match f
    case FpI(flags) => FpOperationArch(c, h, flags);
    case SatI(sat) => SaturateArch(c, h, sat);
    case FprI => RoundingIndication(c, h); MarkDirtyArch(c, h);
    case VectorI => VectorDirtyArch(c, h);
    case WriteFp(w) => FpWriteArch(c, h, w);
    case PokeFp(w) => SetFpArch(c, h, w);
  }

  lemma ResetArch(c: Config, h: Hart)
    requires ValidConfig(c) && MisaOK(c, h.misa) && ArchOK(c, h)
    ensures ArchOK(c, Reset(c, h)) <==> (PendingFlags(c, h.fp) ==> c.resetFS != 0)
  {
  }

  lemma ResetPinArch(c: Config, h: Hart, level: bool)
    requires ValidConfig(c) && MisaOK(c, h.misa) && ArchOK(c, h)
    ensures ArchOK(c, ResetPin(c, h, level)) <==> ArchSafe(c, h, External(ResetNet(level)))
  {
    if h.nets.reset && !level {
      ResetArch(c, h);
      SameArchOK(c, Reset(c, h), ResetPin(c, h, level));
    } else {
      SameArchOK(c, h, ResetPin(c, h, level));
    }
  }

  lemma SignalSameArch(c: Config, h: Hart, s: Signal)
    requires IrqOK(h.irq) && CanSignal(c, h, s) && !s.ResetNet?
    ensures SameArch(c, h, StepSignal(c, h, s))
  {
    if s.DebugRequest? {
      ReturnArch(c, h, MACHINE);
    }
  }

  lemma SignalArch(c: Config, h: Hart, s: Signal)
    requires ValidConfig(c) && Inv(c, h) && ArchOK(c, h) && CanSignal(c, h, s)
    ensures ArchOK(c, StepSignal(c, h, s)) <==> ArchSafe(c, h, External(s))
  {
    if s.ResetNet? {
      ResetPinArch(c, h, s.level);
    } else {
      SignalSameArch(c, h, s);
      SameArchOK(c, h, StepSignal(c, h, s));
    }
  }

  /** The cache stays right across a step if and only if the step is safe. */
  lemma StepArch(c: Config, h: Hart, e: Event)
    requires ValidConfig(c) && Inv(c, h) && ArchOK(c, h) && Enabled(c, h, e)
    ensures ArchOK(c, Step(c, h, e)) <==> ArchSafe(c, h, e)
  {
    match e
    case Execute(i) => InstructionArch(c, h, i); SameArchOK(c, h, Step(c, h, e));
    case Csr(a) => AccessArch(c, h, a);
    case Float(f) => FloatArch(c, h, f);
    case External(s) => SignalArch(c, h, s);
  }

  // ---------------------------------------------------------------- runs

  /** Every state of the run is right, its last included. */
  ghost predicate RightThroughout(c: Config, h: Hart, es: seq<Event>)
    requires Feasible(c, h, es)
    decreases |es|
  {
    ArchOK(c, h) && (es == [] || RightThroughout(c, Step(c, h, es[0]), es[1..]))
  }

  /** Every step of the run is safe when it happens. */
  ghost predicate SafeRun(c: Config, h: Hart, es: seq<Event>)
    requires Feasible(c, h, es)
    decreases |es|
  {
    es == [] || (ArchSafe(c, h, es[0]) && SafeRun(c, Step(c, h, es[0]), es[1..]))
  }

  /** A run keeps the cache right throughout if and only if each of its steps is safe. */
  lemma {:induction false} RunArch(c: Config, h: Hart, es: seq<Event>)
    requires ValidConfig(c) && Inv(c, h) && ArchOK(c, h) && Feasible(c, h, es)
    ensures RightThroughout(c, h, es) <==> SafeRun(c, h, es)
    decreases |es|
  {
    if es != [] {
      StepArch(c, h, es[0]);
      if ArchSafe(c, h, es[0]) {
        StepKeepsInv(c, h, es[0]);
        RunArch(c, Step(c, h, es[0]), es[1..]);
      }
    }
  }

  /** The base case of every run. */
  lemma PowerOnArch(c: Config, ipWords: nat)
    requires ValidConfig(c)
    ensures ArchOK(c, PowerOn(c, ipWords))
  {
  }

  lemma ReachableArch(c: Config, ipWords: nat, es: seq<Event>)
    requires ValidConfig(c) && ipWords > 0 && Feasible(c, PowerOn(c, ipWords), es)
    ensures RightThroughout(c, PowerOn(c, ipWords), es) <==> SafeRun(c, PowerOn(c, ipWords), es)
  {
    PowerOnInv(c, ipWords);
    PowerOnArch(c, ipWords);
    RunArch(c, PowerOn(c, ipWords), es);
  }

  // ---------------------------------------------------------------- misa

  lemma LegalMisaUnchanged(c: Config, misa: set<char>, pc: nat, value: set<char>)
    requires MisaOK(c, misa)
    requires value == misa || ('C' in c.archMask && 'C' in misa && 'C' !in value && pc % 4 != 0)
    ensures LegalMisa(c, misa, pc, value) == misa
  {
    var v := (value * c.archMask) + (misa - c.archMask);
    assert value == misa ==> v == misa;
    assert (if 'I' in misa then misa - {'E'} else misa + {'E'}) == misa;
  }

  /** A refused write, and a write of the value just read, leave the whole state as it was. */
  lemma MisaUnchanged(c: Config, h: Hart, value: set<char>)
    requires ValidConfig(c) && Inv(c, h) && ArchOK(c, h)
    requires value == h.misa || ('C' in c.archMask && 'C' in h.misa && 'C' !in value && h.pc % 4 != 0)
    ensures MisaW(c, h, value) == h
  {
    LegalMisaUnchanged(c, h.misa, h.pc, value);
    RoundingIndication(c, h);
    RefreshRestores(c, h);
  }

  /** Otherwise every writable feature free of the D/F constraint takes the value written. */
  lemma MisaWriteTakes(c: Config, h: Hart, value: set<char>, f: char)
    requires f in c.archMask && f !in {'D', 'E', 'F'}
    requires !('C' in h.misa && 'C' !in value && h.pc % 4 != 0)
    ensures f in MisaW(c, h, value).misa <==> f in value
  {
  }
}
