/**
 The accrued exception flags are kept in two halves, one set by register writes and one by
 generated code (source/riscvCSR.c).  Together they behave as one sticky register, and
 mstatus.FS reports the changes.
 */
module FloatFlags {
  import opened Words
  import opened HartState
  import opened Traps
  import opened Csr
  import opened Machine
  import opened ArchCache

  /** The accrued flags and vxsat as software sees them. */
  datatype Sticky = Sticky(flags: set<FpFlag>, sat: bool)

  function Seen(h: Hart): Sticky {
    Sticky(AccruedFlags(h), h.fp.satCSR || h.fp.satMT)
  }

  function StickyWrite(c: Config, r: Sticky, w: FpWrite): Sticky {
    match w
    case ToFflags(flags) => r.(flags := flags)
    case ToFcsr(flags, _, sat) =>
      Sticky(if 'D' in c.arch || 'F' in c.arch then flags else {},
             if VxFieldsInFcsr(c) then sat && 'V' in c.arch else r.sat)
    case ToVxsat(sat) => r.(sat := sat)
    case ToVcsr(sat) => r.(sat := sat)
    case _ => r
  }

  /** One sticky register: instructions add to it, register writes replace it, nothing else changes it. */
  function StickyStep(c: Config, r: Sticky, e: Event): Sticky {
    match e
    case Float(FpI(flags)) => r.(flags := r.flags + flags)
    case Float(SatI(sat)) => r.(sat := r.sat || sat)
    case Float(WriteFp(w)) => StickyWrite(c, r, w)
    case Float(PokeFp(w)) => StickyWrite(c, r, w)
    case _ => r
  }

  lemma SignalKeepsFp(c: Config, h: Hart, s: Signal)
    requires IrqOK(h.irq) && CanSignal(c, h, s)
    ensures StepSignal(c, h, s).fp == h.fp
  {
  }

  lemma AccessKeepsSeen(c: Config, h: Hart, a: Access)
    requires IrqOK(h.irq) && CanAccess(c, a)
    ensures Seen(StepAccess(c, h, a)) == Seen(h)
  {
  }

  lemma SetFpSeen(c: Config, h: Hart, w: FpWrite)
    ensures Seen(SetFp(c, h, w)) == StickyWrite(c, Seen(h), w)
  {
  }

  lemma FloatSeen(c: Config, h: Hart, f: FpStep)
    ensures Seen(StepFloat(c, h, f)) == StickyStep(c, Seen(h), Float(f))
  {
    match f
    case WriteFp(w) => SetFpSeen(c, h, w);
    case PokeFp(w) => SetFpSeen(c, h, w);
    case _ =>
  }

  lemma StepSeen(c: Config, h: Hart, e: Event)
    requires IrqOK(h.irq) && Enabled(c, h, e)
    ensures Seen(Step(c, h, e)) == StickyStep(c, Seen(h), e)
  {
    match e
    case Execute(i) => InstructionArch(c, h, i);
    case Csr(a) => AccessKeepsSeen(c, h, a);
    case Float(f) => FloatSeen(c, h, f);
    case External(s) => SignalKeepsFp(c, h, s);
  }

  function StickyRun(c: Config, r: Sticky, es: seq<Event>): Sticky
    decreases |es|
  {
    if es == [] then r else StickyRun(c, StickyStep(c, r, es[0]), es[1..])
  }

  /** The two halves refine the sticky register over every run. */
  lemma {:induction false} HalvesRefineSticky(c: Config, h: Hart, es: seq<Event>)
    requires Feasible(c, h, es)
    ensures Seen(After(c, h, es)) == StickyRun(c, Seen(h), es)
    decreases |es|
  {
    if es != [] {
      StepSeen(c, h, es[0]);
      HalvesRefineSticky(c, Step(c, h, es[0]), es[1..]);
    }
  }

  /** So fcsr reads as that register after every run. */
  lemma FcsrReadsSticky(c: Config, h: Hart, es: seq<Event>)
    requires Feasible(c, h, es)
    ensures var r := StickyRun(c, Seen(h), es);
            var v := FcsrR(c, After(c, h, es));
            v.flags == r.flags && v.sat == (VxFieldsInFcsr(c) && r.sat)
  {
    HalvesRefineSticky(c, h, es);
  }

  /** What is written to fcsr is read from it, in the fields that the configuration has. */
  lemma FcsrRoundTrip(c: Config, h: Hart, flags: set<FpFlag>, frm: nat, sat: bool)
    ensures var v := FcsrR(c, FcsrW(c, h, flags, frm, sat));
            && (if 'D' in c.arch || 'F' in c.arch then v.flags == flags && v.frm == frm % 8
                else v.flags == {} && v.frm == 0)
            && v.sat == (sat && 'V' in c.arch && VxFieldsInFcsr(c))
  {
  }

  // ---------------------------------------------------------------- mstatus.FS

  /** Reading status never enables floating point. */
  lemma ReadKeepsOff(c: Config, h: Hart)
    requires ArchOK(c, h)
    ensures Field2(StatusR(c, h).status, FS) == 0 <==> Field2(h.status, FS) == 0
  {
  }

  /** Would a status read show FS dirty? */
  predicate ShowsDirty(c: Config, h: Hart) {
    Field2(StatusR(c, h).status, FS) == DIRTY
  }

  /** The stored state behind that: FS is dirty already, or flags are pending, or FS counts as dirty. */
  lemma ShowsDirtyIff(c: Config, h: Hart)
    ensures ShowsDirty(c, h) <==>
            || Field2(h.status, FS) == DIRTY || PendingFlags(c, h.fp)
            || (c.fsMode == AlwaysDirty && Field2(h.status, FS) != 0)
  {
  }

  /** Any instruction that raises a flag, or writes a floating point register while FS is on, shows. */
  lemma RaisingFlagsShows(c: Config, h: Hart, flags: set<FpFlag>)
    ensures flags != {} ==> ShowsDirty(c, FpOperation(c, h, flags))
    ensures ShowsDirty(c, UpdateFS(c, h)) <==> c.fsMode != AlwaysDirty || Field2(h.status, FS) != 0 || PendingFlags(c, h.fp)
  {
  }

  /** mstatus.FS survives traps and returns. */
  lemma TrapStatusFS(c: Config, w: Bits, x: Mode, y: Mode)
    ensures Field2(PushStatus(w, x, y), FS) == Field2(w, FS)
    ensures Field2(PopStatus(c, w, x), FS) == Field2(w, FS)
    ensures Field2(ClearMPRV(c, w, x), FS) == Field2(w, FS)
  {
  }

  lemma InstructionKeepsFS(c: Config, h: Hart, i: Instruction)
    requires IrqOK(h.irq) && CanExecute(c, h, i)
    ensures Field2(StepInstruction(c, h, i).status, FS) == Field2(h.status, FS)
    ensures StepInstruction(c, h, i).fp == h.fp
  {
    forall x: Mode, y: Mode { TrapStatusFS(c, h.status, x, y); }
    InstructionArch(c, h, i);
  }

  lemma SignalKeepsFS(c: Config, h: Hart, s: Signal)
    requires IrqOK(h.irq) && CanSignal(c, h, s) && !s.ResetNet?
    ensures Field2(StepSignal(c, h, s).status, FS) == Field2(h.status, FS)
    ensures StepSignal(c, h, s).fp == h.fp
  {
  }

  /** Only a status write, a reset, or the debugger overwriting the flags can clear a dirty indication. */
  predicate MayClean(e: Event) {
    || (e.Csr? && e.a.WriteStatus?)
    || (e.External? && e.s.ResetNet?)
    || (e.Float? && e.f.PokeFp? && !e.f.w.ToFrm? && !e.f.w.ToVxrm?)
  }

  /**
   A dirty indication that lasts.  In mode always-dirty, flags that are pending while FS is
   off show as dirty too, but a register write may still discard them.
   */
  predicate LastingDirty(c: Config, h: Hart) {
    ShowsDirty(c, h) && (c.fsMode != AlwaysDirty || Field2(h.status, FS) != 0)
  }

  /** A write discards pending flags only if it marks FS, or in mode always-dirty. */
  lemma FpWriteKeepsDirty(c: Config, h: Hart, w: FpWrite)
    requires CanWriteFp(c, h, w) && LastingDirty(c, h)
    ensures LastingDirty(c, MarkFp(c, SetFp(c, h, w), w))
  {
    ShowsDirtyIff(c, h);
    ShowsDirtyIff(c, MarkFp(c, SetFp(c, h, w), w));
  }

  lemma FloatKeepsDirty(c: Config, h: Hart, f: FpStep)
    requires CanFloat(c, h, f) && !MayClean(Float(f)) && LastingDirty(c, h)
    ensures LastingDirty(c, StepFloat(c, h, f))
  {
    if f.WriteFp? {
      FpWriteKeepsDirty(c, h, f.w);
    } else {
      ShowsDirtyIff(c, h);
      ShowsDirtyIff(c, StepFloat(c, h, f));
    }
  }

  lemma AccessKeepsDirty(c: Config, h: Hart, a: Access)
    requires IrqOK(h.irq) && CanAccess(c, a) && !a.WriteStatus? && LastingDirty(c, h)
    ensures LastingDirty(c, StepAccess(c, h, a))
  {
  }

  lemma StepKeepsDirty(c: Config, h: Hart, e: Event)
    requires IrqOK(h.irq) && Enabled(c, h, e) && LastingDirty(c, h) && !MayClean(e)
    ensures LastingDirty(c, Step(c, h, e))
  {
    ShowsDirtyIff(c, h);
    ShowsDirtyIff(c, Step(c, h, e));
    match e
    case Execute(i) => InstructionKeepsFS(c, h, i);
    case Csr(a) => AccessKeepsDirty(c, h, a);
    case Float(f) => FloatKeepsDirty(c, h, f);
    case External(s) => SignalKeepsFS(c, h, s);
  }

  /**
   Changes to floating point state are never lost from FS: in every configuration, and
   whether currentArch is right or not, FS shows dirty after any run without a status write
   or reset.
   */
  lemma {:induction false} DirtyUntilCleaned(c: Config, h: Hart, es: seq<Event>)
    requires LastingDirty(c, h) && Feasible(c, h, es) && forall e :: e in es ==> !MayClean(e)
    ensures LastingDirty(c, After(c, h, es))
    decreases |es|
  {
    if es != [] {
      StepKeepsDirty(c, h, es[0]);
      DirtyUntilCleaned(c, Step(c, h, es[0]), es[1..]);
    }
  }

  /** Where currentArch is right every dirty indication lasts. */
  lemma DirtyLasts(c: Config, h: Hart)
    requires ArchOK(c, h) && ShowsDirty(c, h)
    ensures LastingDirty(c, h)
  {
    ShowsDirtyIff(c, h);
  }

  /** The exception is real: a write of fcsr keeps the indication if and only if it was a lasting one. */
  lemma FcsrWriteKeepsDirty(c: Config, h: Hart, flags: set<FpFlag>, frm: nat, sat: bool)
    requires ShowsDirty(c, h)
    ensures ShowsDirty(c, FcsrW(c, h, flags, frm, sat)) <==> LastingDirty(c, h)
  {
  }

  /** The debugger writes fflags behind FS: an indication that only pending flags gave is lost. */
  lemma PokeKeepsDirty(c: Config, h: Hart, flags: set<FpFlag>)
    requires ShowsDirty(c, h)
    ensures ShowsDirty(c, SetFlags(h, flags)) <==>
            || Field2(h.status, FS) == DIRTY || (c.fsMode == AlwaysDirty && Field2(h.status, FS) != 0)
            || (h.fp.satMT && c.vs == VS8)
  {
  }
}
