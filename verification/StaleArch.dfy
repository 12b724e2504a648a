/**
 Which configurations can make currentArch stale.  Vector versions before 0.8 and reset do
 so, each by a run from power-on, and every other configuration keeps the cache right in
 every reachable state.
 */
module StaleArch {
  import opened Words
  import opened HartState
  import opened Csr
  import opened Machine
  import opened ArchCache
  import opened FloatFlags

  /** Can software run with mstatus.FS Off? */
  predicate FSCanBeOff(c: Config) {
    c.resetFS == 0 || FSWritable(c)
  }

  /** Vector versions before 0.8 may write fcsr, or accrue flags, while FS is Off. */
  predicate VectorBypassesFS(c: Config) {
    'V' in c.arch && c.vs == NoVS && FSCanBeOff(c) && (c.fsMode != AlwaysDirty || VectorFp(c))
  }

  /** Reset may turn FS off with flags pending. */
  predicate ResetDropsFS(c: Config) {
    c.resetFS == 0 && FSWritable(c)
  }

  predicate CanGoStale(c: Config) {
    VectorBypassesFS(c) || ResetDropsFS(c)
  }

  // ---------------------------------------------------------------- the others stay right

  /** An FS that software cannot write stays Off, or stays on, as reset left it. */
  predicate FSFixed(c: Config, h: Hart) {
    !FSWritable(c) ==> (Field2(h.status, FS) == 0 <==> c.resetFS == 0)
  }

  /** A status write through a mask without FS cannot change whether FS is Off. */
  lemma StatusKeepsFS(c: Config, h: Hart, value: Bits, mask: Bits)
    requires ArchOK(c, h) && mask !! {FS, FS + 1}
    ensures Field2(StatusW(c, h, value, mask).status, FS) == 0 <==> Field2(h.status, FS) == 0
  {
  }

  lemma AccessKeepsFSFixed(c: Config, h: Hart, a: Access)
    requires ArchOK(c, h) && IrqOK(h.irq) && CanAccess(c, a) && FSFixed(c, h)
    ensures FSFixed(c, StepAccess(c, h, a))
  {
    match a
    case ReadStatus => ReadKeepsOff(c, h);
    case WriteStatus(view, v) =>
      FSMask(c, view);
      if !FSWritable(c) {
        StatusKeepsFS(c, h, v, StatusViewMask(c, view));
      }
    case _ => OtherAccessStatus(c, h, a);
  }

  lemma FSMask(c: Config, view: View)
    ensures !FSWritable(c) ==> StatusViewMask(c, view) !! {FS, FS + 1}
  {
    StatusMaskOK(c);
  }

  lemma OtherAccessStatus(c: Config, h: Hart, a: Access)
    requires IrqOK(h.irq) && CanAccess(c, a) && !a.ReadStatus? && !a.WriteStatus?
    ensures StepAccess(c, h, a).status == h.status
  {
  }

  /** When a mark can turn FS on. */
  lemma MarkTurnsOn(c: Config, h: Hart, w: FpWrite)
    requires Field2(h.status, FS) == 0 && Field2(MarkFp(c, h, w).status, FS) != 0
    ensures c.fsMode != AlwaysDirty
    ensures w.ToVxsat? || w.ToVxrm? ==> c.vs == VS8
    ensures w.ToVcsr? ==> MSTATUS_FS_CHAR in h.arch
  {
  }

  lemma MarkStaysOn(c: Config, h: Hart, w: FpWrite)
    requires Field2(h.status, FS) != 0
    ensures Field2(MarkFp(c, h, w).status, FS) != 0
  {
  }

  lemma FpWriteKeepsFSFixed(c: Config, h: Hart, w: FpWrite)
    requires ValidConfig(c) && !CanGoStale(c)
    requires Inv(c, h) && ArchOK(c, h) && CanWriteFp(c, h, w) && FSFixed(c, h)
    ensures FSFixed(c, MarkFp(c, SetFp(c, h, w), w))
  {
    RoundingIndication(c, h);
    var g := SetFp(c, h, w);
    assert MSTATUS_FS_CHAR in g.arch <==> MSTATUS_FS_CHAR in g.arch - {RM_INVALID_CHAR};
    if Field2(h.status, FS) != 0 {
      MarkStaysOn(c, g, w);
    } else if Field2(MarkFp(c, g, w).status, FS) != 0 {
      MarkTurnsOn(c, g, w);
    }
  }

  lemma FloatKeepsFSFixed(c: Config, h: Hart, f: FpStep)
    requires ValidConfig(c) && !CanGoStale(c)
    requires Inv(c, h) && ArchOK(c, h) && CanFloat(c, h, f) && FSFixed(c, h)
    ensures FSFixed(c, StepFloat(c, h, f))
  {
    RoundingIndication(c, h);
    if f.WriteFp? {
      FpWriteKeepsFSFixed(c, h, f.w);
    }
  }

  lemma SignalKeepsFSFixed(c: Config, h: Hart, s: Signal)
    requires ValidConfig(c) && IrqOK(h.irq) && CanSignal(c, h, s) && FSFixed(c, h)
    ensures FSFixed(c, StepSignal(c, h, s))
  {
    if !s.ResetNet? {
      SignalKeepsFS(c, h, s);
    }
  }

  lemma StepKeepsFSFixed(c: Config, h: Hart, e: Event)
    requires ValidConfig(c) && !CanGoStale(c)
    requires Inv(c, h) && ArchOK(c, h) && Enabled(c, h, e) && FSFixed(c, h)
    ensures FSFixed(c, Step(c, h, e))
  {
    match e
    case Execute(i) => InstructionKeepsFS(c, h, i);
    case Csr(a) => AccessKeepsFSFixed(c, h, a);
    case Float(f) => FloatKeepsFSFixed(c, h, f);
    case External(s) => SignalKeepsFSFixed(c, h, s);
  }

  /** Instruction decode and the reset value make every step safe. */
  lemma StepsSafe(c: Config, h: Hart, e: Event)
    requires ValidConfig(c) && !CanGoStale(c)
    requires Inv(c, h) && ArchOK(c, h) && Enabled(c, h, e) && FSFixed(c, h)
    ensures ArchSafe(c, h, e)
  {
    RoundingIndication(c, h);
  }

  lemma {:induction false} RunStaysRight(c: Config, h: Hart, es: seq<Event>)
    requires ValidConfig(c) && !CanGoStale(c)
    requires Inv(c, h) && ArchOK(c, h) && FSFixed(c, h) && Feasible(c, h, es)
    ensures ArchOK(c, After(c, h, es))
    decreases |es|
  {
    if es != [] {
      StepsSafe(c, h, es[0]);
      StepArch(c, h, es[0]);
      StepKeepsInv(c, h, es[0]);
      StepKeepsFSFixed(c, h, es[0]);
      RunStaysRight(c, Step(c, h, es[0]), es[1..]);
    }
  }

  // ---------------------------------------------------------------- these do not

  /** Some run leads from g to h. */
  ghost predicate Reachable(c: Config, g: Hart, h: Hart) {
    exists es :: Feasible(c, g, es) && After(c, g, es) == h
  }

  lemma ReachStep(c: Config, g: Hart, h: Hart, e: Event)
    requires Reachable(c, g, h) && IrqOK(h.irq) && Enabled(c, h, e)
    ensures Reachable(c, g, Step(c, h, e))
  {
    var es :| Feasible(c, g, es) && After(c, g, es) == h;
    RunOne(c, h, e);
    RunAppend(c, g, es, [e]);
  }

  /** FS reads Dirty while currentArch says that floating point is off. */
  predicate Stale(h: Hart) {
    Field2(h.status, FS) == DIRTY && MSTATUS_FS_CHAR !in h.arch
  }

  /** What is known of the processor after construction. */
  ghost predicate Booted(c: Config, g: Hart) {
    && Inv(c, g) && ArchOK(c, g)
    && g.misa == c.arch && !PendingFlags(c, g.fp) && Field2(g.status, FS) == c.resetFS && !g.nets.reset
  }

  lemma PowerOnBooted(c: Config, ipWords: nat)
    requires ValidConfig(c) && ipWords > 0
    ensures Booted(c, PowerOn(c, ipWords)) && FSFixed(c, PowerOn(c, ipWords))
  {
    PowerOnInv(c, ipWords);
    PowerOnArch(c, ipWords);
  }

  /** The mask lets software write FS if FSWritable, and VS where there is one. */
  predicate MaskOK(c: Config, mask: Bits) {
    && (FS in mask <==> FSWritable(c)) && (FS + 1 in mask <==> FSWritable(c))
    && ('V' in c.arch && c.vs == VS8 ==> VS_8 in mask)
    && ('V' in c.arch && c.vs == VS9 ==> VS_9 in mask)
  }

  lemma StatusMaskOK(c: Config)
    ensures MaskOK(c, StatusMask(c))
  {
  }

  lemma LegalStatusSets(c: Config, w: Bits, value: Bits, mask: Bits)
    requires MaskOK(c, mask)
    ensures var w' := LegalStatus(c, w, value, mask);
            && Field2(w', FS) == (if FSWritable(c) then Field2(value, FS) else Field2(w, FS))
            && ('V' in c.arch && VECTOR_ON <= value ==> !VectorOff(c, w'))
  {
  }

  /** Software turns the vector extension on and, if it can, floating point off or on. */
  const VECTOR_ON: Bits := {VS_9, VS_9 + 1, VS_8, VS_8 + 1}
  const ALL_ON: Bits := VECTOR_ON + {FS, FS + 1}

  /** Ready for a stale run: FS as asked if it can be, and the features that FS and VS allow. */
  ghost predicate Prepared(c: Config, h: Hart, fs: nat) {
    && Inv(c, h) && ArchOK(c, h) && !PendingFlags(c, h.fp) && !h.nets.reset
    && Field2(h.status, FS) == (if FSWritable(c) then fs else c.resetFS)
    && ('V' in c.arch ==> 'V' in h.arch)
    && (Field2(h.status, FS) != 0 ==> {'D', 'F'} * c.arch <= h.arch)
    && (MSTATUS_FS_CHAR in h.arch <==> Field2(h.status, FS) != 0)
  }

  lemma StatusWritePrepares(c: Config, g: Hart, value: Bits)
    requires ValidConfig(c) && Booted(c, g) && VECTOR_ON <= value
    ensures Prepared(c, StatusW(c, g, value, StatusMask(c)), Field2(value, FS))
  {
    StatusKeepsInv(c, g, value, StatusMask(c));
    StatusWriteArch(c, g, value, StatusMask(c));
    StatusMaskOK(c);
    LegalStatusSets(c, g.status, value, StatusMask(c));
    RoundingIndication(c, StatusW(c, g, value, StatusMask(c)));
  }

  /** The state after software has written mstatus first thing. */
  lemma FirstWrite(c: Config, g: Hart, value: Bits) returns (h: Hart)
    requires ValidConfig(c) && Booted(c, g) && VECTOR_ON <= value
    ensures Reachable(c, g, h) && Prepared(c, h, Field2(value, FS))
  {
    assert Feasible(c, g, []) && After(c, g, []) == g;
    ReachStep(c, g, g, Csr(WriteStatus(MView, value)));
    h := StatusW(c, g, value, StatusMask(c));
    StatusWritePrepares(c, g, value);
  }

  /** What versions before 0.8 may do in a state where FS is Off. */
  lemma OldFcsrWrite(c: Config, h: Hart, flags: set<FpFlag>, frm: nat, sat: bool)
    requires 'V' in c.arch && c.vs == NoVS && FSCanBeOff(c) && Prepared(c, h, 0)
    ensures CanFloat(c, h, WriteFp(ToFcsr(flags, frm, sat)))
    ensures c.fsMode != AlwaysDirty ==> Stale(StepFloat(c, h, WriteFp(ToFcsr(flags, frm, sat))))
  {
  }

  lemma OldVectorFlags(c: Config, h: Hart, flags: set<FpFlag>)
    requires 'V' in c.arch && c.vs == NoVS && FSCanBeOff(c) && VectorFp(c) && Prepared(c, h, 0) && flags != {}
    ensures CanFloat(c, h, FpI(flags)) && Stale(StatusR(c, FpOperation(c, h, flags)))
  {
    ShowsDirtyIff(c, FpOperation(c, h, flags));
  }

  /** With V alone fcsr is writable, which marks FS dirty behind a cache that was right. */
  lemma FcsrWriteGoesStale(c: Config, g: Hart) returns (h: Hart)
    requires ValidConfig(c) && Booted(c, g)
    requires 'V' in c.arch && c.vs == NoVS && FSCanBeOff(c) && c.fsMode != AlwaysDirty
    ensures Reachable(c, g, h) && Inv(c, h) && ArchOK(c, h)
    ensures CanFloat(c, h, WriteFp(ToFcsr({}, 0, false))) && Stale(StepFloat(c, h, WriteFp(ToFcsr({}, 0, false))))
  {
    h := FirstWrite(c, g, VECTOR_ON);
    OldFcsrWrite(c, h, {}, 0, false);
  }

  /** In any FS mode flags accrue while FS is Off: the next status read turns FS on. */
  lemma OldVectorGoesStale(c: Config, g: Hart) returns (h: Hart)
    requires ValidConfig(c) && Booted(c, g)
    requires 'V' in c.arch && c.vs == NoVS && FSCanBeOff(c) && VectorFp(c)
    ensures Reachable(c, g, h) && Inv(c, h) && ArchOK(c, h)
    ensures CanFloat(c, h, FpI({NX})) && Stale(StatusR(c, StepFloat(c, h, FpI({NX}))))
  {
    h := FirstWrite(c, g, VECTOR_ON);
    OldVectorFlags(c, h, {NX});
  }

  /** An instruction whose flags reset will find pending: scalar with D or F, saturating with vectors 0.8. */
  function FlagEvent(c: Config): FpStep {
    if 'D' in c.arch || 'F' in c.arch then FpI({NX}) else SatI(true)
  }

  lemma FlagPends(c: Config, h: Hart)
    requires ValidConfig(c) && FSWritable(c) && Prepared(c, h, DIRTY)
    ensures CanFloat(c, h, FlagEvent(c))
    ensures var h' := StepFloat(c, h, FlagEvent(c)); Inv(c, h') && ArchOK(c, h') && PendingFlags(c, h'.fp)
  {
    FloatKeepsInv(c, h, FlagEvent(c));
    FloatArch(c, h, FlagEvent(c));
  }

  /** Reset to FS Off leaves flags pending: the next status read turns FS on. */
  lemma UnconsolidatedResetGoesStale(c: Config, g: Hart) returns (h: Hart)
    requires ValidConfig(c) && Booted(c, g) && ResetDropsFS(c)
    ensures Reachable(c, g, h) && Inv(c, h) && ArchOK(c, h)
    ensures Stale(StatusR(c, Step(c, h, External(ResetNet(false)))))
  {
    var h0 := FirstWrite(c, g, ALL_ON);
    FlagPends(c, h0);
    ReachStep(c, g, h0, Float(FlagEvent(c)));
    var h1 := StepFloat(c, h0, FlagEvent(c));
    RaiseReset(c, h1);
    ReachStep(c, g, h1, External(ResetNet(true)));
    h := ResetPin(c, h1, true);
    PendingResetIsStale(c, h);
  }

  /** Flags accrued while FS is Off show it dirty, but not lastingly in mode always-dirty. */
  lemma AccruedWhileOff(c: Config, h: Hart, flags: set<FpFlag>)
    requires 'V' in c.arch && c.vs == NoVS && FSCanBeOff(c) && Prepared(c, h, 0)
    requires c.fsMode == AlwaysDirty && flags != {}
    ensures var h' := FpOperation(c, h, flags); Inv(c, h') && ShowsDirty(c, h') && !LastingDirty(c, h')
    ensures 'V' in FpOperation(c, h, flags).arch
  {
    AccrueKeepsInv(c, h, flags, false);
    ShowsDirtyIff(c, FpOperation(c, h, flags));
  }

  lemma FlagsWhileOff(c: Config, g: Hart) returns (h: Hart)
    requires ValidConfig(c) && Booted(c, g)
    requires 'V' in c.arch && c.vs == NoVS && FSCanBeOff(c) && VectorFp(c) && c.fsMode == AlwaysDirty
    ensures Reachable(c, g, h) && Inv(c, h) && ShowsDirty(c, h) && !LastingDirty(c, h) && 'V' in h.arch
  {
    var h0 := FirstWrite(c, g, VECTOR_ON);
    OldVectorFlags(c, h0, {NX});
    ReachStep(c, g, h0, Float(FpI({NX})));
    h := FpOperation(c, h0, {NX});
    AccruedWhileOff(c, h0, {NX});
  }

  /** An enabled write of fcsr then discards the indication, whatever is written. */
  lemma DirtyIsDiscarded(c: Config, g: Hart, flags: set<FpFlag>, frm: nat, sat: bool) returns (h: Hart)
    requires ValidConfig(c) && Booted(c, g)
    requires 'V' in c.arch && c.vs == NoVS && FSCanBeOff(c) && VectorFp(c) && c.fsMode == AlwaysDirty
    ensures Reachable(c, g, h) && Inv(c, h) && ShowsDirty(c, h)
    ensures CanFloat(c, h, WriteFp(ToFcsr(flags, frm, sat))) &&
            !ShowsDirty(c, StepFloat(c, h, WriteFp(ToFcsr(flags, frm, sat))))
  {
    h := FlagsWhileOff(c, g);
    FcsrWriteKeepsDirty(c, h, flags, frm, sat);
  }

  lemma RaiseReset(c: Config, h: Hart)
    requires ValidConfig(c) && Inv(c, h) && ArchOK(c, h)
    ensures var h' := ResetPin(c, h, true); h'.nets.reset && h'.fp == h.fp && Inv(c, h') && ArchOK(c, h')
  {
    ResetPinKeepsInv(c, h, true);
  }

  lemma ResetFacts(c: Config, h: Hart)
    ensures Reset(c, h).fp == h.fp && Reset(c, h).status == ResetStatus(c)
    ensures MSTATUS_FS_CHAR in Reset(c, h).arch <==>
              MSTATUS_FS_CHAR in c.arch || Field2(ResetStatus(c), FS) != 0
  {
  }

  lemma PendingResetIsStale(c: Config, h: Hart)
    requires ValidConfig(c) && PendingFlags(c, h.fp) && c.resetFS == 0 && h.nets.reset
    ensures Stale(StatusR(c, ResetPin(c, h, false)))
  {
    ResetFacts(c, h);
    ShowsDirtyIff(c, ResetPin(c, h, false));
  }

  // ---------------------------------------------------------------- the classification

  /** currentArch is the function of misa, mstatus and frm in every reachable state. */
  ghost predicate AlwaysRight(c: Config, g: Hart) {
    forall h :: Reachable(c, g, h) ==> CacheRight(c, h)
  }

  lemma StaleIsWrong(c: Config, h: Hart)
    requires Stale(h)
    ensures !CacheRight(c, h)
  {
  }

  lemma StaysRight(c: Config, g: Hart)
    requires ValidConfig(c) && !CanGoStale(c) && Booted(c, g) && FSFixed(c, g)
    ensures AlwaysRight(c, g)
  {
    forall h | Reachable(c, g, h) ensures CacheRight(c, h) {
      var es :| Feasible(c, g, es) && After(c, g, es) == h;
      RunStaysRight(c, g, es);
    }
  }

  /** A state that one step, and perhaps a status read, make stale. */
  lemma GoesWrong(c: Config, g: Hart, h: Hart, e: Event)
    requires ValidConfig(c) && Reachable(c, g, h) && Inv(c, h) && Enabled(c, h, e)
    requires Stale(Step(c, h, e)) || Stale(StatusR(c, Step(c, h, e)))
    ensures !AlwaysRight(c, g)
  {
    ReachStep(c, g, h, e);
    StepKeepsInv(c, h, e);
    ReachStep(c, g, Step(c, h, e), Csr(ReadStatus));
    if Stale(Step(c, h, e)) {
      StaleIsWrong(c, Step(c, h, e));
    } else {
      StaleIsWrong(c, StatusR(c, Step(c, h, e)));
    }
  }

  lemma GoesStale(c: Config, g: Hart)
    requires ValidConfig(c) && CanGoStale(c) && Booted(c, g)
    ensures !AlwaysRight(c, g)
  {
    if ResetDropsFS(c) {
      var h := UnconsolidatedResetGoesStale(c, g);
      GoesWrong(c, g, h, External(ResetNet(false)));
    } else if VectorFp(c) {
      var h := OldVectorGoesStale(c, g);
      GoesWrong(c, g, h, Float(FpI({NX})));
    } else {
      var h := FcsrWriteGoesStale(c, g);
      GoesWrong(c, g, h, Float(WriteFp(ToFcsr({}, 0, false))));
    }
  }

  /**
   A configuration keeps currentArch right in every state reachable from power-on if and
   only if it admits none of the stale runs.
   */
  lemma ArchClassification(c: Config, ipWords: nat)
    requires ValidConfig(c) && ipWords > 0
    ensures AlwaysRight(c, PowerOn(c, ipWords)) <==> !CanGoStale(c)
  {
    PowerOnBooted(c, ipWords);
    if CanGoStale(c) {
      GoesStale(c, PowerOn(c, ipWords));
    } else {
      StaysRight(c, PowerOn(c, ipWords));
    }
  }
}
