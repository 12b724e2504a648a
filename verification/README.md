# The privileged state machine of a RISC-V hart

A Dafny model of the part of riscvOVPsim that implements the RISC-V Privileged
Architecture (20190405-Priv-MSU-Ratification): traps and returns, interrupt masking and
selection, Debug mode, WFI, reset and NMI; the control and status registers and the caches
that must agree with them; the LR/SC reservation protocol between harts; the cycle and
instruction counters; and the legalisation of the configuration all of this depends on.

The properties are about whole runs. They are proved of functions from state to state, and
the routines that update the processor structure in place (`Processor`, `CounterUnit`,
`VectorState`, `Monitor`, `VectorSizes`) are proved to compute those functions.

A word used as a bit mask is the set of its 1-bit positions; `misa` and `currentArch` are
sets of feature letters, with the characters after 'Z' for the pseudo-features, as in the
source. A word used as a number is a natural number.

| file | contents |
|---|---|
| `Words.dfy` | words |
| `HartState.dfy` | configuration, register layouts, write masks, the state of a hart |
| `Traps.dfy`, `Csr.dfy` | the operations as functions |
| `Effects.dfy`, `RegisterEffects.dfy` | what each operation does to each register, bit by bit |
| `Machine.dfy` | events, the invariant of every reachable state, delegation |
| `Events.dfy` | when events are possible, what they run, where runs begin |
| `Waiting.dfy` | why a hart is halted, and when a wait ends |
| `Interrupts.dfy` | masking, selection and delivery of interrupts |
| `Nesting.dfy` | traps, handlers and Debug sessions nest |
| `DebugMode.dfy` | Debug mode is opaque |
| `ArchCache.dfy` | which steps and runs keep `currentArch` in agreement with its inputs |
| `StaleArch.dfy` | which configurations let it go stale |
| `FloatFlags.dfy` | accrued flags and mstatus.FS |
| `Confinement.dfy` | Supervisor and User views, pending bits |
| `Processor.dfy` | the processor structure, updated in place |
| `Counters.dfy` | cycle and instret |
| `Reservation.dfy` | LR/SC across harts |
| `Configuration.dfy` | parameters |
| `VectorUnit.dfy` | vl, vtype and the polymorphic key |

## What the code does not do

- `currentArch` can go stale. `StaleArch.ArchClassification` says in exactly which
  configurations, and each family has a run from power-on that shows it. With a vector
  version before 0.8, V alone makes fcsr writable while FS is Off, and the write marks FS
  dirty (`StaleArch.FcsrWriteGoesStale`); where there is a floating point format for some
  element width, vector instructions also accrue flags while FS is Off, and the later update
  of FS does not refresh the cache (`StaleArch.OldVectorGoesStale`). Reset writes mstatus
  without consolidating pending flags, so that if FS resets to Off the next status read
  turns it on (`StaleArch.UnconsolidatedResetGoesStale`).
- In mode always-dirty, flags accrued while FS is Off show FS dirty, but a write of fcsr
  discards the indication: exactly when by `FloatFlags.FcsrWriteKeepsDirty`, from power-on
  by `StaleArch.DirtyIsDiscarded`. The debugger overwrites flags without marking FS
  (`FloatFlags.PokeKeepsDirty`).
- Reset of a suspended hart clears its tag but leaves its write watch installed, and the
  watch can later cost the hart an unrelated reservation
  (`Reservation.ResetLeavesStaleWatch`). SC failures are then spurious, never SC successes:
  the safety theorem `Reservation.SuccessfulScIsAtomic` includes such resets.
- Leaving Debug mode from outside with dcsr.stopcount set makes instret one less, because
  instretW always applies the pre-increment that is meant for a register write; cycleW is
  told not to. `Counters.DebugChangeLosesCount` says exactly when. For the same reason a
  debugger that writes a running instret reads back one less
  (`Counters.PokeInstretShort`).
- Ending a handler in mode x by a second trap to x loses the way back
  (`Nesting.SameModeNestingLosesPC`), which is why the nesting theorem has a floor.
- A non-power-of-two lr_sc_grain is rounded in the configuration but not in the tag mask.
  The watched range still contains the reserved address (`Configuration.TagCovers`), but
  tags are granule bases, and the ranges of different tags disjoint, if and only if the
  grain is a power of two (`Configuration.TagAligned`); `Configuration.OddGrainOverlaps`
  gives the address that fails for every other grain.
- That N implies U, which the parameter code intends, is not needed: URET is decoded only
  if U is implemented (source/riscvMorph.c:2004-2012), so no run reaches an unimplemented
  mode.

## What is assumed

The debugger writes only implemented modes to dcsr.prv, since leaveDM does not check them.
Configured reset and NMI addresses are multiples of 4. XLEN is fixed. Ordinary
instructions leave the PC aligned while C is off. The simulator counts an instruction once
its callbacks have run. These are stated in `ValidConfig`, `CanExecute`, `CanSignal` and
`Counters.Retire`. Instructions are enabled as in source/riscvMorph.c:8912-8935, with the
operand checks of source/riscvMorph.c:815-852 and source/riscvMorph.c:4615-4632, and
registers accessible as in source/riscvCSR.c:3456-3532, except that the privilege mode is
not required.

## Model

| member | source | states |
|---|---|---|
| Machine.EveryReachableStateOK | source/riscvMain.c:377-445 | every state reachable from power-on by any sequence of traps, returns, register accesses, FP and vector steps, pins, Debug requests, NMI and reset satisfies the invariant `Inv` |
| Machine.RunKeepsInv | source/riscvStructure.h:150-270 | any feasible run from a state in the invariant ends in it: mode, MPP, SPP and dcsr.prv name implemented modes; mip equals pins or software bits; no lost wakeup; halted iff disabled; misa legal; PC word-aligned while C is off |
| Machine.StepKeepsInv | source/riscvExceptions.c:387-935 | one event of any kind keeps the invariant |
| Machine.PowerOnInv | source/riscvMain.c:411-444 | construction establishes the invariant for every valid configuration |
| Machine.TrapKeepsInv | source/riscvExceptions.c:398-480 | a trap reaches an implemented mode, saves an implemented mode and installs an aligned PC |
| Machine.XretKeepsInv | source/riscvExceptions.c:595-723 | a return reaches an implemented mode at an aligned PC and leaves legal saved modes |
| Machine.EnterDMKeepsInv | source/riscvExceptions.c:761-796 | entering Debug mode saves an implemented mode and keeps halted equal to disabled |
| Machine.LeaveDMKeepsInv | source/riscvExceptions.c:801-824 | leaving Debug mode reaches an implemented mode at an aligned PC |
| Machine.FetchKeepsInv | source/riscvExceptions.c:1239-1285 | halt requests, interrupts and fetch faults taken at fetch keep the invariant |
| Machine.StatusKeepsInv | source/riscvCSR.c:557-601 | no write of mstatus, sstatus or ustatus saves an unimplemented mode in MPP or SPP or loses a wakeup |
| Machine.IeKeepsInv | source/riscvCSR.c:915-945 | writes of mie, sie and uie wake a waiting hart if they enable something pending, and enable only codes below 32 |
| Machine.IpKeepsInv | source/riscvCSR.c:800-829 | writes of mip, sip and uip keep mip equal to pins or software bits and wake a waiting hart |
| Machine.PinKeepsInv | source/riscvExceptions.c:1744-1767 | a pin change keeps mip equal to pins or software bits and wakes a waiting hart |
| Machine.MisaKeepsInv | source/riscvCSR.c:64-135 | misa keeps exactly one of I and E, the configured D/F constraint and only implemented features, and C goes off only at an aligned PC |
| Machine.ReachableDF | source/riscvCSR.c:95-125 | in every reachable state D implies F if so configured, and they go together if only one is writable |
| Machine.DelegationWriteKeepsInv | source/riscvCSR.c:992-1033 | delegation writes never direct a code to an unimplemented mode |
| Machine.ResetKeepsInv | source/riscvExceptions.c:1590-1621 | reset from any state, in or out of Debug mode, keeps the invariant |
| Machine.CsrResetEstablishes | source/riscvCSR.c:2748-2780 | CSR reset makes mstatus, misa and dcsr legal whatever they were |
| Machine.NmiKeepsInv | source/riscvExceptions.c:1626-1711 | an NMI edge keeps the invariant |
| Machine.RunKeepsDelegable | source/riscvCSR.c:3000-3071 | over every run only codes allowed by the delegation masks are delegated |
| Machine.MachineCodesStayInMachine | source/riscvCSR.c:3009-3018 | in every reachable state Machine interrupts, local interrupts and ECALL from Machine mode are taken in Machine mode |
| HartState.MinMode | source/riscvUtils.c:358-367 | the least implemented mode |
| HartState.ResetStatus | source/riscvCSR.c:2785-2810 | MPP and SPP reset to the least mode, FS to its parameter, all interrupt enables to 0 |
| Interrupts.MasksAgreeWithTarget | source/riscvExceptions.c:1106-1157 | an interrupt survives masking if and only if it is pending, enabled, outside Debug mode and directed above the current mode or to it with xIE set; it is then taken where delegation directs, so the privilege clamp does not act |
| Interrupts.NothingLeftAfterInterrupt | source/riscvExceptions.c:1196-1233 | after an interrupt is taken the pending-and-enabled mask is empty |
| Interrupts.SelectInterrupt | source/riscvExceptions.c:1196-1229 | the shifting loop finds the maximum of the mask in the order (target mode, fixed priority, number) |
| Interrupts.PriorityOrder | source/riscvExceptions.c:1162-1182 | among interrupts directed to one mode the order is that of section 3.1.9 of the Privileged Architecture, then local interrupts by number |
| Interrupts.TrapPrivilege | source/riscvExceptions.c:227-247 | no trap lowers privilege, and xPP holds exactly the interrupted mode: SPP's one bit suffices |
| Interrupts.TrapRecords | source/riscvExceptions.c:286-309 | xcause and xtval describe the trap, with external interrupts renumbered by a non-zero ID; vectored interrupt e enters at base+4e and exceptions at base |
| Effects.ExceptionTarget | source/riscvExceptions.c:227-261 | an exception enters Machine mode unless medeleg delegates it, then Supervisor mode unless sedeleg does, but no mode below the current one |
| Effects.InterruptTarget | source/riscvExceptions.c:227-261 | the same of interrupts with mideleg and sideleg |
| Effects.TrapStatus | source/riscvExceptions.c:286-309 | every bit of mstatus after a trap: xPIE is xIE, xIE is 0, xPP is the old mode, the rest is kept |
| Effects.TrapRegisters | source/riscvExceptions.c:286-309 | a trap writes the registers of the mode it enters alone, with the PC masked to its alignment, and drops the reservation |
| Effects.TrapEntry | source/riscvExceptions.c:460-466 | interrupts enter at base+4e where xtvec or a custom mode is vectored; all else enters at base |
| Effects.EcallEffect | source/riscvExceptions.c:577-583 | ECALL reports 8, 9 or 11 by its mode and no value |
| Effects.FetchEffect | source/riscvExceptions.c:1239-1285 | the order at a fetch: halt request latched at reset, halt request, greatest interrupt, fetch fault |
| Effects.ReturnMode | source/riscvExceptions.c:595-632 | a return enters the saved mode, or the least implemented one if that is not implemented |
| Effects.ReturnStatus | source/riscvExceptions.c:650-660 | every bit of mstatus after a return: xIE is xPIE, xPIE is 1, xPP is the least mode, MPRV is cleared exactly from 1.12 on when a lower mode is entered, the rest is kept |
| Effects.ReturnRest | source/riscvExceptions.c:595-723 | the PC is xepc, rounded while C is off; the reservation is kept exactly if so configured; a wait ends exactly if something enabled is pending |
| Effects.ReturnInDebug | source/riscvExceptions.c:637-723 | in Debug mode a return does nothing |
| Effects.WfiEffect | source/riscvExceptions.c:1519-1524 | WFI halts the hart if and only if it is outside Debug mode with nothing enabled pending |
| Effects.TestInterruptEffect | source/riscvExceptions.c:1529-1585 | the wakeup test removes the wait exactly if something enabled is pending, and no other reason |
| Effects.StallEffect | source/riscvExceptions.c:733-745 | the stall indication halts and restarts the hart unless Debug mode is signalled by an interrupt |
| Effects.EnterEffect | source/riscvExceptions.c:761-796 | Debug mode is entered in Machine mode with mode, PC and cause saved; a second entry only stalls |
| Effects.LeaveEffect | source/riscvExceptions.c:801-824 | it is left in the saved mode at the saved PC, with MPRV as for a return |
| Effects.RequestEffect | source/riscvExceptions.c:829-859 | outside requests act on the other state only, and the step timer with dcsr.step set outside Debug mode |
| Effects.EbreakEffect | source/riscvExceptions.c:899-935 | each mode has its own ebreak bit; without it EBREAK is exception 3 |
| Effects.DretEffect | source/riscvExceptions.c:874-894 | DRET leaves Debug mode, and outside it is exception 2 |
| Effects.PinEffect | source/riscvExceptions.c:1744-1767 | a pin drives its own bit of its own word, and mip follows |
| Effects.NmiEffect | source/riscvExceptions.c:1626-1711 | a falling NMI edge outside Debug mode enters Machine mode at the NMI address with the PC saved; nmip mirrors the level |
| Effects.ResetEffect | source/riscvExceptions.c:1590-1621 | every register after reset |
| Effects.ResetPinEffect | source/riscvExceptions.c:1673-1691 | the reset pin holds the hart while high and resets it when it falls |
| RegisterEffects.InterruptMaskBits | source/riscvExceptions.c:1440-1470 | the interrupts that exist |
| RegisterEffects.IdelegMaskBits | source/riscvCSR.c:3000-3071 | exactly the Supervisor and User interrupts can be delegated, and the User ones twice |
| RegisterEffects.EdelegMaskBits | source/riscvCSR.c:3000-3071 | exceptions can be delegated but for ECALL from Machine mode, and twice but for ECALL from Supervisor mode |
| RegisterEffects.StatusMaskBits | source/riscvCSR.c:2885-2935 | the fields of a mode are writable exactly if it is implemented |
| RegisterEffects.SharedStatusMaskBits | source/riscvCSR.c:2885-2935 | the same of fields that depend on two modes or on the version; reserved bits never |
| RegisterEffects.ExtensionMaskBits | source/riscvCSR.c:2934-2978 | the same of FS, VS and the endianness bits |
| RegisterEffects.ResetStatusBits | source/riscvCSR.c:2785-2810 | every bit of the reset value of mstatus |
| RegisterEffects.ViewMaskBits | source/riscvCSR.c:773-900 | what the Supervisor and User names of the interrupt registers reach |
| RegisterEffects.IeEffect | source/riscvCSR.c:915-945 | every bit after a write of mie, sie or uie |
| RegisterEffects.IpEffect | source/riscvCSR.c:800-829 | every bit after a write of mip, sip or uip; pins are kept and mip follows |
| RegisterEffects.IpReads | source/riscvCSR.c:781-795 | a read sees pins and software bits, the read half of a read-modify-write software bits alone |
| RegisterEffects.DelegationEffect | source/riscvCSR.c:992-1033 | every bit after a write of a delegation register |
| RegisterEffects.IeWakes | source/riscvCSR.c:915-945 | a change of the enables tests for interrupts |
| RegisterEffects.DelegationWakes | source/riscvCSR.c:992-1033 | so does a change of interrupt delegation |
| RegisterEffects.TvecEffect | source/riscvCSR.c:1044-1090 | xtvec takes the address rounded down and the mode bit; other modes keep theirs |
| RegisterEffects.EpcEffect | source/riscvCSR.c:2982-2990 | xepc takes the address under its mask |
| RegisterEffects.DcsrEffect | source/riscvCSR.c:1844-1866 | dcsr takes the fields written; cause and nmip only from the debugger, ebreak bits only of implemented modes |
| RegisterEffects.StatusOutside | source/riscvCSR.c:557-601 | a status write keeps the bits outside its mask, but for FS |
| RegisterEffects.StatusViews | source/riscvCSR.c:675-707 | the masks of the three views, and FS by consolidation |
| RegisterEffects.StatusWakes | source/riscvCSR.c:590-601 | a status write that turns an enable on tests for interrupts |
| RegisterEffects.StatusReads | source/riscvCSR.c:513-552 | SD, FS, VS and the flags after a status read; all other bits are kept |
| RegisterEffects.FpWriteEffect | source/riscvCSR.c:253-422 | what each write leaves in flags, rounding mode and vxsat |
| RegisterEffects.FpMarkEffect | source/riscvMorph.c:2575-2612 | which status field the writing instruction marks dirty |
| RegisterEffects.AccrueEffect | source/riscvMorph.c:3152-3163 | flags and saturation accrue in the JIT half, and FS is marked at once only in mode write-any |
| RegisterEffects.VectorMarkEffect | source/riscvMorph.c:711-734 | a vector instruction marks VS where there is one |
| RegisterEffects.ArchMeaning | source/riscvUtils.c:42-93 | a feature is enabled if misa has it and neither FS nor VS turns it off |
| RegisterEffects.MisaDF | source/riscvCSR.c:95-125 | the D and F that a write of misa leaves, in each case of what is writable |
| RegisterEffects.MisaOthers | source/riscvCSR.c:72-93 | every other feature takes the written value if writable and stays otherwise; E is the complement of I |
| Events.InstructionsAvailable | source/riscvMorph.c:8912-8935 | floating point and vector instructions are enabled exactly as misa, FS, VS and the configured formats say |
| Events.RegistersAvailable | source/riscvCSR.c:3456-3474 | so are their registers accessible |
| Events.PokesAvailable | source/riscvCSR.c:2275-2287 | the debugger can write what an instruction can |
| Events.ControlAvailable | source/riscvMorph.c:2004-2012 | traps, WFI, LR and SC are always possible, returns from implemented modes |
| Events.AccessAvailable | source/riscvCSR.c:3487-3533 | which registers exist |
| Events.SignalAvailable | source/riscvExceptions.c:1673-1767 | signals are possible at any time on ports that exist |
| Events.PowerOnRegisters | source/riscvMain.c:411-444 | every control register after construction |
| Events.PowerOnRest | source/riscvMain.c:411-444 | all other state after construction |
| Waiting.RunWaits | source/riscvExceptions.c:1519-1585 | over every run a waiting hart goes on waiting exactly as long as nothing enabled becomes pending and there is no NMI or reset |
| Waiting.StepWaits | source/riscvExceptions.c:1519-1585 | a hart waits after an event if and only if it waited and was not woken, or the event is WFI with nothing pending |
| Waiting.RunReasons | source/riscvExceptions.c:178-199 | over every run the reset reason is the level of the reset pin and the Debug reason the stall indication |
| Waiting.HaltedMeans | source/riscvExceptions.c:178-199 | in every reachable state the hart is halted if and only if it waits, the reset pin is high, or Debug mode stalls it |
| Traps.SelectedExists | source/riscvExceptions.c:1196-1233 | every non-empty mask has a greatest interrupt |
| Traps.SelectedUnique | source/riscvExceptions.c:1211-1222 | it is unique |
| Nesting.HandledTrapIsTransparent | source/riscvExceptions.c:387-481 | after an event that takes a trap, the events of any properly nested handler and its xRET, mode, PC, MIE, SIE and UIE are exactly restored |
| Nesting.NestedRunRestores | source/riscvExceptions.c:286-309 | every well-bracketed run of traps, handlers, Debug sessions and ordinary events restores mode and enables, and leaves the saved state of all lower handlers alone |
| Nesting.NestedRunIsRun | source/riscvExceptions.c:387-481 | the events of a well-bracketed run, in order, are a feasible run of the hart to the same state |
| Nesting.OrdinaryRestores | source/riscvMorph.c:692-706 | ordinary instructions, floating point and vector steps, accesses to status, xie, xip and xtvec, and pins qualify as ordinary events |
| Nesting.ExceptionTraps | source/riscvExceptions.c:387-481 | outside Debug mode an exception qualifies as an event that takes a trap |
| Nesting.EcallTraps | source/riscvExceptions.c:577-583 | so does ECALL |
| Nesting.DretTraps | source/riscvExceptions.c:874-894 | so does DRET, as an illegal instruction |
| Nesting.EbreakTrapsOrHalts | source/riscvExceptions.c:899-935 | so does EBREAK, unless the ebreak bit of the current mode makes it enter Debug mode |
| Nesting.FetchEvents | source/riscvExceptions.c:1239-1285 | so does a fetch with an interrupt pending and enabled, which takes the selected one, or else with a fetch fault |
| Nesting.RequestHalts | source/riscvExceptions.c:829-840 | a debugger request qualifies as an event that enters Debug mode |
| Nesting.StepHalts | source/riscvExceptions.c:852-859 | so does the step timer with dcsr.step set |
| Nesting.FetchHalts | source/riscvExceptions.c:1239-1285 | so does a fetch with a halt request, or with the one latched at reset, which comes first |
| Nesting.TrapSaves | source/riscvExceptions.c:441-458 | a trap to x saves PC and status for x and touches no other mode's xepc |
| Nesting.PushSaves | source/riscvExceptions.c:286-293 | on mstatus, a trap stacks xIE and the mode, clears xIE only, and keeps other modes' stacks |
| Nesting.PopRestores | source/riscvExceptions.c:650-660 | on mstatus, a return restores xIE and keeps other modes' stacks |
| Nesting.ReturnRestores | source/riscvExceptions.c:615-723 | the return from x restores mode, PC and enables if the handler kept x's saved state |
| Nesting.SameModeNestingLosesPC | source/riscvExceptions.c:299-301 | wherever in a handler a second trap to its mode strikes, both returns lead back to the program if and only if the handler was at the program's address |
| DebugMode.DebugSessionRestores | source/riscvExceptions.c:761-824 | after any sequence of instructions, exceptions, ebreaks, xRETs, pins, NMI edges, step-timer callbacks and halt requests in Debug mode, leaving it restores mode, PC, trap registers and all of mstatus but MPRV, dcsr.cause is as at entry, and the reservation is kept unless LR or SC was executed |
| DebugMode.OpaqueRun | source/riscvExceptions.c:392-396 | such a sequence changes nothing but the PC, the reservation, inputs, halt state and dcsr.nmip |
| ArchCache.StepArch | source/riscvUtils.c:42-93 | across any step currentArch stays the function of misa, FS, VS and frm that defines it if and only if the step is safe, a condition on the state before it |
| ArchCache.RunArch | source/riscvCSR.c:478-601 | currentArch is that function in every state of a run if and only if every step of it is safe |
| ArchCache.ReachableArch | source/riscvMain.c:411-444 | so it is for every run from power-on |
| StaleArch.ArchClassification | source/riscvUtils.c:42-93 | currentArch is right in every state reachable from power-on if and only if the configuration has neither a vector version before 0.8 that bypasses an FS that can be Off, nor a writable FS that resets to Off |
| StaleArch.RunStaysRight | source/riscvMorph.c:8912-8925 | in the other configurations decode and the reset value make every step of every run safe |
| StaleArch.PowerOnBooted | source/riscvMain.c:411-444 | construction gives the state from which the stale runs below start |
| StaleArch.FcsrWriteGoesStale | source/riscvCSR.c:2235-2269 | where V is of a version before 0.8, FS can be Off and is not always dirty, a state reachable from power-on is right and an enabled write of fcsr makes FS Dirty with currentArch still without FS |
| ArchCache.FloatArch | source/riscvCSR.c:192-422 | floating point and vector steps keep the cache right if and only if FS is on or they do not write it |
| ArchCache.ResetArch | source/riscvCSR.c:2756-2770 | reset keeps the cache right if and only if no flags are pending or FS resets to on |
| ArchCache.StatusWriteArch | source/riscvCSR.c:557-589 | status writes refresh the cache |
| StaleArch.OldVectorGoesStale | source/riscvMorph.c:4615-4632 | where V is of a version before 0.8, FS can be Off and some element width has a floating point format, from a reachable state a vector instruction that raises a flag makes FS read Dirty with currentArch still without FS |
| StaleArch.UnconsolidatedResetGoesStale | source/riscvCSR.c:2760-2770 | where FS is writable and resets to Off, a reachable state with flags or saturation pending does so at reset |
| StaleArch.DirtyIsDiscarded | source/riscvMorph.c:692-706 | a state reachable from power-on in which FS reads Dirty and an enabled write of fcsr, whatever its value, makes it read otherwise |
| ArchCache.MisaUnchanged | source/riscvCSR.c:72-86 | a refused clear of C, and a write of the current value, leave the whole state unchanged |
| ArchCache.MisaWriteTakes | source/riscvCSR.c:72-93 | otherwise each writable feature outside the D/F constraint takes the value written |
| FloatFlags.HalvesRefineSticky | source/riscvCSR.c:225-299 | over every run the CSR and JIT halves together behave as one sticky flags register (and one vxsat) |
| FloatFlags.FcsrReadsSticky | source/riscvCSR.c:357-382 | after every run fcsr reads that register, with vxsat where it has the field |
| FloatFlags.FcsrRoundTrip | source/riscvCSR.c:387-422 | what is written to fcsr is read from it, in the fields the configuration has |
| FloatFlags.StepSeen | source/riscvCSR.c:478-493 | consolidation, traps, status accesses and reset do not change the flags software sees |
| FloatFlags.ReadKeepsOff | source/riscvCSR.c:513-552 | reading status never turns FS from Off to anything else |
| FloatFlags.DirtyUntilCleaned | source/riscvCSR.c:489-538 | in every configuration and whatever currentArch says, once FS reads Dirty it does so after every run without a status write, a reset or a debugger write of the flags, unless the mode is always-dirty and FS is Off |
| FloatFlags.DirtyLasts | source/riscvCSR.c:489-538 | where currentArch is right that exception never applies |
| FloatFlags.FcsrWriteKeepsDirty | source/riscvMorph.c:692-706 | a write of fcsr, whatever its value, keeps a Dirty indication if and only if that exception does not apply |
| FloatFlags.PokeKeepsDirty | source/riscvCSR.c:3344-3372 | a debugger write of fflags keeps it if and only if something other than pending floating point flags gives it |
| FloatFlags.RaisingFlagsShows | source/riscvMorph.c:3152-3163 | an instruction that raises a flag makes FS read Dirty in every fs mode; one that writes a floating point register does so unless FS is Off in mode always-dirty |
| Confinement.LowerViewsConfined | source/riscvCSR.c:675-707 | any sequence of sstatus, ustatus, sie, uie, sip and uip writes leaves mstatus outside sstatus_AMASK and the bits of undelegated interrupts unchanged |
| Confinement.UserViewsConfined | source/riscvCSR.c:773-775 | the User views reach only doubly delegated interrupts, and ustatus_AMASK and FS of mstatus |
| Confinement.StatusWriteExact | source/riscvCSR.c:565-581 | inside its mask a status write is exact, except that an unimplemented MPP keeps the old one |
| Confinement.IeWriteExact | source/riscvCSR.c:915-936 | inside its mask an interrupt enable write is exact |
| Confinement.ModifyIpExact | source/riscvCSR.c:781-892 | a set or clear of mip, sip or uip bits changes exactly the named writable software bits, latches no pin and clears no pin-driven bit |
| Processor.Processor.constructor | source/riscvMain.c:411-444 | construction yields the power-on state |
| Processor.Processor.HaltProcessor | source/riscvExceptions.c:178-185 | computes `Traps.Halt` |
| Processor.Processor.RestartProcessor | source/riscvExceptions.c:190-199 | computes `Traps.Restart` |
| Processor.Processor.TestInterrupt | source/riscvExceptions.c:1529-1585 | computes `Traps.TestInterrupt`, after which no waiting hart has an interrupt pending |
| Processor.Processor.Wfi | source/riscvExceptions.c:1519-1524 | computes `Traps.Wfi` |
| Processor.Processor.TargetModeX | source/riscvExceptions.c:286-309 | writes the trap registers and status stack of the target mode alone |
| Processor.Processor.TakeException | source/riscvExceptions.c:387-481 | computes `Traps.TakeException` |
| Processor.Processor.MRET | source/riscvExceptions.c:637-665 | computes `Traps.Xret` for Machine mode |
| Processor.Processor.SRET | source/riscvExceptions.c:670-698 | computes `Traps.Xret` for Supervisor mode |
| Processor.Processor.URET | source/riscvExceptions.c:703-723 | computes `Traps.Xret` for User mode |
| Processor.Processor.UpdateDMStall | source/riscvExceptions.c:733-745 | computes `Traps.UpdateDMStall` |
| Processor.Processor.EnterDM | source/riscvExceptions.c:761-796 | computes `Traps.EnterDM` |
| Processor.Processor.LeaveDM | source/riscvExceptions.c:801-824 | computes `Traps.LeaveDM` |
| Processor.Processor.SetDM | source/riscvExceptions.c:829-840 | computes `Traps.SetDM` |
| Processor.Processor.EBREAK | source/riscvExceptions.c:899-935 | computes `Traps.Ebreak` |
| Processor.Processor.GetPendingAndEnabledInterrupts | source/riscvExceptions.c:1125-1157 | computes `Traps.PendingAndEnabled` |
| Processor.Processor.DoInterrupt | source/riscvExceptions.c:1196-1233 | takes the greatest interrupt of the mask |
| Processor.Processor.IFetchExcept | source/riscvExceptions.c:1239-1285 | computes `Traps.Fetch` |
| Processor.Processor.UpdatePending | source/riscvExceptions.c:1656-1668 | computes `Traps.UpdatePending` |
| Processor.Processor.InterruptPort | source/riscvExceptions.c:1744-1767 | computes `Traps.InterruptPin` |
| Processor.Processor.NmiPort | source/riscvExceptions.c:1696-1711 | computes `Traps.NmiPin` |
| Processor.Processor.SetCurrentArch | source/riscvUtils.c:42-93 | computes `Csr.SetCurrentArch` |
| Processor.Processor.MisaW | source/riscvCSR.c:64-135 | computes `Csr.MisaW` |
| Processor.Processor.ConsolidateFPFlags | source/riscvCSR.c:478-493 | computes `Csr.Consolidate` |
| Processor.Processor.StatusR | source/riscvCSR.c:513-552 | computes `Csr.StatusR` |
| Processor.Processor.StatusW | source/riscvCSR.c:557-601 | computes `Csr.StatusW` |
| Processor.Processor.IpW | source/riscvCSR.c:800-829 | computes `Csr.IpW` |
| Processor.Processor.IeW | source/riscvCSR.c:915-945 | computes `Csr.IeW` |
| Processor.Processor.MidelegW | source/riscvCSR.c:992-1010 | computes `Csr.MidelegW` |
| Processor.Processor.SidelegW | source/riscvCSR.c:1015-1033 | computes `Csr.SidelegW` |
| Processor.Processor.SetFPRoundingMode | source/riscvCSR.c:192-336 | computes `Csr.SetRounding` |
| Processor.Processor.FcsrW | source/riscvCSR.c:387-422 | computes `Csr.FcsrW` |
| Processor.Processor.CSRReset | source/riscvCSR.c:2748-2780 | computes `Csr.CsrReset` |
| Processor.Processor.Reset | source/riscvExceptions.c:1590-1621 | computes `Csr.Reset` |
| Processor.Processor.ResetPort | source/riscvExceptions.c:1673-1691 | computes `Csr.ResetPin` |
| Counters.CountersRefineSimple | source/riscvCSR.c:1292-1537 | over every sequence of instructions, faults, EBREAKs into Debug mode, full and half counter writes, inhibit writes, debugger writes, Debug mode changes and idle time the base-value counters read as two plain counters modulo 2^64 |
| Counters.DebugChangeLosesCount | source/riscvExceptions.c:801-824 | a Debug mode change from outside keeps cycle, and keeps instret if and only if it does not restart it; otherwise instret loses one |
| Counters.DebugSessionCost | source/riscvExceptions.c:761-824 | a whole Debug session under stopcount, entered and left from outside, costs a running instret one, and keeps cycle unless it runs on because the hart has a parent |
| Counters.EbreakFreezes | source/riscvExceptions.c:916-930 | entered by EBREAK under stopcount, a session reads instret, and cycle of a hart without parent, one below what EBREAK would have read |
| Counters.PokeInstretShort | source/riscvCSR.c:1430-1437 | the debugger reads back the instret it wrote if and only if the counter is inhibited, and the cycle it wrote always |
| Counters.PokedIsRead | source/riscvCSR.c:1307-1319 | a debugger write of one counter leaves the other alone |
| Counters.WrittenIsRead | source/riscvCSR.c:1307-1319 | a written value is what the next instruction reads |
| Counters.ReinhibitReads | source/riscvCSR.c:1498-1518 | starting or stopping keeps the count, up to the pre-increment, although the base changes meaning |
| Counters.HalvesCompose | source/riscvCSR.c:1220-1241 | half writes touch their half only and compose to a full write |
| Counters.CounterUnit.WriteCycles | source/riscvCSR.c:1307-1319 | computes `Counters.CycleW` |
| Counters.CounterUnit.WriteInstructions | source/riscvCSR.c:1430-1437 | computes `Counters.InstretW` |
| Counters.CounterUnit.PostInhibit | source/riscvCSR.c:1509-1518 | computes `Counters.Reinhibit` |
| Counters.CounterUnit.WriteCountInhibit | source/riscvCSR.c:1523-1537 | computes the inhibit write step up to retirement |
| Counters.CounterUnit.ChangeDebugMode | source/riscvExceptions.c:765-786 | computes the Debug mode change step |
| Counters.CounterUnit.CountException | source/riscvExceptions.c:411-416 | computes the fault step up to the end of the instruction |
| Counters.CounterUnit.CountEbreak | source/riscvExceptions.c:916-930 | computes the EBREAK step up to the end of the instruction |
| Counters.CounterUnit.WriteMcycle | source/riscvCSR.c:1338-1375 | computes the cycle write step up to retirement |
| Reservation.SuccessfulScIsAtomic | source/riscvMorph.c:1794-1866 | in any interleaving of any number of harts, if an SC finds the tag of its LR then no other processor stored to the granule in between |
| Reservation.SurvivingTagIsExclusive | source/riscvUtils.c:655-719 | a tag that survives a run, over any context switches, witnesses that no other processor stored to its granule |
| Reservation.TagSurvivesIffUntouched | source/riscvUtils.c:681-691 | a hart that leaves its tag alone keeps it if and only if no other processor stores to the granule |
| Reservation.RunKeepsCovered | source/riscvUtils.c:706-719 | in every interleaving, whatever is reset, a suspended hart with a live tag has a watch on [tag, tag+grain-1] |
| Reservation.RunKeepsExact | source/riscvUtils.c:681-719 | over every run a watch is installed exactly for the suspended harts with a live tag, if and only if no suspended hart is reset with one |
| Reservation.ReachableExact | source/riscvCSR.c:2778-2779 | both hold of every run of any number of harts from power-on |
| Reservation.StepKeepsCovered | source/riscvUtils.c:664-700 | every step keeps live watches installed, and leaves no others if and only if it is not the reset of a suspended hart with a tag |
| Reservation.StoreEffect | source/riscvUtils.c:655-659 | a store clears the tag and removes the watch of every hart whose watch it touches, and of no other |
| Reservation.ScEffect | source/riscvMorph.c:1794-1866 | an SC drops the reservation whether it succeeds or not, and stores only if it succeeds |
| Reservation.TagEffect | source/riscvMorph.c:1782-1793 | LR sets the tag of the running hart alone; clear and reset drop one tag |
| Reservation.SwitchEffect | source/riscvUtils.c:706-711 | switching installs or removes the one watch of a live tag |
| Reservation.ResetLeavesStaleWatch | source/riscvCSR.c:2778-2779 | a run from power-on in which such a reset lets a store elsewhere cancel a later reservation |
| Reservation.Monitor.UpdateExclusiveAccessCallback | source/riscvUtils.c:696-700 | installs or removes exactly the region of a live tag |
| Reservation.Monitor.AbortExclusiveAccess | source/riscvUtils.c:681-691 | removes the region of the old tag and clears it |
| Reservation.Monitor.ContextSwitch | source/riscvUtils.c:706-711 | computes `Reservation.UpdateWatch` |
| Configuration.PowerOfTwo | source/riscvMain.c:173-191 | for every non-zero v terminates with a power of two p such that p <= v < 2p |
| Configuration.AndNegIsLowBit | source/riscvMain.c:178-180 | v & -v is the lowest set bit |
| Configuration.ClearLowBit | source/riscvMain.c:178-180 | masking it out subtracts it |
| Configuration.VectorSizes.constructor | source/riscvMain.c:263-311 | each size is the parameter rounded down to a power of two, or the size that bounds it: SEW_min <= ELEN <= VLEN and SLEN <= VLEN |
| Configuration.ParseExtensions | source/riscvUtils.c:619-645 | computes the letters before the first illegal character |
| Configuration.LettersAre | source/riscvUtils.c:619-645 | those are the letters of the longest prefix of letters |
| Configuration.ApplyArch | source/riscvMain.c:329-351 | exactly one of I and E is implemented, all other features are those asked for, and the writable ones are those asked for that are implemented, never E; this is what `ValidConfig` needs |
| Configuration.TagCovers | source/riscvMain.c:357-358 | for every grain the watched range contains the reserved address |
| Configuration.TagAligned | source/riscvMorph.c:1782-1789 | every tag is the base of an aligned granule, and ranges of different tags are disjoint, if and only if the grain is a power of two |
| Configuration.OddGrainOverlaps | source/riscvMain.c:357-358 | for every other grain the lowest set bit of the grain is an address whose range overlaps that of tag 0 |
| VectorUnit.MaxVLExact | source/riscvCSR.c:1674-1680 | for every legal vtype VLEN*LMUL/SEW is exact, positive and at most VLEN |
| VectorUnit.VsetvlEffect | source/riscvMorph.c:5874-5893 | vl is the lesser of the length asked for and VLEN*LMUL/SEW, with the vtype asked for; an illegal width gives vill and zeros |
| VectorUnit.WidthTables | source/riscvCSR.c:1674-1680 | SEW and LMUL are the powers of two that vsew and vlmul encode |
| VectorUnit.FirstFaultEffect | source/riscvExceptions.c:147-173 | a fault is suppressed if and only if the flag is set past element 0, and vl is then the lesser of vstart and the maximum |
| VectorUnit.FaultAtElement | source/riscvExceptions.c:147-173 | a fault-only-first load that faults at element i leaves vl at i |
| VectorUnit.ResetVectorEffect | source/riscvCSR.c:1814-1827 | the vector state after reset |
| VectorUnit.KeyFields | source/riscvCSR.c:1763-1783 | the fields of the polymorphic key; its upper half is kept |
| VectorUnit.VectorFpMeans | source/riscvMorph.c:4615-4632 | floating point vector instructions exist if and only if some legal element width has a format |
| VectorUnit.IndexFitsMask | source/riscvCSR.c:3215 | every index below VLEN survives the vstart mask VLEN-1 |
| VectorUnit.KeySound | source/riscvCSR.c:1763-1783 | states with equal keys agree on vill, transaction mode and, if vill is clear, vsew, vlmul and vl class |
| VectorUnit.StepKeepsFresh | source/riscvUtils.c:729-752 | vsetvl, fault-only-first clamping, reset and mode toggles keep the key fresh and vl within its maximum; vector and transaction parts do not disturb each other |
| VectorUnit.RunKeepsFresh | source/riscvMorph.c:5874-5893 | so does every sequence of them |
| VectorUnit.ResetMakesFresh | source/riscvCSR.c:1814-1827 | reset makes the key fresh whatever the vector state was |
| VectorUnit.ReachableFresh | source/riscvCSR.c:3212-3218 | every sequence of steps from construction is fresh |
| VectorUnit.VectorState.UpdateVL | source/riscvCSR.c:1798-1809 | computes `VectorUnit.SetVL` |
| VectorUnit.VectorState.RefreshPMKey | source/riscvCSR.c:1763-1783 | computes `VectorUnit.RefreshKey` |
| VectorUnit.VectorState.SetVectorType | source/riscvMorph.c:5874-5893 | computes `VectorUnit.SetVLSEWLMUL` |
| VectorUnit.VectorState.ResetVLVType | source/riscvCSR.c:1814-1827 | computes `VectorUnit.ResetVector` |
| VectorUnit.VectorState.HandleFirstFault | source/riscvExceptions.c:147-173 | computes `VectorUnit.HandleFF` and its verdict |

## Left out

- The simulator API, messages, save and restore, net and bus port allocation: not this model's code; only PC, halted state, instruction counts and write watches are kept.
- Page tables, TLB, PMP, the VM bit of the mode, MPRV domains and endianness: code or state outside this model.
- CLIC: the source marks it as under development; basic interrupt control is modelled.
- Instruction semantics and code generation: LR, SC, vsetvl and instructions that write floating point or vector state appear only by their effect on the modelled state.
- XLEN switching, external CSRs, custom mtvec masks, satp and the external CSR bus: unimplemented or foreign in the source, or plain masked registers.
- Counter access checks (mcounteren, scounteren): which modes may read a counter is not modelled, since it does not affect what the counters hold.
- Interrupts and instret: whether the simulator counts an instruction when an interrupt is taken is not in the source, so `Counters.Fault` is for synchronous exceptions only.
- HartState.ResetStatus: takes variant-supplied reset bits of mstatus other than FS to be 0, as they are for every variant in source/riscvConfigList.c.
- Processor.Processor.TakeException: does not cover the access fault detail, which no modelled register shows; its instret adjustment is `Counters.CounterUnit.CountException`.
- Processor.Processor.EnterDM: the counter part is `Counters.CounterUnit.ChangeDebugMode`.
- Processor.Processor.LeaveDM: the counter part is `Counters.CounterUnit.ChangeDebugMode`.
- Processor.Processor.EBREAK: the counter part is `Counters.CounterUnit.CountEbreak`.
- Processor.Processor.SetCurrentArch: does not cover the big-endian indication, since endianness is not modelled.
- Processor.Processor.StatusW: does not cover endianness, ASID and MPRV domain hooks, which act on code and state outside this model.
- Processor.Processor.FcsrW: does not cover vxrm and its alias, which no modelled step reads.
- Processor.Processor.CSRReset: does not cover PMP; its vector part is `VectorUnit.VectorState.ResetVLVType`.
- Configuration.ApplyArch: does not cover MXL, since XLEN is fixed.
- Processor: keeps interrupt port words as a sequence.
- Reservation: models the shared domain as one set of watches; which of several data domains is current is not modelled.
