/**
 What interrupt masking, selection and delivery achieve together
 (source/riscvExceptions.c, getPendingAndEnabledInterrupts and doInterrupt).
 */
module Interrupts {
  import opened Words
  import opened HartState
  import opened Traps

  /**
   The masks used to filter interrupts and the target mode used to take them agree: an
   interrupt survives exactly if it is pending, enabled in mie, and directed above the
   current mode or to the current mode with its enable set; it is then taken where the
   delegation registers direct it.
   */
  lemma MasksAgreeWithTarget(h: Hart, e: nat)
    requires e < 32
    ensures var x := DelegatedMode(h.deleg.mideleg, h.deleg.sideleg, e);
            e in PendingAndEnabled(h) <==>
            !h.debug.dm && e in Pending(h.irq) && (x > h.mode || (x == h.mode && x in h.status))
    ensures e in PendingAndEnabled(h) ==>
              InterruptModeX(h, e) == DelegatedMode(h.deleg.mideleg, h.deleg.sideleg, e)
  {
  }

  /** Once an interrupt has been taken, no other can be taken until software enables one. */
  lemma NothingLeftAfterInterrupt(c: Config, h: Hart)
    requires forall k :: k in h.irq.mie ==> k < 32
    requires PendingAndEnabled(h) != {}
    ensures PendingAndEnabled(DoInterrupt(c, h, PendingAndEnabled(h))) == {}
  {
    var mask := PendingAndEnabled(h);
    var h' := DoInterrupt(c, h, mask);
    var s := Selected(h, mask);
    MasksAgreeWithTarget(h, s);
    forall e | e in PendingAndEnabled(h') ensures false {
      MasksAgreeWithTarget(h', e);
      MasksAgreeWithTarget(h, e);
    }
  }

  /** A trap never lowers privilege, and one bit is enough for SPP: only U and S trap to S. */
  lemma TrapPrivilege(c: Config, h: Hart, isInt: bool, ecode: nat, tval: nat)
    requires ecode < 32
    ensures var h' := Trap(c, h, isInt, ecode, tval);
            && h'.mode >= h.mode
            && (h'.mode == SUPERVISOR ==> h.mode <= SUPERVISOR && PreviousMode(h'.status, SUPERVISOR) == h.mode)
            && (h'.mode == USER ==> h.mode == USER)
            && (h'.mode == MACHINE ==> PreviousMode(h'.status, MACHINE) == h.mode)
  {
  }

  /** The trap registers of the mode entered describe the trap; vectored interrupts get a word each. */
  lemma TrapRecords(c: Config, h: Hart, isInt: bool, ecode: nat, tval: nat)
    requires ecode < 32
    ensures var h' := Trap(c, h, isInt, ecode, tval);
            var r := Regs(h', h'.mode);
            && r.tval == tval && r.cause.interrupt == isInt
            && (r.cause.code == ecode ||
                (isInt && 8 <= ecode <= 11 && ecode < 8 + |h.extInt| && 0 != r.cause.code == h.extInt[ecode - 8]))
            && (isInt && 8 <= ecode <= 11 && ecode < 8 + |h.extInt| && h.extInt[ecode - 8] != 0 ==>
                  r.cause.code == h.extInt[ecode - 8])
            && (!isInt ==> h'.pc == r.tvec.base)
            && (isInt && r.tvec.vectored && r.tvec.base + 128 <= TWO64 ==> h'.pc - r.tvec.base == 4 * ecode)
  {
  }

  /** Section 3.1.9 of the Privileged Architecture: MEI, MSI, MTI, SEI, SSI, STI, UEI, USI, UTI. */
  const STANDARD_ORDER: seq<nat> := [11, 3, 7, 9, 1, 5, 8, 0, 4]

  /**
   Among interrupts directed to one mode, standard ones come in that order, all of them
   before local ones, and of two local ones that with the higher number comes first.
   */
  lemma PriorityOrder(h: Hart, e: nat, f: nat)
    requires e < 32 && f < 32 && InterruptModeX(h, e) == InterruptModeX(h, f)
    ensures forall i, j :: 0 <= i < 9 && 0 <= j < 9 && STANDARD_ORDER[i] == e && STANDARD_ORDER[j] == f ==>
              (AtLeast(h, e, f) <==> i <= j)
    ensures e in STANDARD_ORDER && f !in STANDARD_ORDER ==> AtLeast(h, e, f) && !AtLeast(h, f, e)
    ensures e !in STANDARD_ORDER && f !in STANDARD_ORDER ==> (AtLeast(h, e, f) <==> e >= f)
  {
  }

  // ---------------------------------------------------------------- selection

  /** `best` is the greatest interrupt of the mask below `n`, or -1 if there is none. */
  ghost predicate BestBelow(h: Hart, mask: Bits, n: nat, best: int)
    requires forall k :: k in mask ==> k < 32
  {
    if best == -1 then forall k :: k in mask ==> n <= k
    else best in mask && best < n && forall k :: k in mask && k < n ==> AtLeast(h, best, k)
  }

  /** The comparison made for each further interrupt: does `e` replace `best`? */
  predicate Replaces(h: Hart, best: nat, e: nat)
    requires best < 32 && e < 32
  {
    var (x, y) := (InterruptModeX(h, best), InterruptModeX(h, e));
    if x < y then true else if x > y then false else IntPri(best) <= IntPri(e)
  }

  lemma BestStep(h: Hart, mask: Bits, n: nat, best: int)
    requires forall k :: k in mask ==> k < 32
    requires BestBelow(h, mask, n, best)
    ensures n !in mask ==> BestBelow(h, mask, n + 1, best)
    ensures n in mask && (best == -1 || Replaces(h, best, n)) ==> BestBelow(h, mask, n + 1, n)
    ensures n in mask && best != -1 && !Replaces(h, best, n) ==> BestBelow(h, mask, n + 1, best)
  {
  }

  /**
   The scanning loop of doInterrupt: shift the mask right, comparing each set bit with the
   best so far, until no bits remain.
   */
  method SelectInterrupt(h: Hart, intMask: Bits) returns (selected: nat)
    requires intMask != {}
    requires forall k :: k in intMask ==> k < 32
    ensures IsSelected(h, intMask, selected)
  {
    var mask := intMask;
    var ecode := 0;
    var best := -1;
    assert mask == ShiftRight(intMask, 0);
    while mask != {}
      invariant ecode <= 32
      invariant mask == ShiftRight(intMask, ecode)
      invariant BestBelow(h, intMask, ecode, best)
      decreases 32 - ecode
    {
      ShiftRightOnce(intMask, ecode);
      BestStep(h, intMask, ecode, best);
      BelowLimit(intMask, ecode);
      if 0 in mask {
        if best == -1 {
          best := ecode;
        } else if Replaces(h, best, ecode) {
          best := ecode;
        }
      }
      mask := ShiftRight1(mask);
      ecode := ecode + 1;
    }
    ShiftRightOnce(intMask, ecode);
    selected := best;
  }

  lemma BelowLimit(w: Bits, n: nat)
    requires (forall k :: k in w ==> k < 32) && ShiftRight(w, n) != {}
    ensures n < 32
  {
  }
}
