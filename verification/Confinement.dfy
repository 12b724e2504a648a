/**
 Register views (source/riscvCSR.c): what the Supervisor and User names of a register can
 change, and how software and pins share the pending bits.
 */
module Confinement {
  import opened Words
  import opened HartState
  import opened Csr
  import opened Machine

  /** A write through a Supervisor or User view. */
  predicate LowerView(a: Access) {
    (a.WriteStatus? || a.WriteIe? || a.WriteIp?) && a.view != MView
  }

  predicate UserView(a: Access) {
    (a.WriteStatus? || a.WriteIe? || a.WriteIp?) && a.view == UView
  }

  ghost predicate Accesses(c: Config, h: Hart, writes: seq<Access>)
    decreases |writes|
  {
    writes == [] ||
    (IrqOK(h.irq) && CanAccess(c, writes[0]) && Accesses(c, StepAccess(c, h, writes[0]), writes[1..]))
  }

  ghost function AfterAccesses(c: Config, h: Hart, writes: seq<Access>): Hart
    requires Accesses(c, h, writes)
    decreases |writes|
  {
    if writes == [] then h else AfterAccesses(c, StepAccess(c, h, writes[0]), writes[1..])
  }

  /** Nothing outside the given bits of mstatus, mie and the software pending bits has changed. */
  predicate Confined(h: Hart, h': Hart, status: Bits, interrupts: Bits) {
    && h'.status - status == h.status - status
    && h'.irq.mie - interrupts == h.irq.mie - interrupts
    && h'.irq.swip - interrupts == h.irq.swip - interrupts
    && h'.irq.ip == h.irq.ip
    && h'.deleg == h.deleg && h'.mode == h.mode && h'.misa == h.misa && h'.debug == h.debug
    && h'.u == h.u && h'.s == h.s && h'.m == h.m && h'.pc == h.pc
  }

  lemma StatusConfined(c: Config, h: Hart, value: Bits, mask: Bits, allowed: Bits)
    requires SavedModesOK(c, h.status)
    requires mask <= allowed && {FS, FS + 1} <= allowed && mask !! {MPP, MPP + 1}
    ensures StatusW(c, h, value, mask).status - allowed == h.status - allowed
  {
  }

  lemma InterruptWriteConfined(c: Config, h: Hart, value: Bits, rMask: Bits, allowed: Bits)
    requires IrqOK(h.irq) && rMask <= allowed
    ensures IeW(c, h, value, rMask).irq.mie - allowed == h.irq.mie - allowed
    ensures IpW(c, h, value, rMask).irq.swip - allowed == h.irq.swip - allowed
    ensures IeW(c, h, value, rMask).irq == h.irq.(mie := IeW(c, h, value, rMask).irq.mie)
    ensures IpW(c, h, value, rMask).irq.ip == h.irq.ip && IpW(c, h, value, rMask).irq.mie == h.irq.mie
  {
  }

  lemma LowerStatusMask(c: Config, view: View)
    requires view != MView
    ensures StatusViewMask(c, view) !! {MPP, MPP + 1}
    ensures StatusViewMask(c, view) <= SSTATUS_AMASK
    ensures view == UView ==> StatusViewMask(c, view) <= USTATUS_AMASK
  {
  }

  /** One write through a view, given bits that contain everything the view can reach. */
  lemma ViewConfined(c: Config, h: Hart, a: Access, status: Bits, interrupts: Bits)
    requires Inv(c, h) && CanAccess(c, a) && LowerView(a)
    requires {FS, FS + 1} <= status && StatusViewMask(c, a.view) <= status
    requires IeViewMask(h, a.view) <= interrupts && IpViewMask(h, a.view) <= interrupts
    ensures Confined(h, StepAccess(c, h, a), status, interrupts)
  {
    match a
    case WriteStatus(view, v) => LowerStatusMask(c, view); StatusConfined(c, h, v, StatusViewMask(c, view), status);
    case WriteIe(view, v) => InterruptWriteConfined(c, h, v, IeViewMask(h, view), interrupts);
    case WriteIp(view, v) => InterruptWriteConfined(c, h, v, IpViewMask(h, view), interrupts);
  }

  lemma LowerViewConfined(c: Config, h: Hart, a: Access)
    requires Inv(c, h) && CanAccess(c, a) && LowerView(a)
    ensures Confined(h, StepAccess(c, h, a), SSTATUS_AMASK, h.deleg.mideleg)
  {
    LowerStatusMask(c, a.view);
    ViewConfined(c, h, a, SSTATUS_AMASK, h.deleg.mideleg);
  }

  lemma UserViewConfined(c: Config, h: Hart, a: Access)
    requires Inv(c, h) && CanAccess(c, a) && UserView(a)
    ensures Confined(h, StepAccess(c, h, a), USTATUS_AMASK + {FS, FS + 1}, h.deleg.mideleg * h.deleg.sideleg)
  {
    LowerStatusMask(c, a.view);
    ViewConfined(c, h, a, USTATUS_AMASK + {FS, FS + 1}, h.deleg.mideleg * h.deleg.sideleg);
  }

  /**
   Any sequence of writes through sstatus, ustatus, sie, uie, sip and uip leaves mstatus
   outside sstatus_AMASK alone, and the enable and software pending bits of interrupts that
   are not delegated.
   */
  lemma {:induction false} LowerViewsConfined(c: Config, h: Hart, writes: seq<Access>)
    requires ValidConfig(c) && Inv(c, h) && Accesses(c, h, writes)
    requires forall a :: a in writes ==> LowerView(a)
    ensures Confined(h, AfterAccesses(c, h, writes), SSTATUS_AMASK, h.deleg.mideleg)
    decreases |writes|
  {
    if writes != [] {
      LowerViewConfined(c, h, writes[0]);
      AccessKeepsInv(c, h, writes[0]);
      LowerViewsConfined(c, StepAccess(c, h, writes[0]), writes[1..]);
    }
  }

  /** The User views alone reach only interrupts delegated twice, and ustatus plus FS. */
  lemma {:induction false} UserViewsConfined(c: Config, h: Hart, writes: seq<Access>)
    requires ValidConfig(c) && Inv(c, h) && Accesses(c, h, writes)
    requires forall a :: a in writes ==> UserView(a)
    ensures Confined(h, AfterAccesses(c, h, writes), USTATUS_AMASK + {FS, FS + 1}, h.deleg.mideleg * h.deleg.sideleg)
    decreases |writes|
  {
    if writes != [] {
      UserViewConfined(c, h, writes[0]);
      AccessKeepsInv(c, h, writes[0]);
      UserViewsConfined(c, StepAccess(c, h, writes[0]), writes[1..]);
    }
  }

  /** Within its mask a write is exact, except that an unimplemented MPP is refused. */
  lemma StatusWriteExact(c: Config, h: Hart, view: View, value: Bits, k: nat)
    requires k in StatusViewMask(c, view)
    ensures k != MPP && k != MPP + 1 ==> (k in StatusViewW(c, h, view, value).status <==> k in value)
    ensures view == MView ==>
              var written := Field2(StatusViewW(c, h, view, value).status, MPP);
              var asked := Field2(Merge(Consolidate(c, h).status, value, StatusMask(c)), MPP);
              written == if HasMode(c, asked) then asked else Field2(h.status, MPP)
  {
  }

  /** Within its mask a write of mie, sie or uie is exact. */
  lemma IeWriteExact(c: Config, h: Hart, view: View, value: Bits, k: nat)
    requires k in InterruptMask(c) && k in IeViewMask(h, view)
    ensures k in IeViewW(c, h, view, value).irq.mie <==> k in value
  {
  }

  // ---------------------------------------------------------------- pending bits

  /** A CSRRS or CSRRC of mip, sip or uip: read in read/write context, modify, write. */
  function ModifyIp(c: Config, h: Hart, view: View, operand: Bits, isSet: bool): Hart
    requires |h.irq.ip| > 0
  {
    var read := IpR(h, IpViewMask(h, view), true);
    IpViewW(c, h, view, if isSet then read + operand else read - operand)
  }

  /**
   A read-modify-write changes exactly the named writable software bits: it neither latches
   a pin level into them nor clears a pending bit that a pin drives.
   */
  lemma ModifyIpExact(c: Config, h: Hart, view: View, operand: Bits, isSet: bool)
    requires IrqOK(h.irq)
    ensures var h' := ModifyIp(c, h, view, operand, isSet);
            var named := operand * Low32(InterruptMask(c)) * IpViewMask(h, view);
            && h'.irq.swip == (if isSet then h.irq.swip + named else h.irq.swip - named)
            && h'.irq.ip == h.irq.ip
            && h'.irq.mip == h'.irq.ip[0] + h'.irq.swip
            && h.irq.ip[0] <= h'.irq.mip
  {
  }
}
