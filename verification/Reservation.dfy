/**
 LR/SC reservations across harts (source/riscvUtils.c, riscvContextSwitchCB and the
 exclusive access functions).  The simulator runs one processor at a time.  A hart that is
 switched out with a live tag has a write watch on its granule; a store there by any other
 processor aborts the reservation.
 */
module Reservation {
  import opened HartState

  /** A write callback installed for a hart on an address range. */
  datatype Watch = Watch(hart: nat, low: nat, high: int)

  datatype Platform = Platform(
    tags: seq<nat>,          // exclusiveTag of each hart
    running: int,            // the hart being simulated, or -1 for some other processor
    watches: set<Watch>,     // installed write callbacks
    grain: nat               // lr_sc_grain
  )

  /** The range watched for the current tag of a hart: simHigh = simLow + ~exclusiveTagMask. */
  function TagWatch(p: Platform, h: nat): Watch
    requires h < |p.tags|
  {
    Watch(h, p.tags[h], p.tags[h] + p.grain - 1)
  }

  predicate Overlaps(w: Watch, low: nat, size: nat) {
    w.low < low + size && low <= w.high
  }

  // ---------------------------------------------------------------- steps

  /** riscvUpdateExclusiveAccessCallback: add or remove the watch if a reservation is live. */
  function UpdateWatch(p: Platform, h: nat, install: bool): Platform
    requires h < |p.tags|
  {
    if p.tags[h] == NO_TAG then p
    else if install then p.(watches := p.watches + {TagWatch(p, h)})
    else p.(watches := p.watches - {TagWatch(p, h)})
  }

  /** riscvAbortExclusiveAccess */
  function Abort(p: Platform, h: nat): Platform
    requires h < |p.tags|
  {
    if p.tags[h] == NO_TAG then p
    else UpdateWatch(p, h, false).(tags := p.tags[h := NO_TAG])
  }

  /** Is a write callback of hart h triggered by a store? */
  predicate Triggered(p: Platform, h: nat, low: nat, size: nat) {
    exists w :: w in p.watches && w.hart == h && Overlaps(w, low, size)
  }

  /** A store by the running processor: the callbacks abort, for harts n-1 down to 0. */
  ghost function StoreFrom(p: Platform, q: Platform, n: nat, low: nat, size: nat): (r: Platform)
    requires n <= |p.tags| == |q.tags|
    ensures |r.tags| == |q.tags|
    decreases n
  {
    if n == 0 then q
    else
      var q := if Triggered(p, n - 1, low, size) then Abort(q, n - 1) else q;
      StoreFrom(p, q, n - 1, low, size)
  }

  ghost function Store(p: Platform, low: nat, size: nat): Platform {
    StoreFrom(p, p, |p.tags|, low, size)
  }

  datatype Step =
    | Suspend
    | Resume(hart: nat)
    | LoadReserved(newTag: nat)
    | StoreConditional(tag: nat, address: nat, bytes: nat)
    | PlainStore(address: nat, bytes: nat)
    | ClearTag
    | ResetHart(hart: nat)

  /** Only the running hart executes; an SC stores only if the tags match. */
  predicate CanStep(p: Platform, e: Step) {
    match e
    case Suspend => 0 <= p.running < |p.tags|
    case Resume(h) => p.running == -1 && h < |p.tags|
    case LoadReserved(_) => 0 <= p.running < |p.tags|
    case StoreConditional(_, _, _) => 0 <= p.running < |p.tags|
    case PlainStore(_, _) => true
    case ClearTag => 0 <= p.running < |p.tags|
    case ResetHart(h) => h < |p.tags|
  }

  ghost function Apply(p: Platform, e: Step): Platform
    requires CanStep(p, e)
  {
    match e
    case Suspend => UpdateWatch(p, p.running, true).(running := -1)
    case Resume(h) => UpdateWatch(p, h, false).(running := h)
    case LoadReserved(newTag) => p.(tags := p.tags[p.running := newTag])
    case StoreConditional(tag, address, bytes) =>
      var q := if p.tags[p.running] == tag then Store(p, address, bytes) else p;
      q.(tags := q.tags[p.running := NO_TAG])
    case PlainStore(address, bytes) => Store(p, address, bytes)
    case ClearTag => p.(tags := p.tags[p.running := NO_TAG])
    case ResetHart(h) => p.(tags := p.tags[h := NO_TAG])
  }

  // ---------------------------------------------------------------- the effect of a store

  /** Is w the live watch of a hart below n that the store aborts? */
  ghost predicate Removed(p: Platform, q: Platform, n: nat, low: nat, size: nat, w: Watch)
    requires n <= |p.tags| == |q.tags|
  {
    w.hart < n && Triggered(p, w.hart, low, size) && q.tags[w.hart] != NO_TAG && w == TagWatch(q, w.hart)
  }

  lemma {:induction false} StoreFromEffect(p: Platform, q: Platform, n: nat, low: nat, size: nat)
    requires n <= |p.tags| == |q.tags|
    ensures var r := StoreFrom(p, q, n, low, size);
            && r == q.(tags := r.tags, watches := r.watches) && |r.tags| == |q.tags|
            && (forall h :: 0 <= h < |q.tags| ==>
                  r.tags[h] == if h < n && Triggered(p, h, low, size) then NO_TAG else q.tags[h])
            && (forall w :: w in r.watches <==> (w in q.watches && !Removed(p, q, n, low, size, w)))
    decreases n
  {
    if n != 0 {
      var q' := if Triggered(p, n - 1, low, size) then Abort(q, n - 1) else q;
      StoreFromEffect(p, q', n - 1, low, size);
    }
  }

  /** A store clears the tag of every hart whose callback it triggers, and removes its watch. */
  lemma StoreEffect(p: Platform, low: nat, size: nat)
    ensures var r := Store(p, low, size);
            && r == p.(tags := r.tags, watches := r.watches) && |r.tags| == |p.tags|
            && (forall h :: 0 <= h < |p.tags| ==>
                  r.tags[h] == if Triggered(p, h, low, size) then NO_TAG else p.tags[h])
            && (forall w :: w in r.watches <==> (w in p.watches && !Removed(p, p, |p.tags|, low, size, w)))
  {
    StoreFromEffect(p, p, |p.tags|, low, size);
  }

  /** An SC drops the reservation whether it succeeds or not, and stores only if it succeeds. */
  lemma ScEffect(p: Platform, tag: nat, address: nat, bytes: nat)
    requires 0 <= p.running < |p.tags|
    ensures var q := Apply(p, StoreConditional(tag, address, bytes));
            && |q.tags| == |p.tags| && q.tags[p.running] == NO_TAG
            && (p.tags[p.running] != tag ==> q == p.(tags := p.tags[p.running := NO_TAG]))
            && (p.tags[p.running] == tag ==> forall h :: 0 <= h < |p.tags| && h != p.running ==>
                  q.tags[h] == if Triggered(p, h, address, bytes) then NO_TAG else p.tags[h])
  {
    StoreEffect(p, address, bytes);
  }

  /** LR sets the tag of the running hart alone; a clear or a reset drops one. */
  lemma TagEffect(p: Platform, t: nat, h: nat)
    requires 0 <= p.running < |p.tags| && h < |p.tags|
    ensures Apply(p, LoadReserved(t)) == p.(tags := p.tags[p.running := t])
    ensures Apply(p, ClearTag) == p.(tags := p.tags[p.running := NO_TAG])
    ensures Apply(p, ResetHart(h)) == p.(tags := p.tags[h := NO_TAG])
  {
  }

  /** Switching installs or removes the one watch on the granule of a live tag. */
  lemma SwitchEffect(p: Platform, h: nat)
    requires h < |p.tags|
    ensures p.running == h ==>
              Apply(p, Suspend) == p.(running := -1, watches := p.watches + LiveWatch(p, h))
    ensures p.running == -1 ==>
              Apply(p, Resume(h)) == p.(running := h, watches := p.watches - LiveWatch(p, h))
  {
  }

  function LiveWatch(p: Platform, h: nat): set<Watch>
    requires h < |p.tags|
  {
    if p.tags[h] == NO_TAG then {} else {Watch(h, p.tags[h], p.tags[h] + p.grain - 1)}
  }

  // ---------------------------------------------------------------- invariants

  /** A hart that is switched out with a live tag has a watch on exactly its granule. */
  ghost predicate Covered(p: Platform) {
    forall h :: 0 <= h < |p.tags| && h != p.running && p.tags[h] != NO_TAG ==> TagWatch(p, h) in p.watches
  }

  /** And there are no other watches. */
  ghost predicate Exact(p: Platform) {
    && Covered(p)
    && forall w :: w in p.watches ==>
         w.hart < |p.tags| && w.hart != p.running && p.tags[w.hart] != NO_TAG && w == TagWatch(p, w.hart)
  }

  lemma StoreKeepsCovered(p: Platform, low: nat, size: nat)
    requires Covered(p)
    ensures Covered(Store(p, low, size))
    ensures Exact(p) ==> Exact(Store(p, low, size))
  {
    StoreEffect(p, low, size);
    var r := Store(p, low, size);
    forall h | 0 <= h < |r.tags| && h != r.running && r.tags[h] != NO_TAG
      ensures TagWatch(r, h) in r.watches
    {
      assert TagWatch(p, h) in p.watches;
    }
  }

  lemma SwitchKeepsExact(p: Platform, h: nat)
    requires Covered(p) && h < |p.tags|
    ensures p.running == h ==> Covered(UpdateWatch(p, h, true).(running := -1))
    ensures p.running == h && Exact(p) ==> Exact(UpdateWatch(p, h, true).(running := -1))
    ensures p.running == -1 ==> Covered(UpdateWatch(p, h, false).(running := h))
    ensures p.running == -1 && Exact(p) ==> Exact(UpdateWatch(p, h, false).(running := h))
  {
  }

  lemma ClearKeepsCovered(p: Platform, h: nat)
    requires Covered(p) && h < |p.tags|
    ensures Covered(p.(tags := p.tags[h := NO_TAG]))
    ensures Exact(p) ==>
              (Exact(p.(tags := p.tags[h := NO_TAG])) <==> h == p.running || p.tags[h] == NO_TAG)
  {
    if h != p.running && p.tags[h] != NO_TAG {
      assert TagWatch(p, h) in p.watches;
    }
  }

  /** Reset clears the tag of a hart that is switched out, whose watch stays. */
  predicate LeavesWatch(p: Platform, e: Step)
    requires CanStep(p, e)
  {
    e.ResetHart? && e.hart != p.running && p.tags[e.hart] != NO_TAG
  }

  /** Every step keeps the live watches; it keeps them exact if and only if it leaves none behind. */
  lemma StepKeepsCovered(p: Platform, e: Step)
    requires Covered(p) && CanStep(p, e)
    ensures Covered(Apply(p, e)) && |Apply(p, e).tags| == |p.tags|
    ensures Exact(p) ==> (Exact(Apply(p, e)) <==> !LeavesWatch(p, e))
  {
    match e
    case Suspend => SwitchKeepsExact(p, p.running);
    case Resume(h) => SwitchKeepsExact(p, h);
    case LoadReserved(_) =>
    case StoreConditional(tag, address, bytes) =>
      var q := if p.tags[p.running] == tag then Store(p, address, bytes) else p;
      StoreEffect(p, address, bytes);
      StoreKeepsCovered(p, address, bytes);
      ClearKeepsCovered(q, p.running);
    case PlainStore(address, bytes) => StoreKeepsCovered(p, address, bytes);
    case ClearTag => ClearKeepsCovered(p, p.running);
    case ResetHart(h) => ClearKeepsCovered(p, h);
  }

  // ---------------------------------------------------------------- runs

  ghost predicate CanRun(p: Platform, es: seq<Step>)
    decreases |es|
  {
    es == [] || (CanStep(p, es[0]) && CanRun(Apply(p, es[0]), es[1..]))
  }

  ghost function RunTo(p: Platform, es: seq<Step>): Platform
    requires CanRun(p, es)
    decreases |es|
  {
    if es == [] then p else RunTo(Apply(p, es[0]), es[1..])
  }

  /** All harts after construction, with some other processor running. */
  function PowerOn(harts: nat, grain: nat): Platform {
    Platform(seq(harts, _ => NO_TAG), -1, {}, grain)
  }

  lemma PowerOnExact(harts: nat, grain: nat)
    ensures Exact(PowerOn(harts, grain))
  {
  }

  /** In every state of the run the watches are exactly those of suspended harts with a live tag. */
  ghost predicate ExactThroughout(p: Platform, es: seq<Step>)
    requires CanRun(p, es)
    decreases |es|
  {
    Exact(p) && (es == [] || ExactThroughout(Apply(p, es[0]), es[1..]))
  }

  /** No step of the run leaves a watch behind. */
  ghost predicate LeavesNoWatch(p: Platform, es: seq<Step>)
    requires CanRun(p, es)
    decreases |es|
  {
    es == [] || (!LeavesWatch(p, es[0]) && LeavesNoWatch(Apply(p, es[0]), es[1..]))
  }

  /** In every interleaving the watches stay exact if and only if no suspended hart is reset with a live tag. */
  lemma {:induction false} RunKeepsExact(p: Platform, es: seq<Step>)
    requires Exact(p) && CanRun(p, es)
    ensures ExactThroughout(p, es) <==> LeavesNoWatch(p, es)
    decreases |es|
  {
    if es != [] {
      StepKeepsCovered(p, es[0]);
      if !LeavesWatch(p, es[0]) {
        RunKeepsExact(Apply(p, es[0]), es[1..]);
      }
    }
  }

  lemma ReachableExact(harts: nat, grain: nat, es: seq<Step>)
    requires CanRun(PowerOn(harts, grain), es)
    ensures Covered(RunTo(PowerOn(harts, grain), es))
    ensures ExactThroughout(PowerOn(harts, grain), es) <==> LeavesNoWatch(PowerOn(harts, grain), es)
  {
    PowerOnExact(harts, grain);
    RunKeepsCovered(PowerOn(harts, grain), es);
    RunKeepsExact(PowerOn(harts, grain), es);
  }

  /** In every interleaving of any number of harts live watches stay installed, whatever is reset. */
  lemma {:induction false} RunKeepsCovered(p: Platform, es: seq<Step>)
    requires Covered(p) && CanRun(p, es)
    ensures Covered(RunTo(p, es)) && |RunTo(p, es).tags| == |p.tags|
    decreases |es|
  {
    if es != [] {
      StepKeepsCovered(p, es[0]);
      RunKeepsCovered(Apply(p, es[0]), es[1..]);
    }
  }

  /** Does the step store into the granule with tag t? */
  predicate StoresInto(p: Platform, e: Step, t: nat)
    requires CanStep(p, e)
  {
    && (e.PlainStore? || (e.StoreConditional? && p.tags[p.running] == e.tag))
    && Overlaps(Watch(0, t, t + p.grain - 1), e.address, e.bytes)
  }

  /** No processor but hart h stores into granule t during the run. */
  ghost predicate NoForeignStore(p: Platform, h: nat, es: seq<Step>, t: nat)
    requires CanRun(p, es)
    decreases |es|
  {
    es == [] ||
    (!(p.running != h && StoresInto(p, es[0], t)) && NoForeignStore(Apply(p, es[0]), h, es[1..], t))
  }

  /** Hart h executes no further LR during the run. */
  ghost predicate NoReload(p: Platform, h: nat, es: seq<Step>)
    requires CanRun(p, es)
    decreases |es|
  {
    es == [] || (!(p.running == h && es[0].LoadReserved?) && NoReload(Apply(p, es[0]), h, es[1..]))
  }

  lemma TagStaysOrClears(p: Platform, h: nat, e: Step)
    requires Covered(p) && CanStep(p, e) && h < |p.tags| && !(p.running == h && e.LoadReserved?)
    ensures |Apply(p, e).tags| == |p.tags|
    ensures Apply(p, e).tags[h] == p.tags[h] || Apply(p, e).tags[h] == NO_TAG
    ensures p.running != h && StoresInto(p, e, p.tags[h]) ==> Apply(p, e).tags[h] == NO_TAG
  {
    if e.PlainStore? || e.StoreConditional? {
      StoreEffect(p, e.address, e.bytes);
      if p.running != h && StoresInto(p, e, p.tags[h]) && p.tags[h] != NO_TAG {
        assert Overlaps(TagWatch(p, h), e.address, e.bytes);
      }
    }
  }

  /**
   Safety of LR/SC: a tag that has survived a run, through any context switches, witnesses
   that no other processor stored to its granule.
   */
  lemma {:induction false} SurvivingTagIsExclusive(p: Platform, h: nat, t: nat, es: seq<Step>)
    requires Covered(p) && h < |p.tags| && t != NO_TAG
    requires CanRun(p, es) && NoReload(p, h, es)
    requires |RunTo(p, es).tags| == |p.tags| && RunTo(p, es).tags[h] == t
    ensures p.tags[h] == t && NoForeignStore(p, h, es, t)
    decreases |es|
  {
    if es != [] {
      StepKeepsCovered(p, es[0]);
      SurvivingTagIsExclusive(Apply(p, es[0]), h, t, es[1..]);
      TagStaysOrClears(p, h, es[0]);
    }
  }

  /** A successful SC: between the LR and the SC no other processor stored to the granule. */
  lemma SuccessfulScIsAtomic(p: Platform, t: nat, es: seq<Step>)
    requires Covered(p) && 0 <= p.running < |p.tags| && t != NO_TAG
    requires var q := Apply(p, LoadReserved(t));
             CanRun(q, es) && NoReload(q, p.running, es) && RunTo(q, es).running == p.running
    ensures var q := Apply(p, LoadReserved(t));
            |RunTo(q, es).tags| == |p.tags| &&
            (RunTo(q, es).tags[p.running] == t ==> NoForeignStore(q, p.running, es, t))
  {
    var q := Apply(p, LoadReserved(t));
    StepKeepsCovered(p, LoadReserved(t));
    RunKeepsCovered(q, es);
    if RunTo(q, es).tags[p.running] == t {
      SurvivingTagIsExclusive(q, p.running, t, es);
    }
  }

  // ---------------------------------------------------------------- exactness

  /** Hart h leaves its tag alone and is not reset; no other hart leaves a watch behind. */
  predicate QuietStep(p: Platform, h: nat, e: Step)
    requires CanStep(p, e)
  {
    && !(p.running == h && (e.LoadReserved? || e.StoreConditional? || e.ClearTag?))
    && !(e.ResetHart? && e.hart == h)
    && !LeavesWatch(p, e)
  }

  ghost predicate Quiet(p: Platform, h: nat, es: seq<Step>)
    requires CanRun(p, es)
    decreases |es|
  {
    es == [] || (QuietStep(p, h, es[0]) && Quiet(Apply(p, es[0]), h, es[1..]))
  }

  lemma QuietStepEffect(p: Platform, h: nat, e: Step)
    requires Exact(p) && CanStep(p, e) && h < |p.tags| && p.tags[h] != NO_TAG && QuietStep(p, h, e)
    ensures |Apply(p, e).tags| == |p.tags|
    ensures Apply(p, e).tags[h] == (if p.running != h && StoresInto(p, e, p.tags[h]) then NO_TAG else p.tags[h])
  {
    if e.PlainStore? || e.StoreConditional? {
      StoreEffect(p, e.address, e.bytes);
      if h != p.running {
        assert Overlaps(TagWatch(p, h), e.address, e.bytes) <==>
               Overlaps(Watch(0, p.tags[h], p.tags[h] + p.grain - 1), e.address, e.bytes);
        assert TagWatch(p, h) in p.watches;
      }
    }
  }

  /** Nothing but a foreign store to the granule costs a hart its reservation. */
  lemma {:induction false} TagSurvivesIffUntouched(p: Platform, h: nat, es: seq<Step>)
    requires Exact(p) && h < |p.tags| && p.tags[h] != NO_TAG && CanRun(p, es) && Quiet(p, h, es)
    ensures |RunTo(p, es).tags| == |p.tags|
    ensures RunTo(p, es).tags[h] == p.tags[h] <==> NoForeignStore(p, h, es, p.tags[h])
    decreases |es|
  {
    RunKeepsCovered(p, es);
    if es != [] {
      StepKeepsCovered(p, es[0]);
      QuietStepEffect(p, h, es[0]);
      var q := Apply(p, es[0]);
      if q.tags[h] != NO_TAG {
        TagSurvivesIffUntouched(q, h, es[1..]);
      } else {
        ClearedStays(q, h, es[1..]);
      }
    }
  }

  lemma {:induction false} ClearedStays(p: Platform, h: nat, es: seq<Step>)
    requires Exact(p) && h < |p.tags| && p.tags[h] == NO_TAG && CanRun(p, es) && Quiet(p, h, es)
    ensures |RunTo(p, es).tags| == |p.tags| && RunTo(p, es).tags[h] == NO_TAG
    decreases |es|
  {
    if es != [] {
      StepKeepsCovered(p, es[0]);
      TagStaysOrClears(p, h, es[0]);
      ClearedStays(Apply(p, es[0]), h, es[1..]);
    }
  }

  lemma RunFirst(p: Platform, e: Step, q: Platform, es: seq<Step>)
    requires CanStep(p, e) && Apply(p, e) == q && CanRun(q, es)
    ensures CanRun(p, [e] + es) && RunTo(p, [e] + es) == RunTo(q, es)
  {
    assert ([e] + es)[1..] == es;
  }

  /** A hart with tag t, switched out, for which the watches ws are installed. */
  function Lone(t: nat, ws: set<Watch>, grain: nat): Platform {
    Platform([t], -1, ws, grain)
  }

  /** The single hart is switched in, reserves t and is switched out. */
  lemma Reserve(ws: set<Watch>, grain: nat, t: nat, es: seq<Step>)
    requires t != NO_TAG
    requires CanRun(Lone(t, ws + {Watch(0, t, t + grain - 1)}, grain), es)
    ensures var p := Lone(NO_TAG, ws, grain);
            var es' := [Resume(0)] + ([LoadReserved(t)] + ([Suspend] + es));
            CanRun(p, es') && RunTo(p, es') == RunTo(Lone(t, ws + {Watch(0, t, t + grain - 1)}, grain), es)
  {
    var p := Lone(NO_TAG, ws, grain);
    var p1 := p.(running := 0);
    var p2 := p1.(tags := [t]);
    RunFirst(p2, Suspend, Lone(t, ws + {Watch(0, t, t + grain - 1)}, grain), es);
    RunFirst(p1, LoadReserved(t), p2, [Suspend] + es);
    RunFirst(p, Resume(0), p1, [LoadReserved(t)] + ([Suspend] + es));
  }

  /**
   The exception is real.  A hart reserves t, is switched out and is reset: its watch
   survives, and after its next LR of t' a store to t costs it the new reservation.
   */
  lemma ResetLeavesStaleWatch(grain: nat, t: nat, t': nat) returns (es: seq<Step>)
    requires grain > 0 && t + grain <= t' && t' + grain < NO_TAG
    ensures CanRun(PowerOn(1, grain), es)
    ensures var p := RunTo(PowerOn(1, grain), es);
            && p.tags == [t'] && !StoresInto(p, PlainStore(t, 1), t')
            && Apply(p, PlainStore(t, 1)).tags == [NO_TAG]
  {
    var w := Watch(0, t, t + grain - 1);
    var q := Lone(t', {w} + {Watch(0, t', t' + grain - 1)}, grain);
    Reserve({w}, grain, t', []);
    es := [Resume(0)] + ([LoadReserved(t')] + ([Suspend] + []));
    RunFirst(Lone(t, {w}, grain), ResetHart(0), Lone(NO_TAG, {w}, grain), es);
    es := [ResetHart(0)] + es;
    assert {} + {w} == {w};
    Reserve({}, grain, t, es);
    es := [Resume(0)] + ([LoadReserved(t)] + ([Suspend] + es));
    assert PowerOn(1, grain) == Lone(NO_TAG, {}, grain);
    StoreEffect(q, t, 1);
    assert w in q.watches && Overlaps(w, t, 1);
  }

  // ---------------------------------------------------------------- in place

  /** The write callbacks of the data domain that the harts share. */
  class Domain {
    var callbacks: set<Watch>
  }

  /** The exclusive access fields of one hart and the routines that update them. */
  class Monitor {
    const id: nat
    const grain: nat
    const domain: Domain
    var exclusiveTag: nat

    constructor (id: nat, grain: nat, domain: Domain)
      ensures this.id == id && this.grain == grain && this.domain == domain && exclusiveTag == NO_TAG
    {
      this.id, this.grain, this.domain := id, grain, domain;
      exclusiveTag := NO_TAG;
    }

    function Region(): Watch
      reads this
    {
      Watch(id, exclusiveTag, exclusiveTag + grain - 1)
    }

    /** riscvUpdateExclusiveAccessCallback */
    method UpdateExclusiveAccessCallback(install: bool)
      modifies domain
      ensures exclusiveTag == NO_TAG ==> domain.callbacks == old(domain.callbacks)
      ensures exclusiveTag != NO_TAG && install ==> domain.callbacks == old(domain.callbacks) + {Region()}
      ensures exclusiveTag != NO_TAG && !install ==> domain.callbacks == old(domain.callbacks) - {Region()}
    {
      if exclusiveTag != NO_TAG {
        if install {
          domain.callbacks := domain.callbacks + {Region()};
        } else {
          domain.callbacks := domain.callbacks - {Region()};
        }
      }
    }

    /** riscvAbortExclusiveAccess: the callback is removed before the tag that names it is cleared. */
    method AbortExclusiveAccess()
      modifies this, domain
      ensures exclusiveTag == NO_TAG
      ensures old(exclusiveTag) == NO_TAG ==> domain.callbacks == old(domain.callbacks)
      ensures old(exclusiveTag) != NO_TAG ==> domain.callbacks == old(domain.callbacks) - {old(Region())}
    {
      if exclusiveTag != NO_TAG {
        UpdateExclusiveAccessCallback(false);
        exclusiveTag := NO_TAG;
      }
    }

    /** riscvContextSwitchCB */
    method ContextSwitch(ghost p: Platform, suspend: bool)
      requires id < |p.tags| && p.tags[id] == exclusiveTag && p.watches == domain.callbacks && p.grain == grain
      modifies domain
      ensures domain.callbacks == UpdateWatch(p, id, suspend).watches
    {
      UpdateExclusiveAccessCallback(suspend);
    }
  }
}
