/**
 Vector length, type and the polymorphic key under which code is translated
 (source/riscvCSR.c, source/riscvExceptions.c handleFF, source/riscvUtils.c riscvSetTMode).
 */
module VectorUnit {
  import opened HartState
  import opened Configuration

  /** 8<<vsew, for the three-bit field vsew */
  function SEW(vsew: nat): nat
    requires vsew < 8
  {
    [8, 16, 32, 64, 128, 256, 512, 1024][vsew]
  }

  function LMUL(vlmul: nat): nat
    requires vlmul < 4
  {
    [1, 2, 4, 8][vlmul]
  }

  /** Is there a floating point format of this width?  (validateFPArgWidth) */
  predicate HasFormat(c: Config, width: nat) {
    (width == 16 && c.fp16) || (width == 32 && 'F' in c.arch) || (width == 64 && 'D' in c.arch)
  }

  /** Floating point vector instructions exist if and only if some legal element width has a format. */
  lemma VectorFpMeans(c: Config)
    ensures VectorFp(c) <==> exists vsew :: 0 <= vsew < 8 && c.sewMin <= SEW(vsew) <= c.elen && HasFormat(c, SEW(vsew))
  {
    assert SEW(1) == 16 && SEW(2) == 32 && SEW(3) == 64;
  }

  /** riscvValidSEW */
  predicate ValidSEW(z: Sizes, vsew: nat)
    requires vsew < 8
  {
    z.SEW_min <= SEW(vsew) <= z.ELEN
  }

  /** getMaxVL */
  function MaxVL(z: Sizes, vsew: nat, vlmul: nat): nat
    requires vsew < 8 && vlmul < 4
  {
    z.VLEN * LMUL(vlmul) / SEW(vsew)
  }

  /**
   For every legal vtype the division by SEW is exact, and every element index is below
   VLEN, so the vstart mask VLEN-1 keeps it whole.
   */
  lemma MaxVLExact(z: Sizes, vsew: nat, vlmul: nat)
    requires ValidSizes(z) && vsew < 8 && vlmul < 4 && ValidSEW(z, vsew)
    ensures MaxVL(z, vsew, vlmul) * SEW(vsew) == z.VLEN * LMUL(vlmul)
    ensures 0 < MaxVL(z, vsew, vlmul) <= z.VLEN
  {
    SEWIsPow2(vsew);
    var q := Pow2Multiple(SEW(vsew), z.VLEN);
    ExactQuotient(z.VLEN, LMUL(vlmul), SEW(vsew), q);
  }

  lemma SEWIsPow2(vsew: nat)
    requires vsew < 4
    ensures IsPow2(SEW(vsew)) && SEW(vsew) in {8, 16, 32, 64}
  {
  }

  lemma ExactQuotient(vlen: nat, lmul: nat, sew: nat, q: nat)
    requires vlen == q * sew && vlen > 0 && sew in {8, 16, 32, 64} && lmul in {1, 2, 4, 8}
    ensures vlen * lmul / sew * sew == vlen * lmul
    ensures 0 < vlen * lmul / sew <= vlen
  {
    if sew == 8 {
      assert vlen * lmul / 8 == q * lmul;
    } else if sew == 16 {
      assert vlen * lmul / 16 == q * lmul;
    } else if sew == 32 {
      assert vlen * lmul / 32 == q * lmul;
    } else {
      assert vlen * lmul / 64 == q * lmul;
    }
  }

  lemma {:induction false} IndexFitsMask(i: nat, n: nat)
    requires IsPow2(n) && i < n
    ensures And(i, n - 1) == i
    decreases n
  {
    if i != 0 {
      assert (n - 1) / 2 == n / 2 - 1;
      IndexFitsMask(i / 2, n / 2);
    }
  }

  // ---------------------------------------------------------------- vl, vtype and the key

  /** vl, the fields of vtype, vstart, the fault-only-first flag and the polymorphic key. */
  datatype Vec = Vec(vl: nat, vill: bool, vsew: nat, vlmul: nat, vstart: nat, firstFault: bool, pmKey: nat)

  predicate InRange(v: Vec) {
    v.vsew < 8 && v.vlmul < 4 && v.pmKey < 0x10000
  }

  /** VLCLASSMT_ZERO, VLCLASSMT_NONZERO or VLCLASSMT_MAX */
  function VLClass(z: Sizes, v: Vec): (k: nat)
    requires InRange(v)
    ensures 1 <= k <= 3
  {
    if v.vl == 0 then 1 else if v.vl == MaxVL(z, v.vsew, v.vlmul) then 3 else 2
  }

  /** The vector part of the key: the class in bits 1:0, then vlmul and vsew, or vill alone. */
  function VectorKey(z: Sizes, v: Vec): (k: nat)
    requires InRange(v)
    ensures k < 256
  {
    if v.vill then 4 else VLClass(z, v) + 4 * (v.vlmul + 4 * v.vsew)
  }

  /** riscvRefreshVectorPMKey */
  function RefreshKey(z: Sizes, v: Vec): Vec
    requires InRange(v)
  {
    v.(pmKey := v.pmKey - v.pmKey % 256 + VectorKey(z, v))
  }

  /** riscvSetVL */
  function SetVL(z: Sizes, v: Vec, vl: nat): Vec
    requires InRange(v)
  {
    var maxVL := MaxVL(z, v.vsew, v.vlmul);
    v.(vl := if vl > maxVL then maxVL else vl)
  }

  /** setVLSEWLMULInt (source/riscvMorph.c), which the vsetvl instructions call */
  function SetVLSEWLMUL(z: Sizes, v: Vec, vl: nat, vsew: nat, vlmul: nat): Vec
    requires InRange(v) && vsew < 8 && vlmul < 4
  {
    var vill := !ValidSEW(z, vsew);
    var w := if vill then v.(vill := true, vsew := 0, vlmul := 0)
             else v.(vill := false, vsew := vsew, vlmul := vlmul);
    RefreshKey(z, SetVL(z, w, if vill then 0 else vl))
  }

  /** resetVLVType */
  function ResetVector(z: Sizes, v: Vec): Vec
    requires InRange(v)
  {
    RefreshKey(z, SetVL(z, v.(vill := !ValidSEW(z, 0), vsew := 0, vlmul := 0), 0))
  }

  /** handleFF: the state it leaves, and whether the exception is suppressed. */
  function HandleFF(z: Sizes, v: Vec): (Vec, bool)
    requires InRange(v)
  {
    if !v.firstFault then (v, false)
    else
      var v := v.(firstFault := false);
      if v.vstart == 0 then (v, false) else (RefreshKey(z, SetVL(z, v, v.vstart)), true)
  }

  predicate InTMode(v: Vec) {
    v.pmKey / 0x8000 % 2 == 1
  }

  /** riscvSetTMode */
  function SetTMode(v: Vec, enable: bool): Vec
    requires InRange(v)
  {
    if enable == InTMode(v) then v
    else v.(pmKey := if enable then v.pmKey + 0x8000 else v.pmKey - 0x8000)
  }

  // ---------------------------------------------------------------- what vl becomes

  function Lesser(a: nat, b: nat): nat {
    if a < b then a else b
  }

  /** vsetvl with an element width that the configuration has: vl is as asked, up to VLEN*LMUL/SEW. */
  lemma VsetvlEffect(z: Sizes, v: Vec, vl: nat, vsew: nat, vlmul: nat)
    requires InRange(v) && vsew < 8 && vlmul < 4
    ensures var v' := SetVLSEWLMUL(z, v, vl, vsew, vlmul);
            && (if z.SEW_min <= SEW(vsew) <= z.ELEN
                then !v'.vill && v'.vsew == vsew && v'.vlmul == vlmul
                     && v'.vl == Lesser(vl, z.VLEN * LMUL(vlmul) / SEW(vsew))
                else v'.vill && v'.vsew == 0 && v'.vlmul == 0 && v'.vl == 0)
            && v'.vstart == v.vstart && v'.firstFault == v.firstFault
  {
  }

  /** SEW is 8 times, and LMUL is, a power of two. */
  lemma WidthTables(vsew: nat, vlmul: nat)
    requires vsew < 8 && vlmul < 4
    ensures SEW(vsew) == 8 * Pow2(vsew) && LMUL(vlmul) == Pow2(vlmul)
  {
    assert Pow2(2) == 4;
    assert Pow2(4) == 16;
    assert Pow2(6) == 64;
  }

  /** A fault is suppressed if and only if the first-fault flag is set past element 0; vl then shrinks to vstart. */
  lemma FirstFaultEffect(z: Sizes, v: Vec)
    requires InRange(v)
    ensures var (v', suppress) := HandleFF(z, v);
            && (suppress <==> v.firstFault && v.vstart != 0)
            && !v'.firstFault
            && v'.vl == (if suppress then Lesser(v.vstart, MaxVL(z, v.vsew, v.vlmul)) else v.vl)
            && v'.vill == v.vill && v'.vsew == v.vsew && v'.vlmul == v.vlmul && v'.vstart == v.vstart
  {
  }

  /** Reset: width 8, no grouping, nothing active; illegal if width 8 is. */
  lemma ResetVectorEffect(z: Sizes, v: Vec)
    requires InRange(v)
    ensures var v' := ResetVector(z, v);
            v'.vl == 0 && v'.vsew == 0 && v'.vlmul == 0 && v'.vill == !(z.SEW_min <= 8 <= z.ELEN)
  {
  }

  /** The key, field by field: class of vl, vlmul and vsew, or vill alone; the upper half is kept. */
  lemma KeyFields(z: Sizes, v: Vec)
    requires InRange(v)
    ensures var k := RefreshKey(z, v).pmKey;
            && k / 256 == v.pmKey / 256
            && (v.vill ==> k % 256 == 4)
            && (!v.vill ==> k % 4 == (if v.vl == 0 then 1 else if v.vl == MaxVL(z, v.vsew, v.vlmul) then 3 else 2)
                            && k / 4 % 4 == v.vlmul && k / 16 % 16 == v.vsew)
  {
    KeyBits(v.pmKey / 256, VLClass(z, v), v.vlmul, v.vsew);
    assert v.pmKey - v.pmKey % 256 == 256 * (v.pmKey / 256);
  }

  // Digits of a number in base 4 and 16
  lemma Digit4(q: nat, r: nat)
    requires r < 4
    ensures (4 * q + r) / 4 == q && (4 * q + r) % 4 == r
  {
  }

  lemma Digit16(q: nat, r: nat)
    requires r < 16
    ensures (16 * q + r) / 16 == q && (16 * q + r) % 16 == r
  {
  }

  lemma KeyBits(upper: nat, cls: nat, vlmul: nat, vsew: nat)
    requires cls < 4 && vlmul < 4 && vsew < 8
    ensures var k := 256 * upper + (cls + 4 * (vlmul + 4 * vsew));
            k / 256 == upper && k % 4 == cls && k / 4 % 4 == vlmul && k / 16 % 16 == vsew
  {
    Digit4(64 * upper + vlmul + 4 * vsew, cls);
    Digit4(16 * upper + vsew, vlmul);
    Digit16(16 * upper + vsew, cls + 4 * vlmul);
    Digit16(upper, vsew);
  }

  datatype VecStep =
    | VSetVL(newVl: nat, newVsew: nat, newVlmul: nat)
    | MemoryFault
    | StartFirstFault(index: nat)   // a fault-only-first load reaches an element
    | WriteVstart(index: nat)
    | TMode(enable: bool)
    | ResetStep

  predicate CanStep(e: VecStep) {
    e.VSetVL? ==> e.newVsew < 8 && e.newVlmul < 4
  }

  function Step(z: Sizes, v: Vec, e: VecStep): Vec
    requires InRange(v) && CanStep(e)
  {
    match e
    case VSetVL(newVl, newVsew, newVlmul) => SetVLSEWLMUL(z, v, newVl, newVsew, newVlmul)
    case MemoryFault => HandleFF(z, v).0
    case StartFirstFault(index) => v.(firstFault := true, vstart := index)
    case WriteVstart(index) => v.(vstart := index)
    case TMode(enable) => SetTMode(v, enable)
    case ResetStep => ResetVector(z, v)
  }

  /** The key describes the vector state and vl is legal. */
  predicate Fresh(z: Sizes, v: Vec) {
    InRange(v) && v.pmKey % 256 == VectorKey(z, v) && v.vl <= MaxVL(z, v.vsew, v.vlmul)
  }

  /** A fault-only-first load that faults at element i: suppressed unless i is 0, with vl cut to i. */
  lemma FaultAtElement(z: Sizes, v: Vec, i: nat)
    requires InRange(v)
    ensures var v1 := Step(z, v, StartFirstFault(i));
            && InRange(v1) && HandleFF(z, v1).1 == (i != 0)
            && Step(z, v1, MemoryFault).vl == (if i == 0 then v.vl else Lesser(i, MaxVL(z, v.vsew, v.vlmul)))
    ensures Step(z, v, WriteVstart(i)) == v.(vstart := i)
  {
  }

  /** The vector byte and the transaction bit of a key are independent. */
  lemma KeyParts(key: nat, part: nat)
    requires key < 0x10000 && part < 256
    ensures var k := key - key % 256 + part;
            k < 0x10000 && k % 256 == part && k / 0x8000 % 2 == key / 0x8000 % 2
  {
  }

  lemma KeyTransaction(key: nat)
    requires key < 0x10000
    ensures key / 0x8000 % 2 == 0 ==>
              key + 0x8000 < 0x10000 && (key + 0x8000) % 256 == key % 256 && (key + 0x8000) / 0x8000 % 2 == 1
    ensures key / 0x8000 % 2 == 1 ==>
              key >= 0x8000 && (key - 0x8000) % 256 == key % 256 && (key - 0x8000) / 0x8000 % 2 == 0
  {
  }

  lemma KeyIgnoresPmKey(z: Sizes, v: Vec, key: nat)
    requires InRange(v) && key < 0x10000
    ensures VectorKey(z, v.(pmKey := key)) == VectorKey(z, v)
  {
  }

  lemma RefreshMakesFresh(z: Sizes, v: Vec)
    requires InRange(v) && v.vl <= MaxVL(z, v.vsew, v.vlmul)
    ensures Fresh(z, RefreshKey(z, v)) && InTMode(RefreshKey(z, v)) == InTMode(v)
  {
    KeyParts(v.pmKey, VectorKey(z, v));
    KeyIgnoresPmKey(z, v, RefreshKey(z, v).pmKey);
  }

  lemma TModeKeepsFresh(z: Sizes, v: Vec, enable: bool)
    requires Fresh(z, v)
    ensures Fresh(z, SetTMode(v, enable)) && InTMode(SetTMode(v, enable)) == enable
  {
    KeyTransaction(v.pmKey);
    KeyIgnoresPmKey(z, v, SetTMode(v, enable).pmKey);
  }

  /** Reset makes the key fresh whatever it was, and leaves the transaction bit alone. */
  lemma ResetMakesFresh(z: Sizes, v: Vec)
    requires InRange(v)
    ensures Fresh(z, ResetVector(z, v)) && InTMode(ResetVector(z, v)) == InTMode(v)
  {
    RefreshMakesFresh(z, SetVL(z, v.(vill := !ValidSEW(z, 0), vsew := 0, vlmul := 0), 0));
  }

  /** A step keeps the key fresh; only TMode changes the transaction bit, and it nothing else. */
  lemma StepKeepsFresh(z: Sizes, v: Vec, e: VecStep)
    requires Fresh(z, v) && CanStep(e)
    ensures Fresh(z, Step(z, v, e))
    ensures InTMode(Step(z, v, e)) == (if e.TMode? then e.enable else InTMode(v))
    ensures e.TMode? ==> Step(z, v, e) == v.(pmKey := Step(z, v, e).pmKey)
  {
    match e
    case VSetVL(newVl, newVsew, newVlmul) =>
      var vill := !ValidSEW(z, newVsew);
      var w := if vill then v.(vill := true, vsew := 0, vlmul := 0)
               else v.(vill := false, vsew := newVsew, vlmul := newVlmul);
      RefreshMakesFresh(z, SetVL(z, w, if vill then 0 else newVl));
    case MemoryFault => RefreshMakesFresh(z, SetVL(z, v.(firstFault := false), v.vstart));
    case StartFirstFault(_) =>
    case WriteVstart(_) =>
    case TMode(enable) => TModeKeepsFresh(z, v, enable);
    case ResetStep => ResetMakesFresh(z, v);
  }

  function Run(z: Sizes, v: Vec, es: seq<VecStep>): Vec
    requires Fresh(z, v) && forall e :: e in es ==> CanStep(e)
    decreases |es|
  {
    if es == [] then v else
      StepKeepsFresh(z, v, es[0]);
      Run(z, Step(z, v, es[0]), es[1..])
  }

  lemma {:induction false} RunKeepsFresh(z: Sizes, v: Vec, es: seq<VecStep>)
    requires Fresh(z, v) && forall e :: e in es ==> CanStep(e)
    ensures Fresh(z, Run(z, v, es))
    decreases |es|
  {
    if es != [] {
      StepKeepsFresh(z, v, es[0]);
      RunKeepsFresh(z, Step(z, v, es[0]), es[1..]);
    }
  }

  /** The vector state after construction. */
  function PowerOn(z: Sizes): Vec {
    ResetVector(z, Vec(0, false, 0, 0, 0, false, 0))
  }

  lemma ReachableFresh(z: Sizes, es: seq<VecStep>)
    requires forall e :: e in es ==> CanStep(e)
    ensures Fresh(z, PowerOn(z)) && Fresh(z, Run(z, PowerOn(z), es))
  {
    ResetMakesFresh(z, Vec(0, false, 0, 0, 0, false, 0));
    RunKeepsFresh(z, PowerOn(z), es);
  }

  /** Equal keys mean equal vector configuration, so code translated under one key can be shared. */
  lemma KeySound(z: Sizes, v: Vec, w: Vec)
    requires Fresh(z, v) && Fresh(z, w) && v.pmKey == w.pmKey
    ensures v.vill == w.vill && InTMode(v) == InTMode(w)
    ensures !v.vill ==> v.vsew == w.vsew && v.vlmul == w.vlmul && VLClass(z, v) == VLClass(z, w)
  {
  }

  // ---------------------------------------------------------------- in place

  /** The vector fields of the processor and the routines that update them. */
  class VectorState {
    const sizes: Sizes
    var vl: nat
    var vill: bool
    var vsew: nat
    var vlmul: nat
    var vstart: nat
    var vFirstFault: bool
    var pmKey: nat

    function State(): Vec
      reads this
    {
      Vec(vl, vill, vsew, vlmul, vstart, vFirstFault, pmKey)
    }

    method UpdateVL(value: nat)
      requires InRange(State())
      modifies this`vl
      ensures State() == SetVL(sizes, old(State()), value)
    {
      var maxVL := MaxVL(sizes, vsew, vlmul);
      vl := value;
      if vl > maxVL {
        vl := maxVL;
      }
    }

    method RefreshPMKey()
      requires InRange(State())
      modifies this`pmKey
      ensures State() == RefreshKey(sizes, old(State()))
    {
      var vtypeKey := 4 * (vlmul + 4 * vsew);
      var key;
      if vill {
        key := 4;
      } else if vl == 0 {
        key := 1 + vtypeKey;
      } else if vl == MaxVL(sizes, vsew, vlmul) {
        key := 3 + vtypeKey;
      } else {
        key := 2 + vtypeKey;
      }
      pmKey := pmKey - pmKey % 256 + key;
    }

    /** setVLSEWLMULInt: the state it leaves is fresh whatever it was. */
    method SetVectorType(value: nat, newVsew: nat, newVlmul: nat)
      requires InRange(State()) && newVsew < 8 && newVlmul < 4
      modifies this`vl, this`vill, this`vsew, this`vlmul, this`pmKey
      ensures State() == SetVLSEWLMUL(sizes, old(State()), value, newVsew, newVlmul)
    {
      vill := !ValidSEW(sizes, newVsew);
      vsew, vlmul := newVsew, newVlmul;
      var newVl := value;
      if vill {
        newVl, vsew, vlmul := 0, 0, 0;
      }
      UpdateVL(newVl);
      RefreshPMKey();
    }

    method ResetVLVType()
      requires InRange(State())
      modifies this`vl, this`vill, this`vsew, this`vlmul, this`pmKey
      ensures State() == ResetVector(sizes, old(State()))
    {
      vsew, vlmul, vill := 0, 0, !ValidSEW(sizes, 0);
      UpdateVL(0);
      RefreshPMKey();
    }

    method HandleFirstFault() returns (suppress: bool)
      requires InRange(State())
      modifies this`vl, this`vFirstFault, this`pmKey
      ensures (State(), suppress) == HandleFF(sizes, old(State()))
    {
      suppress := false;
      if vFirstFault {
        vFirstFault := false;
        if vstart != 0 {
          suppress := true;
          UpdateVL(vstart);
          RefreshPMKey();
        }
      }
    }
  }
}
