/**
 Machine words.  A word that the source uses as a bit mask is modelled by the set of
 positions of its 1-bits: `a & b` is `a * b`, `a | b` is `a + b` and `a & ~b` is `a - b`.
 A word that the source uses as a number (an address, a counter) is a natural number.
 */
module Words {

  type Bits = set<nat>

  const TWO64: nat := 0x1_0000_0000_0000_0000

  /** Write one bit of a word. */
  function Put(w: Bits, i: nat, b: bool): (r: Bits)
    ensures forall k: nat :: k in r <==> (if k == i then b else k in w)
  {
    if b then w + {i} else w - {i}
  }

  /** Read the two-bit field whose low bit is at `lo`. */
  function Field2(w: Bits, lo: nat): (v: nat)
    ensures v <= 3
  {
    (if lo in w then 1 else 0) + (if lo + 1 in w then 2 else 0)
  }

  /** Write the two-bit field whose low bit is at `lo`. */
  function PutField2(w: Bits, lo: nat, v: nat): (r: Bits)
    ensures v <= 3 ==> Field2(r, lo) == v
    ensures forall k: nat :: k != lo && k != lo + 1 ==> (k in r <==> k in w)
  {
    Put(Put(w, lo, v % 2 == 1), lo + 1, v / 2 % 2 == 1)
  }

  /** `(new & mask) | (old & ~mask)`: the masked register write used throughout the source. */
  function Merge(previous: Bits, value: Bits, mask: Bits): Bits {
    (value * mask) + (previous - mask)
  }

  /** Conversion of a 64-bit mask to Uns32. */
  function Low32(w: Bits): (r: Bits)
    ensures forall k: nat :: k in r <==> k in w && k < 32
  {
    set k: nat | k in w && k < 32
  }

  /** `w >> 1` */
  function ShiftRight1(w: Bits): (r: Bits)
    ensures forall k: nat :: k in r <==> k + 1 in w
  {
    set k: nat | k in w && 1 <= k :: k - 1
  }

  /** `w >> n` */
  function ShiftRight(w: Bits, n: nat): (r: Bits)
    ensures forall k: nat :: k in r <==> k + n in w
  {
    set k: nat | k in w && n <= k :: k - n
  }

  lemma ShiftRightOnce(w: Bits, n: nat)
    ensures ShiftRight1(ShiftRight(w, n)) == ShiftRight(w, n + 1)
    ensures 0 in ShiftRight(w, n) <==> n in w
    ensures ShiftRight(w, n) == {} ==> forall k: nat :: k in w ==> k < n
  {
    forall k: nat ensures k in ShiftRight1(ShiftRight(w, n)) <==> k in ShiftRight(w, n + 1) {
      assert k + 1 + n == k + (n + 1);
    }
    if ShiftRight(w, n) == {} {
      forall k: nat | k in w ensures k < n {
        assert n <= k ==> k - n in ShiftRight(w, n);
      }
    }
  }

  /** Uns64 addresses wrap without losing their alignment. */
  lemma WrapKeepsAlignment(x: nat)
    requires x % 4 == 0
    ensures x % TWO64 % 4 == 0
  {
  }

  /** The word with 1-bits at `lo` up to but not including `hi`. */
  function Range(lo: nat, hi: nat): (r: Bits)
    ensures forall k: nat :: k in r <==> lo <= k < hi
    decreases hi - lo
  {
    if hi <= lo then {} else {lo} + Range(lo + 1, hi)
  }

  /** `a & -4` */
  function Align4(a: nat): (r: nat)
    ensures r % 4 == 0 && r <= a < r + 4
  {
    a - a % 4
  }
}
