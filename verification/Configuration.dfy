/**
 Legalisation of configuration parameters (source/riscvMain.c, applyParamsSMP): vector
 sizes become powers of two in the right order, and the architecture word has exactly one
 base ISA.
 */
module Configuration {
  import opened Words
  import opened HartState

  // ---------------------------------------------------------------- bitwise arithmetic on Uns64

  /** `a & b` */
  function And(a: nat, b: nat): nat {
    if a == 0 then 0 else (if a % 2 == 1 && b % 2 == 1 then 1 else 0) + 2 * And(a / 2, b / 2)
  }

  function Pow2(k: nat): (p: nat)
    ensures p > 0
  {
    if k == 0 then 1 else 2 * Pow2(k - 1)
  }

  /** `-a` and `~a` in k bits; the source's width is 64. */
  function Neg(a: nat, k: nat): nat
    requires a < Pow2(k)
  {
    if a == 0 then 0 else Pow2(k) - a
  }

  function Not(a: nat, k: nat): nat
    requires a < Pow2(k)
  {
    Pow2(k) - 1 - a
  }

  predicate IsPow2(n: nat) {
    n == 1 || (n > 1 && n % 2 == 0 && IsPow2(n / 2))
  }

  /** The lowest set bit of n. */
  function LowBit(n: nat): (b: nat)
    requires n > 0
    ensures 0 < b <= n
  {
    if n % 2 == 1 then 1 else 2 * LowBit(n / 2)
  }

  lemma {:induction false} AndNotIsZero(a: nat, k: nat)
    requires a < Pow2(k)
    ensures And(a, Not(a, k)) == 0
  {
    if a != 0 {
      assert Not(a, k) / 2 == Not(a / 2, k - 1);
      AndNotIsZero(a / 2, k - 1);
    }
  }

  lemma {:induction false} AndOnes(a: nat, k: nat)
    requires a < Pow2(k)
    ensures And(a, Pow2(k) - 1) == a
  {
    if a != 0 {
      assert (Pow2(k) - 1) / 2 == Pow2(k - 1) - 1;
      AndOnes(a / 2, k - 1);
    }
  }

  /** `v & -v` isolates the lowest set bit. */
  lemma {:induction false} AndNegIsLowBit(v: nat, k: nat)
    requires 0 < v < Pow2(k)
    ensures And(v, Neg(v, k)) == LowBit(v)
  {
    if v % 2 == 1 {
      assert Neg(v, k) / 2 == Not(v / 2, k - 1);
      AndNotIsZero(v / 2, k - 1);
    } else {
      assert Neg(v, k) / 2 == Neg(v / 2, k - 1);
      AndNegIsLowBit(v / 2, k - 1);
    }
  }

  /** `v & ~(lowest set bit)` subtracts it. */
  lemma {:induction false} ClearLowBit(v: nat, k: nat)
    requires 0 < v < Pow2(k)
    ensures And(v, Not(LowBit(v), k)) == v - LowBit(v)
  {
    if v % 2 == 1 {
      assert Not(1, k) / 2 == Pow2(k - 1) - 1;
      AndOnes(v / 2, k - 1);
    } else {
      assert Not(LowBit(v), k) / 2 == Not(LowBit(v / 2), k - 1);
      ClearLowBit(v / 2, k - 1);
    }
  }

  lemma {:induction false} LowBitIsPow2(n: nat)
    requires n > 0
    ensures IsPow2(LowBit(n))
  {
    if n % 2 == 0 {
      LowBitIsPow2(n / 2);
    }
  }

  /** Clearing the lowest set bit at least doubles the lowest set bit. */
  lemma {:induction false} NextLowBit(n: nat)
    requires n > 0 && n > LowBit(n)
    ensures LowBit(n - LowBit(n)) >= 2 * LowBit(n)
  {
    if n % 2 == 0 {
      assert (n - LowBit(n)) / 2 == n / 2 - LowBit(n / 2);
      NextLowBit(n / 2);
    }
  }

  /** What the loop of powerOfTwo needs to know about its current value. */
  lemma LowBitByMasks(v: nat)
    requires 0 < v < Pow2(64)
    ensures And(v, Neg(v, 64)) == LowBit(v)
    ensures And(v, Not(LowBit(v), 64)) == v - LowBit(v)
  {
    AndNegIsLowBit(v, 64);
    ClearLowBit(v, 64);
  }

  /** powerOfTwo: clear the lowest set bit while more than one is set. */
  method PowerOfTwo(oldValue: nat) returns (newValue: nat)
    requires oldValue < Pow2(64)
    ensures oldValue == 0 ==> newValue == 0
    ensures oldValue > 0 ==> IsPow2(newValue) && newValue <= oldValue < 2 * newValue
  {
    newValue := oldValue;
    if newValue > 0 { LowBitByMasks(newValue); }
    while And(newValue, Not(And(newValue, Neg(newValue, 64)), 64)) != 0
      invariant newValue <= oldValue && (newValue == 0 ==> oldValue == 0)
      invariant newValue > 0 ==>
          && oldValue < newValue + LowBit(newValue)
          && And(newValue, Neg(newValue, 64)) == LowBit(newValue)
          && And(newValue, Not(LowBit(newValue), 64)) == newValue - LowBit(newValue)
      decreases newValue
    {
      NextLowBit(newValue);
      newValue := And(newValue, Not(And(newValue, Neg(newValue, 64)), 64));
      LowBitByMasks(newValue);
    }
    if newValue > 0 { LowBitIsPow2(newValue); }
  }

  // ---------------------------------------------------------------- powers of two

  /** The smaller of two powers of two divides the larger. */
  lemma {:induction false} Pow2Multiple(a: nat, b: nat) returns (q: nat)
    requires IsPow2(a) && IsPow2(b) && a <= b
    ensures b == q * a && IsPow2(q)
    decreases a
  {
    if a == 1 {
      q := b;
    } else {
      q := Pow2Multiple(a / 2, b / 2);
      assert b == 2 * (q * (a / 2)) == q * (2 * (a / 2));
    }
  }

  lemma {:induction false} Pow2IsPow2(k: nat)
    ensures IsPow2(Pow2(k))
  {
    if k != 0 {
      Pow2IsPow2(k - 1);
    }
  }

  // ---------------------------------------------------------------- vector sizes

  datatype Sizes = Sizes(ELEN: nat, VLEN: nat, SEW_min: nat)

  predicate ValidSizes(z: Sizes) {
    IsPow2(z.ELEN) && IsPow2(z.VLEN) && IsPow2(z.SEW_min) && 8 <= z.SEW_min <= z.ELEN <= z.VLEN && z.ELEN <= 64
  }

  /** powerOfTwo of a size: a power of two keeps its value. */
  method RoundSize(size: nat) returns (p: nat)
    requires 8 <= size <= 65536
    ensures IsPow2(p) && 8 <= p <= size < 2 * p
    ensures IsPow2(size) ==> p == size
  {
    Pow2Of64();
    p := PowerOfTwo(size);
    Nearest(size, p);
  }

  /** The vector sizes of riscvConfig. */
  class VectorSizes {
    var ELEN: nat
    var SLEN: nat
    var VLEN: nat
    var SEW_min: nat

    predicate Valid()
      reads this
    {
      ValidSizes(Sizes(ELEN, VLEN, SEW_min)) && VLEN <= 65536 && IsPow2(SLEN) && SLEN <= VLEN
    }

    /** The vector part of applyParamsSMP, with parameters in the ranges the parameter table allows. */
    constructor (elen: nat, slen: nat, vlen: nat, sewMin: nat)
      requires 32 <= elen <= 64 && 32 <= slen <= 65536 && 32 <= vlen <= 65536 && 8 <= sewMin <= 64
      ensures Valid()
      ensures ELEN <= elen < 2 * ELEN
      ensures if vlen < ELEN then VLEN == ELEN else VLEN <= vlen < 2 * VLEN
      ensures if slen >= 2 * VLEN then SLEN == VLEN else SLEN <= slen < 2 * SLEN
      ensures if sewMin >= 2 * ELEN then SEW_min == ELEN else SEW_min <= sewMin < 2 * SEW_min
      ensures IsPow2(elen) ==> ELEN == elen
      ensures IsPow2(vlen) && vlen >= elen ==> VLEN == vlen
      ensures IsPow2(slen) && slen <= VLEN ==> SLEN == slen
      ensures IsPow2(sewMin) && sewMin <= ELEN ==> SEW_min == sewMin
    {
      var e := RoundSize(elen);
      var s := RoundSize(slen);
      var v := RoundSize(vlen);
      var m := RoundSize(sewMin);
      if v < e {
        Pow2Gap(v, e);
        v := e;
      }
      if s > v {
        Pow2Gap(v, s);
        s := v;
      }
      if m > e {
        Pow2Gap(e, m);
        m := e;
      }
      ELEN, SLEN, VLEN, SEW_min := e, s, v, m;
    }
  }

  lemma {:induction false} SquarePow2(k: nat)
    ensures Pow2(2 * k) == Pow2(k) * Pow2(k)
  {
    if k != 0 {
      SquarePow2(k - 1);
      var p := Pow2(k - 1);
      assert Pow2(2 * k) == 2 * Pow2(2 * k - 1) == 4 * Pow2(2 * (k - 1));
      assert (2 * p) * (2 * p) == 4 * (p * p);
    }
  }

  /** The width of Uns64. */
  lemma Pow2Of64()
    ensures Pow2(64) == TWO64
  {
    assert Pow2(2) == 4;
    SquarePow2(2);
    SquarePow2(4);
    SquarePow2(8);
    SquarePow2(16);
    SquarePow2(32);
  }

  /** Distinct powers of two are at least a factor of two apart. */
  lemma {:induction false} Pow2Gap(p: nat, v: nat)
    requires IsPow2(p) && IsPow2(v) && p < v
    ensures 2 * p <= v
  {
    if p != 1 {
      Pow2Gap(p / 2, v / 2);
    }
  }

  /** There is only one power of two p with p <= v < 2p. */
  lemma Nearest(v: nat, p: nat)
    requires IsPow2(p) && p <= v < 2 * p
    ensures IsPow2(v) ==> p == v
    ensures 8 <= v ==> 8 <= p
  {
    if IsPow2(v) && p < v {
      Pow2Gap(p, v);
    }
    if p < 8 {
      Pow2IsPow2(3);
      Pow2Gap(p, 8);
    }
  }

  // ---------------------------------------------------------------- exclusive tag mask

  /** generateEATag: an address masked with exclusiveTagMask, which is -lr_sc_grain. */
  function TagOf(address: nat, grain: nat): nat
    requires 0 < grain < Pow2(64)
  {
    And(address, Neg(grain, 64))
  }

  /** A word is the sum of its parts under a mask and its complement. */
  lemma {:induction false} AndSplit(a: nat, m: nat, k: nat)
    requires a < Pow2(k) && m < Pow2(k)
    ensures And(a, m) + And(a, Not(m, k)) == a
  {
    if a != 0 {
      assert Not(m, k) / 2 == Not(m / 2, k - 1);
      AndSplit(a / 2, m / 2, k - 1);
    }
  }

  lemma {:induction false} AndAtMost(a: nat, b: nat)
    ensures And(a, b) <= b
  {
    if a != 0 {
      AndAtMost(a / 2, b / 2);
    }
  }

  /** Whatever the grain, the watched range [tag, tag+grain-1] contains the reserved address. */
  lemma TagCovers(address: nat, grain: nat)
    requires address < Pow2(64) && 0 < grain < Pow2(64)
    ensures TagOf(address, grain) <= address <= TagOf(address, grain) + grain - 1
  {
    AndSplit(address, Neg(grain, 64), 64);
    AndAtMost(address, Not(Neg(grain, 64), 64));
  }

  lemma {:induction false} MulAtLeast(d: nat, n: nat)
    requires n > 0
    ensures d * n >= d
  {
    if n > 1 {
      MulAtLeast(d, n - 1);
      assert d * n == d * (n - 1) + d;
    }
  }

  /** Quotients by d are unique. */
  lemma DivUnique(d: nat, q: nat, r: nat, q': nat, r': nat)
    requires d * q + r == d * q' + r' && r < d && r' < d
    ensures q == q' && r == r'
  {
    if q > q' {
      assert d * q == d * q' + d * (q - q');
      MulAtLeast(d, q - q');
    } else if q < q' {
      assert d * q' == d * q + d * (q' - q);
      MulAtLeast(d, q' - q);
    }
  }

  lemma DivMod(x: nat, d: nat) returns (q: nat, r: nat)
    requires d > 0
    ensures x == d * q + r && r < d && r == x % d
  {
    q, r := x / d, x % d;
  }

  lemma DoubleRemainder(m: nat, q: nat, r: nat, bit: nat, d: nat, q': nat, r': nat)
    requires d == 2 * m && 2 * (m * q + r) + bit == d * q' + r' && r < m && bit < 2 && r' < d
    ensures r' == 2 * r + bit
  {
    assert 2 * (m * q + r) + bit == d * q + (2 * r + bit);
    DivUnique(d, q, 2 * r + bit, q', r');
  }

  lemma ModDouble(a: nat, m: nat, d: nat)
    requires m > 0 && d == 2 * m
    ensures a % d == 2 * (a / 2 % m) + a % 2
  {
    var q, r := DivMod(a / 2, m);
    var q', r' := DivMod(a, d);
    DoubleRemainder(m, q, r, a % 2, d, q', r');
  }

  /** Masking with minus a power of two rounds down to a multiple of it. */
  lemma {:induction false} AndNegPow2(a: nat, g: nat, k: nat)
    requires a < Pow2(k) && IsPow2(g) && g < Pow2(k)
    ensures And(a, Neg(g, k)) == a - a % g
    decreases g
  {
    if g == 1 {
      AndOnes(a, k);
    } else {
      assert Neg(g, k) / 2 == Neg(g / 2, k - 1) && Neg(g, k) % 2 == 0;
      AndNegPow2(a / 2, g / 2, k - 1);
      ModDouble(a, g / 2, g);
    }
  }

  /** The lowest set bit of g survives the mask -g. */
  lemma {:induction false} LowBitSurvives(g: nat, k: nat)
    requires 0 < g < Pow2(k)
    ensures And(LowBit(g), Neg(g, k)) == LowBit(g)
  {
    if g % 2 == 0 {
      assert Neg(g, k) / 2 == Neg(g / 2, k - 1);
      LowBitSurvives(g / 2, k - 1);
    }
  }

  lemma {:induction false} LowBitOfPow2(g: nat)
    requires g > 0
    ensures LowBit(g) == g <==> IsPow2(g)
  {
    if g % 2 == 0 {
      LowBitOfPow2(g / 2);
    }
  }

  /** The grain cuts memory into aligned granules: every tag is the base of one. */
  ghost predicate TagsAligned(grain: nat)
    requires 0 < grain < Pow2(64)
  {
    forall a :: 0 <= a < Pow2(64) ==> TagOf(a, grain) == a - a % grain
  }

  /** Watched ranges of different tags do not overlap. */
  ghost predicate RangesApart(grain: nat)
    requires 0 < grain < Pow2(64)
  {
    forall a, b :: 0 <= a < Pow2(64) && 0 <= b < Pow2(64) && TagOf(a, grain) < TagOf(b, grain) ==>
      TagOf(a, grain) + grain <= TagOf(b, grain)
  }

  /** Both hold if and only if the grain is a power of two, which the tag mask does not ensure. */
  lemma TagAligned(grain: nat)
    requires 0 < grain < Pow2(64)
    ensures TagsAligned(grain) <==> IsPow2(grain)
    ensures RangesApart(grain) <==> IsPow2(grain)
  {
    if IsPow2(grain) {
      forall a | 0 <= a < Pow2(64) ensures TagOf(a, grain) == a - a % grain {
        AndNegPow2(a, grain, 64);
      }
      AlignedApart(grain);
    } else {
      OddGrainOverlaps(grain);
    }
  }

  lemma MultiplesApart(d: nat, x: nat, y: nat)
    requires d * x < d * y
    ensures d * x + d <= d * y
  {
    if x < y {
      MulAtLeast(d, y - x);
      assert d * y == d * x + d * (y - x);
    } else {
      assert d * x == d * y + d * (x - y);
      if x > y {
        MulAtLeast(d, x - y);
      }
    }
  }

  lemma AlignedApart(grain: nat)
    requires 0 < grain < Pow2(64) && TagsAligned(grain)
    ensures RangesApart(grain)
  {
    forall a, b | 0 <= a < Pow2(64) && 0 <= b < Pow2(64) && TagOf(a, grain) < TagOf(b, grain)
      ensures TagOf(a, grain) + grain <= TagOf(b, grain)
    {
      AlignedTagsApart(a, b, grain);
    }
  }

  lemma AlignedTagsApart(a: nat, b: nat, grain: nat)
    requires grain > 0 && a - a % grain < b - b % grain
    ensures a - a % grain + grain <= b - b % grain
  {
    MultiplesApart(grain, a / grain, b / grain);
  }

  /** For any other grain the address LowBit(grain) is its own tag, inside the range of tag 0. */
  lemma OddGrainOverlaps(grain: nat)
    requires 0 < grain < Pow2(64) && !IsPow2(grain)
    ensures TagOf(LowBit(grain), grain) == LowBit(grain) < grain
    ensures !TagsAligned(grain) && !RangesApart(grain)
  {
    var b := LowBit(grain);
    LowBitSurvives(grain, 64);
    LowBitOfPow2(grain);
    assert TagOf(0, grain) == 0 < TagOf(b, grain) < grain;
    SmallMod(b, grain);
  }

  lemma SmallMod(b: nat, d: nat)
    requires b < d
    ensures b % d == b
  {
  }

  // ---------------------------------------------------------------- architecture

  predicate IsLetter(ch: char) {
    'A' <= ch <= 'Z'
  }

  lemma LetterRange(ch: char)
    ensures IsLetter(ch) <==> ch in "ABCDEFGHIJKLMNOPQRSTUVWXYZ"
  {
    if IsLetter(ch) {
      assert "ABCDEFGHIJKLMNOPQRSTUVWXYZ"[ch as int - 'A' as int] == ch;
    }
  }

  /** The letters before the first character that is not one. */
  function Letters(s: string): set<char> {
    if s == [] || !IsLetter(s[0]) then {} else {s[0]} + Letters(s[1..])
  }

  /** The letters of the longest prefix of letters. */
  lemma {:induction false} LettersAre(s: string, n: nat)
    requires n <= |s| && (forall i :: 0 <= i < n ==> IsLetter(s[i])) && (n < |s| ==> !IsLetter(s[n]))
    ensures Letters(s) == set ch | ch in s[..n]
  {
    if n != 0 {
      LettersAre(s[1..], n - 1);
      assert s[..n] == [s[0]] + s[1..][..n - 1];
    }
  }

  /** riscvParseExtensions */
  method ParseExtensions(extensions: string) returns (result: set<char>)
    ensures result == Letters(extensions)
  {
    result := {};
    var tail := 0;
    var ok := true;
    while ok && tail < |extensions|
      invariant tail <= |extensions|
      invariant Letters(extensions) == result + (if ok then Letters(extensions[tail..]) else {})
      decreases |extensions| - tail
    {
      var extension := extensions[tail];
      assert extensions[tail..][1..] == extensions[tail + 1..];
      tail := tail + 1;
      ok := IsLetter(extension);
      if ok {
        result := result + {extension};
      }
    }
  }

  lemma {:induction false} LettersAreLetters(s: string)
    ensures forall ch :: ch in Letters(s) ==> IsLetter(ch)
  {
    if s != [] {
      LettersAreLetters(s[1..]);
    }
  }

  /** The architecture part of applyParamsSMP: one base ISA, and writable features that are implemented. */
  method ApplyArch(misaExtensions: set<char>, misaExtensionsMask: set<char>, addExtensions: string,
                   addExtensionsMask: string)
    returns (arch: set<char>, archMask: set<char>)
    requires forall f :: f in misaExtensions ==> IsLetter(f)
    ensures 'I' in arch <==> 'E' !in arch
    ensures forall f :: f in arch ==> IsLetter(f)
    ensures forall c: Config ::
              c.arch == arch && c.archMask == archMask && c.resetFS <= 3 && c.resetAddress % 4 == 0 && c.nmiAddress % 4 == 0
              ==> ValidConfig(c)
    ensures var all := misaExtensions + Letters(addExtensions);
            arch - {'I'} == all - {'I'} && archMask == (misaExtensionsMask + Letters(addExtensionsMask)) * (arch - {'E'})
  {
    arch, archMask := misaExtensions, misaExtensionsMask;
    var addArch := ParseExtensions(addExtensions);
    var addMask := ParseExtensions(addExtensionsMask);
    LettersAreLetters(addExtensions);
    arch := arch + addArch;
    archMask := archMask + addMask;
    if 'E' in arch {
      arch := arch - {'I'};
      archMask := archMask - {'I'};
    } else {
      arch := arch + {'I'};
    }
    archMask := archMask - {'E'};
    archMask := archMask * arch;
  }
}
