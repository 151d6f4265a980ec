// Intervals, cardinality, listing and splitting of the radix trees, and the fact
// that a set has only one canonical tree.
module SetQueries {
  import opened Basics
  import opened Bits
  import opened SetNodes

  // ---------- shape ----------

  lemma FullMask(k: nat)
    ensures Run(k, 0) == Pow2(k) - 1
    ensures And(Run(k, 0), Run(k, 0) + 1) == 0
  {
    AndBits(Run(k, 0), Pow2(k)); RunBits(k, 0); Pow2Bits(k);
    forall i: nat ensures HasBit(And(Run(k, 0), Pow2(k)), i) == HasBit(0, i) { ZeroBits(i); }
    Ext(And(Run(k, 0), Pow2(k)), 0);
  }

  /** Only the k low bits of an element matter to a tree of level k. */
  lemma {:induction false} LowBitsOnly(t: SetNode, k: nat, x: nat, y: nat)
    requires Canon(t, k) && Agree(x, y, k, 0)
    ensures Contains(t, x) == Contains(t, y)
    decreases t
  {
    match t
    case Mem(_) =>
    case Chk(mask, bits, chld) =>
      ChkContains(t, k, x); ChkContains(t, k, y);
      LowBitsOnly(chld, TrailingZeros(mask), x, y);
    case Bit(bit, c0, c1) =>
      BitTest(x, k - 1); BitTest(y, k - 1);
      LowBitsOnly(c0, k - 1, x, y); LowBitsOnly(c1, k - 1, x, y);
  }

  /** The subtree that answers for the elements whose leading bit is `b`. */
  ghost function Half(t: SetNode, k: nat, b: bool): SetNode
    requires k >= 1 && Canon(t, k)
  {
    match t
    case Mem(_) => t
    case Chk(mask, bits, chld) =>
      if HasBit(bits, k - 1) == b then
        ChkMkSpec(k - 1, TrailingZeros(mask), bits, chld);
        ChkMk(Run(k - 1, TrailingZeros(mask)), bits, chld)
      else Empty
    case Bit(_, c0, c1) => if b then c1 else c0
  }

  lemma HalfSpec(t: SetNode, k: nat)
    requires k >= 1 && Canon(t, k)
    ensures Canon(Half(t, k, false), k - 1) && Canon(Half(t, k, true), k - 1)
    ensures forall e: nat {:trigger Contains(t, e)} :: Contains(t, e) == Contains(Half(t, k, HasBit(e, k - 1)), e)
  {
    forall e: nat ensures Contains(t, e) == Contains(Half(t, k, HasBit(e, k - 1)), e) {
      match t
      case Mem(_) =>
      case Chk(mask, bits, chld) =>
        var j := TrailingZeros(mask);
        ChkMkSpec(k - 1, j, bits, chld);
        ChkContains(t, k, e); AgreeSplit(e, bits, k, k - 1, j); AgreeOne(e, bits, k);
      case Bit(_, c0, c1) => BitTest(e, k - 1);
    }
    if t.Chk? { ChkMkSpec(k - 1, TrailingZeros(t.mask), t.bits, t.chld); }
  }

  /** A canonical tree is rebuilt by `Bit._mk` from its two halves. */
  lemma HalvesRebuild(t: SetNode, k: nat)
    requires k >= 1 && Canon(t, k)
    ensures Canon(Half(t, k, false), k - 1) && Canon(Half(t, k, true), k - 1)
    ensures var c0, c1 := Half(t, k, false), Half(t, k, true);
      && (c0.Chk? ==> And(Pow2(k - 1), c0.mask) == 0)
      && (c1.Chk? ==> And(Pow2(k - 1), c1.mask) == 0)
      && t == BitMk(Pow2(k - 1), c0, c1)
  {
    HalfSpec(t, k);
    var c0, c1 := Half(t, k, false), Half(t, k, true);
    BitMkSpec(k, c0, c1);
    if t.Chk? {
      var j := TrailingZeros(t.mask);
      ChkRebuild(k, j, t.bits, t.chld);
    }
  }

  lemma ChkRebuild(k: nat, j: nat, bits: nat, c: SetNode)
    requires j < k && Canon(c, j) && !c.Chk? && c != Empty && And(bits, Run(k, j)) == bits
    ensures Run(k, j) > 0
    ensures var t := ChkMk(Run(k - 1, j), bits, c);
      && t != Empty && (t.Chk? ==> And(Pow2(k - 1), t.mask) == 0)
      && ChkMk(Pow2(k - 1), if HasBit(bits, k - 1) then Pow2(k - 1) else 0, t) == Chk(Run(k, j), bits, c)
  {
    TrailingZerosOfRun(k, j); TopBit(k);
    ChkMkSpec(k - 1, j, bits, c);
    var t := ChkMk(Run(k - 1, j), bits, c);
    ChkMkSpec(k, k - 1, 0, t);
    var top := And(if HasBit(bits, k - 1) then Pow2(k - 1) else 0, Pow2(k - 1));
    AndBits(if HasBit(bits, k - 1) then Pow2(k - 1) else 0, Pow2(k - 1)); Pow2Bits(k - 1);
    forall i: nat ensures HasBit(0, i) == false { ZeroBits(i); }
    var low := And(bits, Run(k - 1, j));
    AndBits(bits, Run(k - 1, j)); RunBits(k - 1, j); AndBits(bits, Run(k, j)); RunBits(k, j);
    assert forall i: nat {:trigger HasBit(bits, i)} :: HasBit(bits, i) ==> j <= i < k;
    if j == k - 1 {
      Ext(top, bits);
    } else {
      RunOrRun(k, k - 1, j);
      OrBits(top, low);
      Ext(Or(top, low), bits);
    }
  }

  /** Two canonical trees with the same elements are the same tree. */
  lemma {:induction false} Unique(a: SetNode, b: SetNode, k: nat)
    requires Canon(a, k) && Canon(b, k)
    requires forall e: nat :: e < Pow2(k) ==> Contains(a, e) == Contains(b, e)
    ensures a == b
    decreases k
  {
    if k == 0 {
      assert Contains(a, 0) == Contains(b, 0);
    } else {
      HalvesRebuild(a, k); HalvesRebuild(b, k);
      forall h: bool ensures Half(a, k, h) == Half(b, k, h) {
        HalfUnique(a, b, k, h);
        Unique(Half(a, k, h), Half(b, k, h), k - 1);
      }
    }
  }

  lemma HalfUnique(a: SetNode, b: SetNode, k: nat, h: bool)
    requires k >= 1 && Canon(a, k) && Canon(b, k)
    requires forall e: nat :: e < Pow2(k) ==> Contains(a, e) == Contains(b, e)
    ensures Canon(Half(a, k, h), k - 1) && Canon(Half(b, k, h), k - 1)
    ensures forall e: nat :: e < Pow2(k - 1) ==> Contains(Half(a, k, h), e) == Contains(Half(b, k, h), e)
  {
    HalfSpec(a, k); HalfSpec(b, k);
    forall e: nat | e < Pow2(k - 1)
      ensures Contains(Half(a, k, h), e) == Contains(Half(b, k, h), e)
    {
      var f := if h then Pow2(k - 1) + e else e;
      TopHalf(e, k);
      assert HasBit(f, k - 1) == h;
      LowBitsOnly(Half(a, k, h), k - 1, e, f);
      LowBitsOnly(Half(b, k, h), k - 1, e, f);
      assert Contains(a, f) == Contains(b, f);
    }
  }

  lemma TopHalf(e: nat, k: nat)
    requires k >= 1 && e < Pow2(k - 1)
    ensures !HasBit(e, k - 1) && HasBit(Pow2(k - 1) + e, k - 1)
    ensures Agree(e, Pow2(k - 1) + e, k - 1, 0)
    ensures Pow2(k - 1) + e < Pow2(k)
  {
    HighBits(e, k - 1);
    DivUnique(Pow2(k - 1), Pow2(k - 1), 1, 0);
    OrIsSum(Pow2(k - 1), e, k - 1);
    OrBits(Pow2(k - 1), e); Pow2Bits(k - 1);
    assert HasBit(Or(Pow2(k - 1), e), k - 1);
  }

  // ---------- intervals ----------

  lemma {:induction false} BitLengthSpec(n: nat)
    requires n > 0
    ensures BitLength(n) >= 1 && Pow2(BitLength(n) - 1) <= n < Pow2(BitLength(n))
    decreases n
  {
    if n > 1 { BitLengthSpec(n / 2); }
  }

  /** `x & -p` rounds down to a multiple of p = 2^q. */
  lemma RoundDown(x: nat, q: nat)
    ensures var r := AndNot(x, Pow2(q) - 1); r % Pow2(q) == 0 && r <= x < r + Pow2(q)
  {
    var r := AndNot(x, Run(q, 0));
    assert Run(q, 0) == Pow2(q) - 1 by { FullMask(q); }
    RoundDownBits(x, q);
    BlockRange(x, r, Pow2(q));
  }

  lemma RoundDownBits(x: nat, q: nat)
    ensures var r := AndNot(x, Run(q, 0)); r % Pow2(q) == 0 && x / Pow2(q) == r / Pow2(q)
  {
    var r := AndNot(x, Run(q, 0));
    AndNotBits(x, Run(q, 0)); RunBits(q, 0);
    assert SameFrom(x, r, q);
    SameBlock(x, r, q);
    LowBitsClear(r, q);
  }

  lemma LowBitsClear(r: nat, q: nat)
    requires forall i: nat {:trigger HasBit(r, i)} :: HasBit(r, i) ==> q <= i
    ensures r % Pow2(q) == 0
  {
    ModBits(r, q);
    forall i: nat ensures HasBit(r % Pow2(q), i) == HasBit(0, i) { ZeroBits(i); }
    Ext(r % Pow2(q), 0);
  }

  lemma RoundDownBounds(x: nat, q: nat, p: nat)
    requires p == Pow2(q)
    ensures AndNot(x, p - 1) <= x < AndNot(x, p - 1) + p
  {
    RoundDown(x, q);
  }

  lemma RoundDownAligned(x: nat, q: nat, p: nat)
    requires p == Pow2(q)
    ensures Aligned(AndNot(x, p - 1), q)
  {
    FullMask(q);
    AndNotBits(x, Run(q, 0)); RunBits(q, 0);
  }

  ghost predicate Aligned(x: nat, q: nat) {
    forall i: nat {:trigger HasBit(x, i)} :: HasBit(x, i) ==> q <= i
  }

  lemma FullWithoutLow(k: nat, q: nat)
    requires q <= k
    ensures AndNot(Run(k, 0), Pow2(q) - 1) == Run(k, q)
  {
    FullMask(q);
    AndNotBits(Run(k, 0), Run(q, 0)); RunBits(k, 0); RunBits(q, 0); RunBits(k, q);
    Ext(AndNot(Run(k, 0), Run(q, 0)), Run(k, q));
  }

  lemma BlockRange(x: nat, y: nat, p: nat)
    requires p > 0 && y % p == 0
    ensures x / p == y / p <==> y <= x < y + p
  {
    var q := y / p;
    if y <= x < y + p { DivUnique(x, p, q, x - y); }
  }

  /** The block of 2^q elements starting at an aligned position. */
  lemma AlignedBlock(k: nat, q: nat, aa: nat)
    requires q <= k && Aligned(aa, q) && aa < Pow2(k)
    ensures AndNot(Run(k, 0), Pow2(q) - 1) == Run(k, q)
    ensures Canon(ChkMk(Run(k, q), aa, Mem(true)), k)
    ensures forall e: nat {:trigger Contains(ChkMk(Run(k, q), aa, Mem(true)), e)} :: e < Pow2(k) ==>
      (Contains(ChkMk(Run(k, q), aa, Mem(true)), e) <==> aa <= e < aa + Pow2(q))
  {
    FullWithoutLow(k, q);
    LowBitsClear(aa, q);
    ChkMkSpec(k, q, aa, Mem(true));
    forall e: nat | e < Pow2(k)
      ensures Contains(ChkMk(Run(k, q), aa, Mem(true)), e) <==> aa <= e < aa + Pow2(q)
    {
      BlockRange(e, 0, Pow2(k)); BlockRange(aa, 0, Pow2(k));
      AgreeBlock(e, aa, k, q);
      BlockRange(e, aa, Pow2(q));
    }
  }

  /** `1 << (n.bit_length() - 1)`: the largest power of two not above n. */
  function TopPower(n: nat): nat
    requires n > 0
  {
    Pow2(BitLength(n) - 1)
  }

  lemma TopPowerSpec(n: nat) returns (q: nat)
    requires n > 0
    ensures TopPower(n) == Pow2(q) && TopPower(n) <= n < 2 * TopPower(n)
    ensures q > 0 ==> TopPower(n) / 2 == Pow2(q - 1)
    ensures q == 0 ==> TopPower(n) == 1
  {
    BitLengthSpec(n);
    q := BitLength(n) - 1;
  }

  /** `(a + p - 1) & -p`: the first multiple of p from a on. */
  function RoundUp(a: nat, p: nat): nat
    requires p > 0
  {
    AndNot(a + p - 1, p - 1)
  }

  lemma RoundUpSpec(a: nat, q: nat)
    ensures a <= RoundUp(a, Pow2(q)) < a + Pow2(q) && Aligned(RoundUp(a, Pow2(q)), q)
  {
    RoundDownBounds(a + Pow2(q) - 1, q, Pow2(q)); RoundDownAligned(a + Pow2(q) - 1, q, Pow2(q));
  }

  /** The size of the block the code places inside [a, b); it starts at RoundUp(a, size). */
  function BlockSize(a: nat, b: nat): nat
    requires a < b
  {
    var p := TopPower(b - a);
    if RoundUp(a, p) + p <= b then p else p / 2
  }

  lemma BlockSizeSpec(a: nat, b: nat) returns (q: nat)
    requires a < b
    ensures BlockSize(a, b) == Pow2(q)
    ensures a <= RoundUp(a, Pow2(q)) && RoundUp(a, Pow2(q)) + Pow2(q) <= b
    ensures Aligned(RoundUp(a, Pow2(q)), q)
  {
    q := TopPowerSpec(b - a);
    RoundUpSpec(a, q);
    if RoundUp(a, Pow2(q)) + Pow2(q) > b {
      q := q - 1;
      RoundUpSpec(a, q);
    }
  }

  /** The second piece of `interval`: one aligned block. */
  function Block(p: nat, aa: nat, mask: nat): SetNode
    requires p > 0
  {
    ChkMk(AndNot(mask, p - 1), aa, Mem(true))
  }

  /** A tree of level k that holds the numbers from a up to b. */
  ghost predicate Denotes(t: SetNode, a: nat, b: nat, k: nat) {
    forall e: nat {:trigger Contains(t, e)} :: e < Pow2(k) ==> (Contains(t, e) <==> a <= e < b)
  }

  lemma BlockSpec(a: nat, b: nat, k: nat)
    requires a < b <= Pow2(k)
    ensures var p := BlockSize(a, b); p > 0 && var aa := RoundUp(a, p);
      && a <= aa && aa + p <= b
      && var r1 := Block(p, aa, Run(k, 0)); Canon(r1, k) && Denotes(r1, aa, aa + p, k)
  {
    var q := BlockSizeSpec(a, b);
    if q > k { Pow2Mono(k, q); }
    AlignedBlock(k, q, RoundUp(a, Pow2(q)));
  }

  lemma JoinDenotes(r0: SetNode, r1: SetNode, r2: SetNode, a: nat, aa: nat, bb: nat, b: nat, k: nat)
    requires Canon(r0, k) && Canon(r1, k) && Canon(r2, k) && a <= aa <= bb <= b
    requires Denotes(r0, a, aa, k) && Denotes(r1, aa, bb, k) && Denotes(r2, bb, b, k)
    ensures Denotes(Union(Union(r0, r1, k), r2, k), a, b, k)
  {
    var r := Union(Union(r0, r1, k), r2, k);
    forall e: nat | e < Pow2(k) ensures Contains(r, e) <==> a <= e < b {
      UnionContains(r0, r1, k, e);
      UnionContains(Union(r0, r1, k), r2, k, e);
    }
  }

  /** `interval(a, b)` holds exactly the numbers from a up to b. */
  function Interval(a: nat, b: nat, mask: nat, ghost k: nat): (r: SetNode)
    requires mask == Run(k, 0) && b <= mask + 1
    ensures Canon(r, k)
    ensures Denotes(r, a, b, k)
    decreases if a < b then b - a else 0
  {
    if b <= a then Empty
    else
      BlockSpec(a, b, k);
      var p := BlockSize(a, b);
      var aa := RoundUp(a, p);
      var r0 := Interval(a, aa, mask, k);
      var r1 := Block(p, aa, mask);
      var r2 := Interval(aa + p, b, mask, k);
      JoinDenotes(r0, r1, r2, a, aa, aa + p, b, k);
      Union(Union(r0, r1, k), r2, k)
  }
}
