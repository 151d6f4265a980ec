// The persistent radix tree of utils/iset.py. A tree at level k stores a subset
// of [0, 2^k); the level is the number of bits still to be tested. `Chk` tests a
// run of leading bits at once, `Bit` branches on the leading bit, `Mem` answers.
module SetNodes {
  import opened Bits

  datatype SetNode =
    | Mem(mem: bool)
    | Chk(mask: nat, bits: nat, chld: SetNode)
    | Bit(bit: nat, c0: SetNode, c1: SetNode)

  const Empty := Mem(false)
  const L: nat := 32
  const M: nat := 0xFFFF_FFFF

  lemma MIsRun()
    ensures M == Run(L, 0)
  {
    assert Pow2(8) == 256;
    assert Pow2(16) == 65536 by { assert Pow2(12) == 16 * Pow2(8); assert Pow2(16) == 16 * Pow2(12); }
    assert Pow2(24) == 16777216 by { assert Pow2(20) == 16 * Pow2(16); assert Pow2(24) == 16 * Pow2(20); }
    assert Pow2(28) == 16 * Pow2(24);
    assert Pow2(32) == 16 * Pow2(28);
  }

  // ---------- the code ----------

  /** `Chk._mk`; the precondition is its assertion. */
  function ChkMk(mask: nat, bits: nat, chld: SetNode): SetNode
    requires mask != 0 && chld.Chk? ==> And(mask, chld.mask) == 0
  {
    if mask == 0 || chld == Empty then chld
    else
      var bits := And(bits, mask);
      if chld.Chk? then Chk(Or(mask, chld.mask), Or(bits, chld.bits), chld.chld)
      else Chk(mask, bits, chld)
  }

  /** `Bit._mk`; identity of nodes is only used between the two shared leaves. */
  function BitMk(bit: nat, c0: SetNode, c1: SetNode): SetNode
    requires c0.Chk? ==> And(bit, c0.mask) == 0
    requires c1.Chk? ==> And(bit, c1.mask) == 0
  {
    if c0.Mem? && c0 == c1 then c0
    else if c0 == Empty then ChkMk(bit, bit, c1)
    else if c1 == Empty then ChkMk(bit, 0, c0)
    else Bit(bit, c0, c1)
  }

  predicate Contains(t: SetNode, elm: nat) {
    match t
    case Mem(mem) => mem
    case Chk(mask, bits, chld) => And(elm, mask) == bits && Contains(chld, elm)
    case Bit(bit, c0, c1) => if And(elm, bit) != 0 then Contains(c1, elm) else Contains(c0, elm)
  }

  // ---------- well-formed, canonical trees ----------

  ghost function TrailingZeros(n: nat): nat
    requires n > 0
  {
    if n % 2 == 1 then 0 else 1 + TrailingZeros(n / 2)
  }

  lemma TrailingDouble(n: nat)
    requires n > 0
    ensures TrailingZeros(2 * n) == 1 + TrailingZeros(n)
  {
    assert 2 * n / 2 == n;
  }

  lemma OddRun(hi: nat)
    requires hi > 0
    ensures Run(hi, 0) % 2 == 1
  {
    RunFromZero(hi);
    hide Run, Pow2;
    TwiceLessOne(Pow2(hi - 1));
  }

  lemma RunFromZero(hi: nat)
    requires hi > 0
    ensures Run(hi, 0) == 2 * Pow2(hi - 1) - 1 && Pow2(hi - 1) > 0
  {
  }

  lemma TwiceLessOne(x: nat)
    requires x > 0
    ensures (2 * x - 1) % 2 == 1
  {
    assert 2 * x - 1 == 2 * (x - 1) + 1;
  }

  lemma DoubleRun(hi: nat, lo: nat)
    requires 0 < lo <= hi
    ensures Run(hi, lo) == 2 * Run(hi - 1, lo - 1)
  {
  }

  lemma {:induction false} TrailingZerosOfRun(hi: nat, lo: nat)
    requires lo < hi
    ensures Run(hi, lo) > 0 && TrailingZeros(Run(hi, lo)) == lo
  {
    hide Run, Pow2;
    if lo == 0 {
      OddRun(hi);
    } else {
      TrailingZerosOfRun(hi - 1, lo - 1);
      DoubleRun(hi, lo);
      TrailingDouble(Run(hi - 1, lo - 1));
    }
  }

  /** A canonical tree at level k: runs are maximal, no branch is empty, full trees are leaves. */
  ghost predicate Canon(t: SetNode, k: nat) {
    match t
    case Mem(_) => true
    case Chk(mask, bits, chld) =>
      && mask > 0
      && var j := TrailingZeros(mask);
      && j < k && mask == Run(k, j)
      && And(bits, mask) == bits
      && Canon(chld, j) && !chld.Chk? && chld != Empty
    case Bit(bit, c0, c1) =>
      && k >= 1 && bit == Pow2(k - 1)
      && Canon(c0, k - 1) && Canon(c1, k - 1)
      && c0 != Empty && c1 != Empty && !(c0 == Mem(true) && c1 == Mem(true))
  }

  /** Fusing the prefix b at [j, m) with the prefix c at [i, j). */
  lemma FusedPrefix(m: nat, j: nat, i: nat, b: nat, c: nat)
    requires i <= j <= m
    requires And(b, Run(m, j)) == b && And(c, Run(j, i)) == c
    ensures And(Or(b, c), Run(m, i)) == Or(b, c)
    ensures forall n: nat {:trigger HasBit(Or(b, c), n)} ::
      HasBit(Or(b, c), n) == (if j <= n < m then HasBit(b, n) else i <= n < j && HasBit(c, n))
  {
    OrBits(b, c); AndBits(b, Run(m, j)); AndBits(c, Run(j, i));
    RunBits(m, j); RunBits(j, i);
    assert forall n: nat {:trigger HasBit(b, n)} :: HasBit(b, n) ==> j <= n < m;
    assert forall n: nat {:trigger HasBit(c, n)} :: HasBit(c, n) ==> i <= n < j;
    AndBits(Or(b, c), Run(m, i)); RunBits(m, i);
    Ext(And(Or(b, c), Run(m, i)), Or(b, c));
  }

  lemma MaskedBits(bits: nat, m: nat, j: nat)
    requires j <= m
    ensures var b := And(bits, Run(m, j)); And(b, Run(m, j)) == b
    ensures forall n: nat {:trigger HasBit(bits, n)} ::
      j <= n < m ==> HasBit(And(bits, Run(m, j)), n) == HasBit(bits, n)
  {
    var b := And(bits, Run(m, j));
    AndBits(bits, Run(m, j)); RunBits(m, j); AndBits(b, Run(m, j));
    Ext(And(b, Run(m, j)), b);
  }

  lemma AgreeFused(e: nat, m: nat, j: nat, i: nat, b: nat, c: nat)
    requires i <= j <= m
    requires And(b, Run(m, j)) == b && And(c, Run(j, i)) == c
    ensures Agree(e, Or(b, c), m, i) <==> Agree(e, b, m, j) && Agree(e, c, j, i)
  {
    FusedPrefix(m, j, i, b, c);
    var f := Or(b, c);
    if Agree(e, f, m, i) {
      forall n: nat | j <= n < m ensures HasBit(e, n) == HasBit(b, n) { assert HasBit(f, n) == HasBit(b, n); }
      forall n: nat | i <= n < j ensures HasBit(e, n) == HasBit(c, n) { assert HasBit(f, n) == HasBit(c, n); }
    }
  }

  /** `Chk._mk` puts the bits [j, m) of `bits` in front of a tree of level j. */
  lemma ChkMkSpec(m: nat, j: nat, bits: nat, c: SetNode)
    requires j <= m && Canon(c, j)
    ensures Run(m, j) != 0 && c.Chk? ==> And(Run(m, j), c.mask) == 0
    ensures Canon(ChkMk(Run(m, j), bits, c), m)
    ensures forall e: nat {:trigger Contains(ChkMk(Run(m, j), bits, c), e)} ::
      Contains(ChkMk(Run(m, j), bits, c), e) <==> Agree(e, bits, m, j) && Contains(c, e)
  {
    if c.Chk? && j < m {
      RunAndRun(m, j, j, TrailingZeros(c.mask));
    }
    if j < m && c != Empty {
      ChkMkSpecProper(m, j, bits, c);
    }
  }

  lemma ChkMkSpecProper(m: nat, j: nat, bits: nat, c: SetNode)
    requires j < m && Canon(c, j) && c != Empty
    requires c.Chk? ==> And(Run(m, j), c.mask) == 0
    ensures Canon(ChkMk(Run(m, j), bits, c), m)
    ensures forall e: nat {:trigger Contains(ChkMk(Run(m, j), bits, c), e)} ::
      Contains(ChkMk(Run(m, j), bits, c), e) <==> Agree(e, bits, m, j) && Contains(c, e)
  {
    TrailingZerosOfRun(m, j);
    var b := And(bits, Run(m, j));
    MaskedBits(bits, m, j);
    if c.Chk? {
      var i := TrailingZeros(c.mask);
      RunOrRun(m, j, i); TrailingZerosOfRun(m, i);
      FusedPrefix(m, j, i, b, c.bits);
      forall e: nat
        ensures Contains(ChkMk(Run(m, j), bits, c), e) <==> Agree(e, bits, m, j) && Contains(c, e)
      {
        MaskTest(e, Or(b, c.bits), m, i); MaskTest(e, c.bits, j, i);
        AgreeFused(e, m, j, i, b, c.bits);
      }
    } else {
      forall e: nat
        ensures Contains(ChkMk(Run(m, j), bits, c), e) <==> Agree(e, bits, m, j) && Contains(c, e)
      {
        MaskTest(e, b, m, j);
      }
    }
  }

  lemma BitTest(e: nat, i: nat)
    ensures And(e, Pow2(i)) != 0 <==> HasBit(e, i)
  {
    AndBits(e, Pow2(i)); Pow2Bits(i);
    var m := And(e, Pow2(i));
    ZeroBits(i);
    assert HasBit(m, i) == HasBit(e, i);
    if !HasBit(e, i) {
      forall n: nat ensures HasBit(m, n) == HasBit(0, n) { ZeroBits(n); }
      Ext(m, 0);
    }
  }

  /** One bit put in front of a tree of level k - 1. */
  lemma ChkMkOne(k: nat, bits: nat, c: SetNode)
    requires k >= 1 && Canon(c, k - 1)
    ensures c.Chk? ==> And(Pow2(k - 1), c.mask) == 0
    ensures Canon(ChkMk(Pow2(k - 1), bits, c), k)
    ensures forall e: nat {:trigger Contains(ChkMk(Pow2(k - 1), bits, c), e)} ::
      Contains(ChkMk(Pow2(k - 1), bits, c), e) <==> HasBit(e, k - 1) == HasBit(bits, k - 1) && Contains(c, e)
  {
    TopBit(k);
    ChkMkSpec(k, k - 1, bits, c);
    hide Run, Pow2, ChkMk, Canon, HasBit;
    forall e: nat
      ensures Contains(ChkMk(Pow2(k - 1), bits, c), e) <==> HasBit(e, k - 1) == HasBit(bits, k - 1) && Contains(c, e)
    {
      AgreeOne(e, bits, k);
    }
  }

  /** `Bit._mk` joins two trees of level k - 1 on the leading bit. */
  lemma BitMkSpec(k: nat, c0: SetNode, c1: SetNode)
    requires k >= 1 && Canon(c0, k - 1) && Canon(c1, k - 1)
    ensures c0.Chk? ==> And(Pow2(k - 1), c0.mask) == 0
    ensures c1.Chk? ==> And(Pow2(k - 1), c1.mask) == 0
    ensures Canon(BitMk(Pow2(k - 1), c0, c1), k)
    ensures forall e: nat {:trigger Contains(BitMk(Pow2(k - 1), c0, c1), e)} ::
      Contains(BitMk(Pow2(k - 1), c0, c1), e) <==> (if HasBit(e, k - 1) then Contains(c1, e) else Contains(c0, e))
  {
    hide Run, ChkMk, HasBit, And, TrailingZeros, Pow2;
    ChkMkOne(k, Pow2(k - 1), c1); ChkMkOne(k, 0, c0); ChkMkOne(k, 0, c1);
    ZeroBits(k - 1); Pow2Bits(k - 1);
    forall e: nat
      ensures Contains(BitMk(Pow2(k - 1), c0, c1), e) <==>
        (if HasBit(e, k - 1) then Contains(c1, e) else Contains(c0, e))
    {
      BitTest(e, k - 1);
    }
  }

  lemma AgreeOne(e: nat, bits: nat, k: nat)
    requires k >= 1
    ensures Agree(e, bits, k, k - 1) <==> HasBit(e, k - 1) == HasBit(bits, k - 1)
  {
  }

  // ---------- union ----------

  lemma {:induction false} AndBelowLowBit(d: nat, n: nat)
    requires n > 0 && d < Pow2(TrailingZeros(n))
    ensures And(d, n) == 0
    decreases d
  {
    if d > 0 { AndBelowLowBit(d / 2, n / 2); }
  }

  /** The loop `while diff & ones: ones <<= 1`. */
  function ShiftOnes(diff: nat, ones: nat): nat
    requires ones > 0
    decreases diff + 1 - Pow2(TrailingZeros(ones))
  {
    if And(diff, ones) == 0 then ones
    else
      assert diff >= Pow2(TrailingZeros(ones)) by {
        if diff < Pow2(TrailingZeros(ones)) { AndBelowLowBit(diff, ones); }
      }
      assert TrailingZeros(2 * ones) == 1 + TrailingZeros(ones);
      ShiftOnes(diff, 2 * ones)
  }

  /** The loop itself. */
  method ShiftLoop(diff: nat, mask: nat) returns (ones: nat)
    requires mask > 0
    ensures ones == ShiftOnes(diff, mask)
  {
    ones := mask;
    while And(diff, ones) != 0
      invariant ones > 0 && ShiftOnes(diff, ones) == ShiftOnes(diff, mask)
      decreases diff + 1 - Pow2(TrailingZeros(ones))
    {
      if diff < Pow2(TrailingZeros(ones)) { AndBelowLowBit(diff, ones); }
      assert TrailingZeros(2 * ones) == 1 + TrailingZeros(ones);
      ones := 2 * ones;
    }
  }

  /** The level below the longest run of leading bits, from position s + i on, free of differences. */
  ghost function SplitLevel(diff: nat, k: nat, s: nat): (m: nat)
    requires s <= k && diff < Pow2(k)
    ensures s <= m <= k
    ensures forall i: nat {:trigger HasBit(diff, i)} :: m <= i ==> !HasBit(diff, i)
    ensures m > s ==> HasBit(diff, m - 1)
    decreases k - s
  {
    HighBits(diff, k);
    if k == s || HasBit(diff, k - 1) then k
    else
      assert forall i: nat :: k - 1 <= i ==> !HasBit(diff, i) by {
        forall i: nat | k - 1 <= i ensures !HasBit(diff, i) { if i > k - 1 { assert k <= i; } }
      }
      BoundedByBits(diff, k - 1);
      SplitLevel(diff, k - 1, s)
  }

  lemma {:induction false} ShiftOnesIsRun(diff: nat, k: nat, s: nat, m: nat, i: nat)
    requires s < k && s <= m <= k && i <= m - s
    requires forall i: nat {:trigger HasBit(diff, i)} :: m <= i ==> !HasBit(diff, i)
    requires m > s ==> HasBit(diff, m - 1)
    ensures Run(k + i, s + i) > 0
    ensures ShiftOnes(diff, Run(k + i, s + i)) == Run(k + m - s, m)
    decreases m - s - i
  {
    var ones := Run(k + i, s + i);
    TrailingZerosOfRun(k + i, s + i);
    AndBits(diff, ones); RunBits(k + i, s + i);
    if i < m - s {
      ZeroBits(m - 1);
      assert HasBit(And(diff, ones), m - 1);
      assert And(diff, ones) != 0;
      assert 2 * ones == Run(k + i + 1, s + i + 1);
      ShiftOnesIsRun(diff, k, s, m, i + 1);
    } else {
      forall n: nat ensures HasBit(And(diff, ones), n) == HasBit(0, n) { ZeroBits(n); }
      Ext(And(diff, ones), 0);
    }
  }

  /** The lowest level above which two prefixes agree, at or above the shorter one's base. */
  ghost function SplitAt(a: SetNode, b: SetNode, k: nat): (m: nat)
    requires a.Chk? && b.Chk? && Canon(a, k) && Canon(b, k)
    ensures TrailingZeros(a.mask) <= m <= k
    ensures Agree(a.bits, b.bits, k, m)
    ensures m > TrailingZeros(a.mask) ==> HasBit(a.bits, m - 1) != HasBit(b.bits, m - 1)
    ensures var diff := And(Xor(a.bits, b.bits), a.mask);
      forall i: nat {:trigger HasBit(diff, i)} :: HasBit(diff, i) ==> i < m
    ensures m > TrailingZeros(a.mask) ==> HasBit(And(Xor(a.bits, b.bits), a.mask), m - 1)
  {
    var s := TrailingZeros(a.mask);
    var diff := And(Xor(a.bits, b.bits), a.mask);
    assert a.mask == Run(k, s);
    DiffBits(a.bits, b.bits, k, s, diff);
    BoundedByBits(diff, k);
    var m := SplitLevel(diff, k, s);
    assert Agree(a.bits, b.bits, k, m) by {
      forall i: nat | m <= i < k ensures HasBit(a.bits, i) == HasBit(b.bits, i) { assert !HasBit(diff, i); }
    }
    m
  }

  lemma DiffBits(x: nat, y: nat, k: nat, s: nat, diff: nat)
    requires s <= k && diff == And(Xor(x, y), Run(k, s))
    ensures forall i: nat {:trigger HasBit(diff, i)} :: HasBit(diff, i) == (s <= i < k && HasBit(x, i) != HasBit(y, i))
  {
    XorBits(x, y); AndBits(Xor(x, y), Run(k, s)); RunBits(k, s);
  }

  lemma MaskOrder(a: SetNode, b: SetNode, k: nat)
    requires a.Chk? && b.Chk? && Canon(a, k) && Canon(b, k) && a.mask <= b.mask
    ensures TrailingZeros(b.mask) <= TrailingZeros(a.mask)
    // the two assertions of `Chk._union` on the masks
    ensures And(a.mask, b.mask) == a.mask && b.mask < 2 * a.mask
  {
    var s, o := TrailingZeros(a.mask), TrailingZeros(b.mask);
    if s < o { Pow2Mono(s, o); assert false; }
    RunAndRun(k, s, k, o);
    Pow2Mono(s, k);
  }

  /** The masks computed by `Chk._union`, in terms of the split level. */
  lemma UnionMasks(a: SetNode, b: SetNode, k: nat)
    requires a.Chk? && b.Chk? && Canon(a, k) && Canon(b, k) && a.mask <= b.mask
    ensures var m, s, o := SplitAt(a, b, k), TrailingZeros(a.mask), TrailingZeros(b.mask);
      var ones := ShiftOnes(And(Xor(a.bits, b.bits), a.mask), a.mask);
      && o <= s <= m <= k && s < k
      && And(ones, a.mask) == Run(k, m)
      && (Run(k, m) == 0 <==> m == k)
      && (m == k && s < m ==> And(ones / 2, a.mask) == Pow2(k - 1))
      && AndNot(b.mask, Run(k, m)) == Run(m, o) && AndNot(a.mask, Run(k, m)) == Run(m, s)
  {
    hide HasBit, And, AndNot, Xor, ShiftOnes, TrailingZeros, Agree;
    var m, s, o := SplitAt(a, b, k), TrailingZeros(a.mask), TrailingZeros(b.mask);
    MaskOrder(a, b, k);
    ShiftOnesIsRun(And(Xor(a.bits, b.bits), a.mask), k, s, m, 0);
    RunAndRun(k + m - s, m, k, s);
    RunWithoutTop(k, m, o); RunWithoutTop(k, m, s);
    Pow2Mono(m, k);
    if m == k && s < m {
      assert Run(k + m - s, m) / 2 == Run(k + m - s - 1, m - 1);
      RunAndRun(k + m - s - 1, m - 1, k, s);
      TopBit(k);
    }
  }

  ghost function Rank(a: SetNode, b: SetNode): nat {
    match a
    case Mem(_) => 0
    case Chk(_, _, _) => if !b.Chk? || b.mask < a.mask then 1 else 0
    case Bit(_, _, _) => if b.Mem? then 1 else 0
  }

  /** `_union`, dispatched on the class of `a`; each swap lowers Rank at the same level. */
  function Union(a: SetNode, b: SetNode, ghost k: nat): (r: SetNode)
    requires Canon(a, k) && Canon(b, k)
    ensures Canon(r, k)
    decreases k, Rank(a, b)
  {
    hide HasBit, And, AndNot, Xor, ShiftOnes, TrailingZeros, Agree;
    match a
    case Mem(mem) => if mem then a else b
    case Chk(mask, bits, chld) =>
      if !b.Chk? then Union(b, a, k)
      else if b.mask < mask then Union(b, a, k)
      else
        UnionMasks(a, b, k); MaskOrder(a, b, k);
        assert And(mask, b.mask) == mask;
        assert b.mask < 2 * mask;
        var diff := And(Xor(bits, b.bits), mask);
        var ones := ShiftOnes(diff, mask);
        var mask0 := And(ones, mask);
        var omask1 := AndNot(b.mask, mask0);
        var smask1 := AndNot(mask, mask0);
        if mask0 == 0 then
          var high := And(ones / 2, mask);
          BranchSpec(a, b, k);
          var c0 := ChkMk(AndNot(omask1, high), b.bits, b.chld);
          var c1 := ChkMk(AndNot(smask1, high), bits, chld);
          BitMkSpec(k, c0, c1); BitMkSpec(k, c1, c0);
          if And(bits, high) != 0 then BitMk(high, c0, c1) else BitMk(high, c1, c0)
        else
          ghost var m := SplitAt(a, b, k);
          ChkMkSpec(m, TrailingZeros(b.mask), b.bits, b.chld);
          ChkMkSpec(m, TrailingZeros(mask), bits, chld);
          var so := ChkMk(omask1, b.bits, b.chld);
          var ss := ChkMk(smask1, bits, chld);
          var u := Union(so, ss, m);
          ChkMkSpec(k, m, bits, u);
          ChkMk(mask0, bits, u)
    case Bit(bit, a0, a1) =>
      match b
      case Bit(_, b0, b1) =>
        var c0 := Union(b0, a0, k - 1);
        var c1 := Union(b1, a1, k - 1);
        BitMkSpec(k, c0, c1);
        BitMk(bit, c0, c1)
      case Chk(mask, bits, chld) =>
        TopOfRun(b, k);
        assert mask < 2 * bit && And(mask, bit) != 0;
        ChkMkSpec(k - 1, TrailingZeros(mask), bits, chld);
        var s := ChkMk(AndNot(mask, bit), bits, chld);
        var c0 := if And(bits, bit) != 0 then a0 else Union(a0, s, k - 1);
        var c1 := if And(bits, bit) != 0 then Union(a1, s, k - 1) else a1;
        BitMkSpec(k, c0, c1);
        BitMk(bit, c0, c1)
      case Mem(_) => Union(b, a, k)
  }

  /** Two prefixes that differ on the leading bit: their tails are trees of the next level. */
  lemma BranchSpec(a: SetNode, b: SetNode, k: nat)
    requires a.Chk? && b.Chk? && Canon(a, k) && Canon(b, k) && SplitAt(a, b, k) == k
    requires TrailingZeros(b.mask) <= TrailingZeros(a.mask)
    ensures k >= 1
    ensures HasBit(a.bits, k - 1) != HasBit(b.bits, k - 1)
    ensures forall c :: c == a || c == b ==>
      var j := TrailingZeros(c.mask);
      var tail := AndNot(Run(k, j), Pow2(k - 1));
      && tail == Run(k - 1, j)
      && !c.chld.Chk?
      && Canon(ChkMk(tail, c.bits, c.chld), k - 1)
      && (forall e: nat ::
          Contains(ChkMk(tail, c.bits, c.chld), e) <==> Agree(e, c.bits, k - 1, j) && Contains(c.chld, e))
  {
    TopBit(k);
    forall c | c == a || c == b
      ensures var j := TrailingZeros(c.mask); AndNot(Run(k, j), Pow2(k - 1)) == Run(k - 1, j)
    {
      RunWithoutTop(k, k - 1, TrailingZeros(c.mask));
    }
    ChkMkSpec(k - 1, TrailingZeros(a.mask), a.bits, a.chld);
    ChkMkSpec(k - 1, TrailingZeros(b.mask), b.bits, b.chld);
  }

  /** The assertion of `Bit._union`: a prefix at level k tests the leading bit. */
  lemma TopOfRun(b: SetNode, k: nat)
    requires b.Chk? && Canon(b, k)
    ensures k >= 1 && b.mask < 2 * Pow2(k - 1) && And(b.mask, Pow2(k - 1)) != 0
    ensures AndNot(b.mask, Pow2(k - 1)) == Run(k - 1, TrailingZeros(b.mask))
  {
    var j := TrailingZeros(b.mask);
    TopBit(k); RunWithoutTop(k, k - 1, j); RunBits(k, j);
    BitTest(b.mask, k - 1);
  }

  lemma ChkContains(t: SetNode, k: nat, e: nat)
    requires t.Chk? && Canon(t, k)
    ensures Contains(t, e) <==> Agree(e, t.bits, k, TrailingZeros(t.mask)) && Contains(t.chld, e)
  {
    MaskTest(e, t.bits, k, TrailingZeros(t.mask));
  }

  lemma AgreeSplit(e: nat, bits: nat, hi: nat, mid: nat, lo: nat)
    requires lo <= mid <= hi
    ensures Agree(e, bits, hi, lo) <==> Agree(e, bits, hi, mid) && Agree(e, bits, mid, lo)
  {
  }

  lemma AgreeSame(e: nat, x: nat, y: nat, hi: nat, lo: nat)
    requires Agree(x, y, hi, lo)
    ensures Agree(e, x, hi, lo) <==> Agree(e, y, hi, lo)
  {
  }

  /** Union denotes the union. */
  lemma {:induction false} UnionContains(a: SetNode, b: SetNode, k: nat, e: nat)
    requires Canon(a, k) && Canon(b, k)
    ensures Contains(Union(a, b, k), e) <==> Contains(a, e) || Contains(b, e)
    decreases k, Rank(a, b), 2
  {
    hide HasBit, And, AndNot, Xor, ShiftOnes, TrailingZeros, ChkMk, BitMk;
    match a
    case Mem(_) =>
    case Chk(mask, bits, chld) =>
      if !b.Chk? || b.mask < mask {
        UnionContains(b, a, k, e);
      } else {
        UnionContainsChk(a, b, k, e);
      }
    case Bit(bit, a0, a1) =>
      match b
      case Bit(_, b0, b1) =>
        BitTest(e, k - 1);
        UnionContains(b0, a0, k - 1, e); UnionContains(b1, a1, k - 1, e);
        BitMkSpec(k, Union(b0, a0, k - 1), Union(b1, a1, k - 1));
      case Chk(_, _, _) => UnionContainsBit(a, b, k, e);
      case Mem(_) => UnionContains(b, a, k, e);
  }

  lemma UnionContainsBit(a: SetNode, b: SetNode, k: nat, e: nat)
    requires a.Bit? && b.Chk? && Canon(a, k) && Canon(b, k)
    ensures Contains(Union(a, b, k), e) <==> Contains(a, e) || Contains(b, e)
    decreases k, 0, 0
  {
    hide HasBit, And, AndNot, Xor, ShiftOnes, ChkMk, BitMk, Agree;
    var j := TrailingZeros(b.mask);
    TopOfRun(b, k); BitTest(b.bits, k - 1); BitTest(e, k - 1);
    ChkMkSpec(k - 1, j, b.bits, b.chld);
    var s := ChkMk(Run(k - 1, j), b.bits, b.chld);
    ChkContains(b, k, e); AgreeSplit(e, b.bits, k, k - 1, j); AgreeOne(e, b.bits, k);
    if HasBit(b.bits, k - 1) {
      UnionContains(a.c1, s, k - 1, e);
      BitMkSpec(k, a.c0, Union(a.c1, s, k - 1));
    } else {
      UnionContains(a.c0, s, k - 1, e);
      BitMkSpec(k, Union(a.c0, s, k - 1), a.c1);
    }
  }

  /** Two prefixes that differ on the leading bit are joined by a branch. */
  lemma UnionBranch(a: SetNode, b: SetNode, k: nat, e: nat)
    requires a.Chk? && b.Chk? && Canon(a, k) && Canon(b, k) && a.mask <= b.mask && SplitAt(a, b, k) == k
    ensures Contains(Union(a, b, k), e) <==> Contains(a, e) || Contains(b, e)
  {
    var s, o := TrailingZeros(a.mask), TrailingZeros(b.mask);
    UnionMasks(a, b, k);
    BranchSpec(a, b, k);
    var c0, c1 := ChkMk(Run(k - 1, o), b.bits, b.chld), ChkMk(Run(k - 1, s), a.bits, a.chld);
    UnionBranchForm(a, b, k, c0, c1);
    ChkContains(a, k, e); ChkContains(b, k, e);
    hide Run, Pow2, Canon, ChkMk, BitMk, Agree, HasBit, SplitAt, TrailingZeros, Union;
    BitMkSpec(k, c0, c1); BitMkSpec(k, c1, c0);
    AgreeOne(e, a.bits, k); AgreeOne(e, b.bits, k);
    AgreeSplit(e, a.bits, k, k - 1, s); AgreeSplit(e, b.bits, k, k - 1, o);
  }

  lemma UnionBranchForm(a: SetNode, b: SetNode, k: nat, c0: SetNode, c1: SetNode)
    requires a.Chk? && b.Chk? && Canon(a, k) && Canon(b, k) && a.mask <= b.mask && SplitAt(a, b, k) == k
    requires k >= 1
    requires c0 == ChkMk(Run(k - 1, TrailingZeros(b.mask)), b.bits, b.chld)
    requires c1 == ChkMk(Run(k - 1, TrailingZeros(a.mask)), a.bits, a.chld)
    ensures c0.Chk? ==> And(Pow2(k - 1), c0.mask) == 0
    ensures c1.Chk? ==> And(Pow2(k - 1), c1.mask) == 0
    ensures Union(a, b, k) ==
      if HasBit(a.bits, k - 1) then BitMk(Pow2(k - 1), c0, c1) else BitMk(Pow2(k - 1), c1, c0)
  {
    hide HasBit, And, AndNot, Xor, ShiftOnes, TrailingZeros, Agree, Run, Pow2, Contains, ChkMk, BitMk, SplitAt;
    UnionMasks(a, b, k);
    BranchSpec(a, b, k);
    BitTest(a.bits, k - 1);
    BitMkSpec(k, c0, c1);
  }

  /** A prefix they share is put in front of the union of the rests. */
  lemma UnionShared(a: SetNode, b: SetNode, k: nat, e: nat)
    requires a.Chk? && b.Chk? && Canon(a, k) && Canon(b, k) && a.mask <= b.mask && SplitAt(a, b, k) < k
    ensures Contains(Union(a, b, k), e) <==> Contains(a, e) || Contains(b, e)
    decreases k, 0, 0
  {
    var m, s, o := SplitAt(a, b, k), TrailingZeros(a.mask), TrailingZeros(b.mask);
    UnionMasks(a, b, k);
    ChkContains(a, k, e); ChkContains(b, k, e);
    ChkMkSpec(m, o, b.bits, b.chld); ChkMkSpec(m, s, a.bits, a.chld);
    var so, ss := ChkMk(Run(m, o), b.bits, b.chld), ChkMk(Run(m, s), a.bits, a.chld);
    UnionContains(so, ss, m, e);
    ChkMkSpec(k, m, a.bits, Union(so, ss, m));
    AgreeSplit(e, a.bits, k, m, s); AgreeSplit(e, b.bits, k, m, o);
    AgreeSame(e, a.bits, b.bits, k, m);
  }

  lemma UnionContainsChk(a: SetNode, b: SetNode, k: nat, e: nat)
    requires a.Chk? && b.Chk? && Canon(a, k) && Canon(b, k) && a.mask <= b.mask
    ensures Contains(Union(a, b, k), e) <==> Contains(a, e) || Contains(b, e)
    decreases k, 0, 1
  {
    if SplitAt(a, b, k) == k { UnionBranch(a, b, k, e); } else { UnionShared(a, b, k, e); }
  }
}
