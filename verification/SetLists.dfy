// Listing, counting and splitting the radix trees.
module SetLists {
  import opened Seqs
  import opened Bits
  import opened SetNodes
  import opened SetQueries

  // ---------- ascending lists ----------

  ghost predicate Ascending(s: seq<nat>) {
    forall i, j :: 0 <= i < j < |s| ==> s[i] < s[j]
  }

  /** An ascending list is determined by its elements. */
  lemma {:induction false} AscendingUnique(s: seq<nat>, t: seq<nat>)
    requires Ascending(s) && Ascending(t)
    requires forall x :: x in s <==> x in t
    ensures s == t
    decreases |s|
  {
    assert t != [] ==> t[0] in t;
    if s != [] {
      assert s[0] in s; assert s[0] in t;
      assert t[0] in t; assert t[0] in s;
      assert s[0] == t[0];
      forall x ensures x in s[1..] <==> x in t[1..] {
        assert s == [s[0]] + s[1..] && t == [t[0]] + t[1..];
        assert x in s[1..] ==> x in s && x != s[0];
        assert x in t[1..] ==> x in t && x != t[0];
      }
      AscendingUnique(s[1..], t[1..]);
    }
  }

  lemma AscendingSize(s: seq<nat>)
    requires Ascending(s)
    ensures |ToSet(s)| == |s|
  {
    NoDupSize(s);
  }

  function Range(a: nat, b: nat): (s: seq<nat>)
    requires a <= b
    ensures Ascending(s) && |s| == b - a && forall x: nat {:trigger x in s} :: x in s <==> a <= x < b
  {
    var s := seq(b - a, i requires 0 <= i => a + i);
    assert forall x: nat {:trigger x in s} :: a <= x < b ==> x in s by {
      forall x: nat | a <= x < b ensures x in s { assert s[x - a] == x; }
    }
    s
  }

  // ---------- listing ----------

  /** s lists, in ascending order, the elements of t in the block [prefix, prefix + 2^k). */
  ghost predicate Lists(s: seq<nat>, t: SetNode, prefix: nat, k: nat) {
    && Ascending(s)
    && (forall x: nat {:trigger x in s} :: x in s <==> prefix <= x < prefix + Pow2(k) && Contains(t, x))
  }

  lemma RunPositive(k: nat)
    requires k > 0
    ensures Run(k, 0) > 0
  {
    Pow2Mono(1, k);
  }

  /** `_tolist`: the list appended to the accumulator; its assertions on the mask hold. */
  function ToList(t: SetNode, prefix: nat, mask: nat, ghost k: nat): (s: seq<nat>)
    requires Canon(t, k) && mask == Run(k, 0) && Aligned(prefix, k)
    ensures Lists(s, t, prefix, k)
    decreases t
  {
    FullMask(k);
    assert And(mask, mask + 1) == 0;
    match t
    case Mem(mem) => if mem then Range(prefix, prefix + mask + 1) else []
    case Chk(tmask, bits, chld) =>
      assert mask != 0 by { RunPositive(k); }
      ghost var j := TrailingZeros(tmask);
      RunWithoutTop(k, j, 0);
      PrefixBits(prefix, bits, k, j);
      var s := ToList(chld, Or(prefix, bits), AndNot(mask, tmask), j);
      ChkLists(s, t, prefix, k);
      s
    case Bit(bit, c0, c1) =>
      assert mask != 0 by { RunPositive(k); }
      TopBit(k); RunWithoutTop(k, k - 1, 0); HalfPrefix(prefix, k);
      var s0 := ToList(c0, prefix, AndNot(mask, bit), k - 1);
      var s1 := ToList(c1, Or(prefix, bit), AndNot(mask, bit), k - 1);
      BitLists(s0, s1, t, prefix, k);
      s0 + s1
  }

  lemma PrefixBits(prefix: nat, bits: nat, k: nat, j: nat)
    requires j <= k && Aligned(prefix, k) && And(bits, Run(k, j)) == bits
    ensures Aligned(Or(prefix, bits), j)
    ensures Or(prefix, bits) == prefix + bits && bits + Pow2(j) <= Pow2(k)
    ensures Agree(Or(prefix, bits), bits, k, j)
    ensures (prefix + bits) / Pow2(k) == prefix / Pow2(k)
    ensures (prefix + bits) % Pow2(j) == 0
  {
    LowBitsClear(prefix, k); MaskedIsAligned(bits, k, j);
    OrIsSum(prefix, bits, k);
    OrBits(prefix, bits); AndBits(bits, Run(k, j)); RunBits(k, j);
    BlockRange(prefix + bits, prefix, Pow2(k));
    LowBitsClear(Or(prefix, bits), j);
    RoomAbove(bits, k, j);
  }

  lemma RoomAbove(bits: nat, k: nat, j: nat)
    requires j <= k && And(bits, Run(k, j)) == bits && bits % Pow2(j) == 0
    ensures bits + Pow2(j) <= Pow2(k)
  {
    var top := Or(bits, Run(j, 0));
    OrIsSum(bits, Run(j, 0), j);
    OrBits(bits, Run(j, 0)); RunBits(j, 0); AndBits(bits, Run(k, j)); RunBits(k, j);
    BoundedByBits(top, k);
  }

  /** Inside the block of the prefix, passing the test means lying in the child's block. */
  lemma InChildBlock(x: nat, prefix: nat, bits: nat, k: nat, j: nat)
    requires j <= k && Aligned(prefix, k) && And(bits, Run(k, j)) == bits
    requires prefix <= x < prefix + Pow2(k)
    ensures Agree(x, bits, k, j) <==> prefix + bits <= x < prefix + bits + Pow2(j)
  {
    PrefixBits(prefix, bits, k, j);
    LowBitsClear(prefix, k);
    BlockRange(x, prefix, Pow2(k));
    AgreeSame(x, Or(prefix, bits), bits, k, j);
    AgreeBlock(x, Or(prefix, bits), k, j);
    BlockRange(x, prefix + bits, Pow2(j));
  }

  lemma ChkLists(s: seq<nat>, t: SetNode, prefix: nat, k: nat)
    requires t.Chk? && Canon(t, k) && Aligned(prefix, k)
    requires Lists(s, t.chld, Or(prefix, t.bits), TrailingZeros(t.mask))
    ensures Lists(s, t, prefix, k)
  {
    var j := TrailingZeros(t.mask);
    PrefixBits(prefix, t.bits, k, j);
    forall x: nat ensures x in s <==> prefix <= x < prefix + Pow2(k) && Contains(t, x) {
      if prefix <= x < prefix + Pow2(k) {
        InChildBlock(x, prefix, t.bits, k, j);
        ChkContains(t, k, x);
      }
    }
  }

  lemma HalfPrefix(prefix: nat, k: nat)
    requires k >= 1 && Aligned(prefix, k)
    ensures Aligned(prefix, k - 1) && Aligned(Or(prefix, Pow2(k - 1)), k - 1)
    ensures Or(prefix, Pow2(k - 1)) == prefix + Pow2(k - 1)
  {
    TopBit(k);
    AndBits(Pow2(k - 1), Run(k, k - 1)); Pow2Bits(k - 1);
    Ext(And(Pow2(k - 1), Run(k, k - 1)), Pow2(k - 1));
    PrefixBits(prefix, Pow2(k - 1), k, k - 1);
  }

  lemma WhichHalf(x: nat, prefix: nat, k: nat)
    requires k >= 1 && Aligned(prefix, k) && prefix <= x < prefix + Pow2(k)
    ensures HasBit(x, k - 1) <==> prefix + Pow2(k - 1) <= x
  {
    TopBit(k);
    AndBits(Pow2(k - 1), Run(k, k - 1)); Pow2Bits(k - 1);
    Ext(And(Pow2(k - 1), Run(k, k - 1)), Pow2(k - 1));
    InChildBlock(x, prefix, Pow2(k - 1), k, k - 1);
    AgreeOne(x, Pow2(k - 1), k);
  }

  lemma BitLists(s0: seq<nat>, s1: seq<nat>, t: SetNode, prefix: nat, k: nat)
    requires t.Bit? && Canon(t, k) && Aligned(prefix, k)
    requires Lists(s0, t.c0, prefix, k - 1) && Lists(s1, t.c1, prefix + Pow2(k - 1), k - 1)
    ensures Lists(s0 + s1, t, prefix, k)
  {
    forall x: nat ensures x in s0 + s1 <==> prefix <= x < prefix + Pow2(k) && Contains(t, x) {
      if prefix <= x < prefix + Pow2(k) {
        WhichHalf(x, prefix, k);
        BitTest(x, k - 1);
      }
    }
    forall i, j | 0 <= i < j < |s0 + s1| ensures (s0 + s1)[i] < (s0 + s1)[j] {
      if i < |s0| { assert s0[i] in s0; }
      if j >= |s0| { assert s1[j - |s0|] in s1; }
    }
  }

  // ---------- counting ----------

  /** `_len` */
  function Len(t: SetNode, mask: nat, ghost k: nat): (n: nat)
    requires Canon(t, k) && mask == Run(k, 0)
    decreases t
  {
    match t
    case Mem(mem) =>
      FullMask(k);
      assert And(mask, mask + 1) == 0;
      if mem then mask + 1 else 0
    case Chk(tmask, bits, chld) =>
      RunWithoutTop(k, TrailingZeros(tmask), 0);
      Len(chld, AndNot(mask, tmask), TrailingZeros(tmask))
    case Bit(bit, c0, c1) =>
      TopBit(k); RunWithoutTop(k, k - 1, 0);
      Len(c0, AndNot(mask, bit), k - 1) + Len(c1, AndNot(mask, bit), k - 1)
  }

  /** `_len` counts the elements listed. */
  lemma {:induction false} LenIsSize(t: SetNode, prefix: nat, k: nat)
    requires Canon(t, k) && Aligned(prefix, k)
    ensures Len(t, Run(k, 0), k) == |ToList(t, prefix, Run(k, 0), k)|
    decreases t
  {
    match t
    case Mem(_) =>
    case Chk(tmask, bits, chld) =>
      var j := TrailingZeros(tmask);
      RunWithoutTop(k, j, 0); PrefixBits(prefix, bits, k, j);
      LenIsSize(chld, Or(prefix, bits), j);
    case Bit(bit, c0, c1) =>
      TopBit(k); RunWithoutTop(k, k - 1, 0); HalfPrefix(prefix, k);
      LenIsSize(c0, prefix, k - 1); LenIsSize(c1, Or(prefix, bit), k - 1);
  }

  lemma ZeroAligned(k: nat)
    ensures Aligned(0, k)
  {
    forall i: nat ensures !HasBit(0, i) { ZeroBits(i); }
  }

  lemma IntervalLen(a: nat, b: nat, k: nat)
    requires a <= b <= Pow2(k)
    ensures Len(Interval(a, b, Run(k, 0), k), Run(k, 0), k) == b - a
  {
    var t := Interval(a, b, Run(k, 0), k);
    ZeroAligned(k);
    AscendingUnique(ToList(t, 0, Run(k, 0), k), Range(a, b));
    LenIsSize(t, 0, k);
  }

  /** `_len` of a node built by `Chk._mk` or `Bit._mk`. */
  lemma LenChkMk(k: nat, j: nat, bits: nat, c: SetNode)
    requires j <= k && Canon(c, j)
    ensures Run(k, j) != 0 && c.Chk? ==> And(Run(k, j), c.mask) == 0
    ensures Canon(ChkMk(Run(k, j), bits, c), k)
    ensures Len(ChkMk(Run(k, j), bits, c), Run(k, 0), k) == Len(c, Run(j, 0), j)
  {
    ChkMkSpec(k, j, bits, c);
    RunWithoutTop(k, j, 0);
    if j < k && c != Empty {
      TrailingZerosOfRun(k, j);
      if c.Chk? {
        var i := TrailingZeros(c.mask);
        RunOrRun(k, j, i); TrailingZerosOfRun(k, i);
        RunWithoutTop(k, i, 0); RunWithoutTop(j, i, 0);
      }
    }
  }

  lemma LenBit(k: nat, c0: SetNode, c1: SetNode)
    requires k >= 1 && Canon(c0, k - 1) && Canon(c1, k - 1) && Canon(Bit(Pow2(k - 1), c0, c1), k)
    ensures Len(Bit(Pow2(k - 1), c0, c1), Run(k, 0), k) == Len(c0, Run(k - 1, 0), k - 1) + Len(c1, Run(k - 1, 0), k - 1)
  {
    TopBit(k); RunWithoutTop(k, k - 1, 0);
  }

  lemma LenMem(mem: bool, k: nat)
    ensures Len(Mem(mem), Run(k, 0), k) == if mem then Pow2(k) else 0
  {
  }

  lemma FullRun(k: nat)
    requires k >= 1
    ensures Pow2(k) == 2 * Pow2(k - 1)
  {
  }

  lemma LenBitMk(k: nat, c0: SetNode, c1: SetNode)
    requires k >= 1 && Canon(c0, k - 1) && Canon(c1, k - 1)
    ensures c0.Chk? ==> And(Pow2(k - 1), c0.mask) == 0
    ensures c1.Chk? ==> And(Pow2(k - 1), c1.mask) == 0
    ensures Canon(BitMk(Pow2(k - 1), c0, c1), k)
    ensures Len(BitMk(Pow2(k - 1), c0, c1), Run(k, 0), k)
      == Len(c0, Run(k - 1, 0), k - 1) + Len(c1, Run(k - 1, 0), k - 1)
  {
    BitMkSpec(k, c0, c1);
    hide HasBit, And, TrailingZeros, Run, Pow2, Contains, ChkMk, Canon, Len;
    TopBit(k);
    if c0.Mem? && c0 == c1 {
      LenMem(c0.mem, k); LenMem(c0.mem, k - 1); FullRun(k);
    } else if c0 == Empty {
      LenMem(false, k - 1);
      LenChkMk(k, k - 1, Pow2(k - 1), c1);
    } else if c1 == Empty {
      LenMem(false, k - 1);
      LenChkMk(k, k - 1, 0, c0);
    } else {
      LenBit(k, c0, c1);
    }
  }

  // ---------- splitting ----------

  /** a and b share out the elements of t, everything in a coming before everything in b. */
  ghost predicate Splits(t: SetNode, a: SetNode, b: SetNode, k: nat) {
    && (forall e: nat {:trigger Contains(t, e)} {:trigger Contains(a, e)} {:trigger Contains(b, e)} ::
      Contains(t, e) <==> Contains(a, e) || Contains(b, e))
    && (forall e: nat, f: nat {:trigger Contains(a, e), Contains(b, f)} ::
      e < Pow2(k) && f < Pow2(k) && Contains(a, e) && Contains(b, f) ==> e < f)
  }

  lemma ModAgrees(e: nat, k: nat)
    ensures e % Pow2(k) < Pow2(k) && Agree(e, e % Pow2(k), k, 0)
  {
    ModBits(e, k);
  }

  lemma SplitFull(count: nat, k: nat)
    requires count < Pow2(k)
    ensures Splits(Mem(true), Interval(0, count, Run(k, 0), k), Interval(count, Pow2(k), Run(k, 0), k), k)
  {
    var a, b := Interval(0, count, Run(k, 0), k), Interval(count, Pow2(k), Run(k, 0), k);
    forall e: nat ensures Contains(a, e) || Contains(b, e) {
      ModAgrees(e, k);
      LowBitsOnly(a, k, e, e % Pow2(k)); LowBitsOnly(b, k, e, e % Pow2(k));
    }
  }

  lemma SplitChk(t: SetNode, a: SetNode, b: SetNode, k: nat)
    requires t.Chk? && Canon(t, k)
    requires var j := TrailingZeros(t.mask); Canon(a, j) && Canon(b, j) && Splits(t.chld, a, b, j)
    ensures a.Chk? ==> And(t.mask, a.mask) == 0
    ensures b.Chk? ==> And(t.mask, b.mask) == 0
    ensures Splits(t, ChkMk(t.mask, t.bits, a), ChkMk(t.mask, t.bits, b), k)
  {
    var j := TrailingZeros(t.mask);
    ChkMkSpec(k, j, t.bits, a); ChkMkSpec(k, j, t.bits, b);
    var aa, bb := ChkMk(t.mask, t.bits, a), ChkMk(t.mask, t.bits, b);
    forall e: nat ensures Contains(t, e) <==> Contains(aa, e) || Contains(bb, e) {
      ChkContains(t, k, e);
    }
    forall e: nat, f: nat | e < Pow2(k) && f < Pow2(k) && Contains(aa, e) && Contains(bb, f) ensures e < f {
      ModAgrees(e, j); ModAgrees(f, j);
      LowBitsOnly(a, j, e, e % Pow2(j)); LowBitsOnly(b, j, f, f % Pow2(j));
      BlockRange(e, 0, Pow2(k)); BlockRange(f, 0, Pow2(k));
      assert Agree(e, f, k, j);
      AgreeBlock(e, f, k, j);
      SameBlockOrder(e, f, Pow2(j));
    }
  }

  lemma SameBlockOrder(e: nat, f: nat, d: nat)
    requires d > 0 && e / d == f / d && e % d < f % d
    ensures e < f
  {
  }

  lemma SplitBit(t: SetNode, a0: SetNode, b0: SetNode, a1: SetNode, b1: SetNode, k: nat)
    requires t.Bit? && Canon(t, k)
    requires Canon(a0, k - 1) && Canon(b0, k - 1) && Canon(a1, k - 1) && Canon(b1, k - 1)
    requires Splits(t.c0, a0, b0, k - 1) && Splits(t.c1, a1, b1, k - 1)
    requires b0 == Empty || a1 == Empty
    ensures a0.Chk? ==> And(t.bit, a0.mask) == 0
    ensures a1.Chk? ==> And(t.bit, a1.mask) == 0
    ensures b0.Chk? ==> And(t.bit, b0.mask) == 0
    ensures b1.Chk? ==> And(t.bit, b1.mask) == 0
    ensures Splits(t, BitMk(t.bit, a0, a1), BitMk(t.bit, b0, b1), k)
  {
    BitMkSpec(k, a0, a1); BitMkSpec(k, b0, b1);
    var a, b := BitMk(t.bit, a0, a1), BitMk(t.bit, b0, b1);
    forall e: nat ensures Contains(t, e) <==> Contains(a, e) || Contains(b, e) {
      BitTest(e, k - 1);
    }
    ZeroAligned(k);
    forall e: nat, f: nat | e < Pow2(k) && f < Pow2(k) && Contains(a, e) && Contains(b, f) ensures e < f {
      WhichHalf(e, 0, k); WhichHalf(f, 0, k);
      if HasBit(e, k - 1) && HasBit(f, k - 1) {
        HalfElement(e, a1, k); HalfElement(f, b1, k);
      } else if !HasBit(e, k - 1) && HasBit(f, k - 1) {
      } else {
        assert Contains(b0, f);
        assert Contains(a0, e);
      }
    }
  }

  lemma HalfElement(e: nat, t: SetNode, k: nat)
    requires k >= 1 && Canon(t, k - 1) && e < Pow2(k) && HasBit(e, k - 1)
    ensures Pow2(k - 1) <= e && Contains(t, e - Pow2(k - 1)) == Contains(t, e)
  {
    ZeroAligned(k); WhichHalf(e, 0, k);
    var f := e - Pow2(k - 1);
    TopHalf(f, k);
    LowBitsOnly(t, k - 1, f, e);
  }

  /** What `_take` must return. */
  ghost predicate Taken(t: SetNode, count: nat, a: SetNode, b: SetNode, k: nat)
    requires Canon(t, k)
  {
    && Canon(a, k) && Canon(b, k) && Splits(t, a, b, k)
    && Len(a, Run(k, 0), k) == (if count < Len(t, Run(k, 0), k) then count else Len(t, Run(k, 0), k))
    && (count >= Len(t, Run(k, 0), k) ==> a == t && b == Empty)
  }

  lemma TakenChk(t: SetNode, count: nat, a: SetNode, b: SetNode, k: nat)
    requires t.Chk? && Canon(t, k) && count < Len(t, Run(k, 0), k)
    requires Taken(t.chld, count, a, b, TrailingZeros(t.mask))
    ensures a.Chk? ==> And(t.mask, a.mask) == 0
    ensures b.Chk? ==> And(t.mask, b.mask) == 0
    ensures Taken(t, count, ChkMk(t.mask, t.bits, a), ChkMk(t.mask, t.bits, b), k)
  {
    var j := TrailingZeros(t.mask);
    RunWithoutTop(k, j, 0);
    LenChkMk(k, j, t.bits, a); LenChkMk(k, j, t.bits, b); SplitChk(t, a, b, k);
  }

  lemma TakenRight(t: SetNode, count: nat, rest: nat, a0: SetNode, b0: SetNode, a1: SetNode, b1: SetNode, k: nat)
    requires t.Bit? && Canon(t, k) && count < Len(t, Run(k, 0), k)
    requires Taken(t.c0, count, a0, b0, k - 1) && rest > 0 && rest == count - Len(a0, Run(k - 1, 0), k - 1)
    requires Taken(t.c1, rest, a1, b1, k - 1)
    ensures b0 == Empty
    ensures a0.Chk? ==> And(t.bit, a0.mask) == 0
    ensures a1.Chk? ==> And(t.bit, a1.mask) == 0
    ensures b1.Chk? ==> And(t.bit, b1.mask) == 0
    ensures Taken(t, count, BitMk(t.bit, a0, a1), ChkMk(t.bit, t.bit, b1), k)
  {
    TopBit(k); RunWithoutTop(k, k - 1, 0);
    SplitBit(t, a0, b0, a1, b1, k); LenBitMk(k, a0, a1); BitMkSpec(k, b0, b1);
    assert BitMk(t.bit, b0, b1) == ChkMk(t.bit, t.bit, b1);
  }

  lemma TakenLeft(t: SetNode, count: nat, a0: SetNode, b0: SetNode, k: nat)
    requires t.Bit? && Canon(t, k) && count < Len(t, Run(k, 0), k)
    requires Taken(t.c0, count, a0, b0, k - 1) && count == Len(a0, Run(k - 1, 0), k - 1)
    ensures a0.Chk? ==> And(t.bit, a0.mask) == 0
    ensures b0.Chk? ==> And(t.bit, b0.mask) == 0
    ensures t.c1.Chk? ==> And(t.bit, t.c1.mask) == 0
    ensures Taken(t, count, ChkMk(t.bit, 0, a0), BitMk(t.bit, b0, t.c1), k)
  {
    TopBit(k);
    SplitBit(t, a0, b0, Empty, t.c1, k); LenChkMk(k, k - 1, 0, a0); BitMkSpec(k, b0, t.c1);
    assert BitMk(t.bit, a0, Empty) == ChkMk(t.bit, 0, a0);
  }

  lemma TakenAll(t: SetNode, count: nat, k: nat)
    requires Canon(t, k) && count >= Len(t, Run(k, 0), k)
    ensures Taken(t, count, t, Empty, k)
  {
    hide Canon, Len, Run, Pow2, Splits;
    EmptyCanon(k); SplitsNothing(t, k);
  }

  lemma EmptyCanon(k: nat)
    ensures Canon(Empty, k)
  {
  }

  lemma SplitsNothing(t: SetNode, k: nat)
    ensures Splits(t, t, Empty, k)
  {
    hide Canon, Len, Run, Pow2;
    assert forall e: nat :: !Contains(Empty, e);
  }

  /** A full node, cut in two. */
  lemma TakenFull(count: nat, k: nat)
    requires count < Pow2(k)
    ensures Run(k, 0) == Pow2(k) - 1
    ensures Taken(Mem(true), count, Interval(0, count, Run(k, 0), k), Interval(count, Pow2(k), Run(k, 0), k), k)
  {
    hide Len, Run, Pow2, Splits;
    FullMask(k); LenMem(true, k);
    SplitFull(count, k); IntervalLen(0, count, k);
  }

  lemma FullCanon(k: nat)
    ensures Canon(Mem(true), k)
  {
  }

  function TakeMem(mem: bool, count: nat, mask: nat, ghost k: nat): (r: (SetNode, SetNode))
    requires mask == Run(k, 0)
    ensures Taken(Mem(mem), count, r.0, r.1, k)
  {
    hide Taken, Len, Run, Pow2;
    FullMask(k); LenMem(false, k); LenMem(true, k); EmptyCanon(k); FullCanon(k);
    assert And(mask, mask + 1) == 0;
    if !mem then
      TakenAll(Empty, count, k);
      (Empty, Empty)
    else if count >= mask + 1 then
      TakenAll(Mem(true), count, k);
      (Mem(true), Empty)
    else
      TakenFull(count, k);
      (Interval(0, count, mask, k), Interval(count, mask + 1, mask, k))
  }

  lemma ChkParts(t: SetNode, k: nat)
    requires t.Chk? && Canon(t, k)
    ensures t.mask > 0 && TrailingZeros(t.mask) < k && Canon(t.chld, TrailingZeros(t.mask))
    ensures AndNot(Run(k, 0), t.mask) == Run(TrailingZeros(t.mask), 0)
  {
    RunWithoutTop(k, TrailingZeros(t.mask), 0);
  }

  lemma BitParts(t: SetNode, k: nat)
    requires t.Bit? && Canon(t, k)
    ensures k >= 1 && Canon(t.c0, k - 1) && Canon(t.c1, k - 1)
    ensures AndNot(Run(k, 0), t.bit) == Run(k - 1, 0)
  {
    TopBit(k); RunWithoutTop(k, k - 1, 0);
  }

  lemma TakenParts(t: SetNode, count: nat, a: SetNode, b: SetNode, k: nat)
    requires Canon(t, k) && Taken(t, count, a, b, k)
    ensures Canon(a, k) && Canon(b, k) && Len(a, Run(k, 0), k) <= count
  {
  }

  /** `_take`: the `count` smallest elements, and the rest. */
  function Take(t: SetNode, count: nat, mask: nat, ghost k: nat): (r: (SetNode, SetNode))
    requires Canon(t, k) && mask == Run(k, 0)
    ensures Taken(t, count, r.0, r.1, k)
    decreases t
  {
    hide Canon, Run, AndNot, Len, Taken, ChkMk, BitMk, TrailingZeros;
    if t.Mem? then TakeMem(t.mem, count, mask, k)
    else if count >= Len(t, mask, k) then
      TakenAll(t, count, k);
      (t, Empty)
    else if t.Chk? then
      ChkParts(t, k);
      var r := Take(t.chld, count, AndNot(mask, t.mask), TrailingZeros(t.mask));
      TakenChk(t, count, r.0, r.1, k);
      (ChkMk(t.mask, t.bits, r.0), ChkMk(t.mask, t.bits, r.1))
    else
      BitParts(t, k);
      var low := AndNot(mask, t.bit);
      assert low == Run(k - 1, 0);
      var l := Take(t.c0, count, low, k - 1);
      TakenParts(t.c0, count, l.0, l.1, k - 1);
      var rest := count - Len(l.0, low, k - 1);
      if rest > 0 then
        var h := Take(t.c1, rest, low, k - 1);
        TakenRight(t, count, rest, l.0, l.1, h.0, h.1, k);
        assert l.1 == Empty;
        (BitMk(t.bit, l.0, h.0), ChkMk(t.bit, t.bit, h.1))
      else
        TakenLeft(t, count, l.0, l.1, k);
        (ChkMk(t.bit, 0, l.0), BitMk(t.bit, l.1, t.c1))
  }
}
