// Python's non-negative integers seen as bit strings. Masks and prefixes of the
// radix tree are reasoned about position by position: two numbers with the same
// bits are equal (Ext), and each bitwise operator is known by its effect on a bit.
module Bits {
  import opened Basics

  function Pow2(n: nat): (p: nat)
    ensures p >= 1
  {
    if n == 0 then 1 else 2 * Pow2(n - 1)
  }

  function And(a: nat, b: nat): nat {
    if a == 0 || b == 0 then 0
    else 2 * And(a / 2, b / 2) + (if a % 2 == 1 && b % 2 == 1 then 1 else 0)
  }

  function Or(a: nat, b: nat): nat
    decreases a + b
  {
    if a == 0 then b else if b == 0 then a
    else 2 * Or(a / 2, b / 2) + (if a % 2 == 1 || b % 2 == 1 then 1 else 0)
  }

  function Xor(a: nat, b: nat): nat
    decreases a + b
  {
    if a == 0 then b else if b == 0 then a
    else 2 * Xor(a / 2, b / 2) + (if a % 2 != b % 2 then 1 else 0)
  }

  /** Python's `a & ~b`; with `b == p - 1` this is also `a & -p`. */
  function AndNot(a: nat, b: nat): nat {
    if a == 0 then 0
    else 2 * AndNot(a / 2, b / 2) + (if a % 2 == 1 && b % 2 == 0 then 1 else 0)
  }

  function BitLength(n: nat): nat {
    if n == 0 then 0 else 1 + BitLength(n / 2)
  }

  predicate HasBit(n: nat, i: nat)
    decreases i
  {
    if i == 0 then n % 2 == 1 else HasBit(n / 2, i - 1)
  }

  /** The run of ones at positions [lo, hi). */
  function Run(hi: nat, lo: nat): nat
    requires lo <= hi
  {
    Pow2Mono(lo, hi);
    Pow2(hi) - Pow2(lo)
  }

  lemma {:induction false} Pow2Mono(a: nat, b: nat)
    requires a <= b
    ensures Pow2(a) <= Pow2(b)
    ensures a < b ==> 2 * Pow2(a) <= Pow2(b)
    decreases b
  {
    if a < b { Pow2Mono(a, b - 1); }
  }

  lemma {:induction false} BitAnd(a: nat, b: nat, i: nat)
    ensures HasBit(And(a, b), i) == (HasBit(a, i) && HasBit(b, i))
    decreases i
  {
    ZeroBits(i);
    if i > 0 && a != 0 && b != 0 {
      BitAnd(a / 2, b / 2, i - 1);
    }
  }

  lemma {:induction false} BitOr(a: nat, b: nat, i: nat)
    ensures HasBit(Or(a, b), i) == (HasBit(a, i) || HasBit(b, i))
    decreases i
  {
    ZeroBits(i);
    if i > 0 && a != 0 && b != 0 {
      BitOr(a / 2, b / 2, i - 1);
    }
  }

  lemma {:induction false} BitXor(a: nat, b: nat, i: nat)
    ensures HasBit(Xor(a, b), i) == (HasBit(a, i) != HasBit(b, i))
    decreases i
  {
    ZeroBits(i);
    if i > 0 && a != 0 && b != 0 {
      BitXor(a / 2, b / 2, i - 1);
    }
  }

  lemma {:induction false} BitAndNot(a: nat, b: nat, i: nat)
    ensures HasBit(AndNot(a, b), i) == (HasBit(a, i) && !HasBit(b, i))
    decreases i
  {
    ZeroBits(i);
    if i > 0 && a != 0 {
      BitAndNot(a / 2, b / 2, i - 1);
    }
  }

  lemma {:induction false} ZeroBits(i: nat)
    ensures !HasBit(0, i)
    decreases i
  {
    if i > 0 { ZeroBits(i - 1); }
  }

  lemma {:induction false} Ext(a: nat, b: nat)
    requires forall i: nat :: HasBit(a, i) == HasBit(b, i)
    ensures a == b
    decreases a + b
  {
    assert HasBit(a, 0) == HasBit(b, 0);
    if a != 0 || b != 0 {
      forall i: nat
        ensures HasBit(a / 2, i) == HasBit(b / 2, i)
      {
        assert HasBit(a, i + 1) == HasBit(b, i + 1);
      }
      Ext(a / 2, b / 2);
    }
  }

  /** n < 2^k exactly when no bit at or above k is set. */
  lemma {:induction false} HighBits(n: nat, k: nat)
    requires n < Pow2(k)
    ensures forall i: nat :: k <= i ==> !HasBit(n, i)
    decreases k
  {
    if k == 0 {
      forall i: nat ensures !HasBit(n, i) { ZeroBits(i); }
    } else {
      HighBits(n / 2, k - 1);
    }
  }

  lemma {:induction false} BoundedByBits(n: nat, k: nat)
    requires forall i: nat :: k <= i ==> !HasBit(n, i)
    ensures n < Pow2(k)
    decreases k
  {
    if k == 0 {
      forall i: nat ensures HasBit(n, i) == HasBit(0, i) { ZeroBits(i); }
      Ext(n, 0);
    } else {
      forall i: nat | k - 1 <= i ensures !HasBit(n / 2, i) {
        assert !HasBit(n, i + 1);
      }
      BoundedByBits(n / 2, k - 1);
    }
  }

  lemma {:induction false} BitPow2(k: nat, i: nat)
    ensures HasBit(Pow2(k), i) == (i == k)
    decreases i
  {
    if i == 0 {
    } else if k == 0 {
      ZeroBits(i - 1);
    } else {
      assert Pow2(k) / 2 == Pow2(k - 1);
      BitPow2(k - 1, i - 1);
    }
  }

  lemma {:induction false} BitRun(hi: nat, lo: nat, i: nat)
    requires lo <= hi
    ensures HasBit(Run(hi, lo), i) == (lo <= i < hi)
    decreases i
  {
    if lo == hi {
      ZeroBits(i);
    } else if i == 0 {
    } else if lo == 0 {
      Pow2Mono(0, hi - 1);
      assert Run(hi, 0) / 2 == Run(hi - 1, 0);
      BitRun(hi - 1, 0, i - 1);
    } else {
      Pow2Mono(lo - 1, hi - 1);
      assert Run(hi, lo) == 2 * Run(hi - 1, lo - 1);
      BitRun(hi - 1, lo - 1, i - 1);
    }
  }

  // The same facts for every position at once.

  lemma AndBits(a: nat, b: nat)
    ensures forall i: nat {:trigger HasBit(And(a, b), i)} :: HasBit(And(a, b), i) == (HasBit(a, i) && HasBit(b, i))
  {
    forall i: nat ensures HasBit(And(a, b), i) == (HasBit(a, i) && HasBit(b, i)) { BitAnd(a, b, i); }
  }

  lemma OrBits(a: nat, b: nat)
    ensures forall i: nat {:trigger HasBit(Or(a, b), i)} :: HasBit(Or(a, b), i) == (HasBit(a, i) || HasBit(b, i))
  {
    forall i: nat ensures HasBit(Or(a, b), i) == (HasBit(a, i) || HasBit(b, i)) { BitOr(a, b, i); }
  }

  lemma XorBits(a: nat, b: nat)
    ensures forall i: nat {:trigger HasBit(Xor(a, b), i)} :: HasBit(Xor(a, b), i) == (HasBit(a, i) != HasBit(b, i))
  {
    forall i: nat ensures HasBit(Xor(a, b), i) == (HasBit(a, i) != HasBit(b, i)) { BitXor(a, b, i); }
  }

  lemma AndNotBits(a: nat, b: nat)
    ensures forall i: nat {:trigger HasBit(AndNot(a, b), i)} ::
      HasBit(AndNot(a, b), i) == (HasBit(a, i) && !HasBit(b, i))
  {
    forall i: nat ensures HasBit(AndNot(a, b), i) == (HasBit(a, i) && !HasBit(b, i)) { BitAndNot(a, b, i); }
  }

  lemma RunBits(hi: nat, lo: nat)
    requires lo <= hi
    ensures forall i: nat {:trigger HasBit(Run(hi, lo), i)} :: HasBit(Run(hi, lo), i) == (lo <= i < hi)
  {
    forall i: nat ensures HasBit(Run(hi, lo), i) == (lo <= i < hi) { BitRun(hi, lo, i); }
  }

  lemma Pow2Bits(k: nat)
    ensures forall i: nat {:trigger HasBit(Pow2(k), i)} :: HasBit(Pow2(k), i) == (i == k)
  {
    forall i: nat ensures HasBit(Pow2(k), i) == (i == k) { BitPow2(k, i); }
  }

  // Mask arithmetic on runs of ones.

  lemma RunAndRun(a: nat, b: nat, c: nat, d: nat)
    requires b <= a && d <= c
    ensures var hi, lo := if a < c then a else c, if b < d then d else b;
      And(Run(a, b), Run(c, d)) == if lo <= hi then Run(hi, lo) else 0
  {
    AndBits(Run(a, b), Run(c, d)); RunBits(a, b); RunBits(c, d);
    var hi, lo := if a < c then a else c, if b < d then d else b;
    if lo <= hi {
      RunBits(hi, lo);
      Ext(And(Run(a, b), Run(c, d)), Run(hi, lo));
    } else {
      forall i: nat ensures HasBit(And(Run(a, b), Run(c, d)), i) == HasBit(0, i) { ZeroBits(i); }
      Ext(And(Run(a, b), Run(c, d)), 0);
    }
  }

  /** Removing the top part [m, k) of the run [j, k). */
  lemma RunWithoutTop(k: nat, m: nat, j: nat)
    requires m <= k && j <= m
    ensures AndNot(Run(k, j), Run(k, m)) == Run(m, j)
  {
    AndNotBits(Run(k, j), Run(k, m)); RunBits(k, j); RunBits(k, m); RunBits(m, j);
    Ext(AndNot(Run(k, j), Run(k, m)), Run(m, j));
  }

  lemma RunOrRun(k: nat, m: nat, j: nat)
    requires j <= m <= k
    ensures Or(Run(k, m), Run(m, j)) == Run(k, j)
  {
    OrBits(Run(k, m), Run(m, j)); RunBits(k, m); RunBits(m, j); RunBits(k, j);
    Ext(Or(Run(k, m), Run(m, j)), Run(k, j));
  }

  lemma TopBit(k: nat)
    requires k >= 1
    ensures Run(k, k - 1) == Pow2(k - 1)
  {
  }

  /** `e` and `bits` have the same bits at positions [lo, hi). */
  ghost predicate Agree(e: nat, bits: nat, hi: nat, lo: nat) {
    forall i: nat {:trigger HasBit(e, i)} {:trigger HasBit(bits, i)} :: lo <= i < hi ==> HasBit(e, i) == HasBit(bits, i)
  }

  /** The prefix test of the tree: `e & mask == bits` compares the bits under the mask. */
  lemma MaskTest(e: nat, bits: nat, hi: nat, lo: nat)
    requires lo <= hi && And(bits, Run(hi, lo)) == bits
    ensures And(e, Run(hi, lo)) == bits <==> Agree(e, bits, hi, lo)
  {
    AndBits(e, Run(hi, lo)); AndBits(bits, Run(hi, lo)); RunBits(hi, lo);
    var m := And(e, Run(hi, lo));
    if m == bits {
      assert forall i: nat :: lo <= i < hi ==> HasBit(m, i) == HasBit(e, i);
    }
    if Agree(e, bits, hi, lo) {
      assert bits == And(bits, Run(hi, lo));
      Ext(m, bits);
    }
  }

  // Blocks: the numbers with the same bits from position j on are an interval of length 2^j.

  lemma HalveMod(e: nat, p: nat)
    requires p > 0
    ensures (e % (2 * p)) / 2 == (e / 2) % p && (e % (2 * p)) % 2 == e % 2
    ensures e / (2 * p) == (e / 2) / p
  {
    var q, r := (e / 2) / p, (e / 2) % p;
    var s := 2 * r + e % 2;
    assert e == q * (2 * p) + s && s < 2 * p;
    DivUnique(e, 2 * p, q, s);
  }

  lemma {:induction false} ModBits(e: nat, j: nat)
    ensures forall i: nat {:trigger HasBit(e % Pow2(j), i)} :: HasBit(e % Pow2(j), i) == (i < j && HasBit(e, i))
    decreases j
  {
    if j == 0 {
      forall i: nat ensures !HasBit(e % Pow2(0), i) { ZeroBits(i); }
    } else {
      HalveMod(e, Pow2(j - 1));
      ModBits(e / 2, j - 1);
      forall i: nat
        ensures HasBit(e % Pow2(j), i) == (i < j && HasBit(e, i))
      {
        if i > 0 { assert HasBit((e / 2) % Pow2(j - 1), i - 1) == (i - 1 < j - 1 && HasBit(e / 2, i - 1)); }
      }
    }
  }

  ghost predicate SameFrom(x: nat, y: nat, j: nat) {
    forall i: nat {:trigger HasBit(x, i)} {:trigger HasBit(y, i)} :: j <= i ==> HasBit(x, i) == HasBit(y, i)
  }

  lemma {:induction false} SameBlock(x: nat, y: nat, j: nat)
    ensures x / Pow2(j) == y / Pow2(j) <==> SameFrom(x, y, j)
    decreases j
  {
    if j == 0 {
      if SameFrom(x, y, 0) { Ext(x, y); }
    } else {
      HalveMod(x, Pow2(j - 1)); HalveMod(y, Pow2(j - 1));
      SameBlock(x / 2, y / 2, j - 1);
      if SameFrom(x, y, j) {
        forall i: nat | j - 1 <= i ensures HasBit(x / 2, i) == HasBit(y / 2, i) {
          assert HasBit(x, i + 1) == HasBit(y, i + 1);
        }
      }
      if SameFrom(x / 2, y / 2, j - 1) {
        forall i: nat | j <= i ensures HasBit(x, i) == HasBit(y, i) {
          assert HasBit(x / 2, i - 1) == HasBit(y / 2, i - 1);
        }
      }
    }
  }

  /** Numbers below 2^k that agree on [j, k) lie in the same block of length 2^j. */
  lemma AgreeBlock(x: nat, y: nat, k: nat, j: nat)
    requires j <= k && x / Pow2(k) == y / Pow2(k)
    ensures Agree(x, y, k, j) <==> x / Pow2(j) == y / Pow2(j)
  {
    SameBlock(x, y, k); SameBlock(x, y, j);
    if Agree(x, y, k, j) {
      assert SameFrom(x, y, j);
    }
  }

  /** Disjoint bits add up. */
  lemma {:induction false} OrIsSum(prefix: nat, bits: nat, k: nat)
    requires prefix % Pow2(k) == 0 && bits < Pow2(k)
    ensures Or(prefix, bits) == prefix + bits
    decreases k
  {
    if k > 0 && prefix > 0 && bits > 0 {
      HalveMod(prefix, Pow2(k - 1));
      OrIsSum(prefix / 2, bits / 2, k - 1);
    }
  }

  /** A number whose bits lie in [j, k) is a multiple of 2^j below 2^k. */
  lemma MaskedIsAligned(bits: nat, k: nat, j: nat)
    requires j <= k && And(bits, Run(k, j)) == bits
    ensures bits < Pow2(k) && bits % Pow2(j) == 0
  {
    AndBits(bits, Run(k, j)); RunBits(k, j);
    assert forall i: nat :: HasBit(bits, i) ==> j <= i < k;
    BoundedByBits(bits, k);
    ModBits(bits, j);
    forall i: nat ensures HasBit(bits % Pow2(j), i) == HasBit(0, i) { ZeroBits(i); }
    Ext(bits % Pow2(j), 0);
  }
}
