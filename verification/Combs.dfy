// Binomial coefficients and the k-subsets of a list, in the order itertools yields them.
module Combs {
  function Comb(n: nat, k: nat): nat {
    if k == 0 then 1 else if n == 0 then 0 else Comb(n - 1, k - 1) + Comb(n - 1, k)
  }

  function WithHead<T>(x: T, cs: seq<seq<T>>): seq<seq<T>> {
    seq(|cs|, i requires 0 <= i < |cs| => [x] + cs[i])
  }

  function Combinations<T>(s: seq<T>, k: nat): (cs: seq<seq<T>>)
    ensures |cs| == Comb(|s|, k)
    decreases |s|
  {
    if k == 0 then [[]]
    else if s == [] then []
    else WithHead(s[0], Combinations(s[1..], k - 1)) + Combinations(s[1..], k)
  }

  lemma Pascal(n: nat, k: nat)
    requires k > 0
    ensures Comb(n + 1, k) == Comb(n, k - 1) + Comb(n, k)
  {
  }

  lemma {:induction false} CombZero(n: nat, k: nat)
    requires n < k
    ensures Comb(n, k) == 0
  {
    if n > 0 { CombZero(n - 1, k - 1); CombZero(n - 1, k); }
  }

  lemma {:induction false} CombPositive(n: nat, k: nat)
    requires k <= n
    ensures Comb(n, k) > 0
  {
    if k > 0 { CombPositive(n - 1, k - 1); }
  }

  /** `(n - k) C(n, k) = n C(n - 1, k)` and `k C(n, k) = n C(n - 1, k - 1)`. */
  lemma {:induction false} Absorb(n: nat, k: nat)
    requires n > 0
    ensures (n - k) * Comb(n, k) == n * Comb(n - 1, k)
    ensures k > 0 ==> k * Comb(n, k) == n * Comb(n - 1, k - 1)
    decreases n
  {
    if k == 0 {
    } else if n == 1 {
      if k > 1 { CombZero(0, k - 1); CombZero(0, k); }
    } else {
      Absorb(n - 1, k); Absorb(n - 1, k - 1);
      var a, b := Comb(n - 1, k - 1), Comb(n - 1, k);
      // both parts follow from the two cases below
      AbsorbStep(n, k, a, b, Comb(n - 2, k - 1), Comb(n - 2, k), if k > 1 then Comb(n - 2, k - 2) else 0);
    }
  }

  lemma AbsorbStep(n: int, k: int, a: int, b: int, p: int, q: int, r: int)
    requires (n - 1 - k) * b == (n - 1) * q && k * b == (n - 1) * p
    requires (n - 1 - (k - 1)) * a == (n - 1) * p && b == p + q && (k > 1 ==> a == r + p && (k - 1) * a == (n - 1) * r)
    requires k == 1 ==> a == 1
    requires k >= 1
    ensures (n - k) * (a + b) == n * b && k * (a + b) == n * a
  {
    assert (n - k) * a == k * b;
    assert (n - k) * (a + b) == (n - k) * a + (n - k) * b == k * b + (n - k) * b == n * b;
    assert k * (a + b) == k * a + k * b == k * a + (n - k) * a == n * a;
  }
}
