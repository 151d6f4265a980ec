// Estimators over k-subsets of samples, in exact arithmetic: pass@k, rank-score@k, short-1@k
// and the general short-m@k, whose first case short-1@k computes without enumerating subsets.
module Outcomes {
  import opened Basics
  import opened Combs

  // ---------- pass@k ----------

  /** `np.prod(1.0 - k / np.arange(n - c + 1, n + 1))` */
  function Product(n: nat, c: nat, k: nat): real
    requires c <= n
  {
    if c == 0 then 1.0 else Product(n - 1, c - 1, k) * (1.0 - k as real / n as real)
  }

  function PassAtK(n: nat, c: nat, k: nat): real
    requires c <= n
  {
    if n - c < k then (if c > 0 then 1.0 else 0.0) else 1.0 - Product(n, c, k)
  }

  lemma {:induction false} ToReal(a: nat, b: nat)
    ensures (a * b) as real == a as real * b as real
    decreases b
  {
    if b > 0 {
      ToReal(a, b - 1);
      assert a * b == a * (b - 1) + a;
      assert (b - 1) as real == b as real - 1.0;
      Spread(a as real, b as real);
    }
  }

  lemma Spread(a: real, b: real)
    ensures a * (b - 1.0) == a * b - a
  {
  }

  lemma Cancel(n: real, a: real, b: real)
    requires n > 0.0 && n * a == n * b
    ensures a == b
  {
  }

  /** One factor of the product turns C(n, k) into C(n - 1, k). */
  lemma Factor(n: nat, k: nat)
    requires 0 < n && k <= n
    ensures (1.0 - k as real / n as real) * Comb(n, k) as real == Comb(n - 1, k) as real
  {
    Absorb(n, k);
    FactorNat(n, k, Comb(n, k), Comb(n - 1, k));
  }

  lemma FactorNat(n: nat, k: nat, x: nat, y: nat)
    requires 0 < n && k <= n && (n - k) * x == n * y
    ensures (1.0 - k as real / n as real) * x as real == y as real
  {
    ToReal(n - k, x); ToReal(n, y);
    assert (n - k) as real == n as real - k as real;
    FactorReal(n as real, k as real, x as real, y as real);
  }

  lemma FactorReal(n: real, k: real, x: real, y: real)
    requires n > 0.0 && (n - k) * x == n * y
    ensures (1.0 - k / n) * x == y
  {
    var f := 1.0 - k / n;
    assert n * f == n - k;
    assert n * (f * x) == (n * f) * x;
    Cancel(n, f * x, y);
  }

  lemma Chain(p: real, f: real, x: real, y: real, w: real)
    requires p * y == w && f * x == y
    ensures p * f * x == w
  {
    assert p * f * x == p * (f * x);
  }

  lemma ProductNext(n: nat, c: nat, k: nat)
    requires 0 < c <= n
    ensures Product(n, c, k) == Product(n - 1, c - 1, k) * (1.0 - k as real / n as real)
  {
  }

  lemma ProductNone(n: nat, k: nat)
    ensures Product(n, 0, k) * Comb(n, k) as real == Comb(n, k) as real
  {
  }

  lemma {:induction false} ProductIsRatio(n: nat, c: nat, k: nat)
    requires c <= n && k <= n - c
    ensures Product(n, c, k) * Comb(n, k) as real == Comb(n - c, k) as real
    decreases c
  {
    hide Product, Comb;
    if c > 0 {
      ProductIsRatio(n - 1, c - 1, k);
      Factor(n, k);
      ProductNext(n, c, k);
      Chain(Product(n - 1, c - 1, k), 1.0 - k as real / n as real, Comb(n, k) as real, Comb(n - 1, k) as real,
        Comb(n - c, k) as real);
      assert n - 1 - (c - 1) == n - c;
    } else {
      ProductNone(n, k);
    }
  }

  lemma Quotient(p: real, x: real, y: real)
    requires x > 0.0 && p * x == y
    ensures p == y / x
  {
  }

  lemma NoneMissing(x: real)
    requires x > 0.0
    ensures 1.0 == 1.0 - 0.0 / x
  {
  }

  /** The estimator is `1 - C(n - c, k) / C(n, k)`, in both branches. */
  lemma PassAtKClosed(n: nat, c: nat, k: nat)
    requires c <= n && k <= n
    ensures Comb(n, k) > 0 && PassAtK(n, c, k) == 1.0 - Comb(n - c, k) as real / Comb(n, k) as real
  {
    hide Comb, Product;
    CombPositive(n, k);
    if n - c < k {
      CombZero(n - c, k);
      NoneMissing(Comb(n, k) as real);
    } else {
      ProductIsRatio(n, c, k);
      Quotient(Product(n, c, k), Comb(n, k) as real, Comb(n - c, k) as real);
    }
  }

  function Trues(s: seq<bool>): (c: nat)
    ensures c <= |s|
  {
    if s == [] then 0 else Trues(s[1..]) + if s[0] then 1 else 0
  }

  /** How many of these subsets contain a correct sample. */
  function Passing(cs: seq<seq<bool>>): nat {
    if cs == [] then 0 else Passing(cs[1..]) + if true in cs[0] then 1 else 0
  }

  lemma {:induction false} PassingConcat(a: seq<seq<bool>>, b: seq<seq<bool>>)
    ensures Passing(a + b) == Passing(a) + Passing(b)
  {
    if a == [] {
      assert a + b == b;
    } else {
      assert (a + b)[1..] == a[1..] + b;
      PassingConcat(a[1..], b);
    }
  }

  lemma {:induction false} PassingHead(x: bool, cs: seq<seq<bool>>)
    ensures Passing(WithHead(x, cs)) == if x then |cs| else Passing(cs)
  {
    if cs != [] {
      assert WithHead(x, cs)[1..] == WithHead(x, cs[1..]);
      PassingHead(x, cs[1..]);
      assert WithHead(x, cs)[0] == [x] + cs[0];
      assert x ==> ([x] + cs[0])[0];
    }
  }

  lemma SplitCombinations<T>(s: seq<T>, k: nat)
    requires k > 0 && s != []
    ensures Combinations(s, k) == WithHead(s[0], Combinations(s[1..], k - 1)) + Combinations(s[1..], k)
  {
  }

  lemma PassingSplit(s: seq<bool>, k: nat)
    requires k > 0 && s != []
    ensures Passing(Combinations(s, k))
      == (if s[0] then Comb(|s| - 1, k - 1) else Passing(Combinations(s[1..], k - 1)))
        + Passing(Combinations(s[1..], k))
  {
    SplitCombinations(s, k);
    PassingHead(s[0], Combinations(s[1..], k - 1));
    PassingConcat(WithHead(s[0], Combinations(s[1..], k - 1)), Combinations(s[1..], k));
  }

  lemma PassingEmpty(one: seq<seq<bool>>)
    requires one == [[]]
    ensures Passing(one) == 0
  {
    assert one[1..] == [];
  }

  lemma PassingNone(s: seq<bool>)
    ensures Passing(Combinations(s, 0)) == 0 && Comb(|s|, 0) == 1 && Comb(|s| - Trues(s), 0) == 1
  {
    var one := Combinations(s, 0);
    assert one == [[]];
    PassingEmpty(one);
  }

  lemma PassingStep(s: seq<bool>, k: nat, n: nat, m: nat)
    requires k > 0 && s != [] && n == |s| - 1 && m == n - Trues(s[1..])
    requires Passing(Combinations(s[1..], k - 1)) + Comb(m, k - 1) == Comb(n, k - 1)
    requires Passing(Combinations(s[1..], k)) + Comb(m, k) == Comb(n, k)
    ensures |s| - Trues(s) == (if s[0] then m else m + 1) && |s| == n + 1
    ensures Passing(Combinations(s, k)) + Comb(if s[0] then m else m + 1, k) == Comb(n + 1, k)
  {
    assert Trues(s) == Trues(s[1..]) + if s[0] then 1 else 0;
    hide Comb, Passing, Combinations, Trues;
    PassingSplit(s, k);
    Pascal(n, k); Pascal(m, k);
  }

  /** All but the subsets of the wrong samples pass. */
  lemma {:induction false} CountPassing(s: seq<bool>, k: nat)
    ensures Passing(Combinations(s, k)) + Comb(|s| - Trues(s), k) == Comb(|s|, k)
    decreases |s|
  {
    hide Passing, Combinations, Comb;
    if k == 0 {
      PassingNone(s);
    } else if s == [] {
      PassingNil(k);
    } else {
      CountPassing(s[1..], k - 1); CountPassing(s[1..], k);
      PassingStep(s, k, |s| - 1, |s| - 1 - Trues(s[1..]));
    }
  }

  lemma PassingNil(k: nat)
    requires k > 0
    ensures Passing(Combinations([], k)) == 0 && Comb(0, k) == 0
  {
  }

  lemma Complement(p: nat, w: nat, t: nat)
    requires p + w == t && t > 0
    ensures 1.0 - w as real / t as real == p as real / t as real
  {
    var a, b, c := p as real, w as real, t as real;
    assert a + b == c;
    ComplementReal(a, b, c);
  }

  lemma ComplementReal(a: real, b: real, c: real)
    requires a + b == c && c > 0.0
    ensures 1.0 - b / c == a / c
  {
    var q := b / c;
    assert c * q == b;
    assert (1.0 - q) * c == c - c * q;
    Quotient(1.0 - q, c, a);
  }

  /** pass@k is the fraction of k-subsets of the samples that contain a correct one. */
  lemma PassAtKIsFraction(samples: seq<bool>, k: nat)
    requires k <= |samples|
    ensures |Combinations(samples, k)| > 0
    ensures PassAtK(|samples|, Trues(samples), k)
      == Passing(Combinations(samples, k)) as real / |Combinations(samples, k)| as real
  {
    hide Passing, Comb;
    PassAtKClosed(|samples|, Trues(samples), k);
    CountPassing(samples, k);
    Complement(Passing(Combinations(samples, k)), Comb(|samples| - Trues(samples), k), Comb(|samples|, k));
  }

  // ---------- ranked answers ----------

  /** A sample; it may have no answer. */
  datatype AnswerData = AnswerData(passes: bool, answer: Option<string>, length: real)

  function Value(x: AnswerData): real { if x.passes then 1.0 else 0.0 }

  /** The sort key `(length <= 0, length)`. */
  predicate Less(a: AnswerData, b: AnswerData) {
    (a.length > 0.0 && b.length <= 0.0) || ((a.length > 0.0 <==> b.length > 0.0) && a.length < b.length)
  }

  /** The better of two; the earlier one wins a tie. */
  function Pick(a: AnswerData, b: AnswerData): AnswerData { if Less(b, a) then b else a }

  /** The first element of the stably sorted list. */
  function First(c: seq<AnswerData>): AnswerData
    requires c != []
  {
    if |c| == 1 then c[0] else Pick(c[0], First(c[1..]))
  }

  function Insert(x: AnswerData, s: seq<AnswerData>): (r: seq<AnswerData>)
    ensures |r| == |s| + 1
  {
    if s == [] || !Less(s[0], x) then [x] + s else [s[0]] + Insert(x, s[1..])
  }

  /** Python's stable sort by key. */
  function Sorted(s: seq<AnswerData>): (r: seq<AnswerData>)
    ensures |r| == |s|
  {
    if s == [] then [] else Insert(s[0], Sorted(s[1..]))
  }

  lemma {:induction false} SortedFirst(s: seq<AnswerData>)
    requires s != []
    ensures Sorted(s)[0] == First(s)
  {
    if |s| > 1 {
      SortedFirst(s[1..]);
    } else {
      assert Sorted(s[1..]) == [];
    }
  }

  ghost predicate Ranked(s: seq<AnswerData>) {
    forall i, j :: 0 <= i < j < |s| ==> !Less(s[j], s[i])
  }

  lemma {:induction false} InsertRanked(x: AnswerData, s: seq<AnswerData>)
    requires Ranked(s)
    ensures Ranked(Insert(x, s)) && forall y <- Insert(x, s) :: y == x || y in s
  {
    if s != [] && Less(s[0], x) {
      InsertRanked(x, s[1..]);
      assert forall y <- s[1..] :: !Less(y, s[0]);
    }
  }

  lemma {:induction false} SortedRanked(s: seq<AnswerData>)
    ensures Ranked(Sorted(s))
  {
    if s != [] { SortedRanked(s[1..]); InsertRanked(s[0], Sorted(s[1..])); }
  }

  // ---------- sums over subsets ----------

  function Score(c: seq<AnswerData>): real { if c == [] then 0.0 else Value(First(c)) }

  /** The score of the first-ranked element, summed over these subsets, each with p in front. */
  function SumOver(cs: seq<seq<AnswerData>>, p: seq<AnswerData>): real {
    if cs == [] then 0.0 else Score(p + cs[0]) + SumOver(cs[1..], p)
  }

  /** The same sum over all k-subsets of l. */
  function SumAll(l: seq<AnswerData>, k: nat, p: seq<AnswerData>): real
    decreases |l|
  {
    if k == 0 then Score(p) else if l == [] then 0.0
    else SumAll(l[1..], k - 1, p + [l[0]]) + SumAll(l[1..], k, p)
  }

  lemma {:induction false} SumOverConcat(a: seq<seq<AnswerData>>, b: seq<seq<AnswerData>>, p: seq<AnswerData>)
    ensures SumOver(a + b, p) == SumOver(a, p) + SumOver(b, p)
  {
    if a == [] {
      assert a + b == b;
    } else {
      assert (a + b)[1..] == a[1..] + b;
      SumOverConcat(a[1..], b, p);
    }
  }

  lemma {:induction false} SumOverHead(x: AnswerData, cs: seq<seq<AnswerData>>, p: seq<AnswerData>)
    ensures SumOver(WithHead(x, cs), p) == SumOver(cs, p + [x])
  {
    if cs != [] {
      assert WithHead(x, cs)[1..] == WithHead(x, cs[1..]);
      SumOverHead(x, cs[1..], p);
      assert p + ([x] + cs[0]) == p + [x] + cs[0];
    }
  }

  lemma SumOverSplit(l: seq<AnswerData>, k: nat, p: seq<AnswerData>)
    requires k > 0 && l != []
    ensures SumOver(Combinations(l, k), p)
      == SumOver(Combinations(l[1..], k - 1), p + [l[0]]) + SumOver(Combinations(l[1..], k), p)
  {
    SplitCombinations(l, k);
    SumOverHead(l[0], Combinations(l[1..], k - 1), p);
    SumOverConcat(WithHead(l[0], Combinations(l[1..], k - 1)), Combinations(l[1..], k), p);
  }

  lemma SumOverNone(l: seq<AnswerData>, p: seq<AnswerData>)
    ensures SumOver(Combinations(l, 0), p) == Score(p)
  {
    var one := Combinations(l, 0);
    assert p + [] == p && one == [[]] && one[1..] == [];
    assert SumOver(one, p) == Score(p + one[0]) + SumOver(one[1..], p);
  }

  lemma SumOverNil(k: nat, p: seq<AnswerData>)
    requires k > 0
    ensures SumOver(Combinations([], k), p) == 0.0
  {
  }

  lemma {:induction false} SumIsOverCombinations(l: seq<AnswerData>, k: nat, p: seq<AnswerData>)
    ensures SumOver(Combinations(l, k), p) == SumAll(l, k, p)
    decreases |l|
  {
    hide Combinations, SumOver;
    if k == 0 {
      SumOverNone(l, p);
    } else if l == [] {
      SumOverNil(k, p);
    } else {
      SumIsOverCombinations(l[1..], k - 1, p + [l[0]]); SumIsOverCombinations(l[1..], k, p);
      SumOverSplit(l, k, p);
    }
  }

  // ---------- sorting does not change the sum ----------

  lemma PickAssociative(a: AnswerData, b: AnswerData, c: AnswerData)
    ensures Pick(a, Pick(b, c)) == Pick(Pick(a, b), c)
  {
  }

  lemma {:induction false} FirstConcat(a: seq<AnswerData>, b: seq<AnswerData>)
    requires a != [] && b != []
    ensures First(a + b) == Pick(First(a), First(b))
  {
    assert (a + b)[1..] == a[1..] + b;
    if |a| > 1 {
      FirstConcat(a[1..], b);
      PickAssociative(a[0], First(a[1..]), First(b));
    } else {
      assert a[1..] + b == b;
    }
  }

  /** Two prefixes that score alike in every continuation give the same sums. */
  lemma {:induction false} SamePrefix(l: seq<AnswerData>, k: nat, p: seq<AnswerData>, p': seq<AnswerData>)
    requires forall q: seq<AnswerData> :: Score(p + q) == Score(p' + q)
    ensures SumAll(l, k, p) == SumAll(l, k, p')
    decreases |l|
  {
    if k == 0 {
      assert p + [] == p && p' + [] == p';
      var q: seq<AnswerData> := [];
      assert Score(p + q) == Score(p' + q);
    } else if l != [] {
      forall q: seq<AnswerData> ensures Score(p + [l[0]] + q) == Score(p' + [l[0]] + q) {
        assert p + [l[0]] + q == p + ([l[0]] + q) && p' + [l[0]] + q == p' + ([l[0]] + q);
      }
      SamePrefix(l[1..], k - 1, p + [l[0]], p' + [l[0]]);
      SamePrefix(l[1..], k, p, p');
    }
  }

  /** Two neighbours whose keys differ may be exchanged in a subset. */
  lemma SwapScore(p: seq<AnswerData>, x: AnswerData, y: AnswerData, q: seq<AnswerData>)
    requires Less(y, x)
    ensures Score(p + [x] + [y] + q) == Score(p + [y] + [x] + q)
  {
    assert First([x, y]) == First([y, x]) by { assert [x, y][1..] == [y] && [y, x][1..] == [x]; }
    assert p + [x] + [y] + q == p + ([x, y] + q) && p + [y] + [x] + q == p + ([y, x] + q);
    if q == [] {
      assert [x, y] + q == [x, y] && [y, x] + q == [y, x];
    } else {
      FirstConcat([x, y], q); FirstConcat([y, x], q);
    }
    if p == [] {
      assert p + ([x, y] + q) == [x, y] + q && p + ([y, x] + q) == [y, x] + q;
    } else {
      FirstConcat(p, [x, y] + q); FirstConcat(p, [y, x] + q);
    }
  }

  lemma SumTwo(x: AnswerData, y: AnswerData, l: seq<AnswerData>, k: nat, p: seq<AnswerData>)
    requires k > 0
    ensures SumAll([x, y] + l, k, p) ==
      (if k == 1 then Score(p + [x]) + Score(p + [y])
       else
         SumAll(l, k - 2, p + [x] + [y]) + SumAll(l, k - 1, p + [x])
         + SumAll(l, k - 1, p + [y])) + SumAll(l, k, p)
  {
    var a, b := [x, y] + l, [y] + l;
    assert a[1..] == b && b[1..] == l && a[0] == x && b[0] == y;
    assert SumAll(a, k, p) == SumAll(b, k - 1, p + [x]) + SumAll(b, k, p);
    assert SumAll(b, k, p) == SumAll(l, k - 1, p + [y]) + SumAll(l, k, p);
    if k > 1 { assert SumAll(b, k - 1, p + [x]) == SumAll(l, k - 2, p + [x] + [y]) + SumAll(l, k - 1, p + [x]); }
  }

  lemma SwapSum(x: AnswerData, y: AnswerData, l: seq<AnswerData>, k: nat, p: seq<AnswerData>)
    requires Less(y, x)
    ensures SumAll([x, y] + l, k, p) == SumAll([y, x] + l, k, p)
  {
    if k > 0 {
      SumTwo(x, y, l, k, p); SumTwo(y, x, l, k, p);
      if k > 1 {
        forall q: seq<AnswerData> ensures Score(p + [x] + [y] + q) == Score(p + [y] + [x] + q) {
          SwapScore(p, x, y, q);
        }
        SamePrefix(l, k - 2, p + [x] + [y], p + [y] + [x]);
      }
    }
  }

  lemma {:induction false} InsertSum(x: AnswerData, s: seq<AnswerData>, k: nat, p: seq<AnswerData>)
    ensures SumAll(Insert(x, s), k, p) == SumAll([x] + s, k, p)
    decreases |s|
  {
    if s != [] && Less(s[0], x) && k > 0 {
      var y, r := s[0], s[1..];
      var ins := [y] + Insert(x, r);
      assert ins[1..] == Insert(x, r) && ([y] + ([x] + r))[1..] == [x] + r;
      InsertSum(x, r, k - 1, p + [y]); InsertSum(x, r, k, p);
      assert SumAll(ins, k, p) == SumAll([y] + ([x] + r), k, p);
      assert [y] + ([x] + r) == [y, x] + r && [x] + s == [x, y] + r;
      SwapSum(x, y, r, k, p);
    }
  }

  /** Stable sorting changes no sum over subsets. */
  lemma {:induction false} SortSum(l: seq<AnswerData>, k: nat, p: seq<AnswerData>)
    ensures SumAll(Sorted(l), k, p) == SumAll(l, k, p)
    decreases |l|
  {
    if l != [] && k > 0 {
      var x, r := l[0], l[1..];
      InsertSum(x, Sorted(r), k, p);
      assert ([x] + Sorted(r))[1..] == Sorted(r);
      SortSum(r, k - 1, p + [x]); SortSum(r, k, p);
    }
  }

  // ---------- rank-score@k ----------

  /** `sum(comb(n - i, k - 1) * scores[i - 1])` over the ranks i = 1.. */
  function RankSum(s: seq<AnswerData>, k: nat): real
    requires k > 0
    decreases |s|
  {
    if s == [] then 0.0 else Comb(|s| - 1, k - 1) as real * Value(s[0]) + RankSum(s[1..], k)
  }

  lemma LeaderKeeps(p: seq<AnswerData>, x: AnswerData)
    requires p != [] && !Less(x, First(p))
    ensures First(p + [x]) == First(p)
  {
    FirstConcat(p, [x]);
    assert First([x]) == x;
  }

  /** Subsets with and without the first element. */
  lemma SumAllNext(l: seq<AnswerData>, k: nat, p: seq<AnswerData>)
    requires k > 0 && l != []
    ensures SumAll(l, k, p) == SumAll(l[1..], k - 1, p + [l[0]]) + SumAll(l[1..], k, p)
    ensures Comb(|l|, k) == Comb(|l| - 1, k - 1) + Comb(|l| - 1, k)
  {
  }

  /** Whatever follows the best element, it scores. */
  lemma {:induction false} LeaderScores(l: seq<AnswerData>, k: nat, p: seq<AnswerData>)
    requires p != [] && forall y <- l :: !Less(y, First(p))
    ensures SumAll(l, k, p) == Comb(|l|, k) as real * Value(First(p))
    decreases |l|
  {
    hide SumAll, Comb, First, Less;
    if k == 0 || l == [] {
      LeaderAlone(l, k, p);
    } else {
      LeaderKeeps(p, l[0]);
      LeaderScores(l[1..], k - 1, p + [l[0]]); LeaderScores(l[1..], k, p);
      LeaderAdds(l, k, p);
    }
  }

  lemma LeaderAlone(l: seq<AnswerData>, k: nat, p: seq<AnswerData>)
    requires p != [] && (k == 0 || l == [])
    ensures SumAll(l, k, p) == Comb(|l|, k) as real * Value(First(p))
  {
  }

  lemma LeaderAdds(l: seq<AnswerData>, k: nat, p: seq<AnswerData>)
    requires k > 0 && l != [] && p != []
    requires SumAll(l[1..], k - 1, p + [l[0]]) == Comb(|l| - 1, k - 1) as real * Value(First(p))
    requires SumAll(l[1..], k, p) == Comb(|l| - 1, k) as real * Value(First(p))
    ensures SumAll(l, k, p) == Comb(|l|, k) as real * Value(First(p))
  {
    SumAllNext(l, k, p);
    hide SumAll, Comb, First;
    AddWeights(Comb(|l| - 1, k - 1), Comb(|l| - 1, k), Value(First(p)));
  }

  lemma AddWeights(a: nat, b: nat, x: real)
    ensures a as real * x + b as real * x == (a + b) as real * x
  {
  }

  lemma RankSumNext(s: seq<AnswerData>, k: nat)
    requires k > 0 && s != []
    ensures RankSum(s, k) == Comb(|s| - 1, k - 1) as real * Value(s[0]) + RankSum(s[1..], k)
    ensures SumAll(s, k, []) == SumAll(s[1..], k - 1, [s[0]]) + SumAll(s[1..], k, []) && First([s[0]]) == s[0]
  {
    assert [] + [s[0]] == [s[0]];
  }

  /** One rank of the closed form. */
  lemma RankSumStep(s: seq<AnswerData>, k: nat)
    requires k > 0 && s != [] && (forall y <- s[1..] :: !Less(y, s[0])) && RankSum(s[1..], k) == SumAll(s[1..], k, [])
    ensures RankSum(s, k) == SumAll(s, k, [])
  {
    hide RankSum, SumAll, Comb, First, Less;
    RankSumNext(s, k);
    LeaderScores(s[1..], k - 1, [s[0]]);
  }

  /** On a ranked list the closed form is the sum over all subsets. */
  lemma {:induction false} RankSumIsSum(s: seq<AnswerData>, k: nat)
    requires k > 0 && Ranked(s)
    ensures RankSum(s, k) == SumAll(s, k, [])
    decreases |s|
  {
    hide RankSum, SumAll, Less;
    if s != [] {
      assert forall y <- s[1..] :: !Less(y, s[0]);
      RankSumIsSum(s[1..], k);
      RankSumStep(s, k);
    } else {
      RankSumNil(k);
    }
  }

  lemma RankSumNil(k: nat)
    requires k > 0
    ensures RankSum([], k) == SumAll([], k, [])
  {
  }

  lemma {:induction false} ShortTail(s: seq<AnswerData>, k: nat)
    requires k > 0 && |s| < k
    ensures RankSum(s, k) == 0.0
    decreases |s|
  {
    if s != [] { CombZero(|s| - 1, k - 1); ShortTail(s[1..], k); }
  }

  lemma {:induction false} RankSumSplit(s: seq<AnswerData>, i: nat, k: nat)
    requires k > 0 && i < |s|
    ensures RankSum(s[i..], k) == Comb(|s| - 1 - i, k - 1) as real * Value(s[i]) + RankSum(s[i + 1..], k)
  {
    assert s[i..][1..] == s[i + 1..];
  }

  method RankScoreAtK(n: nat, k: nat, sorted: seq<AnswerData>) returns (score: real)
    requires 1 <= k <= n == |sorted|
    ensures Comb(n, k) > 0 && score == RankSum(sorted, k) / Comb(n, k) as real
  {
    hide Comb, RankSum;
    var numerator := 0.0;
    assert sorted[0..] == sorted;
    for i := 1 to n - k + 2
      invariant numerator + RankSum(sorted[i - 1..], k) == RankSum(sorted, k)
    {
      RankSumSplit(sorted, i - 1, k);
      numerator := numerator + Comb(n - i, k - 1) as real * Value(sorted[i - 1]);
    }
    ShortTail(sorted[n - k + 1..], k);
    CombPositive(n, k);
    score := numerator / Comb(n, k) as real;
  }

  /** short-1@k: the closed form on the stably sorted answers is the average over all k-subsets. */
  method Short1AtK(n: nat, k: nat, answers: seq<AnswerData>) returns (score: real)
    requires 1 <= k <= n == |answers|
    ensures |Combinations(answers, k)| > 0
    ensures score == SumOver(Combinations(answers, k), []) / |Combinations(answers, k)| as real
  {
    var sorted := Sorted(answers);
    score := RankScoreAtK(n, k, sorted);
    SortedRanked(answers);
    RankSumIsSum(sorted, k);
    SortSum(answers, k, []);
    SumIsOverCombinations(answers, k, []);
  }

  // ---------- short-m@k ----------

  /**
   * The dictionary entry of an answer: how often, the shortest length negated, how many passes. In
   * the entry of the missing answer the count stands for minus infinity.
   */
  datatype Tally = Tally(none: bool, count: nat, negLen: real, passSum: real)

  function CountOf(a: Option<string>, s: seq<AnswerData>): nat {
    if s == [] then 0 else CountOf(a, s[..|s| - 1]) + if s[|s| - 1].answer == a then 1 else 0
  }

  function PassOf(a: Option<string>, s: seq<AnswerData>): real {
    if s == [] then 0.0 else PassOf(a, s[..|s| - 1]) + if s[|s| - 1].answer == a then Value(s[|s| - 1]) else 0.0
  }

  /** The entry of a says what the answers a in s amount to. */
  ghost predicate Tallied(a: Option<string>, s: seq<AnswerData>, t: Tally) {
    && t.none == a.None? && t.count == CountOf(a, s) > 0 && t.passSum == PassOf(a, s)
    && (forall x <- s :: x.answer == a ==> -x.length <= t.negLen)
    && (exists x <- s :: x.answer == a && -x.length == t.negLen)
  }

  ghost predicate Counted(s: seq<AnswerData>, counts: map<Option<string>, Tally>) {
    && (forall x <- s :: x.answer in counts)
    && (forall a: Option<string> {:trigger a in counts} :: a in counts ==> Tallied(a, s, counts[a]))
    && (forall a: Option<string> {:trigger CountOf(a, s)} :: a !in counts ==> CountOf(a, s) == 0)
  }

  predicate Below(t: Tally, u: Tally) {
    (t.none && !u.none)
    || (!t.none && !u.none && t.count < u.count)
    || (t.none == u.none && (t.none || t.count == u.count)
        && (t.negLen < u.negLen || (t.negLen == u.negLen && t.passSum <= u.passSum)))
  }

  /** What an entry is worth: its share of passes, and nothing after a division by minus infinity. */
  function Share(t: Tally): real
    requires t.count > 0
  {
    if t.none then 0.0 else t.passSum / t.count as real
  }

  /** The vote: the most frequent answer, then the shortest, then the most passes; its share of passes. */
  ghost predicate IsVote(s: seq<AnswerData>, r: real) {
    exists a: Option<string>, t: Tally {:trigger Tallied(a, s, t)} :: Tallied(a, s, t) && r == Share(t)
      && forall b: Option<string>, u: Tally {:trigger Tallied(b, s, u)} :: Tallied(b, s, u) ==> Below(u, t)
  }

  lemma TallyUnique(a: Option<string>, s: seq<AnswerData>, t: Tally, u: Tally)
    requires Tallied(a, s, t) && Tallied(a, s, u)
    ensures t == u
  {
  }

  method CountAnswers(s: seq<AnswerData>) returns (counts: map<Option<string>, Tally>)
    ensures Counted(s, counts)
  {
    counts := map[];
    for i := 0 to |s|
      invariant Counted(s[..i], counts)
    {
      var x := s[i];
      var t := if x.answer in counts then
        var e := counts[x.answer];
        Tally(e.none, e.count + 1, if e.negLen < -x.length then -x.length else e.negLen, e.passSum + Value(x))
      else Tally(x.answer.None?, 1, -x.length, Value(x));
      CountNext(s[..i], x, counts, t);
      assert s[..i + 1] == s[..i] + [x];
      counts := counts[x.answer := t];
    }
    assert s[..|s|] == s;
  }

  lemma {:induction false} NotCounted(a: Option<string>, s: seq<AnswerData>)
    requires CountOf(a, s) == 0
    ensures PassOf(a, s) == 0.0 && forall x <- s :: x.answer != a
  {
    if s != [] {
      NotCounted(a, s[..|s| - 1]);
      assert s == s[..|s| - 1] + [s[|s| - 1]];
    }
  }

  lemma OneMore(a: Option<string>, s: seq<AnswerData>, x: AnswerData)
    ensures CountOf(a, s + [x]) == CountOf(a, s) + if x.answer == a then 1 else 0
    ensures PassOf(a, s + [x]) == PassOf(a, s) + if x.answer == a then Value(x) else 0.0
  {
    assert (s + [x])[..|s|] == s;
  }

  lemma OtherAnswer(a: Option<string>, s: seq<AnswerData>, x: AnswerData, e: Tally)
    requires a != x.answer && Tallied(a, s, e)
    ensures Tallied(a, s + [x], e)
  {
    OneMore(a, s, x);
    hide CountOf, PassOf;
    var y :| y in s && y.answer == a && -y.length == e.negLen;
    assert y in s + [x];
  }

  lemma SameAnswer(s: seq<AnswerData>, x: AnswerData, e: Tally)
    requires Tallied(x.answer, s, e)
    ensures Tallied(x.answer, s + [x],
      Tally(e.none, e.count + 1, if e.negLen < -x.length then -x.length else e.negLen, e.passSum + Value(x)))
  {
    OneMore(x.answer, s, x);
    hide CountOf, PassOf;
    var y :| y in s && y.answer == x.answer && -y.length == e.negLen;
    assert y in s + [x] && x in s + [x];
  }

  lemma FirstAnswer(s: seq<AnswerData>, x: AnswerData)
    requires CountOf(x.answer, s) == 0
    ensures Tallied(x.answer, s + [x], Tally(x.answer.None?, 1, -x.length, Value(x)))
  {
    OneMore(x.answer, s, x); NotCounted(x.answer, s);
    hide CountOf, PassOf;
    assert x in s + [x];
  }

  lemma CountNext(s: seq<AnswerData>, x: AnswerData, counts: map<Option<string>, Tally>, t: Tally)
    requires Counted(s, counts)
    requires x.answer in counts ==> var e := counts[x.answer];
      t == Tally(e.none, e.count + 1, if e.negLen < -x.length then -x.length else e.negLen, e.passSum + Value(x))
    requires x.answer !in counts ==> t == Tally(x.answer.None?, 1, -x.length, Value(x))
    ensures Counted(s + [x], counts[x.answer := t])
  {
    hide CountOf, PassOf, Tallied;
    var c := counts[x.answer := t];
    forall a: Option<string> | a in c ensures Tallied(a, s + [x], c[a]) {
      if a != x.answer { OtherAnswer(a, s, x, counts[a]); }
      else if a in counts { SameAnswer(s, x, counts[a]); }
      else { FirstAnswer(s, x); }
    }
    forall a: Option<string> | a !in c ensures CountOf(a, s + [x]) == 0 { OneMore(a, s, x); }
  }

  /** One subset: count its first m answers, and take the best entry. */
  method Vote(s: seq<AnswerData>) returns (r: real)
    requires s != []
    ensures IsVote(s, r)
  {
    var counts := CountAnswers(s);
    assert s[0] in s;
    var best := counts[s[0].answer];
    ghost var who := s[0].answer;
    var rest := counts.Keys;
    while rest != {}
      invariant rest <= counts.Keys && who in counts && best == counts[who]
      invariant forall b: Option<string> {:trigger b in counts} :: b in counts && b !in rest ==> Below(counts[b], best)
      decreases |rest|
    {
      var a :| a in rest;
      if !Below(counts[a], best) { best := counts[a]; who := a; }
      rest := rest - {a};
    }
    r := Share(best);
    forall b: Option<string>, u: Tally | Tallied(b, s, u) ensures Below(u, best) {
      assert CountOf(b, s) > 0;
      TallyUnique(b, s, u, counts[b]);
    }
    assert Tallied(who, s, best);
  }

  /** What a single sample is worth in the general method: nothing without an answer. */
  function Credit(x: AnswerData): real { if x.answer.None? then 0.0 else Value(x) }

  /** A single answer votes for itself. */
  lemma VoteOfOne(x: AnswerData, r: real)
    requires IsVote([x], r)
    ensures r == Credit(x)
  {
    var a: Option<string>, t: Tally :| Tallied(a, [x], t) && r == Share(t)
      && forall b: Option<string>, u: Tally {:trigger Tallied(b, [x], u)} :: Tallied(b, [x], u) ==> Below(u, t);
    assert [x][..0] == [];
    assert CountOf(a, [x]) == (if x.answer == a then 1 else 0);
    assert PassOf(a, [x]) == Value(x);
  }

  function FirstM(s: seq<AnswerData>, m: nat): seq<AnswerData> { if m < |s| then s[..m] else s }

  function Sum(v: seq<real>): real { if v == [] then 0.0 else Sum(v[..|v| - 1]) + v[|v| - 1] }

  lemma SumNone()
    ensures Sum([]) == 0.0
  {
  }

  lemma SumNext(votes: seq<real>, v: real)
    ensures Sum(votes + [v]) == Sum(votes) + v
  {
    assert (votes + [v])[..|votes|] == votes;
  }

  /** The score is the average of the votes of the first m of every k-subset. */
  ghost predicate Average(answers: seq<AnswerData>, k: nat, m: nat, votes: seq<real>, score: real) {
    var cs := Combinations(answers, k);
    && |votes| == |cs| > 0 && score == Sum(votes) / |cs| as real
    && forall i: nat {:trigger votes[i]} :: i < |votes| ==> IsVote(FirstM(Sorted(cs[i]), m), votes[i])
  }

  ghost predicate AllOfSize<T>(cs: seq<seq<T>>, k: nat) {
    forall i :: 0 <= i < |cs| ==> |cs[i]| == k
  }

  lemma SizeSplit<T>(s: seq<T>, k: nat)
    requires k > 0 && s != [] && AllOfSize(Combinations(s[1..], k - 1), k - 1) && AllOfSize(Combinations(s[1..], k), k)
    ensures AllOfSize(Combinations(s, k), k)
  {
    SplitCombinations(s, k);
    hide Combinations;
  }

  lemma {:induction false} CombinationSize<T>(s: seq<T>, k: nat)
    ensures AllOfSize(Combinations(s, k), k)
    decreases |s|
  {
    if k > 0 && s != [] {
      CombinationSize(s[1..], k - 1); CombinationSize(s[1..], k);
      SizeSplit(s, k);
    } else {
      SizeBase(s, k);
    }
    hide *;
  }

  lemma SizeBase<T>(s: seq<T>, k: nat)
    requires k == 0 || s == []
    ensures AllOfSize(Combinations(s, k), k)
  {
  }

  /** The votes of the first subsets. */
  ghost predicate Voted(cs: seq<seq<AnswerData>>, m: nat, votes: seq<real>) {
    |votes| <= |cs| && forall i: nat {:trigger votes[i]} :: i < |votes| ==> IsVote(FirstM(Sorted(cs[i]), m), votes[i])
  }

  /** One turn of the loop over the subsets. */
  method OneSubset(cs: seq<seq<AnswerData>>, i: nat, m: nat, total: real, ghost votes: seq<real>)
    returns (total': real, ghost votes': seq<real>)
    requires Voted(cs, m, votes) && i == |votes| < |cs| && cs[i] != [] && m >= 1 && total == Sum(votes)
    ensures Voted(cs, m, votes') && |votes'| == |votes| + 1 && total' == Sum(votes')
  {
    hide IsVote, Sorted, Sum;
    var v := Vote(FirstM(Sorted(cs[i]), m));
    SumNext(votes, v);
    total', votes' := total + v, votes + [v];
  }

  lemma AverageOf(answers: seq<AnswerData>, k: nat, m: nat, votes: seq<real>)
    requires var cs := Combinations(answers, k); |votes| == |cs| > 0 && Voted(cs, m, votes)
    ensures Average(answers, k, m, votes, Sum(votes) / |votes| as real)
  {
    hide Combinations, IsVote, Sorted, Sum, Comb;
  }

  lemma Subsets(answers: seq<AnswerData>, k: nat)
    requires 1 <= k <= |answers|
    ensures |Combinations(answers, k)| > 0 && forall c <- Combinations(answers, k) :: c != []
  {
    hide Combinations, Comb;
    CombPositive(|answers|, k); CombinationSize(answers, k);
  }

  /** `_short_m_at_k_impl`, when all subsets are enumerated. */
  method ShortMImpl(n: nat, k: nat, m: nat, answers: seq<AnswerData>) returns (score: real, ghost votes: seq<real>)
    requires 1 <= k <= n == |answers| && m >= 1
    ensures Average(answers, k, m, votes, score)
  {
    Subsets(answers, k); SumNone();
    hide *;
    var cs := Combinations(answers, k);
    var total, subsets: nat := 0.0, 0;
    votes := [];
    NoVotes(cs, m);
    while subsets < |cs|
      invariant |votes| == subsets <= |cs| && Voted(cs, m, votes) && total == Sum(votes)
    {
      assert cs[subsets] in cs;
      total, votes := OneSubset(cs, subsets, m, total, votes);
      subsets := subsets + 1;
    }
    AverageOf(answers, k, m, votes);
    score := total / subsets as real;
  }

  lemma NoVotes(cs: seq<seq<AnswerData>>, m: nat)
    ensures Voted(cs, m, [])
  {
  }

  lemma {:induction false} SumOfFirsts(cs: seq<seq<AnswerData>>, votes: seq<real>)
    requires |votes| == |cs| && forall i: nat {:trigger votes[i]} ::
      i < |cs| ==> cs[i] != [] && votes[i] == Value(First(cs[i]))
    ensures Sum(votes) == SumOver(cs, [])
    decreases |cs|
  {
    if cs != [] {
      var n := |cs| - 1;
      var v := votes[n];
      assert cs[n] != [] && v == Value(First(cs[n]));
      forall i: nat | i < n ensures cs[..n][i] != [] && votes[..n][i] == Value(First(cs[..n][i])) {
        assert votes[..n][i] == votes[i];
      }
      SumOfFirsts(cs[..n], votes[..n]);
      assert cs == cs[..n] + [cs[n]];
      SumOverConcat(cs[..n], [cs[n]], []);
      assert [] + cs[n] == cs[n] && [cs[n]][1..] == [];
      assert SumOver([cs[n]], []) == Score(cs[n]);
    }
  }

  /** With m = 1 every subset votes for its first-ranked answer. */
  lemma OneVote(c: seq<AnswerData>, v: real)
    requires c != []
    ensures IsVote(FirstM(Sorted(c), 1), v) ==> v == Credit(First(c))
    ensures IsVote(FirstM(Sorted(c), 1), Credit(First(c)))
  {
    SortedFirst(c);
    var x := First(c);
    assert FirstM(Sorted(c), 1) == [x];
    if IsVote([x], v) { VoteOfOne(x, v); }
    var t := Tally(x.answer.None?, 1, -x.length, Value(x));
    assert [x][..0] == [];
    assert CountOf(x.answer, [x]) == 1 && PassOf(x.answer, [x]) == Value(x) && x in [x];
    assert Tallied(x.answer, [x], t);
    forall b: Option<string>, u: Tally | Tallied(b, [x], u) ensures Below(u, t) {
      assert CountOf(b, [x]) == (if x.answer == b then 1 else 0);
      TallyUnique(b, [x], u, t);
    }
    assert Share(t) == Credit(x);
  }

  // ---------- samples without an answer ----------

  /** What the shortcut does with a sample: without an answer it goes to the end. */
  function Clean(x: AnswerData): AnswerData { if x.answer.None? then x.(length := 0.0) else x }

  /** What the general method does with a sample: without an answer it does not pass. */
  function Discount(x: AnswerData): AnswerData { if x.answer.None? then x.(passes := false) else x }

  function Cleaned(s: seq<AnswerData>): (r: seq<AnswerData>)
    ensures |r| == |s|
  {
    seq(|s|, i requires 0 <= i < |s| => Clean(s[i]))
  }

  function Discounted(s: seq<AnswerData>): (r: seq<AnswerData>)
    ensures |r| == |s|
  {
    seq(|s|, i requires 0 <= i < |s| => Discount(s[i]))
  }

  /** Sample i comes before sample j in the stably sorted list. */
  predicate Ahead(s: seq<AnswerData>, i: nat, j: nat)
    requires i < |s| && j < |s|
  {
    Less(s[i], s[j]) || (!Less(s[j], s[i]) && i < j)
  }

  /** The samples that come after sample j. */
  function Behind(s: seq<AnswerData>, j: nat): set<nat>
    requires j < |s|
  {
    set x: nat | x < |s| && Ahead(s, j, x)
  }

  /**
   * Sample j passes and leads some k-subset in the shortcut's order which in the other order is led
   * by a sample without an answer: by itself, or by one that is only moved behind it.
   */
  predicate MisledBy(s: seq<AnswerData>, k: nat, j: nat)
    requires j < |s|
  {
    && s[j].passes && |Behind(Cleaned(s), j)| + 1 >= k
    && (s[j].answer.None? || (k >= 2
        && exists x: nat :: x < |s| && s[x].answer.None? && Ahead(s, x, j) && Ahead(Cleaned(s), j, x)))
  }

  predicate Misled(s: seq<AnswerData>, k: nat) { exists j: nat :: j < |s| && MisledBy(s, k, j) }

  /** The samples from position i on whose positions are in these. */
  function Sub(s: seq<AnswerData>, i: nat, at: set<nat>): seq<AnswerData>
    requires i <= |s|
    decreases |s| - i
  {
    if i == |s| then [] else (if i in at then [s[i]] else []) + Sub(s, i + 1, at)
  }

  /** The positions of the t-th k-subset of the positions from i to n. */
  function Chosen(n: nat, i: nat, k: nat, t: nat): set<nat>
    requires i <= n && t < Comb(n - i, k)
    decreases n - i
  {
    if k == 0 || i == n then {}
    else if t < Comb(n - i - 1, k - 1) then {i} + Chosen(n, i + 1, k - 1, t)
    else Chosen(n, i + 1, k, t - Comb(n - i - 1, k - 1))
  }

  lemma {:induction false} ChosenSize(n: nat, i: nat, k: nat, t: nat)
    requires i <= n && t < Comb(n - i, k)
    ensures |Chosen(n, i, k, t)| == k && forall x <- Chosen(n, i, k, t) :: i <= x < n
    decreases n - i
  {
    if k > 0 && i < n {
      if t < Comb(n - i - 1, k - 1) {
        ChosenSize(n, i + 1, k - 1, t);
      } else {
        ChosenSize(n, i + 1, k, t - Comb(n - i - 1, k - 1));
      }
    }
  }

  /** Positions before i do not matter. */
  lemma {:induction false} SubSame(s: seq<AnswerData>, i: nat, a: set<nat>, b: set<nat>)
    requires i <= |s| && forall x: nat :: i <= x ==> (x in a <==> x in b)
    ensures Sub(s, i, a) == Sub(s, i, b)
    decreases |s| - i
  {
    if i < |s| { SubSame(s, i + 1, a, b); }
  }

  lemma {:induction false} SubNone(s: seq<AnswerData>, i: nat)
    requires i <= |s|
    ensures Sub(s, i, {}) == []
    decreases |s| - i
  {
    if i < |s| { SubNone(s, i + 1); }
  }

  lemma ChosenWith(n: nat, i: nat, k: nat, t: nat)
    requires i < n && k > 0 && t < Comb(n - i - 1, k - 1)
    ensures t < Comb(n - i, k) && Chosen(n, i, k, t) == {i} + Chosen(n, i + 1, k - 1, t)
  {
    Pascal(n - i - 1, k);
  }

  lemma ChosenWithout(n: nat, i: nat, k: nat, u: nat)
    requires i < n && k > 0 && u < Comb(n - i - 1, k)
    ensures var t := u + Comb(n - i - 1, k - 1); t < Comb(n - i, k) && Chosen(n, i, k, t) == Chosen(n, i + 1, k, u)
  {
    Pascal(n - i - 1, k);
  }

  /** The t-th subset in the order of enumeration consists of the samples at the chosen positions. */
  lemma {:induction false} ChosenSub(s: seq<AnswerData>, i: nat, k: nat, t: nat)
    requires i <= |s| && t < Comb(|s| - i, k)
    ensures Combinations(s[i..], k)[t] == Sub(s, i, Chosen(|s|, i, k, t))
    decreases |s| - i
  {
    hide Combinations, Chosen, Sub, Comb;
    if k == 0 {
      NoneSub(s, i, t);
    } else if i == |s| {
      CombZero(0, k);
    } else {
      var c := Comb(|s| - i - 1, k - 1);
      Pascal(|s| - i - 1, k);
      if t < c {
        ChosenSub(s, i + 1, k - 1, t);
        FirstHalf(s, i, k, t);
      } else {
        ChosenSub(s, i + 1, k, t - c);
        SecondHalf(s, i, k, t - c);
      }
    }
  }

  lemma NoneSub(s: seq<AnswerData>, i: nat, t: nat)
    requires i <= |s| && t < Comb(|s| - i, 0)
    ensures Combinations(s[i..], 0)[t] == Sub(s, i, Chosen(|s|, i, 0, t))
  {
    SubNone(s, i);
  }

  /** The subsets with position i come first. */
  lemma FirstHalf(s: seq<AnswerData>, i: nat, k: nat, t: nat)
    requires i < |s| && k > 0 && t < Comb(|s| - i - 1, k - 1) && t < Comb(|s| - i, k)
    requires Combinations(s[i + 1..], k - 1)[t] == Sub(s, i + 1, Chosen(|s|, i + 1, k - 1, t))
    ensures Combinations(s[i..], k)[t] == Sub(s, i, Chosen(|s|, i, k, t))
  {
    hide Combinations, Chosen, Comb, Sub;
    var l := s[i..];
    assert l[0] == s[i] && l[1..] == s[i + 1..];
    HalvesOf(l, k, t);
    ChosenWith(|s|, i, k, t);
    var rest := Chosen(|s|, i + 1, k - 1, t);
    SubSame(s, i + 1, rest, {i} + rest);
    SubNext(s, i, {i} + rest);
  }

  /** Then come those without it. */
  lemma SecondHalf(s: seq<AnswerData>, i: nat, k: nat, u: nat)
    requires i < |s| && k > 0 && u < Comb(|s| - i - 1, k) && u + Comb(|s| - i - 1, k - 1) < Comb(|s| - i, k)
    requires Combinations(s[i + 1..], k)[u] == Sub(s, i + 1, Chosen(|s|, i + 1, k, u))
    ensures var t := u + Comb(|s| - i - 1, k - 1); Combinations(s[i..], k)[t] == Sub(s, i, Chosen(|s|, i, k, t))
  {
    hide Combinations, Chosen, Comb, Sub;
    var l := s[i..];
    assert l[0] == s[i] && l[1..] == s[i + 1..];
    HalvesOf(l, k, u + Comb(|s| - i - 1, k - 1));
    ChosenWithout(|s|, i, k, u);
    ChosenSize(|s|, i + 1, k, u);
    SubNext(s, i, Chosen(|s|, i + 1, k, u));
  }

  lemma HalvesOf(l: seq<AnswerData>, k: nat, t: nat)
    requires l != [] && k > 0 && t < Comb(|l|, k)
    ensures var c := Comb(|l| - 1, k - 1);
      if t < c then Combinations(l, k)[t] == [l[0]] + Combinations(l[1..], k - 1)[t]
      else t - c < Comb(|l| - 1, k) && Combinations(l, k)[t] == Combinations(l[1..], k)[t - c]
  {
    var heads, tails := WithHead(l[0], Combinations(l[1..], k - 1)), Combinations(l[1..], k);
    assert Combinations(l, k) == heads + tails && |l[1..]| == |l| - 1;
    hide Combinations, Comb;
  }

  lemma SubNext(s: seq<AnswerData>, i: nat, at: set<nat>)
    requires i < |s|
    ensures Sub(s, i, at) == if i in at then [s[i]] + Sub(s, i + 1, at) else Sub(s, i + 1, at)
  {
  }

  /** Every set of k positions is chosen. */
  lemma {:induction false} EachChosen(n: nat, i: nat, at: set<nat>) returns (t: nat)
    requires i <= n && forall x <- at :: i <= x < n
    ensures t < Comb(n - i, |at|) && Chosen(n, i, |at|, t) == at
    decreases n - i
  {
    hide Chosen, Comb;
    if y :| y in at {
      if i in at {
        t := EachChosen(n, i + 1, at - {i});
        ChosenWith(n, i, |at|, t);
        assert {i} + (at - {i}) == at;
      } else {
        var u := EachChosen(n, i + 1, at);
        t := u + Comb(n - i - 1, |at| - 1);
        ChosenWithout(n, i, |at|, u);
      }
    } else {
      t := 0;
      assert at == {};
      NoneChosen(n, i);
    }
  }

  lemma NoneChosen(n: nat, i: nat)
    requires i <= n
    ensures 0 < Comb(n - i, 0) && Chosen(n, i, 0, 0) == {}
  {
  }

  // ---------- who leads a subset ----------

  lemma AheadTotal(s: seq<AnswerData>, i: nat, j: nat)
    requires i < |s| && j < |s|
    ensures i != j ==> Ahead(s, i, j) != Ahead(s, j, i)
    ensures Ahead(s, i, j) ==> !Less(s[j], s[i]) && i != j
  {
  }

  lemma AheadChain(s: seq<AnswerData>, i: nat, j: nat, l: nat)
    requires i < |s| && j < |s| && l < |s| && Ahead(s, i, j) && Ahead(s, j, l)
    ensures Ahead(s, i, l)
  {
  }

  ghost predicate Leads(s: seq<AnswerData>, at: set<nat>, j: nat) {
    j in at && (forall x <- at :: x < |s|) && forall x <- at :: x != j ==> Ahead(s, j, x)
  }

  lemma {:induction false} SomeLeader(s: seq<AnswerData>, at: set<nat>) returns (j: nat)
    requires at != {} && forall x <- at :: x < |s|
    ensures Leads(s, at, j)
  {
    var y :| y in at;
    if z :| z in at && z != y {
      var rest := at - {y};
      assert z in rest;
      var l := SomeLeader(s, rest);
      AheadTotal(s, y, l);
      j := if Ahead(s, l, y) then l else y;
      forall x <- at | x != j ensures Ahead(s, j, x) {
        if j == y && x != l { AheadChain(s, y, l, x); }
      }
    } else {
      j := y;
    }
  }

  lemma {:induction false} SubElems(s: seq<AnswerData>, i: nat, at: set<nat>)
    requires i <= |s|
    ensures forall g <- Sub(s, i, at) :: exists x: nat :: i <= x < |s| && x in at && g == s[x]
    ensures forall x: nat :: i <= x < |s| && x in at ==> s[x] in Sub(s, i, at)
    decreases |s| - i
  {
    if i < |s| { SubElems(s, i + 1, at); }
  }

  lemma {:induction false} FirstIn(c: seq<AnswerData>)
    requires c != []
    ensures First(c) in c
  {
    if |c| > 1 { FirstIn(c[1..]); }
  }

  /** The first element of a subset is the sample at the leading position. */
  lemma {:induction false} LeaderFirst(s: seq<AnswerData>, i: nat, at: set<nat>, j: nat)
    requires i <= j && Leads(s, at, j) && forall x <- at :: x < |s|
    ensures Sub(s, i, at) != [] && First(Sub(s, i, at)) == s[j]
    decreases |s| - i
  {
    var rest := Sub(s, i + 1, at);
    if i == j {
      assert Sub(s, i, at) == [s[i]] + rest && ([s[i]] + rest)[1..] == rest;
      if rest != [] {
        FirstIn(rest); SubElems(s, i + 1, at);
        var x: nat :| i + 1 <= x < |s| && x in at && First(rest) == s[x];
        AheadTotal(s, j, x);
      }
    } else {
      LeaderFirst(s, i + 1, at, j);
      assert [] + rest == rest;
      if i in at {
        var c := [s[i]] + rest;
        assert Sub(s, i, at) == c && c[1..] == rest && c[0] == s[i];
        assert First(c) == Pick(s[i], First(rest));
        assert Ahead(s, j, i);
      }
    }
  }

  /** A sample without an answer only moves backwards. */
  lemma MovesBack(x: AnswerData, y: AnswerData)
    ensures Less(x, y) ==> Less(x, Clean(y))
    ensures !Less(y, x) ==> !Less(Clean(y), x)
  {
  }

  /** A leader with an answer leads in the shortcut's order too. */
  lemma AnsweredLeads(s: seq<AnswerData>, at: set<nat>, j: nat)
    requires Leads(s, at, j) && s[j].answer.Some?
    ensures Leads(Cleaned(s), at, j)
  {
    forall x <- at | x != j ensures Ahead(Cleaned(s), j, x) { MovesBack(s[j], s[x]); }
  }

  lemma DiscountedLeads(s: seq<AnswerData>, at: set<nat>, j: nat)
    requires Leads(s, at, j)
    ensures Leads(Discounted(s), at, j)
  {
    forall x <- at | x != j ensures Ahead(Discounted(s), j, x) { assert Ahead(s, j, x); }
  }

  lemma OneLeader(s: seq<AnswerData>, at: set<nat>, i: nat, j: nat)
    requires Leads(s, at, i) && Leads(s, at, j)
    ensures i == j
  {
    if i != j { AheadTotal(s, i, j); }
  }

  /** One subset: what it counts in the general method and in the shortcut. */
  lemma OneSet(s: seq<AnswerData>, at: set<nat>) returns (i: nat, j: nat)
    requires at != {} && forall x <- at :: x < |s|
    ensures Leads(s, at, i) && Leads(Cleaned(s), at, j) && (s[i].answer.Some? ==> i == j)
    ensures Score(Sub(Discounted(s), 0, at)) == Credit(s[i]) && Score(Sub(Cleaned(s), 0, at)) == Value(s[j])
  {
    i := SomeLeader(s, at);
    j := SomeLeader(Cleaned(s), at);
    if s[i].answer.Some? { AnsweredLeads(s, at, i); OneLeader(Cleaned(s), at, i, j); }
    DiscountedLeads(s, at, i);
    LeaderFirst(Discounted(s), 0, at, i);
    LeaderFirst(Cleaned(s), 0, at, j);
  }

  // ---------- the exact condition ----------

  /** A set whose leaders differ to the shortcut's favour shows that the samples mislead it. */
  lemma SetMisleads(s: seq<AnswerData>, k: nat, at: set<nat>, i: nat, j: nat)
    requires |at| == k > 0 && Leads(s, at, i) && Leads(Cleaned(s), at, j) && s[i].answer.None? && s[j].passes
    ensures MisledBy(s, k, j)
  {
    var rest := at - {j};
    assert |rest| == k - 1;
    assert rest <= Behind(Cleaned(s), j);
    SubsetSize(rest, Behind(Cleaned(s), j));
    if s[j].answer.Some? {
      assert i in rest && Ahead(s, i, j) && Ahead(Cleaned(s), j, i);
      SubsetSize({i}, rest);
    }
  }

  lemma {:induction false} SubsetSize(a: set<nat>, b: set<nat>)
    requires a <= b
    ensures |a| <= |b|
  {
    if a != {} {
      var x :| x in a;
      SubsetSize(a - {x}, b - {x});
    }
  }

  /** A subset of a given size between two sets. */
  lemma {:induction false} Between(a: set<nat>, b: set<nat>, n: nat) returns (c: set<nat>)
    requires a <= b && |a| <= n <= |b|
    ensures a <= c <= b && |c| == n
    decreases n - |a|
  {
    if |a| == n {
      c := a;
    } else if x :| x in b - a {
      c := Between(a + {x}, b, n);
    } else {
      assert forall y <- b :: y in a || y in b - a;
      SubsetSize(b, a);
      c := a;
    }
  }

  /** Samples that mislead the shortcut do so on some set. */
  lemma MisleadsSet(s: seq<AnswerData>, k: nat, j: nat) returns (at: set<nat>, i: nat)
    requires k > 0 && j < |s| && MisledBy(s, k, j)
    ensures |at| == k && Leads(s, at, i) && Leads(Cleaned(s), at, j) && s[i].answer.None?
  {
    var b := Behind(Cleaned(s), j);
    assert j !in b by { AheadTotal(Cleaned(s), j, j); }
    var must: set<nat> := {};
    if s[j].answer.Some? {
      var x: nat :| x < |s| && s[x].answer.None? && Ahead(s, x, j) && Ahead(Cleaned(s), j, x);
      must := {x};
      assert x in b;
    }
    var c := Between(must, b, k - 1);
    at := c + {j};
    i := SomeLeader(s, at);
    if s[i].answer.Some? {
      AnsweredLeads(s, at, i);
      assert Leads(Cleaned(s), at, j);
      OneLeader(Cleaned(s), at, i, j);
      var x: nat :| x in must;
      AheadTotal(s, x, j);
    }
  }

  /** Sums of scores, compared subset by subset. */
  lemma {:induction false} Compare(a: seq<seq<AnswerData>>, b: seq<seq<AnswerData>>)
    requires |a| == |b| && forall t: nat {:trigger a[t]} {:trigger b[t]} :: t < |a| ==> Score(a[t]) <= Score(b[t])
    ensures SumOver(a, []) <= SumOver(b, [])
    ensures SumOver(a, []) == SumOver(b, []) <==>
      forall t: nat {:trigger a[t]} {:trigger b[t]} :: t < |a| ==> Score(a[t]) == Score(b[t])
  {
    if a != [] {
      assert [] + a[0] == a[0] && [] + b[0] == b[0];
      assert forall t: nat :: t < |a| - 1 ==> a[1..][t] == a[t + 1] && b[1..][t] == b[t + 1];
      Compare(a[1..], b[1..]);
      if forall t: nat {:trigger a[t]} :: t < |a| ==> Score(a[t]) == Score(b[t]) {
        assert Score(a[0]) == Score(b[0]);
      }
      if SumOver(a, []) == SumOver(b, []) {
        forall t: nat | t < |a| ensures Score(a[t]) == Score(b[t]) {
          if t > 0 { assert a[1..][t - 1] == a[t] && b[1..][t - 1] == b[t]; }
        }
      }
    }
  }

  /** The t-th subset in both methods. */
  lemma OneChoice(s: seq<AnswerData>, k: nat, t: nat) returns (at: set<nat>, i: nat, j: nat)
    requires 0 < k && t < Comb(|s|, k)
    ensures at == Chosen(|s|, 0, k, t) && |at| == k
    ensures Leads(s, at, i) && Leads(Cleaned(s), at, j) && (s[i].answer.Some? ==> i == j)
    ensures Score(Combinations(Discounted(s), k)[t]) == Credit(s[i])
    ensures Score(Combinations(Cleaned(s), k)[t]) == Value(s[j])
  {
    hide Combinations, Leads, Comb, Sub, Chosen;
    at := Chosen(|s|, 0, k, t);
    ChosenSize(|s|, 0, k, t);
    ChosenSub(Discounted(s), 0, k, t);
    ChosenSub(Cleaned(s), 0, k, t);
    assert Discounted(s)[0..] == Discounted(s) && Cleaned(s)[0..] == Cleaned(s);
    i, j := OneSet(s, at);
  }

  /**
   * The shortcut never counts less than the general method with m = 1, and as much exactly when no
   * sample misleads it.
   */
  lemma ShortcutIsExact(s: seq<AnswerData>, k: nat)
    requires 1 <= k <= |s|
    ensures SumOver(Combinations(Discounted(s), k), []) <= SumOver(Combinations(Cleaned(s), k), [])
    ensures SumOver(Combinations(Discounted(s), k), []) == SumOver(Combinations(Cleaned(s), k), []) <==> !Misled(s, k)
  {
    hide Combinations, Leads, Comb, Sub, Chosen, MisledBy, SumOver, Score, Cleaned, Discounted;
    var a, b := Combinations(Discounted(s), k), Combinations(Cleaned(s), k);
    forall t: nat | t < |a| ensures Score(a[t]) <= Score(b[t]) && (!Misled(s, k) ==> Score(a[t]) == Score(b[t])) {
      var at, i, j := OneChoice(s, k, t);
      LeadersIn(s, at, i, j);
      if s[i].answer.None? && s[j].passes { SetMisleads(s, k, at, i, j); }
    }
    Compare(a, b);
    if Misled(s, k) {
      var j: nat :| j < |s| && MisledBy(s, k, j);
      var t := CountedTwice(s, k, j);
      assert Score(a[t]) != Score(b[t]);
    }
  }

  lemma LeadersIn(s: seq<AnswerData>, at: set<nat>, i: nat, j: nat)
    requires Leads(s, at, i) && Leads(Cleaned(s), at, j)
    ensures i < |s| && j < |s|
  {
  }

  /** A misleading sample makes some subset count in the shortcut only. */
  lemma CountedTwice(s: seq<AnswerData>, k: nat, j: nat) returns (t: nat)
    requires 1 <= k <= |s| && j < |s| && MisledBy(s, k, j)
    ensures t < Comb(|s|, k)
    ensures Score(Combinations(Discounted(s), k)[t]) == 0.0 && Score(Combinations(Cleaned(s), k)[t]) == 1.0
  {
    var at, i := MisleadsSet(s, k, j);
    assert s[j].passes;
    InRange(s, at, i);
    t := EachChosen(|s|, 0, at);
    var at', i', j' := OneChoice(s, k, t);
    OneLeader(s, at, i, i');
    OneLeader(Cleaned(s), at, j, j');
  }

  lemma InRange(s: seq<AnswerData>, at: set<nat>, i: nat)
    requires Leads(s, at, i)
    ensures forall x <- at :: 0 <= x < |s|
  {
  }

  /** The general method with m = 1 is the average of the first-ranked samples' credits. */
  lemma ImplIsShort1(answers: seq<AnswerData>, k: nat, votes: seq<real>, score: real)
    requires 1 <= k <= |answers| && Average(answers, k, 1, votes, score)
    ensures |Combinations(Discounted(answers), k)| > 0
    ensures score == SumOver(Combinations(Discounted(answers), k), []) / |Combinations(Discounted(answers), k)| as real
  {
    var cs, ds := Combinations(answers, k), Combinations(Discounted(answers), k);
    Subsets(Discounted(answers), k);
    forall i: nat | i < |cs| ensures ds[i] != [] && votes[i] == Value(First(ds[i])) {
      assert ds[i] in ds;
      OneCredit(answers, k, i, votes[i]);
    }
    SumOfFirsts(ds, votes);
  }

  /** The vote of the i-th subset. */
  lemma OneCredit(answers: seq<AnswerData>, k: nat, i: nat, v: real)
    requires 1 <= k <= |answers| && i < Comb(|answers|, k)
    requires Combinations(Discounted(answers), k)[i] != []
    ensures Combinations(answers, k)[i] != []
    ensures var c := Combinations(answers, k)[i];
      IsVote(FirstM(Sorted(c), 1), v) <==> v == Value(First(Combinations(Discounted(answers), k)[i]))
  {
    hide IsVote, FirstM, Sorted, Combinations, Comb, Leads, Chosen, Sub, First, Discounted, Cleaned;
    Subsets(answers, k);
    var c, d := Combinations(answers, k)[i], Combinations(Discounted(answers), k)[i];
    assert c in Combinations(answers, k);
    var at, x, y := OneChoice(answers, k, i);
    LeadersIn(answers, at, x, y);
    ChosenFirst(answers, k, i, x);
    assert Credit(First(c)) == Value(First(d));
    OneVote(c, v);
  }

  lemma ChosenFirst(s: seq<AnswerData>, k: nat, t: nat, x: nat)
    requires t < Comb(|s|, k) && Leads(s, Chosen(|s|, 0, k, t), x)
    ensures x < |s| && Combinations(s, k)[t] != [] && First(Combinations(s, k)[t]) == s[x]
  {
    ChosenSub(s, 0, k, t);
    hide Combinations, Comb, Chosen;
    assert s[0..] == s;
    LeaderFirst(s, 0, Chosen(|s|, 0, k, t), x);
  }

  /**
   * `short_m_at_k`: the score is the average of the votes, except that the shortcut for m = 1 gives
   * something else exactly when samples without an answer mislead it.
   */
  method ShortMAtK(n: nat, k: nat, m: nat, answers: seq<AnswerData>) returns (score: real, ghost votes: seq<real>)
    requires 1 <= k <= n == |answers| && m >= 1
    ensures m != 1 || !Misled(answers, k) ==> Average(answers, k, m, votes, score)
    ensures m == 1 && Misled(answers, k) ==>
      forall vs: seq<real>, r: real :: Average(answers, k, m, vs, r) ==> r < score
  {
    if m == 1 {
      score := Short1AtK(n, k, Cleaned(answers));
      votes := Shortcut(answers, k, score);
    } else {
      score, votes := ShortMImpl(n, k, m, answers);
    }
  }

  /** What the shortcut's score is worth. */
  lemma Shortcut(answers: seq<AnswerData>, k: nat, score: real) returns (votes: seq<real>)
    requires 1 <= k <= |answers| && |Combinations(Cleaned(answers), k)| > 0
    requires score == SumOver(Combinations(Cleaned(answers), k), []) / |Combinations(Cleaned(answers), k)| as real
    ensures !Misled(answers, k) ==> Average(answers, k, 1, votes, score)
    ensures Misled(answers, k) ==> forall vs: seq<real>, r: real :: Average(answers, k, 1, vs, r) ==> r < score
  {
    var ds := Combinations(Discounted(answers), k);
    Subsets(Discounted(answers), k);
    ShortcutIsExact(answers, k);
    votes := seq(|ds|, i requires 0 <= i < |ds| => Score(ds[i]));
    forall i: nat | i < |ds| ensures ds[i] != [] && votes[i] == Value(First(ds[i]))
      && IsVote(FirstM(Sorted(Combinations(answers, k)[i]), 1), votes[i]) {
      assert ds[i] in ds;
      OneCredit(answers, k, i, votes[i]);
    }
    SumOfFirsts(ds, votes);
    if Misled(answers, k) {
      forall vs: seq<real>, r: real | Average(answers, k, 1, vs, r) ensures r < score {
        ImplIsShort1(answers, k, vs, r);
        Smaller(SumOver(ds, []), SumOver(Combinations(Cleaned(answers), k), []), |ds|);
      }
    }
  }

  lemma Smaller(x: real, y: real, n: nat)
    requires x < y && n > 0
    ensures x / n as real < y / n as real
  {
  }

  /** Two samples, the shorter one without an answer, the longer one right: the shortcut says 1, the other 0. */
  lemma NoneFirst()
    ensures var s := [AnswerData(false, None, 5.0), AnswerData(true, Some("a"), 10.0)];
      && Misled(s, 2)
      && SumOver(Combinations(Cleaned(s), 2), []) == 1.0 && SumOver(Combinations(Discounted(s), 2), []) == 0.0
  {
    var x, y := AnswerData(false, None, 5.0), AnswerData(true, Some("a"), 10.0);
    PairMisleads(x, y);
    hide *;
    OnlyPair(Clean(x), y);
    OnlyPair(x, y);
    PairsOf(x, y);
    TheyScore(x, y);
  }

  lemma TheyScore(x: AnswerData, y: AnswerData)
    requires x == AnswerData(false, None, 5.0) && y == AnswerData(true, Some("a"), 10.0)
    ensures Value(Pick(Clean(x), y)) == 1.0 && Value(Pick(x, y)) == 0.0
  {
  }

  lemma PairsOf(x: AnswerData, y: AnswerData)
    requires x == AnswerData(false, None, 5.0) && y == AnswerData(true, Some("a"), 10.0)
    ensures Cleaned([x, y]) == [Clean(x), y] && Discounted([x, y]) == [x, y]
  {
  }

  lemma PairMisleads(x: AnswerData, y: AnswerData)
    requires x == AnswerData(false, None, 5.0) && y == AnswerData(true, Some("a"), 10.0)
    ensures Misled([x, y], 2)
  {
    var s := [x, y];
    assert Cleaned(s)[0] == Clean(x) && Cleaned(s)[1] == y;
    assert Ahead(s, 0, 1) && Ahead(Cleaned(s), 1, 0);
    assert Behind(Cleaned(s), 1) == {0};
    assert MisledBy(s, 2, 1);
  }

  lemma OnlyPair(x: AnswerData, y: AnswerData)
    ensures SumOver(Combinations([x, y], 2), []) == Value(Pick(x, y))
  {
    var l := [x, y];
    SumIsOverCombinations(l, 2, []);
    assert l[1..] == [y] && [y][1..] == [] && [] + [x] == [x] && [] + [y] == [y] && [x] + [y] == l;
    assert SumAll(l, 2, []) == SumAll([y], 1, [x]) + SumAll([y], 2, []);
    assert SumAll([y], 1, [x]) == SumAll([], 0, l) + SumAll([], 1, [x]) == Score(l);
    assert SumAll([y], 2, []) == SumAll([], 1, [y]) + SumAll([], 2, []) == 0.0;
    assert First([y]) == y && First(l) == Pick(x, First(l[1..]));
  }
}
