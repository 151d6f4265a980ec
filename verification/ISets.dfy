// The mutable set of integers below 2^32 that wraps a radix tree. The abstract
// value is the set of its elements; every method is stated on that value.
module ISets {
  import opened Seqs
  import opened Bits
  import opened SetNodes
  import opened SetQueries
  import opened SetLists

  /** The elements of a tree at the top level. */
  ghost function ElemsOf(t: SetNode): set<nat>
    requires Canon(t, L)
  {
    ZeroAligned(L);
    ToSet(ToList(t, 0, Run(L, 0), L))
  }

  lemma ElemsOfContains(t: SetNode, e: nat)
    requires Canon(t, L)
    ensures e in ElemsOf(t) <==> e <= M && Contains(t, e)
  {
    MIsRun(); ZeroAligned(L);
    assert e in ElemsOf(t) <==> e in ToList(t, 0, Run(L, 0), L);
  }

  /** The same set has the same tree. */
  lemma CanonicalForm(s: SetNode, t: SetNode)
    requires Canon(s, L) && Canon(t, L)
    ensures ElemsOf(s) == ElemsOf(t) <==> s == t
  {
    MIsRun();
    if ElemsOf(s) == ElemsOf(t) {
      forall e: nat | e < Pow2(L) ensures Contains(s, e) == Contains(t, e) {
        ElemsOfContains(s, e); ElemsOfContains(t, e);
      }
      Unique(s, t, L);
    }
  }

  lemma SizeOf(t: SetNode)
    requires Canon(t, L)
    ensures Len(t, Run(L, 0), L) == |ElemsOf(t)|
  {
    ZeroAligned(L);
    LenIsSize(t, 0, L);
    AscendingSize(ToList(t, 0, Run(L, 0), L));
  }

  lemma EmptyElems()
    ensures ElemsOf(Empty) == {}
  {
    forall e ensures e !in ElemsOf(Empty) { if e in ElemsOf(Empty) { ElemsOfContains(Empty, e); } }
  }

  /** `singleton` */
  function Singleton(elm: nat): (t: SetNode)
    requires elm <= M
    ensures Canon(t, L) && ElemsOf(t) == {elm}
    ensures t == Chk(M, elm, Mem(true))
  {
    MIsRun();
    ChkMkSpec(L, 0, elm, Mem(true));
    var t := ChkMk(M, elm, Mem(true));
    assert And(elm, M) == elm by {
      AndBits(elm, Run(L, 0)); RunBits(L, 0); HighBits(elm, L);
      Ext(And(elm, M), elm);
    }
    assert forall e: nat {:trigger e in ElemsOf(t)} :: e in ElemsOf(t) <==> e == elm by {
      forall e: nat ensures e in ElemsOf(t) <==> e == elm {
        ElemsOfContains(t, e);
        if e <= M {
          BlockRange(e, 0, Pow2(L)); BlockRange(elm, 0, Pow2(L));
          AgreeBlock(e, elm, L, 0);
        }
      }
    }
    t
  }

  lemma UnionElems(s: SetNode, t: SetNode)
    requires Canon(s, L) && Canon(t, L)
    ensures ElemsOf(Union(s, t, L)) == ElemsOf(s) + ElemsOf(t)
  {
    forall e: nat ensures e in ElemsOf(Union(s, t, L)) <==> e in ElemsOf(s) + ElemsOf(t) {
      ElemsOfContains(s, e); ElemsOfContains(t, e); ElemsOfContains(Union(s, t, L), e);
      UnionContains(s, t, L, e);
    }
  }

  lemma SplitElems(t: SetNode, a: SetNode, b: SetNode)
    requires Canon(t, L) && Canon(a, L) && Canon(b, L) && Splits(t, a, b, L)
    ensures ElemsOf(t) == ElemsOf(a) + ElemsOf(b)
    ensures forall e, f :: e in ElemsOf(a) && f in ElemsOf(b) ==> e < f
  {
    MIsRun();
    forall e: nat ensures e in ElemsOf(t) <==> e in ElemsOf(a) + ElemsOf(b) {
      ElemsOfContains(t, e); ElemsOfContains(a, e); ElemsOfContains(b, e);
    }
    forall e, f | e in ElemsOf(a) && f in ElemsOf(b) ensures e < f {
      ElemsOfContains(a, e); ElemsOfContains(b, f);
    }
  }

  /** `take` shares out the set: a part of the requested size, below the rest. */
  lemma TakeElems(t: SetNode, count: nat) returns (a: SetNode, b: SetNode)
    requires Canon(t, L)
    ensures (a, b) == Take(t, count, Run(L, 0), L) && Canon(a, L) && Canon(b, L)
    ensures ElemsOf(t) == ElemsOf(a) + ElemsOf(b)
    ensures forall e, f :: e in ElemsOf(a) && f in ElemsOf(b) ==> e < f
    ensures |ElemsOf(a)| == if count < |ElemsOf(t)| then count else |ElemsOf(t)|
  {
    var r := Take(t, count, Run(L, 0), L);
    a, b := r.0, r.1;
    SizeOf(t); SizeOf(a);
    SplitElems(t, a, b);
  }

  lemma OnlyElement(s: set<nat>, e: nat)
    requires |s| == 1 && e in s
    ensures s == {e}
  {
    var rest := s - {e};
    assert |rest| == 0;
    assert s == rest + {e};
  }

  lemma OneElement(t: SetNode)
    requires Canon(t, L) && |ElemsOf(t)| == 1
    ensures t.Chk? && t.bits <= M && ElemsOf(t) == {t.bits}
  {
    var e :| e in ElemsOf(t);
    OnlyElement(ElemsOf(t), e);
    ElemsOfContains(t, e);
    CanonicalForm(t, Singleton(e));
  }

  /** `_tolist`, filling an accumulator. */
  method ListInto(t: SetNode, acc: seq<nat>, prefix: nat, mask: nat, ghost k: nat) returns (out: seq<nat>)
    requires Canon(t, k) && mask == Run(k, 0) && Aligned(prefix, k)
    ensures out == acc + ToList(t, prefix, mask, k)
    decreases t
  {
    match t
    case Mem(mem) =>
      out := acc;
      if mem { out := out + Range(prefix, prefix + mask + 1); }
    case Chk(tmask, bits, chld) =>
      RunWithoutTop(k, TrailingZeros(tmask), 0);
      PrefixBits(prefix, bits, k, TrailingZeros(tmask));
      out := ListInto(chld, acc, Or(prefix, bits), AndNot(mask, tmask), TrailingZeros(tmask));
    case Bit(bit, c0, c1) =>
      TopBit(k); RunWithoutTop(k, k - 1, 0); HalfPrefix(prefix, k);
      out := ListInto(c0, acc, prefix, AndNot(mask, bit), k - 1);
      out := ListInto(c1, out, Or(prefix, bit), AndNot(mask, bit), k - 1);
  }

  class ISet {
    var node: SetNode

    ghost predicate Valid()
      reads this
    {
      Canon(node, L)
    }

    ghost function Elems(): set<nat>
      reads this
      requires Valid()
    {
      ElemsOf(node)
    }

    constructor ()
      ensures Valid() && Elems() == {}
    {
      node := Empty;
      EmptyElems();
    }

    constructor OfNode(n: SetNode)
      requires Canon(n, L)
      ensures Valid() && node == n
    {
      node := n;
    }

    constructor Interval(a: nat, b: nat)
      requires b <= M + 1
      ensures Valid() && forall e :: e in Elems() <==> a <= e < b
    {
      MIsRun();
      node := SetQueries.Interval(a, b, M, L);
      new;
      forall e: nat ensures e in ElemsOf(node) <==> a <= e < b { ElemsOfContains(node, e); }
    }

    /** `__len__` */
    function Size(): (n: nat)
      reads this
      requires Valid()
      ensures n == |Elems()|
    {
      MIsRun(); SizeOf(node);
      Len(node, M, L)
    }

    /** `tolist` */
    method List() returns (s: seq<nat>)
      requires Valid()
      ensures Ascending(s) && ToSet(s) == Elems() && |s| == |Elems()|
    {
      MIsRun(); ZeroAligned(L);
      s := ListInto(node, [], 0, M, L);
      AscendingSize(s);
    }

    method Add(elm: nat)
      requires Valid() && elm <= M
      modifies this
      ensures Valid() && Elems() == old(Elems()) + {elm}
    {
      UnionElems(node, Singleton(elm));
      node := Union(node, Singleton(elm), L);
    }

    /** `merge`, also `|=` */
    method Merge(other: ISet)
      requires Valid() && other.Valid()
      modifies this
      ensures Valid() && Elems() == old(Elems()) + old(other.Elems())
    {
      UnionElems(node, other.node);
      node := Union(node, other.node, L);
    }

    method Take(count: nat) returns (a: ISet, b: ISet)
      requires Valid()
      ensures fresh(a) && fresh(b) && a != b && a.Valid() && b.Valid()
      ensures Elems() == a.Elems() + b.Elems()
      ensures forall e, f :: e in a.Elems() && f in b.Elems() ==> e < f
      ensures |a.Elems()| == if count < |Elems()| then count else |Elems()|
    {
      MIsRun();
      ghost var a0, b0 := TakeElems(node, count);
      var r := SetLists.Take(node, count, M, L);
      a := new ISet.OfNode(r.0);
      b := new ISet.OfNode(r.1);
    }

    /** Removes and returns the least element; the assertion on the node class holds. */
    method PopLeft() returns (elm: nat)
      requires Valid() && Elems() != {}
      modifies this
      ensures Valid() && elm in old(Elems())
      ensures forall e :: e in old(Elems()) ==> elm <= e
      ensures Elems() == old(Elems()) - {elm}
    {
      MIsRun();
      ghost var a0, b0 := TakeElems(node, 1);
      var r := SetLists.Take(node, 1, M, L);
      NonEmptySize(ElemsOf(node));
      OneElement(r.0);
      node := r.1;
      assert r.0.Chk?;
      elm := r.0.bits;
    }

    method Clear()
      modifies this
      ensures Valid() && Elems() == {}
    {
      node := Empty;
      EmptyElems();
    }
  }

  lemma NonEmptySize(s: set<nat>)
    requires s != {}
    ensures |s| >= 1
  {
  }
}
