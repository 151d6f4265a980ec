// Lists without repetition, their elements, and removal by moving the last element.
module Seqs {
  ghost predicate NoDup<T>(s: seq<T>) {
    forall i, j :: 0 <= i < j < |s| ==> s[i] != s[j]
  }

  ghost function ToSet<T>(s: seq<T>): set<T> {
    set x | x in s
  }

  lemma {:induction false} NoDupSize<T>(s: seq<T>)
    requires NoDup(s)
    ensures |ToSet(s)| == |s|
  {
    if s != [] {
      var t := s[..|s| - 1];
      NoDupSize(t);
      assert s[|s| - 1] !in t;
      assert forall x :: x in s <==> x in t || x == s[|s| - 1];
      assert ToSet(s) == ToSet(t) + {s[|s| - 1]};
    }
  }

  /** The last element takes the place of the one dropped. */
  function Drop<T>(q: seq<T>, i: nat): seq<T>
    requires i < |q|
  {
    q[i := q[|q| - 1]][..|q| - 1]
  }
}
