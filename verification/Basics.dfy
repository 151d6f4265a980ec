// Small values and arithmetic shared by the other modules.
module Basics {
  datatype Option<T> = None | Some(value: T)

  function Min(a: nat, b: nat): nat { if a < b then a else b }

  function Max(a: nat, b: nat): nat { if a < b then b else a }

  function Zeros(n: nat): seq<nat> { seq(n, _ => 0) }

  lemma MulMono(a: int, b: int, d: nat)
    requires a <= b
    ensures a * d <= b * d
  {
  }

  /** Quotient and remainder are unique. */
  lemma DivUnique(x: int, d: nat, q: int, r: nat)
    requires d > 0 && x == q * d + r && r < d
    ensures x / d == q && x % d == r
  {
    var q', r' := x / d, x % d;
    assert x == q' * d + r' && r' < d;
    if q' < q { MulMono(q' + 1, q, d); }
    if q < q' { MulMono(q + 1, q', d); }
  }
}
