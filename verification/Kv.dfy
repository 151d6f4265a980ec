// The language model as the scheduler sees it: an uninterpreted function that turns
// the cells of a context and one more token into that token's key-value cell, and an
// uninterpreted sampler. Cells live in pages of the device cache.
module Kv {
  import opened Basics

  type Token = int
  type Cell = int

  datatype Model = Model(
    kv: (seq<Cell>, Token) -> Cell,
    // context, temperature, top_p, random draw
    pick: (seq<Cell>, int, int, int) -> Token)

  /** The cells a fresh, unpaged computation produces for a token sequence. */
  function Cells(m: Model, toks: seq<Token>): (c: seq<Cell>)
    ensures |c| == |toks|
  {
    if toks == [] then []
    else
      var c := Cells(m, toks[..|toks| - 1]);
      c + [m.kv(c, toks[|toks| - 1])]
  }

  /** A causal model: the cells of a prefix are a prefix of the cells. */
  lemma {:induction false} CellsPrefix(m: Model, toks: seq<Token>, n: nat)
    requires n <= |toks|
    ensures Cells(m, toks)[..n] == Cells(m, toks[..n])
    decreases |toks|
  {
    if n < |toks| {
      var t := toks[..|toks| - 1];
      CellsPrefix(m, t, n);
      assert t[..n] == toks[..n];
      assert Cells(m, toks)[..n] == Cells(m, t)[..n];
    } else {
      assert toks[..n] == toks;
    }
  }

  lemma CellsAppend(m: Model, toks: seq<Token>, t: Token)
    ensures Cells(m, toks + [t]) == Cells(m, toks) + [m.kv(Cells(m, toks), t)]
  {
    assert (toks + [t])[..|toks|] == toks;
  }

  /** The cells of the page that ends a prefix of whole pages. */
  function LastPage(m: Model, toks: seq<Token>, pageLen: nat): seq<Cell>
    requires pageLen <= |toks|
  {
    Cells(m, toks)[|toks| - pageLen..]
  }

  // ---------- paged addressing ----------

  /** Where position p of a lane lives: `row[p // page] * page + p % page`. */
  function Slot(row: seq<nat>, p: nat, pl: nat): nat
    requires pl > 0 && p / pl < |row|
  {
    row[p / pl] * pl + p % pl
  }

  lemma InPage(p: nat, n: nat, pl: nat)
    requires pl > 0 && p < n * pl
    ensures p / pl < n
  {
    if p / pl >= n {
      MulMono(n, p / pl, pl);
    }
  }

  /** Two slots coincide only in the same block at the same offset. */
  lemma SlotParts(a: nat, x: nat, b: nat, y: nat, pl: nat)
    requires pl > 0 && x < pl && y < pl && a * pl + x == b * pl + y
    ensures a == b && x == y
  {
    if a < b { MulMono(a + 1, b, pl); }
    if b < a { MulMono(b + 1, a, pl); }
  }

  /** No two (lane, position) pairs share a physical slot. */
  lemma SlotInjective(r: seq<nat>, p: nat, s: seq<nat>, q: nat, pl: nat)
    requires pl > 0 && p / pl < |r| && q / pl < |s|
    requires Slot(r, p, pl) == Slot(s, q, pl)
    ensures r[p / pl] == s[q / pl] && p % pl == q % pl
    ensures (forall i, j :: 0 <= i < |r| && 0 <= j < |s| && r[i] == s[j] ==> i == j) ==> p == q
  {
    SlotParts(r[p / pl], p % pl, s[q / pl], q % pl, pl);
  }

  /** Every block the row names lies inside n cells. */
  ghost predicate RowFits(n: nat, row: seq<nat>, pl: nat) {
    forall i :: 0 <= i < |row| ==> row[i] * pl + pl <= n
  }

  lemma SlotFits(n: nat, row: seq<nat>, p: nat, pl: nat)
    requires pl > 0 && p < |row| * pl && RowFits(n, row, pl)
    ensures 0 <= p / pl < |row| && Slot(row, p, pl) < n
  {
    InPage(p, |row|, pl);
  }

  /** The cell of position p; outside the row or the cache there is nothing to read. */
  function Get(c: seq<Cell>, row: seq<nat>, p: nat, pl: nat): Cell
    requires pl > 0
  {
    if p / pl < |row| && Slot(row, p, pl) < |c| then c[Slot(row, p, pl)] else 0
  }

  /** What a lane with this block table row reads at its first n positions. */
  function ReadRow(c: seq<Cell>, row: seq<nat>, n: nat, pl: nat): (v: seq<Cell>)
    requires pl > 0
  {
    seq(n, p requires 0 <= p => Get(c, row, p, pl))
  }
}
