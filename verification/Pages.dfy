// What it means for the pages of a lane to hold the right cells, and how writing a
// cell or a page changes that for the writer and for everybody else.
module Pages {
  import opened Basics
  import opened Seqs
  import opened Kv

  /** The first n positions of a lane hold what a fresh, unpaged computation would give. */
  ghost predicate Holds(m: Model, c: seq<Cell>, blocks: seq<nat>, toks: seq<Token>, n: nat, pl: nat) {
    pl > 0 && n <= |toks| && ReadRow(c, blocks, n, pl) == Cells(m, toks[..n])
  }

  /** Block b holds the last page of the cells of these tokens. */
  ghost predicate PageIs(m: Model, c: seq<Cell>, b: nat, toks: seq<Token>, pl: nat) {
    b * pl + pl <= |c| && pl <= |toks| && c[b * pl..b * pl + pl] == LastPage(m, toks, pl)
  }

  /** Only cells of block b changed. */
  ghost predicate SameOutside(c: seq<Cell>, c': seq<Cell>, b: nat, pl: nat) {
    && |c'| == |c|
    && (forall x :: 0 <= x < |c| && (x < b * pl || x >= b * pl + pl) ==> c'[x] == c[x])
  }

  /** A slot of another block lies outside block b. */
  lemma OtherBlock(row: seq<nat>, p: nat, b: nat, pl: nat)
    requires pl > 0 && p / pl < |row| && row[p / pl] != b
    ensures Slot(row, p, pl) < b * pl || Slot(row, p, pl) >= b * pl + pl
  {
    if row[p / pl] < b { MulMono(row[p / pl] + 1, b, pl); } else { MulMono(b + 1, row[p / pl], pl); }
  }

  lemma GetElsewhere(c: seq<Cell>, c': seq<Cell>, b: nat, row: seq<nat>, p: nat, pl: nat)
    requires pl > 0 && SameOutside(c, c', b, pl) && (p / pl < |row| ==> row[p / pl] != b)
    ensures Get(c', row, p, pl) == Get(c, row, p, pl)
  {
    if p / pl < |row| { OtherBlock(row, p, b, pl); }
  }

  /** A write in one block is invisible to a lane that does not own it. */
  lemma Elsewhere(m: Model, c: seq<Cell>, c': seq<Cell>, b: nat, blocks: seq<nat>, toks: seq<Token>, n: nat, pl: nat)
    requires Holds(m, c, blocks, toks, n, pl) && SameOutside(c, c', b, pl) && b !in blocks
    ensures Holds(m, c', blocks, toks, n, pl)
  {
    forall p: nat | p < n ensures Get(c', blocks, p, pl) == Get(c, blocks, p, pl) {
      GetElsewhere(c, c', b, blocks, p, pl);
    }
    assert ReadRow(c', blocks, n, pl) == ReadRow(c, blocks, n, pl);
  }

  /** Reading through a longer row is the same. */
  lemma LongerRow(c: seq<Cell>, blocks: seq<nat>, row: seq<nat>, n: nat, pl: nat)
    requires pl > 0 && n <= |blocks| * pl && blocks <= row
    ensures ReadRow(c, row, n, pl) == ReadRow(c, blocks, n, pl)
  {
    forall p: nat | p < n ensures Get(c, row, p, pl) == Get(c, blocks, p, pl) { InPage(p, |blocks|, pl); }
    assert ReadRow(c, row, n, pl) == ReadRow(c, blocks, n, pl);
  }

  lemma MoreBlocks(m: Model, c: seq<Cell>, blocks: seq<nat>, more: seq<nat>, toks: seq<Token>, n: nat, pl: nat)
    requires Holds(m, c, blocks, toks, n, pl) && blocks <= more && n <= |blocks| * pl
    ensures Holds(m, c, more, toks, n, pl)
  {
    LongerRow(c, blocks, more, n, pl);
  }

  lemma MoreTokens(m: Model, c: seq<Cell>, blocks: seq<nat>, toks: seq<Token>, more: seq<Token>, n: nat, pl: nat)
    requires Holds(m, c, blocks, toks, n, pl) && toks <= more
    ensures Holds(m, c, blocks, more, n, pl)
  {
    assert more[..n] == toks[..n];
  }

  lemma Fewer(m: Model, c: seq<Cell>, blocks: seq<nat>, toks: seq<Token>, n: nat, n': nat, pl: nat)
    requires Holds(m, c, blocks, toks, n, pl) && n' <= n
    ensures Holds(m, c, blocks, toks, n', pl)
  {
    assert ReadRow(c, blocks, n', pl) == ReadRow(c, blocks, n, pl)[..n'];
    CellsPrefix(m, toks[..n], n');
    assert toks[..n][..n'] == toks[..n'];
  }

  lemma Nothing(m: Model, c: seq<Cell>, blocks: seq<nat>, toks: seq<Token>, pl: nat)
    requires pl > 0
    ensures Holds(m, c, blocks, toks, 0, pl)
  {
    assert toks[..0] == [];
  }

  lemma FitsAll(nb: nat, row: seq<nat>, pl: nat)
    requires forall b <- row :: b < nb
    ensures RowFits(nb * pl, row, pl)
  {
    forall i | 0 <= i < |row| ensures row[i] * pl + pl <= nb * pl {
      assert row[i] in row;
      MulMono(row[i] + 1, nb, pl);
    }
  }

  /** Writing one position leaves the earlier positions of the lane alone. */
  lemma GetBefore(c: seq<Cell>, x: Cell, blocks: seq<nat>, n: nat, p: nat, pl: nat)
    requires pl > 0 && p < n && n / pl < |blocks| && Slot(blocks, n, pl) < |c| && NoDup(blocks)
    ensures Get(c[Slot(blocks, n, pl) := x], blocks, p, pl) == Get(c, blocks, p, pl)
  {
    if p / pl < |blocks| && Slot(blocks, p, pl) == Slot(blocks, n, pl) { SlotInjective(blocks, p, blocks, n, pl); }
  }

  lemma SlotInBlock(c: seq<Cell>, x: Cell, row: seq<nat>, n: nat, pl: nat)
    requires pl > 0 && n / pl < |row| && Slot(row, n, pl) < |c|
    ensures SameOutside(c, c[Slot(row, n, pl) := x], row[n / pl], pl)
  {
  }

  /**
   * The kernel writes position n of a lane: only the lane's own block changes, and the lane has one more
   * right cell.
   */
  lemma WriteNext(m: Model, c: seq<Cell>, blocks: seq<nat>, toks: seq<Token>, n: nat, pl: nat)
    requires Holds(m, c, blocks, toks, n, pl) && n < |toks| && n < |blocks| * pl && NoDup(blocks)
      && RowFits(|c|, blocks, pl)
    ensures 0 <= n / pl < |blocks| && Slot(blocks, n, pl) < |c|
    ensures var c' := c[Slot(blocks, n, pl) := m.kv(ReadRow(c, blocks, n, pl), toks[n])];
      SameOutside(c, c', blocks[n / pl], pl) && Holds(m, c', blocks, toks, n + 1, pl)
  {
    SlotFits(|c|, blocks, n, pl);
    var x := m.kv(ReadRow(c, blocks, n, pl), toks[n]);
    var c' := c[Slot(blocks, n, pl) := x];
    SlotInBlock(c, x, blocks, n, pl);
    forall p: nat | p < n ensures Get(c', blocks, p, pl) == Get(c, blocks, p, pl) { GetBefore(c, x, blocks, n, p, pl); }
    assert ReadRow(c', blocks, n + 1, pl) == ReadRow(c, blocks, n, pl) + [x];
    assert toks[..n + 1] == toks[..n] + [toks[n]];
    CellsAppend(m, toks[..n], toks[n]);
  }

  lemma DivPage(k: nat, o: nat, pl: nat)
    requires o < pl
    ensures (k * pl + o) / pl == k && (k * pl + o) % pl == o
  {
    var p := k * pl + o;
    assert p == (p / pl) * pl + p % pl;
    SlotParts(p / pl, p % pl, k, o, pl);
  }

  /** Offset o of page k of a lane. */
  lemma GetPage(c: seq<Cell>, blocks: seq<nat>, k: nat, o: nat, pl: nat)
    requires o < pl && k < |blocks| && blocks[k] * pl + pl <= |c|
    ensures Get(c, blocks, k * pl + o, pl) == c[blocks[k] * pl + o]
  {
    DivPage(k, o, pl);
  }

  /** A page that ends inside the lane is one of its blocks, inside the cache. */
  lemma PageInRow(blocks: seq<nat>, k: nat, n: nat, pl: nat, size: nat)
    requires pl > 0 && k * pl + pl <= n <= |blocks| * pl && RowFits(size, blocks, pl)
    ensures k < |blocks| && blocks[k] * pl + pl <= size
  {
    InPage(k * pl, |blocks|, pl);
    DivPage(k, 0, pl);
  }

  lemma PageEnd(k: nat, pl: nat)
    ensures (k + 1) * pl == k * pl + pl
  {
  }

  /** Cells before page k do not change when page k does. */
  lemma BeforePage(c: seq<Cell>, c': seq<Cell>, blocks: seq<nat>, k: nat, p: nat, pl: nat)
    requires pl > 0 && p < k * pl && k < |blocks| && NoDup(blocks) && SameOutside(c, c', blocks[k], pl)
    ensures Get(c', blocks, p, pl) == Get(c, blocks, p, pl)
  {
    InPage(p, k, pl);
    GetElsewhere(c, c', blocks[k], blocks, p, pl);
  }

  lemma ReadMore(c: seq<Cell>, c': seq<Cell>, blocks: seq<nat>, n: nat, page: seq<Cell>, pl: nat)
    requires pl > 0 && |page| == pl
    requires forall p: nat :: p < n ==> Get(c', blocks, p, pl) == Get(c, blocks, p, pl)
    requires forall o: nat :: o < pl ==> Get(c', blocks, n + o, pl) == page[o]
    ensures ReadRow(c', blocks, n + pl, pl) == ReadRow(c, blocks, n, pl) + page
  {
    var v', v := ReadRow(c', blocks, n + pl, pl), ReadRow(c, blocks, n, pl) + page;
    forall p: nat | p < n + pl ensures v'[p] == v[p] {
      if p >= n {
        var o := p - n;
        assert Get(c', blocks, n + o, pl) == page[o];
      }
    }
    assert v' == v;
  }

  /** Copying the right page in gives the lane one more page of right cells. */
  lemma PageArrives(m: Model, c: seq<Cell>, c': seq<Cell>, blocks: seq<nat>, toks: seq<Token>, k: nat, n: nat, pl: nat)
    requires n == k * pl && n + pl <= |toks| && Holds(m, c, blocks, toks, n, pl) && k < |blocks| && NoDup(blocks)
    requires SameOutside(c, c', blocks[k], pl) && blocks[k] * pl + pl <= |c|
    requires c'[blocks[k] * pl..blocks[k] * pl + pl] == LastPage(m, toks[..n + pl], pl)
    ensures Holds(m, c', blocks, toks, n + pl, pl)
  {
    var page := c'[blocks[k] * pl..blocks[k] * pl + pl];
    forall p: nat | p < n ensures Get(c', blocks, p, pl) == Get(c, blocks, p, pl) {
      BeforePage(c, c', blocks, k, p, pl);
    }
    forall o: nat | o < pl ensures Get(c', blocks, n + o, pl) == page[o] { GetPage(c', blocks, k, o, pl); }
    ReadMore(c, c', blocks, n, page, pl);
    WholePages(m, toks, n, pl);
  }

  lemma WholePages(m: Model, toks: seq<Token>, n: nat, pl: nat)
    requires n + pl <= |toks|
    ensures Cells(m, toks[..n + pl]) == Cells(m, toks[..n]) + LastPage(m, toks[..n + pl], pl)
  {
    var want := Cells(m, toks[..n + pl]);
    CellsPrefix(m, toks[..n + pl], n);
    assert toks[..n + pl][..n] == toks[..n];
    assert want == want[..n] + want[n..];
  }

  /** A full page of right cells is what recomputing the tokens up to it would leave there. */
  lemma PageLeaves(m: Model, c: seq<Cell>, blocks: seq<nat>, toks: seq<Token>, n: nat, k: nat, pl: nat)
    requires Holds(m, c, blocks, toks, n, pl) && k * pl + pl <= n && k < |blocks| && blocks[k] * pl + pl <= |c|
    ensures c[blocks[k] * pl..blocks[k] * pl + pl] == LastPage(m, toks[..k * pl + pl], pl)
  {
    var b := k * pl;
    var page := c[blocks[k] * pl..blocks[k] * pl + pl];
    Fewer(m, c, blocks, toks, n, b + pl, pl);
    forall o: nat | o < pl ensures Get(c, blocks, b + o, pl) == page[o] { GetPage(c, blocks, k, o, pl); }
    assert ReadRow(c, blocks, b + pl, pl)[b..] == page;
  }

  /** The same for a lane all of whose positions are right. */
  lemma FullPage(m: Model, c: seq<Cell>, blocks: seq<nat>, toks: seq<Token>, k: nat, pl: nat)
    requires Holds(m, c, blocks, toks, |toks|, pl) && (k + 1) * pl <= |toks| <= |blocks| * pl
      && RowFits(|c|, blocks, pl)
    ensures k < |blocks| && blocks[k] * pl + pl <= |c| && pl <= (k + 1) * pl
    ensures c[blocks[k] * pl..blocks[k] * pl + pl] == LastPage(m, toks[..(k + 1) * pl], pl)
  {
    PageEnd(k, pl);
    PageInRow(blocks, k, |toks|, pl, |c|);
    PageLeaves(m, c, blocks, toks, |toks|, k, pl);
  }
}
