// `_decode` on values: how many steps fit, and what a round of steps keeps.
module Decodes {
  import opened Basics
  import opened Seqs
  import opened Kv
  import Pages
  import opened Stops
  import opened Sched
  import opened Steps
  import opened Evictions

  /** nsteps more tokens fit in every active lane. */
  ghost predicate Room(cfg: Config, s: State, nsteps: nat) {
    s.nactive == |s.lanes| && forall i: nat ::
      i < s.nactive ==> |All(s.lanes[i])| + nsteps <= |s.lanes[i].blocks| * cfg.pageLen
  }

  /** Lane i of s0 writes position p within n steps. */
  ghost predicate Writes(cfg: Config, s0: State, n: nat, i: nat, p: nat)
    requires i < |s0.lanes|
  {
    && cfg.pageLen > 0 && |All(s0.lanes[i])| <= p + 1 < |All(s0.lanes[i])| + n
    && 0 <= p / cfg.pageLen < |s0.lanes[i].blocks|
  }

  /** Cell x is one of those written. */
  ghost predicate Hit(cfg: Config, s0: State, n: nat, x: nat) {
    exists i: nat, p: nat {:trigger Writes(cfg, s0, n, i, p)} ::
      i < s0.nactive <= |s0.lanes| && Writes(cfg, s0, n, i, p) && x == Slot(s0.lanes[i].blocks, p, cfg.pageLen)
  }

  /** In n steps nothing else is written. */
  ghost predicate OnlyHits(cfg: Config, s0: State, cells: seq<Cell>, n: nat) {
    && |cells| == |s0.cells|
    && forall x: nat {:trigger cells[x]} {:trigger Hit(cfg, s0, n, x)} ::
        x < |cells| && !Hit(cfg, s0, n, x) ==> cells[x] == s0.cells[x]
  }

  lemma MoreHits(cfg: Config, s0: State, cells: seq<Cell>, n: nat, n': nat)
    requires OnlyHits(cfg, s0, cells, n) && n <= n'
    ensures OnlyHits(cfg, s0, cells, n')
  {
    forall x: nat | x < |cells| && !Hit(cfg, s0, n', x) ensures cells[x] == s0.cells[x] {
      if Hit(cfg, s0, n, x) {
        var i: nat, p: nat :| i < s0.nactive <= |s0.lanes| && Writes(cfg, s0, n, i, p)
          && x == Slot(s0.lanes[i].blocks, p, cfg.pageLen);
        assert Writes(cfg, s0, n', i, p);
      }
    }
  }

  /** Only cells, lengths and last tokens have changed since s0; lanes before i have k + 1 new tokens, the others k. */
  ghost predicate Decoding(cfg: Config, s0: State, s: State, pend: seq<seq<Token>>, k: nat, i: nat) {
    && Ok(cfg, s, pend)
    && s.lanes == s0.lanes && s.nactive == s0.nactive && s.parked == s0.parked && s.free == s0.free
    && (forall j: nat :: j < |pend| ==> |pend[j]| == if j < i then k + 1 else k)
    && OnlyHits(cfg, s0, s.cells, if i == 0 then k else k + 1)
  }

  /** Every length is below the limit, and below the longest entry of the tensor is every entry. */
  lemma StepsFit(cfg: Config, s: State, maxsl: nat)
    requires cfg.Valid() && AtRest(cfg, s) && s.nactive > 0
    requires forall i :: 0 <= i < |s.dev| ==> s.dev[i].seqlen <= maxsl
    requires exists i :: 0 <= i < |s.dev| && s.dev[i].seqlen == maxsl
    requires forall i: nat :: i < s.nactive ==> Prepared(cfg, s.lanes[i])
    ensures maxsl < cfg.maxSeq
    ensures var nsteps := Min(cfg.maxSeq - maxsl, cfg.syncFreq); 1 <= nsteps <= cfg.syncFreq && Room(cfg, s, nsteps)
  {
    forall i: nat | i < s.nactive ensures s.dev[i].seqlen == |All(s.lanes[i])| < cfg.maxSeq {
      assert LiveAt(cfg, s, Empties(s.nactive), i);
      assert s.lanes[i].tokens != [];
      assert All(s.lanes[i]) + [] == All(s.lanes[i]);
    }
    var i :| 0 <= i < |s.dev| && s.dev[i].seqlen == maxsl;
  }

  lemma StartDecoding(cfg: Config, s: State)
    requires AtRest(cfg, s)
    ensures Decoding(cfg, s, s, Empties(s.nactive), 0, 0)
  {
  }

  lemma DecodingSize(cfg: Config, s0: State, s: State, pend: seq<seq<Token>>, k: nat, i: nat)
    requires Decoding(cfg, s0, s, pend, k, i)
    ensures |pend| == s.nactive
  {
  }

  lemma DecodedFacts(cfg: Config, s0: State, s: State, pend: seq<seq<Token>>, k: nat)
    requires Decoding(cfg, s0, s, pend, k, 0)
    ensures Ok(cfg, s, pend) && |pend| == s.nactive && forall j: nat {:trigger pend[j]} :: j < |pend| ==> |pend[j]| == k
    ensures s == s0.(dev := s.dev, cells := s.cells) && OnlyHits(cfg, s0, s.cells, k)
  {
  }

  lemma NextRound(cfg: Config, s0: State, s: State, pend: seq<seq<Token>>, k: nat)
    requires Decoding(cfg, s0, s, pend, k, s.nactive)
    ensures Decoding(cfg, s0, s, pend, k + 1, 0)
  {
    hide OnlyHits;
    MoreHits(cfg, s0, s.cells, if s.nactive == 0 then k else k + 1, k + 1);
  }

  /** What lane i reads after its step is the context of all its tokens. */
  lemma StepReady(cfg: Config, s0: State, s: State, pend: seq<seq<Token>>, k: nat, i: nat)
    requires cfg.Valid() && Decoding(cfg, s0, s, pend, k, i) && i < s.nactive
    ensures i < |s.lanes| && i < |pend| && i < |s.dev|
    ensures var e, full, pl := s.dev[i], All(s.lanes[i]) + pend[i], cfg.pageLen; var n := e.seqlen - 1;
      && n >= 0 && 0 <= n / pl < |e.row| && Slot(e.row, n, pl) < |s.cells|
      && var cells := s.cells[Slot(e.row, n, pl) := cfg.m.kv(ReadRow(s.cells, e.row, n, pl), e.token)];
         cfg.exact ==> ReadRow(cells, e.row, n + 1, pl) == Cells(cfg.m, full)
  {
    hide Ok, OnlyHits, Live, ReadRow, Cells, Right;
    DecodingOk(cfg, s0, s, pend, k, i);
    LiveSize(cfg, s, pend, i);
    var b := DecodeCells(cfg, s, pend, i);
  }

  lemma DecodingOk(cfg: Config, s0: State, s: State, pend: seq<seq<Token>>, k: nat, i: nat)
    requires Decoding(cfg, s0, s, pend, k, i)
    ensures Ok(cfg, s, pend)
  {
  }

  lemma LiveSize(cfg: Config, s: State, pend: seq<seq<Token>>, i: nat)
    requires Ok(cfg, s, pend) && i < s.nactive
    ensures i < |s.lanes| && i < |pend| && i < |s.dev| && s.dev[i].seqlen == |All(s.lanes[i]) + pend[i]| > 0
  {
    assert LiveAt(cfg, s, pend, i);
  }

  lemma DecodedOne(cfg: Config, s0: State, s: State, pend: seq<seq<Token>>, k: nat, i: nat, t: Token, noise: int,
      nsteps: nat)
    requires cfg.Valid() && Decoding(cfg, s0, s, pend, k, i) && i < s.nactive && k < nsteps && Room(cfg, s0, nsteps)
    requires cfg.exact ==> t == cfg.m.pick(Cells(cfg.m, All(s.lanes[i]) + pend[i]), s.dev[i].temp, s.dev[i].topP, noise)
    ensures var n := s.dev[i].seqlen - 1;
      n >= 0 && n / cfg.pageLen < |s.dev[i].row| && Slot(s.dev[i].row, n, cfg.pageLen) < |s.cells|
    ensures Decoding(cfg, s0, DecodeStep(cfg, s, i, t), pend[i := pend[i] + [t]], k, i + 1)
  {
    DecodeOk(cfg, s, pend, i, t, noise);
    var e, n := s.dev[i], s.dev[i].seqlen - 1;
    HitOne(cfg, s0, s, pend, k, i, cfg.m.kv(ReadRow(s.cells, e.row, n, cfg.pageLen), e.token));
    hide OnlyHits, Ok;
  }

  /** The cell of a decoding step is one of those that may be written. */
  lemma HitOne(cfg: Config, s0: State, s: State, pend: seq<seq<Token>>, k: nat, i: nat, c: Cell)
    requires cfg.Valid() && Decoding(cfg, s0, s, pend, k, i) && i < s.nactive
    ensures var e, pl := s.dev[i], cfg.pageLen; var n := e.seqlen - 1;
      && n >= 0 && 0 <= n / pl < |e.row| && Slot(e.row, n, pl) < |s.cells|
      && OnlyHits(cfg, s0, s.cells[Slot(e.row, n, pl) := c], k + 1)
  {
    RowIsBlocks(cfg, s, pend, i);
    assert LiveAt(cfg, s, pend, i);
    var e, pl := s.dev[i], cfg.pageLen;
    var n := e.seqlen - 1;
    hide Ok;
    MoreHits(cfg, s0, s.cells, if i == 0 then k else k + 1, k + 1);
    assert |All(s.lanes[i]) + pend[i]| == |All(s.lanes[i])| + k;
    assert Writes(cfg, s0, k + 1, i, n);
    assert Hit(cfg, s0, k + 1, Slot(e.row, n, pl));
  }

  /** Where lane i writes: in a block it owns, which no other lane owns. */
  lemma OwnBlock(cfg: Config, s: State, pend: seq<seq<Token>>, i: nat, j: nat, p: nat, q: nat)
    requires cfg.Valid() && Ok(cfg, s, pend) && i < |s.lanes| && j < |s.lanes| && (i, p) != (j, q)
    requires p < |s.lanes[i].blocks| * cfg.pageLen && q < |s.lanes[j].blocks| * cfg.pageLen
    ensures var pl := cfg.pageLen;
      && 0 <= p / pl < |s.lanes[i].blocks| && Slot(s.lanes[i].blocks, p, pl) < |s.cells|
      && 0 <= q / pl < |s.lanes[j].blocks| && Slot(s.lanes[j].blocks, q, pl) < |s.cells|
      && Slot(s.lanes[i].blocks, p, pl) != Slot(s.lanes[j].blocks, q, pl)
  {
    var a, b, pl := s.lanes[i].blocks, s.lanes[j].blocks, cfg.pageLen;
    assert Owns(s.free, cfg.nblocks, a) && Owns(s.free, cfg.nblocks, b) && Sched.Apart(s.lanes, i, j);
    Pages.FitsAll(cfg.nblocks, a, pl); Pages.FitsAll(cfg.nblocks, b, pl);
    SlotFits(|s.cells|, a, p, pl); SlotFits(|s.cells|, b, q, pl);
    assert a[p / pl] in ToSet(a) && b[q / pl] in ToSet(b);
    if Slot(a, p, pl) == Slot(b, q, pl) { SlotInjective(a, p, b, q, pl); }
  }
}
