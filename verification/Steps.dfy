// The state of the generator as a value, the invariant it keeps, and one lemma for
// each elementary change: killing or parking a lane, growing it by a block, admitting
// it, decoding one token in it, finishing its prefill, keeping its new tokens.
module Steps {
  import opened Basics
  import opened Seqs
  import opened Kv
  import opened Stops
  import opened Pages
  import opened Sched

  /** One row of the decoder's device tensors. */
  datatype Entry = Entry(token: Token, seqlen: nat, maxlen: nat, temp: int, topP: int, row: seq<nat>)
  {
    function Cleared(): Entry { Entry(token, 0, 0, 0, 0, Zeros(|row|)) }
  }

  /** lanes[..nactive] are decoding, the lanes after them are admitted but not yet prefilled. */
  datatype State = State(lanes: seq<LaneV>, nactive: nat, parked: seq<LaneV>, free: set<nat>, dev: seq<Entry>,
      cells: seq<Cell>)

  // ---------- what a lane may contain ----------

  /** Token k is what the model may answer to the tokens before it, computed afresh. */
  ghost predicate Sampled(cfg: Config, r: Request, toks: seq<Token>, k: nat)
    requires k < |toks|
  {
    exists noise: int ::
      toks[k] == cfg.m.pick(Cells(cfg.m, r.prompt + toks[..k]), cfg.Temp(r), cfg.TopP(r), noise)
  }

  ghost predicate Genuine(cfg: Config, r: Request, toks: seq<Token>) {
    forall k: nat {:trigger Sampled(cfg, r, toks, k)} :: k < |toks| ==> Sampled(cfg, r, toks, k)
  }

  lemma GenuineNext(cfg: Config, r: Request, toks: seq<Token>, t: Token, noise: int)
    requires Genuine(cfg, r, toks) && t == cfg.m.pick(Cells(cfg.m, r.prompt + toks), cfg.Temp(r), cfg.TopP(r), noise)
    ensures Genuine(cfg, r, toks + [t])
  {
    forall k: nat | k < |toks + [t]| ensures Sampled(cfg, r, toks + [t], k) {
      if k < |toks| {
        assert Sampled(cfg, r, toks, k) && (toks + [t])[..k] == toks[..k];
      } else {
        assert (toks + [t])[..k] == toks;
      }
    }
  }

  lemma GenuinePrefix(cfg: Config, r: Request, toks: seq<Token>, n: nat)
    requires Genuine(cfg, r, toks) && n <= |toks|
    ensures Genuine(cfg, r, toks[..n])
  {
    forall k: nat | k < n ensures Sampled(cfg, r, toks[..n], k) {
      assert Sampled(cfg, r, toks, k) && toks[..n][..k] == toks[..k];
    }
  }

  /** In an exact run, tokens are genuine. */
  ghost predicate Honest(cfg: Config, r: Request, toks: seq<Token>) {
    cfg.exact ==> Genuine(cfg, r, toks)
  }

  lemma HonestNext(cfg: Config, r: Request, toks: seq<Token>, t: Token, noise: int)
    requires Honest(cfg, r, toks)
    requires cfg.exact ==> t == cfg.m.pick(Cells(cfg.m, r.prompt + toks), cfg.Temp(r), cfg.TopP(r), noise)
    ensures Honest(cfg, r, toks + [t])
  {
    if cfg.exact { GenuineNext(cfg, r, toks, t, noise); }
  }

  /** In an exact run, the first n positions of a lane hold what a fresh, unpaged computation would give. */
  ghost predicate Right(cfg: Config, c: seq<Cell>, blocks: seq<nat>, toks: seq<Token>, n: nat) {
    cfg.pageLen > 0 && n <= |toks| && (cfg.exact ==> Holds(cfg.m, c, blocks, toks, n, cfg.pageLen))
  }

  /** Nothing so far ends the generation. */
  ghost predicate Settled(cfg: Config, r: Request, toks: seq<Token>) {
    && (forall t <- toks :: t !in cfg.stopTokens)
    && (r.stopStr.Some? ==> !Occurs(r.stopStr.value, Decode(cfg.text, toks)))
    && (toks != [] ==> |r.prompt| + |toks| < cfg.MaxLen(r))
  }

  ghost predicate Sound(cfg: Config, l: LaneV) {
    cfg.Accepts(l.req) && Honest(cfg, l.req, l.tokens) && Settled(cfg, l.req, l.tokens)
  }

  /** A lane that waits for its prefill; it fits a cache with nothing else in it. */
  ghost predicate Waiting(cfg: Config, l: LaneV) {
    Sound(cfg, l) && cfg.Fits(|All(l)|)
  }

  /** A lane that has run before fits; a packet may be too long. */
  ghost predicate Parked(cfg: Config, l: LaneV) {
    Sound(cfg, l) && l.blocks == [] && (l.tokens != [] ==> cfg.Fits(|All(l)|))
  }

  ghost predicate Admitted(cfg: Config, l: LaneV) {
    Waiting(cfg, l) && |All(l)| + 128 <= |l.blocks| * cfg.pageLen && |l.blocks| <= cfg.MostBlocks(l.req)
  }

  /**
   * An active lane whose last tokens, got, are not yet in its token list: it has the blocks it was
   * admitted with, the device knows its length and last token, its block table row starts with its
   * blocks, and its cells are right for all tokens but the last.
   */
  ghost predicate Live(cfg: Config, cells: seq<Cell>, l: LaneV, got: seq<Token>, e: Entry) {
    var full := All(l) + got;
    && Sound(cfg, l) && Honest(cfg, l.req, l.tokens + got) && l.tokens + got != []
    && |full| <= |l.blocks| * cfg.pageLen && |l.blocks| <= cfg.MostBlocks(l.req) && l.blocks <= e.row
    && |l.req.prompt| + 128 <= |l.blocks| * cfg.pageLen
    && e.seqlen == |full| && e.token == full[|full| - 1]
    && e.maxlen == cfg.MaxLen(l.req) && e.temp == cfg.Temp(l.req) && e.topP == cfg.TopP(l.req)
    && Right(cfg, cells, l.blocks, full, |full| - 1)
  }

  ghost predicate LiveAt(cfg: Config, s: State, pend: seq<seq<Token>>, i: nat)
    requires i < |s.lanes| && i < |pend| && i < |s.dev|
  {
    Live(cfg, s.cells, s.lanes[i], pend[i], s.dev[i])
  }

  ghost predicate AdmittedAt(cfg: Config, s: State, i: nat)
    requires i < |s.lanes|
  {
    Admitted(cfg, s.lanes[i])
  }

  ghost predicate Shape(cfg: Config, s: State) {
    && s.nactive <= |s.lanes| <= cfg.maxBatch && |s.dev| == cfg.maxBatch
    && |s.cells| == cfg.nblocks * cfg.pageLen
    && (forall i :: 0 <= i < |s.dev| ==> |s.dev[i].row| == cfg.nblocks)
    // the decoder takes a maximum over all entries
    && (forall i :: s.nactive <= i < |s.dev| ==> s.dev[i].seqlen == 0)
  }

  /** The invariant; pend[i] are the tokens of active lane i not yet in its token list. */
  ghost predicate Ok(cfg: Config, s: State, pend: seq<seq<Token>>) {
    && Shape(cfg, s) && |pend| == s.nactive
    && Partition(s.free, s.lanes, cfg.nblocks)
    && (forall i: nat {:trigger LiveAt(cfg, s, pend, i)} :: i < s.nactive ==> LiveAt(cfg, s, pend, i))
    && (forall i: nat {:trigger AdmittedAt(cfg, s, i)} :: s.nactive <= i < |s.lanes| ==> AdmittedAt(cfg, s, i))
    && (forall l <- s.parked :: Parked(cfg, l))
  }

  lemma LanesFit(cfg: Config, s: State, pend: seq<seq<Token>>)
    requires Ok(cfg, s, pend)
    ensures s.nactive <= |s.lanes| <= cfg.maxBatch == |s.dev| && |pend| == s.nactive
  {
  }

  lemma PendSize(cfg: Config, s: State, pend: seq<seq<Token>>)
    requires Ok(cfg, s, pend)
    ensures |pend| == s.nactive
  {
  }

  /** What holds of an exact run holds of a run not claimed exact. */
  lemma LooseOk(cfg: Config, s: State, pend: seq<seq<Token>>)
    requires Ok(cfg, s, pend)
    ensures Ok(cfg.(exact := false), s, pend)
  {
    var loose := cfg.(exact := false);
    forall k: nat | k < s.nactive ensures LiveAt(loose, s, pend, k) {
      assert LiveAt(cfg, s, pend, k);
      LooseSound(cfg, s.lanes[k]);
    }
    forall k: nat | s.nactive <= k < |s.lanes| ensures AdmittedAt(loose, s, k) {
      assert AdmittedAt(cfg, s, k);
      LooseSound(cfg, s.lanes[k]);
    }
    forall l | l in s.parked ensures Parked(loose, l) { LooseSound(cfg, l); }
  }

  lemma LooseSound(cfg: Config, l: LaneV)
    requires Sound(cfg, l)
    ensures Sound(cfg.(exact := false), l)
  {
  }

  // ---------- killing and parking ----------

  ghost function Kill(s: State, i: nat, park: bool): State
    requires i < |s.lanes| == s.nactive <= |s.dev|
  {
    var last := s.nactive - 1;
    var l := s.lanes[i];
    State(Drop(s.lanes, i), last,
      if park then s.parked + [l.(blocks := [])] else s.parked,
      s.free + ToSet(l.blocks),
      s.dev[i := s.dev[last]][last := s.dev[last].Cleared()],
      s.cells)
  }

  lemma KillSize(s: State, i: nat, park: bool)
    requires i < |s.lanes| == s.nactive <= |s.dev|
    ensures |Kill(s, i, park).lanes| == Kill(s, i, park).nactive == s.nactive - 1
  {
  }

  lemma KillOk(cfg: Config, s: State, pend: seq<seq<Token>>, i: nat, park: bool)
    requires Ok(cfg, s, pend) && i < |s.lanes| == s.nactive
    requires park ==> |All(s.lanes[i])| + 128 <= cfg.maxSeq
    ensures Ok(cfg, Kill(s, i, park), Drop(pend, i))
  {
    var s', pend', last := Kill(s, i, park), Drop(pend, i), s.nactive - 1;
    PartitionKill(s.free, s.lanes, cfg.nblocks, i);
    assert LiveAt(cfg, s, pend, i);
    forall k: nat | k < s'.nactive ensures LiveAt(cfg, s', pend', k) {
      assert LiveAt(cfg, s, pend, if k == i then last else k);
    }
  }

  // ---------- growing ----------

  ghost function Grow(s: State, i: nat, bid: nat): State
    requires i < |s.lanes| && i < |s.dev| && |s.lanes[i].blocks| < |s.dev[i].row|
  {
    var l, e := s.lanes[i], s.dev[i];
    s.(lanes := s.lanes[i := l.(blocks := l.blocks + [bid])], free := s.free - {bid},
       dev := s.dev[i := e.(row := e.row[|l.blocks| := bid])])
  }

  lemma GrowOk(cfg: Config, s: State, pend: seq<seq<Token>>, i: nat, bid: nat)
    requires Ok(cfg, s, pend) && i < s.nactive && bid in s.free && |s.lanes[i].blocks| < cfg.MostBlocks(s.lanes[i].req)
    ensures |s.lanes[i].blocks| < |s.dev[i].row| && Ok(cfg, Grow(s, i, bid), pend)
  {
    PartitionGrow(s.free, s.lanes, cfg.nblocks, i, bid);
    var s' := Grow(s, i, bid);
    forall k: nat | k < s'.nactive ensures LiveAt(cfg, s', pend, k) {
      assert LiveAt(cfg, s, pend, k);
      if k == i {
        var l, full := s.lanes[i], All(s.lanes[i]) + pend[i];
        MulMono(|l.blocks|, |l.blocks| + 1, cfg.pageLen);
        if cfg.exact { MoreBlocks(cfg.m, s.cells, l.blocks, s'.lanes[i].blocks, full, |full| - 1, cfg.pageLen); }
      }
    }
    forall k: nat | s'.nactive <= k < |s'.lanes| ensures AdmittedAt(cfg, s', k) { assert AdmittedAt(cfg, s, k); }
  }

  // ---------- admitting ----------

  ghost function Admit(s: State, l: LaneV, rest: set<nat>): State {
    s.(lanes := s.lanes + [l], free := rest)
  }

  lemma AdmitOk(cfg: Config, s: State, pend: seq<seq<Token>>, l: LaneV, rest: set<nat>)
    requires Ok(cfg, s, pend) && |s.lanes| < cfg.maxBatch && Admitted(cfg, l) && NoDup(l.blocks)
    requires s.free == ToSet(l.blocks) + rest && ToSet(l.blocks) !! rest
    ensures Ok(cfg, Admit(s, l, rest), pend)
  {
    PartitionAdmit(s.free, s.lanes, cfg.nblocks, l, rest);
    var s' := Admit(s, l, rest);
    forall k: nat | k < s'.nactive ensures LiveAt(cfg, s', pend, k) { assert LiveAt(cfg, s, pend, k); }
    forall k: nat | s'.nactive <= k < |s'.lanes| ensures AdmittedAt(cfg, s', k) {
      if k < |s.lanes| { assert AdmittedAt(cfg, s, k); }
    }
  }

  /** The last admitted lane goes back to the front of the parking. */
  ghost function Undo(s: State): State
    requires s.lanes != []
  {
    var last := |s.lanes| - 1;
    var l := s.lanes[last];
    s.(lanes := s.lanes[..last], parked := [l.(blocks := [])] + s.parked, free := s.free + ToSet(l.blocks))
  }

  lemma UndoOk(cfg: Config, s: State, pend: seq<seq<Token>>)
    requires Ok(cfg, s, pend) && s.nactive < |s.lanes|
    ensures Ok(cfg, Undo(s), pend)
  {
    var last, s' := |s.lanes| - 1, Undo(s);
    PartitionKill(s.free, s.lanes, cfg.nblocks, last);
    assert Drop(s.lanes, last) == s'.lanes;
    assert AdmittedAt(cfg, s, last);
    forall k: nat | k < s'.nactive ensures LiveAt(cfg, s', pend, k) { assert LiveAt(cfg, s, pend, k); }
    forall k: nat | s'.nactive <= k < |s'.lanes| ensures AdmittedAt(cfg, s', k) { assert AdmittedAt(cfg, s, k); }
  }

  // ---------- writing cells ----------

  /** A write in a block of lane i leaves every other active lane alone. */
  lemma OthersLive(cfg: Config, s: State, pend: seq<seq<Token>>, i: nat, b: nat, cells: seq<Cell>, k: nat)
    requires Ok(cfg, s, pend) && i < |s.lanes| && b in s.lanes[i].blocks && SameOutside(s.cells, cells, b, cfg.pageLen)
    requires k < s.nactive && k != i
    ensures Live(cfg, cells, s.lanes[k], pend[k], s.dev[k])
  {
    assert LiveAt(cfg, s, pend, k) && Sched.Apart(s.lanes, i, k);
    assert b in ToSet(s.lanes[i].blocks) && b !in ToSet(s.lanes[k].blocks);
    var full := All(s.lanes[k]) + pend[k];
    if cfg.exact { Elsewhere(cfg.m, s.cells, cells, b, s.lanes[k].blocks, full, |full| - 1, cfg.pageLen); }
  }

  /** Writing in a block of an admitted lane. */
  lemma WriteOk(cfg: Config, s: State, pend: seq<seq<Token>>, i: nat, b: nat, cells: seq<Cell>)
    requires Ok(cfg, s, pend) && s.nactive <= i < |s.lanes| && b in s.lanes[i].blocks
    requires SameOutside(s.cells, cells, b, cfg.pageLen)
    ensures Ok(cfg, s.(cells := cells), pend)
  {
    var s' := s.(cells := cells);
    forall k: nat | k < s'.nactive ensures LiveAt(cfg, s', pend, k) { OthersLive(cfg, s, pend, i, b, cells, k); }
    forall k: nat | s'.nactive <= k < |s'.lanes| ensures AdmittedAt(cfg, s', k) { assert AdmittedAt(cfg, s, k); }
  }

  /** One decoding step in lane i: its last token's cell is written and a token is drawn. */
  ghost function DecodeStep(cfg: Config, s: State, i: nat, t: Token): State
    requires cfg.pageLen > 0 && i < |s.dev| && s.dev[i].seqlen > 0
    requires var n := s.dev[i].seqlen - 1;
      n / cfg.pageLen < |s.dev[i].row| && Slot(s.dev[i].row, n, cfg.pageLen) < |s.cells|
  {
    var e := s.dev[i];
    var n := e.seqlen - 1;
    s.(cells := s.cells[Slot(e.row, n, cfg.pageLen) := cfg.m.kv(ReadRow(s.cells, e.row, n, cfg.pageLen), e.token)],
       dev := s.dev[i := e.(token := t, seqlen := e.seqlen + 1)])
  }

  lemma RowIsBlocks(cfg: Config, s: State, pend: seq<seq<Token>>, i: nat)
    requires cfg.Valid() && Ok(cfg, s, pend) && i < s.nactive
    ensures var e, blocks, pl := s.dev[i], s.lanes[i].blocks, cfg.pageLen;
      && e.seqlen > 0 && |e.row| == cfg.nblocks && e.seqlen - 1 < |blocks| * pl
      && NoDup(blocks) && RowFits(|s.cells|, blocks, pl)
      && 0 <= (e.seqlen - 1) / pl < |blocks| && (e.seqlen - 1) / pl < |e.row|
      && e.row[(e.seqlen - 1) / pl] == blocks[(e.seqlen - 1) / pl]
      && Slot(e.row, e.seqlen - 1, pl) == Slot(blocks, e.seqlen - 1, pl) < |s.cells|
      && ReadRow(s.cells, e.row, e.seqlen - 1, pl) == ReadRow(s.cells, blocks, e.seqlen - 1, pl)
  {
    assert LiveAt(cfg, s, pend, i);
    var e, blocks, pl := s.dev[i], s.lanes[i].blocks, cfg.pageLen;
    assert Owns(s.free, cfg.nblocks, blocks);
    FitsAll(cfg.nblocks, blocks, pl);
    SlotFits(|s.cells|, blocks, e.seqlen - 1, pl);
    LongerRow(s.cells, blocks, e.row, e.seqlen - 1, pl);
  }

  /** The cells a decoding step writes, as the lane sees them. */
  lemma DecodeCells(cfg: Config, s: State, pend: seq<seq<Token>>, i: nat) returns (b: nat)
    requires cfg.Valid() && Ok(cfg, s, pend) && i < s.nactive
    ensures b in s.lanes[i].blocks
    ensures var e, l, pl := s.dev[i], s.lanes[i], cfg.pageLen;
      var full, n := All(l) + pend[i], e.seqlen - 1;
      && n >= 0 && 0 <= n / pl < |e.row| && Slot(e.row, n, pl) < |s.cells|
      && var cells := s.cells[Slot(e.row, n, pl) := cfg.m.kv(ReadRow(s.cells, e.row, n, pl), e.token)];
      && SameOutside(s.cells, cells, b, pl)
      && Right(cfg, cells, l.blocks, full, |full|)
      && (cfg.exact ==> ReadRow(cells, e.row, |full|, pl) == Cells(cfg.m, full))
  {
    RowIsBlocks(cfg, s, pend, i);
    assert LiveAt(cfg, s, pend, i);
    var e, l, pl := s.dev[i], s.lanes[i], cfg.pageLen;
    var full, n := All(l) + pend[i], e.seqlen - 1;
    var x := cfg.m.kv(ReadRow(s.cells, e.row, n, pl), e.token);
    var cells := s.cells[Slot(e.row, n, pl) := x];
    SlotInBlock(s.cells, x, l.blocks, n, pl);
    if cfg.exact {
      WriteNext(cfg.m, s.cells, l.blocks, full, n, pl);
      LongerRow(cells, l.blocks, e.row, |full|, pl);
      assert full[..|full|] == full;
    }
    b := l.blocks[n / pl];
  }

  /** The lane that took the step. */
  lemma DecodeSelf(cfg: Config, l: LaneV, pend: seq<Token>, e: Entry, cells: seq<Cell>, cells': seq<Cell>, t: Token,
      noise: int)
    requires Live(cfg, cells, l, pend, e) && |All(l) + pend| + 1 <= |l.blocks| * cfg.pageLen
    requires Right(cfg, cells', l.blocks, All(l) + pend, |All(l) + pend|)
    requires cfg.exact ==> t == cfg.m.pick(Cells(cfg.m, All(l) + pend), e.temp, e.topP, noise)
    ensures Live(cfg, cells', l, pend + [t], e.(token := t, seqlen := e.seqlen + 1))
  {
    var full := All(l) + pend;
    assert All(l) + (pend + [t]) == full + [t] && l.tokens + (pend + [t]) == l.tokens + pend + [t];
    assert full == l.req.prompt + (l.tokens + pend);
    HonestNext(cfg, l.req, l.tokens + pend, t, noise);
    if cfg.exact { MoreTokens(cfg.m, cells', l.blocks, full, full + [t], |full|, cfg.pageLen); }
  }

  lemma DecodeOk(cfg: Config, s: State, pend: seq<seq<Token>>, i: nat, t: Token, noise: int)
    requires cfg.Valid() && Ok(cfg, s, pend) && i < s.nactive
    requires |All(s.lanes[i]) + pend[i]| + 1 <= |s.lanes[i].blocks| * cfg.pageLen
    requires cfg.exact ==> t == cfg.m.pick(Cells(cfg.m, All(s.lanes[i]) + pend[i]), s.dev[i].temp, s.dev[i].topP, noise)
    ensures var n := s.dev[i].seqlen - 1;
      n >= 0 && n / cfg.pageLen < |s.dev[i].row| && Slot(s.dev[i].row, n, cfg.pageLen) < |s.cells|
    ensures Ok(cfg, DecodeStep(cfg, s, i, t), pend[i := pend[i] + [t]])
  {
    var b := DecodeCells(cfg, s, pend, i);
    assert LiveAt(cfg, s, pend, i);
    var e, pl := s.dev[i], cfg.pageLen;
    var n := e.seqlen - 1;
    var cells := s.cells[Slot(e.row, n, pl) := cfg.m.kv(ReadRow(s.cells, e.row, n, pl), e.token)];
    DecodeSelf(cfg, s.lanes[i], pend[i], e, s.cells, cells, t, noise);
    WrittenOk(cfg, s, pend, i, b, cells, e.(token := t, seqlen := e.seqlen + 1), pend[i] + [t]);
  }

  /** When lane i is live after a write in its own block, everything is. */
  lemma WrittenOk(cfg: Config, s: State, pend: seq<seq<Token>>, i: nat, b: nat, cells: seq<Cell>, e: Entry,
      p: seq<Token>)
    requires Ok(cfg, s, pend) && i < s.nactive && b in s.lanes[i].blocks && SameOutside(s.cells, cells, b, cfg.pageLen)
    requires |e.row| == cfg.nblocks && Live(cfg, cells, s.lanes[i], p, e)
    ensures Ok(cfg, s.(cells := cells, dev := s.dev[i := e]), pend[i := p])
  {
    var s', pend' := s.(cells := cells, dev := s.dev[i := e]), pend[i := p];
    forall k: nat | k < s'.nactive ensures LiveAt(cfg, s', pend', k) {
      if k != i { OthersLive(cfg, s, pend, i, b, cells, k); }
    }
    forall k: nat | s'.nactive <= k < |s'.lanes| ensures AdmittedAt(cfg, s', k) { assert AdmittedAt(cfg, s, k); }
  }

  // ---------- keeping new tokens ----------

  ghost function Append(s: State, i: nat, got: seq<Token>): State
    requires i < |s.lanes|
  {
    s.(lanes := s.lanes[i := s.lanes[i].(tokens := s.lanes[i].tokens + got)])
  }

  lemma AppendSelf(cfg: Config, cells: seq<Cell>, l: LaneV, got: seq<Token>, e: Entry)
    requires Live(cfg, cells, l, got, e) && Settled(cfg, l.req, l.tokens + got)
    ensures Live(cfg, cells, l.(tokens := l.tokens + got), [], e)
  {
    var l' := l.(tokens := l.tokens + got);
    assert All(l') + [] == All(l) + got && l'.tokens + [] == l.tokens + got;
  }

  lemma AppendOk(cfg: Config, s: State, pend: seq<seq<Token>>, i: nat)
    requires Ok(cfg, s, pend) && i < s.nactive && Settled(cfg, s.lanes[i].req, s.lanes[i].tokens + pend[i])
    ensures Ok(cfg, Append(s, i, pend[i]), pend[i := []])
  {
    var s', pend' := Append(s, i, pend[i]), pend[i := []];
    PartitionSame(s.free, s.lanes, s'.lanes, cfg.nblocks);
    forall k: nat | k < s'.nactive ensures LiveAt(cfg, s', pend', k) {
      assert LiveAt(cfg, s, pend, k);
      if k == i { AppendSelf(cfg, s.cells, s.lanes[i], pend[i], s.dev[i]); }
    }
    forall k: nat | s'.nactive <= k < |s'.lanes| ensures AdmittedAt(cfg, s', k) { assert AdmittedAt(cfg, s, k); }
  }

  // ---------- finishing a prefill ----------

  /** The block table row of an admitted lane is filled in. */
  ghost function Route(s: State, i: nat): State
    requires i < |s.lanes| && i < |s.dev| && |s.lanes[i].blocks| <= |s.dev[i].row|
  {
    var blocks, e := s.lanes[i].blocks, s.dev[i];
    s.(dev := s.dev[i := e.(row := blocks + e.row[|blocks|..])])
  }

  lemma RouteOk(cfg: Config, s: State, pend: seq<seq<Token>>, i: nat)
    requires Ok(cfg, s, pend) && s.nactive <= i < |s.lanes|
    ensures |s.lanes[i].blocks| <= |s.dev[i].row| && Ok(cfg, Route(s, i), pend)
  {
    BlocksBelow(s.free, s.lanes, cfg.nblocks, i);
    var s' := Route(s, i);
    forall k: nat | k < s'.nactive ensures LiveAt(cfg, s', pend, k) { assert LiveAt(cfg, s, pend, k); }
    forall k: nat | s'.nactive <= k < |s'.lanes| ensures AdmittedAt(cfg, s', k) { assert AdmittedAt(cfg, s, k); }
  }

  /** The cells of an admitted lane are right, and t is drawn from them. */
  ghost predicate Prefilled(cfg: Config, s: State, i: nat, t: Token)
    requires i < |s.lanes| && i < |s.dev|
  {
    var l := s.lanes[i];
    && l.blocks <= s.dev[i].row
    && Right(cfg, s.cells, l.blocks, All(l), |All(l)|)
    && (cfg.exact ==> exists noise: int ::
        t == cfg.m.pick(Cells(cfg.m, All(l)), cfg.Temp(l.req), cfg.TopP(l.req), noise))
  }

  ghost predicate PrefilledAt(cfg: Config, s: State, toks: seq<Token>, i: nat)
    requires s.nactive <= i < |s.lanes| <= |s.dev| && |toks| == |s.lanes| - s.nactive
  {
    Prefilled(cfg, s, i, toks[i - s.nactive])
  }

  function NewEntry(cfg: Config, l: LaneV, t: Token, row: seq<nat>): Entry {
    Entry(t, |All(l)| + 1, cfg.MaxLen(l.req), cfg.Temp(l.req), cfg.TopP(l.req), row)
  }

  /** All admitted lanes become active. */
  ghost function Activate(cfg: Config, s: State, toks: seq<Token>): State
    requires s.nactive <= |s.lanes| <= |s.dev| && |toks| == |s.lanes| - s.nactive
  {
    s.(nactive := |s.lanes|, dev := seq(|s.dev|, i requires 0 <= i < |s.dev| =>
      if s.nactive <= i < |s.lanes| then NewEntry(cfg, s.lanes[i], toks[i - s.nactive], s.dev[i].row) else s.dev[i]))
  }

  lemma ActivatedAt(cfg: Config, s: State, toks: seq<Token>, i: nat)
    requires s.nactive <= |s.lanes| <= |s.dev| && |toks| == |s.lanes| - s.nactive && i < |s.dev|
    ensures |Activate(cfg, s, toks).dev| == |s.dev|
    ensures Activate(cfg, s, toks).dev[i] ==
      if s.nactive <= i < |s.lanes| then NewEntry(cfg, s.lanes[i], toks[i - s.nactive], s.dev[i].row) else s.dev[i]
  {
  }

  function Singles(toks: seq<Token>): seq<seq<Token>> { seq(|toks|, i requires 0 <= i < |toks| => [toks[i]]) }

  lemma Activated(cfg: Config, s: State, l: LaneV, t: Token, row: seq<nat>)
    requires Admitted(cfg, l) && l.blocks <= row && Right(cfg, s.cells, l.blocks, All(l), |All(l)|)
    requires cfg.exact ==> exists noise: int ::
      t == cfg.m.pick(Cells(cfg.m, All(l)), cfg.Temp(l.req), cfg.TopP(l.req), noise)
    ensures Live(cfg, s.cells, l, [t], NewEntry(cfg, l, t, row))
  {
    if cfg.exact {
      var noise: int :| t == cfg.m.pick(Cells(cfg.m, All(l)), cfg.Temp(l.req), cfg.TopP(l.req), noise);
      GenuineNext(cfg, l.req, l.tokens, t, noise);
      MoreTokens(cfg.m, s.cells, l.blocks, All(l), All(l) + [t], |All(l)|, cfg.pageLen);
    }
  }

  lemma ActivateOk(cfg: Config, s: State, pend: seq<seq<Token>>, toks: seq<Token>)
    requires Ok(cfg, s, pend) && |toks| == |s.lanes| - s.nactive
    requires forall i: nat {:trigger PrefilledAt(cfg, s, toks, i)} ::
      s.nactive <= i < |s.lanes| ==> PrefilledAt(cfg, s, toks, i)
    ensures Ok(cfg, Activate(cfg, s, toks), pend + Singles(toks))
  {
    var s', pend' := Activate(cfg, s, toks), pend + Singles(toks);
    forall k: nat | k < s'.nactive ensures LiveAt(cfg, s', pend', k) {
      if k < s.nactive {
        assert LiveAt(cfg, s, pend, k);
      } else {
        assert AdmittedAt(cfg, s, k) && PrefilledAt(cfg, s, toks, k);
        Activated(cfg, s, s.lanes[k], toks[k - s.nactive], s.dev[k].row);
      }
    }
  }
}
