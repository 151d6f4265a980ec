// Pages on their way to host memory. page_out queues copies on a stream of their own, and
// they are known to be complete only at a sync point; a copy reads its block of the device
// cache whenever it runs. Here: which pages a copy brings, what moves a block to another
// lane while its copy is pending, and exactly when a late copy saves the wrong page.
module HostCopies {
  import opened Basics
  import opened Seqs
  import opened Kv
  import opened Pages
  import opened Sched
  import opened Steps
  import opened Evictions
  import opened Decodes
  import HostCaches

  type Node = HostCaches.Node
  type NodeId = HostCaches.NodeId
  type Place = HostCaches.Place

  /** From a block of the device cache to a buffer in host memory. */
  datatype Copy = Copy(block: nat, buf: HostCaches.BufId)

  /** The stream that copies to host memory, and whether an event that marks their end is still to be waited for. */
  class Stream {
    var copies: seq<Copy>
    var cacheReady: bool
    // the nodes whose buffers they fill
    ghost var owner: seq<NodeId>

    constructor ()
      ensures copies == [] && !cacheReady && owner == []
    {
      copies, cacheReady, owner := [], false, [];
    }
  }

  // ---------- what is in flight ----------

  /** The copy fills the buffer of node n and, in an exact run, brings n's page if it runs now. */
  ghost predicate Bound(cfg: Config, node: map<NodeId, Node>, place: map<NodeId, Place>, unfilled: set<NodeId>,
      cells: seq<Cell>,
      c: Copy, n: NodeId)
  {
    && n in unfilled && n in node && n in place && node[n].cache == c.buf
    && c.block * cfg.pageLen + cfg.pageLen <= |cells|
    && (cfg.exact ==> PageIs(cfg.m, cells, c.block, place[n].path, cfg.pageLen))
  }

  /**
   * Every pending copy is bound for the node that owns its buffer, and in an exact run every unfilled node
   * waits for one.
   */
  ghost predicate InFlight(cfg: Config, node: map<NodeId, Node>, place: map<NodeId, Place>, frozen: set<NodeId>,
      unfilled: set<NodeId>,
      cells: seq<Cell>, copies: seq<Copy>, owner: seq<NodeId>)
  {
    && |owner| == |copies|
    && (forall j: nat {:trigger copies[j]} {:trigger owner[j]} :: j < |copies| ==>
          Bound(cfg, node, place, unfilled, cells, copies[j], owner[j]))
    && (cfg.exact ==> forall n <- unfilled :: n in frozen || n in owner)
  }

  /** The first copy arrives; its node is filled unless another copy for it is still to come. */
  lemma FirstLands(cfg: Config, node: map<NodeId, Node>, place: map<NodeId, Place>, unfilled: set<NodeId>,
      cells: seq<Cell>, copies: seq<Copy>, owner: seq<NodeId>)
    requires InFlight(cfg, node, place, {}, unfilled, cells, copies, owner) && copies != []
    ensures |owner| == |copies|
    ensures var rest := if cfg.exact && owner[0] !in owner[1..] then unfilled - {owner[0]} else unfilled;
      InFlight(cfg, node, place, {}, rest, cells, copies[1..], owner[1..])
  {
    var rest := if cfg.exact && owner[0] !in owner[1..] then unfilled - {owner[0]} else unfilled;
    assert owner == [owner[0]] + owner[1..];
    forall j: nat | j < |copies| - 1 ensures Bound(cfg, node, place, rest, cells, copies[1..][j], owner[1..][j]) {
      assert Bound(cfg, node, place, unfilled, cells, copies[j + 1], owner[j + 1]);
      assert owner[1..][j] == owner[j + 1];
    }
  }

  /** One more copy is queued. */
  lemma OneQueued(cfg: Config, node: map<NodeId, Node>, place: map<NodeId, Place>, frozen: set<NodeId>,
      unfilled: set<NodeId>,
      cells: seq<Cell>, copies: seq<Copy>, owner: seq<NodeId>, c: Copy, n: NodeId)
    requires InFlight(cfg, node, place, frozen, unfilled, cells, copies, owner)
    requires Bound(cfg, node, place, unfilled, cells, c, n)
    ensures InFlight(cfg, node, place, frozen, unfilled, cells, copies + [c], owner + [n])
  {
  }

  lemma OneBerthed(cfg: Config, s: State, place: map<NodeId, Place>, copies: seq<Copy>, owner: seq<NodeId>, c: Copy,
      n: NodeId)
    requires AllBerthed(cfg, s, place, copies, owner) && n in place && Berthed(cfg, s, c.block, |place[n].path|)
    ensures AllBerthed(cfg, s, place, copies + [c], owner + [n])
  {
  }

  /** A sync completes them all: in an exact run no node is left unfilled. */
  lemma NoneInFlight(cfg: Config, node: map<NodeId, Node>, place: map<NodeId, Place>, unfilled: set<NodeId>,
      cells: seq<Cell>)
    requires InFlight(cfg, node, place, {}, unfilled, cells, [], [])
    ensures cfg.exact ==> unfilled == {}
  {
  }

  // ---------- where the pages come from ----------

  /** Block b is page n / pageLen - 1 of active lane i, and all its positions are below the lane's last token. */
  ghost predicate PageOf(cfg: Config, s: State, pend: seq<seq<Token>>, b: nat, n: nat, i: nat, k: nat) {
    && i < s.nactive <= |s.lanes| && i < |pend| && k < |s.lanes[i].blocks|
    && s.lanes[i].blocks[k] == b && n == (k + 1) * cfg.pageLen < |All(s.lanes[i]) + pend[i]|
  }

  ghost predicate Moored(cfg: Config, s: State, pend: seq<seq<Token>>, b: nat, n: nat) {
    exists i: nat, k: nat {:trigger PageOf(cfg, s, pend, b, n, i, k)} :: PageOf(cfg, s, pend, b, n, i, k)
  }

  /** All pending copies read pages of active lanes. */
  ghost predicate AllMoored(cfg: Config, s: State, pend: seq<seq<Token>>, place: map<NodeId, Place>, copies: seq<Copy>,
      owner: seq<NodeId>) {
    && |owner| == |copies|
    && (forall j: nat {:trigger copies[j]} {:trigger owner[j]} :: j < |copies| ==>
          owner[j] in place && Moored(cfg, s, pend, copies[j].block, |place[owner[j]].path|))
  }

  /** The same before the lanes are active: block b is a whole page of an admitted lane's tokens. */
  ghost predicate BerthAt(cfg: Config, s: State, b: nat, n: nat, i: nat, k: nat) {
    && s.nactive <= i < |s.lanes| && k < |s.lanes[i].blocks|
    && s.lanes[i].blocks[k] == b && n == (k + 1) * cfg.pageLen <= |All(s.lanes[i])|
  }

  ghost predicate Berthed(cfg: Config, s: State, b: nat, n: nat) {
    exists i: nat, k: nat {:trigger BerthAt(cfg, s, b, n, i, k)} :: BerthAt(cfg, s, b, n, i, k)
  }

  ghost predicate AllBerthed(cfg: Config, s: State, place: map<NodeId, Place>, copies: seq<Copy>, owner: seq<NodeId>) {
    && |owner| == |copies|
    && (forall j: nat {:trigger copies[j]} {:trigger owner[j]} :: j < |copies| ==>
          owner[j] in place && Berthed(cfg, s, copies[j].block, |place[owner[j]].path|))
  }

  // ---------- rewritten blocks ----------

  /** Within n decoding steps some active lane writes a cell of block b. */
  ghost predicate Struck(cfg: Config, s: State, n: nat, b: nat) {
    exists i: nat, p: nat {:trigger Writes(cfg, s, n, i, p)} ::
      i < s.nactive <= |s.lanes| && Writes(cfg, s, n, i, p) && s.lanes[i].blocks[p / cfg.pageLen] == b
  }

  /** No pending page is rewritten. */
  ghost predicate Spared(cfg: Config, s: State, n: nat, copies: seq<Copy>) {
    forall c <- copies :: !Struck(cfg, s, n, c.block)
  }

  /** A block that is not struck keeps its page. */
  lemma SparedPage(cfg: Config, s: State, cells: seq<Cell>, n: nat, b: nat, toks: seq<Token>)
    requires OnlyHits(cfg, s, cells, n) && !Struck(cfg, s, n, b) && PageIs(cfg.m, s.cells, b, toks, cfg.pageLen)
      && cfg.pageLen > 0
    ensures PageIs(cfg.m, cells, b, toks, cfg.pageLen)
  {
    var pl := cfg.pageLen;
    forall x: nat | b * pl <= x < b * pl + pl ensures cells[x] == s.cells[x] {
      if Hit(cfg, s, n, x) {
        var i: nat, p: nat :| i < s.nactive <= |s.lanes| && Writes(cfg, s, n, i, p)
          && x == Slot(s.lanes[i].blocks, p, pl);
        SlotParts(s.lanes[i].blocks[p / pl], p % pl, b, x - b * pl, pl);
        assert false;
      }
    }
    assert cells[b * pl..b * pl + pl] == s.cells[b * pl..b * pl + pl];
  }

  /** Cells of different positions differ. */
  ghost predicate Positional(m: Model) {
    forall c: seq<Cell>, t: Token, c': seq<Cell>, t': Token :: m.kv(c, t) == m.kv(c', t') ==> |c| == |c'|
  }

  lemma CellAt(m: Model, toks: seq<Token>, p: nat)
    requires p < |toks|
    ensures Cells(m, toks)[p] == m.kv(Cells(m, toks[..p]), toks[p])
  {
    CellsPrefix(m, toks, p + 1);
    assert toks[..p + 1] == toks[..p] + [toks[p]];
    CellsAppend(m, toks[..p], toks[p]);
    assert Cells(m, toks)[p] == Cells(m, toks)[..p + 1][p];
  }

  lemma SamePosition(m: Model, c: seq<Cell>, t: Token, c': seq<Cell>, t': Token)
    requires Positional(m) && m.kv(c, t) == m.kv(c', t')
    ensures |c| == |c'|
  {
  }

  lemma OtherPosition(m: Model, a: seq<Token>, p: nat, b: seq<Token>, q: nat)
    requires Positional(m) && p < |a| && q < |b| && p != q
    ensures Cells(m, a)[p] != Cells(m, b)[q]
  {
    CellAt(m, a, p); CellAt(m, b, q);
    if Cells(m, a)[p] == Cells(m, b)[q] { SamePosition(m, Cells(m, a[..p]), a[p], Cells(m, b[..q]), b[q]); }
  }

  /** A position of an active lane beyond the page that was to be saved has overwritten it. */
  lemma PageLost(cfg: Config, s: State, pend: seq<seq<Token>>, i: nat, p: nat, b: nat, toks: seq<Token>)
    requires cfg.Valid() && cfg.exact && Positional(cfg.m) && Ok(cfg, s, pend) && i < s.nactive
    requires p + 1 < |All(s.lanes[i]) + pend[i]| && 0 <= p / cfg.pageLen < |s.lanes[i].blocks|
      && s.lanes[i].blocks[p / cfg.pageLen] == b
    requires p >= |toks|
    ensures !PageIs(cfg.m, s.cells, b, toks, cfg.pageLen)
  {
    assert LiveAt(cfg, s, pend, i);
    var l, pl, o := s.lanes[i], cfg.pageLen, p % cfg.pageLen;
    var full := All(l) + pend[i];
    if PageIs(cfg.m, s.cells, b, toks, pl) {
      var q := |toks| - pl + o;
      assert s.cells[b * pl..b * pl + pl][o] == LastPage(cfg.m, toks, pl)[o] == Cells(cfg.m, toks)[q];
      assert ReadRow(s.cells, l.blocks, |full| - 1, pl)[p] == s.cells[b * pl + o];
      OtherPosition(cfg.m, full[..|full| - 1], p, toks, q);
    }
  }

  /** Where a struck block was page kk of lane j before preparation, the writer is beyond that page. */
  lemma StrikesBeyond(cfg: Config, s0: State, s: State, n: nat, i: nat, p: nat, b: nat, size: nat, j: nat, kk: nat)
    requires cfg.Valid() && AtRest(cfg, s0) && Handed(cfg, s0, s)
      && PageOf(cfg, s0, Empties(s0.nactive), b, size, j, kk)
    requires i < |s.lanes| && Writes(cfg, s, n, i, p) && s.lanes[i].blocks[p / cfg.pageLen] == b
    ensures p >= size && |All(s0.lanes[j])| <= p / cfg.pageLen * cfg.pageLen
  {
    var pl, k := cfg.pageLen, p / cfg.pageLen;
    assert All(s0.lanes[j]) + [] == All(s0.lanes[j]);
    assert Inherits(cfg, s0, s, i, k, j, kk);
    assert p == k * pl + p % pl;
    assert |All(s.lanes[i])| <= p + 1;
    if All(s.lanes[i]) == All(s0.lanes[j]) { LaterPage(p, kk, pl); }
  }

  lemma LaterPage(p: nat, kk: nat, pl: nat)
    requires pl > 0 && p >= (kk + 1) * pl
    ensures p / pl > kk
  {
    if p / pl <= kk { MulMono(p / pl + 1, kk + 1, pl); }
  }

  /**
   * A copy that runs at the sync after a preparation (s0 to s1) and n steps of decoding (s1 to s2)
   * saves the page it was queued for exactly when none of those steps writes in its block.
   */
  lemma LateCopy(cfg: Config, s0: State, s1: State, s2: State, pend: seq<seq<Token>>, n: nat, b: nat, toks: seq<Token>)
    requires cfg.Valid() && cfg.exact && Positional(cfg.m)
    requires AtRest(cfg, s0) && Steady(cfg, s0, s1) && Decoding(cfg, s1, s2, pend, n, 0)
    requires Moored(cfg, s0, Empties(s0.nactive), b, |toks|) && PageIs(cfg.m, s0.cells, b, toks, cfg.pageLen)
    ensures PageIs(cfg.m, s2.cells, b, toks, cfg.pageLen) <==> !Struck(cfg, s1, n, b)
  {
    if Struck(cfg, s1, n, b) {
      var j: nat, kk: nat :| PageOf(cfg, s0, Empties(s0.nactive), b, |toks|, j, kk);
      var i: nat, p: nat :| i < s1.nactive <= |s1.lanes| && Writes(cfg, s1, n, i, p)
        && s1.lanes[i].blocks[p / cfg.pageLen] == b;
      StrikesBeyond(cfg, s0, s1, n, i, p, b, |toks|, j, kk);
      DecodedFacts(cfg, s1, s2, pend, n);
      PageLost(cfg, s2, pend, i, p, b, toks);
    } else {
      SparedPage(cfg, s1, s2.cells, n, b, toks);
    }
  }

  /** As long as preparation parks nobody, no page is struck. */
  lemma NobodyParked(cfg: Config, s0: State, s1: State, n: nat, b: nat, size: nat)
    requires cfg.Valid() && AtRest(cfg, s0) && AtRest(cfg, s1) && Steady(cfg, s0, s1) && s1.parked == s0.parked
    requires Moored(cfg, s0, Empties(s0.nactive), b, size)
    ensures !Struck(cfg, s1, n, b)
  {
    var j: nat, kk: nat :| PageOf(cfg, s0, Empties(s0.nactive), b, size, j, kk);
    if Struck(cfg, s1, n, b) {
      var i: nat, p: nat :| i < s1.nactive <= |s1.lanes| && Writes(cfg, s1, n, i, p)
        && s1.lanes[i].blocks[p / cfg.pageLen] == b;
      StrikesBeyond(cfg, s0, s1, n, i, p, b, size, j, kk);
      assert All(s0.lanes[j]) + [] == All(s0.lanes[j]);
      hide AtRest, Handed, Outlived, AllLight;
      OnePlace(cfg, s1, b, i, p / cfg.pageLen, j, kk);
      PageEnd(kk, cfg.pageLen);
    }
  }

  /** A block is one page of one lane. */
  lemma OnePlace(cfg: Config, s: State, b: nat, i: nat, k: nat, j: nat, kk: nat)
    requires AtRest(cfg, s) && i < |s.lanes| && j < |s.lanes| && k < |s.lanes[i].blocks| && kk < |s.lanes[j].blocks|
    requires s.lanes[i].blocks[k] == b == s.lanes[j].blocks[kk]
    ensures i == j && k == kk
  {
    assert Sched.Apart(s.lanes, i, j) && Owns(s.free, cfg.nblocks, s.lanes[i].blocks);
    assert b in ToSet(s.lanes[i].blocks) && b in ToSet(s.lanes[j].blocks);
  }

  // ---------- what keeps copies bound and moored ----------

  /** tick: every node that was frozen waits for a copy. */
  lemma TickInFlight(cfg: Config, node: map<NodeId, Node>, place: map<NodeId, Place>, frozen: set<NodeId>,
      unfilled: set<NodeId>,
      cells: seq<Cell>, copies: seq<Copy>, owner: seq<NodeId>)
    requires InFlight(cfg, node, place, frozen, unfilled, cells, copies, owner) && forall n <- frozen :: n in owner
    ensures InFlight(cfg, node, place, {}, unfilled, cells, copies, owner)
  {
  }

  /** Decoding that spares every pending page. */
  lemma SparedInFlight(cfg: Config, s: State, n: nat, node: map<NodeId, Node>, place: map<NodeId, Place>,
      unfilled: set<NodeId>,
      cells: seq<Cell>, copies: seq<Copy>, owner: seq<NodeId>)
    requires cfg.pageLen > 0 && InFlight(cfg, node, place, {}, unfilled, s.cells, copies, owner)
    requires OnlyHits(cfg, s, cells, n) && Spared(cfg, s, n, copies)
    ensures InFlight(cfg, node, place, {}, unfilled, cells, copies, owner)
  {
    forall j: nat | j < |copies| ensures Bound(cfg, node, place, unfilled, cells, copies[j], owner[j]) {
      assert Bound(cfg, node, place, unfilled, s.cells, copies[j], owner[j]);
      assert copies[j] in copies;
      if cfg.exact { SparedPage(cfg, s, cells, n, copies[j].block, place[owner[j]].path); }
    }
  }

  /** A run that is no longer claimed exact asks less of its copies. */
  lemma LooseInFlight(cfg: Config, node: map<NodeId, Node>, place: map<NodeId, Place>, unfilled: set<NodeId>,
      cells: seq<Cell>, cells': seq<Cell>, copies: seq<Copy>, owner: seq<NodeId>)
    requires InFlight(cfg, node, place, {}, unfilled, cells, copies, owner) && |cells'| == |cells|
    ensures InFlight(cfg.(exact := false), node, place, {}, unfilled, cells', copies, owner)
  {
    forall j: nat | j < |copies|
      ensures Bound(cfg.(exact := false), node, place, unfilled, cells', copies[j], owner[j]) {
      assert Bound(cfg, node, place, unfilled, cells, copies[j], owner[j]);
    }
  }

  lemma MooredRest(cfg: Config, s: State, pend: seq<seq<Token>>, place: map<NodeId, Place>, copies: seq<Copy>,
      owner: seq<NodeId>)
    requires AllMoored(cfg, s, pend, place, copies, owner) && copies != []
    ensures AllMoored(cfg, s, pend, place, copies[1..], owner[1..])
  {
    forall j: nat | j < |copies| - 1
      ensures owner[1..][j] in place && Moored(cfg, s, pend, copies[1..][j].block, |place[owner[1..][j]].path|)
    {
      assert copies[1..][j] == copies[j + 1] && owner[1..][j] == owner[j + 1];
    }
  }

  /** Once the admitted lanes are active, each with a token drawn, berths are moorings. */
  lemma ActivateMoors(cfg: Config, s: State, pend: seq<seq<Token>>, toks: seq<Token>, place: map<NodeId, Place>,
      copies: seq<Copy>, owner: seq<NodeId>)
    requires s.nactive <= |s.lanes| <= |s.dev| && |toks| == |s.lanes| - s.nactive && |pend| == s.nactive
    requires AllBerthed(cfg, s, place, copies, owner)
    ensures AllMoored(cfg, Activate(cfg, s, toks), pend + Singles(toks), place, copies, owner)
  {
    var s', pend' := Activate(cfg, s, toks), pend + Singles(toks);
    forall j: nat | j < |copies| ensures Moored(cfg, s', pend', copies[j].block, |place[owner[j]].path|) {
      var b, n := copies[j].block, |place[owner[j]].path|;
      assert owner[j] in place;
      var i: nat, k: nat :| BerthAt(cfg, s, b, n, i, k);
      assert |pend'[i]| == 1;
      assert PageOf(cfg, s', pend', b, n, i, k);
    }
  }

  /** A lane that keeps its new tokens. */
  lemma AppendMoors(cfg: Config, s: State, pend: seq<seq<Token>>, i: nat, place: map<NodeId, Place>, copies: seq<Copy>,
      owner: seq<NodeId>)
    requires i < |s.lanes| && i < |pend| && AllMoored(cfg, s, pend, place, copies, owner)
    ensures AllMoored(cfg, Append(s, i, pend[i]), pend[i := []], place, copies, owner)
  {
    var s', pend' := Append(s, i, pend[i]), pend[i := []];
    forall j: nat | j < |copies| ensures Moored(cfg, s', pend', copies[j].block, |place[owner[j]].path|) {
      var b, n := copies[j].block, |place[owner[j]].path|;
      assert owner[j] in place;
      var i0: nat, k: nat :| PageOf(cfg, s, pend, b, n, i0, k);
      assert All(s'.lanes[i]) == All(s.lanes[i]) + pend[i];
      assert PageOf(cfg, s', pend', b, n, i0, k);
    }
  }

  /** As long as preparation parks nobody, it spares every pending page. */
  lemma NobodyParkedSpares(cfg: Config, s0: State, s1: State, n: nat, place: map<NodeId, Place>, copies: seq<Copy>,
      owner: seq<NodeId>)
    requires cfg.Valid() && AtRest(cfg, s0) && AtRest(cfg, s1) && Steady(cfg, s0, s1) && s1.parked == s0.parked
    requires AllMoored(cfg, s0, Empties(s0.nactive), place, copies, owner)
    ensures Spared(cfg, s1, n, copies)
  {
    forall c | c in copies ensures !Struck(cfg, s1, n, c.block) {
      var j: nat :| j < |copies| && copies[j] == c;
      assert owner[j] in place;
      NobodyParked(cfg, s0, s1, n, c.block, |place[owner[j]].path|);
    }
  }

  lemma SteadyFacts(cfg: Config, s0: State, s1: State)
    requires Steady(cfg, s0, s1)
    ensures s1.cells == s0.cells && (AllLight(cfg, s0.lanes) ==> s1.parked == s0.parked)
  {
  }

  lemma SameLight(cfg: Config, conf: Config, ls: seq<LaneV>)
    requires cfg == conf.(exact := cfg.exact) && AllLight(conf, ls)
    ensures AllLight(cfg, ls)
  {
    forall l | l in ls ensures cfg.Light(l.req) {
      assert conf.Light(l.req) && conf.MaxLen(l.req) == cfg.MaxLen(l.req);
    }
  }

  /** A round in which no copy is pending, or every lane is light, spares every pending page. */
  lemma LightSpares(cfg: Config, conf: Config, s0: State, s1: State, n: nat, place: map<NodeId, Place>,
      copies: seq<Copy>, owner: seq<NodeId>)
    requires cfg.Valid() && cfg == conf.(exact := cfg.exact) && AtRest(cfg, s0) && AtRest(cfg, s1)
      && Steady(cfg, s0, s1)
    requires AllMoored(cfg, s0, Empties(s0.nactive), place, copies, owner)
    ensures copies == [] || AllLight(conf, s0.lanes) ==> Spared(cfg, s1, n, copies)
  {
    if AllLight(conf, s0.lanes) {
      SameLight(cfg, conf, s0.lanes);
      SteadyFacts(cfg, s0, s1);
      hide AtRest, Steady, AllMoored, Spared, AllLight;
      NobodyParkedSpares(cfg, s0, s1, n, place, copies, owner);
    }
  }
}
