// `_prefill` on values: the plan that splits the new tokens into chunks, and how the
// cells of the admitted lanes fill up.
module Prefills {
  import opened Basics
  import opened Seqs
  import opened Kv
  import opened Pages
  import opened Sched
  import opened Steps
  import HostCaches

  // ---------- filling lanes ----------

  /** The first fill[j] positions of the j-th admitted lane are right. */
  ghost predicate FilledAt(cfg: Config, s: State, fill: seq<nat>, j: nat)
    requires j < |fill| && s.nactive + j < |s.lanes|
  {
    var l := s.lanes[s.nactive + j];
    Right(cfg, s.cells, l.blocks, All(l), fill[j])
  }

  /** Since s0 only cells of admitted lanes have changed. */
  ghost predicate Loading(cfg: Config, s0: State, s: State, pend: seq<seq<Token>>, fill: seq<nat>) {
    && cfg.Valid() && Ok(cfg, s, pend) && s == s0.(cells := s.cells) && s.nactive + |fill| == |s.lanes|
    && (forall j: nat {:trigger FilledAt(cfg, s, fill, j)} :: j < |fill| ==> FilledAt(cfg, s, fill, j))
  }

  lemma StartLoading(cfg: Config, s: State, pend: seq<seq<Token>>)
    requires cfg.Valid() && Ok(cfg, s, pend)
    ensures Loading(cfg, s, s, pend, Zeros(|s.lanes| - s.nactive))
  {
    var fill := Zeros(|s.lanes| - s.nactive);
    forall j: nat | j < |fill| ensures FilledAt(cfg, s, fill, j) {
      var l := s.lanes[s.nactive + j];
      Nothing(cfg.m, s.cells, l.blocks, All(l), cfg.pageLen);
    }
  }

  lemma LoadingSize(cfg: Config, s0: State, s: State, pend: seq<seq<Token>>, fill: seq<nat>)
    requires Loading(cfg, s0, s, pend, fill)
    ensures s.nactive + |fill| == |s.lanes| <= |s.dev| && cfg.pageLen > 0
    ensures s.nactive == s0.nactive && s.lanes == s0.lanes
  {
  }

  lemma LaneHolds(cfg: Config, s0: State, s: State, pend: seq<seq<Token>>, fill: seq<nat>, j: nat)
    requires Loading(cfg, s0, s, pend, fill) && j < |fill|
    ensures var l := s.lanes[s.nactive + j]; Right(cfg, s.cells, l.blocks, All(l), fill[j])
  {
    assert FilledAt(cfg, s, fill, j);
  }

  /** Forgetting that some positions are already right. */
  lemma ForgetSome(cfg: Config, s0: State, s: State, pend: seq<seq<Token>>, fill: seq<nat>, j: nat, n: nat)
    requires Loading(cfg, s0, s, pend, fill) && j < |fill| && n <= fill[j]
    ensures Loading(cfg, s0, s, pend, fill[j := n])
  {
    var fill' := fill[j := n];
    forall k: nat | k < |fill'| ensures FilledAt(cfg, s, fill', k) {
      assert FilledAt(cfg, s, fill, k);
      if k == j {
        var l := s.lanes[s.nactive + j];
        if cfg.exact { Fewer(cfg.m, s.cells, l.blocks, All(l), fill[j], n, cfg.pageLen); }
      }
    }
  }

  /** A write in a block of the j-th admitted lane. */
  lemma LoadWrite(cfg: Config, s0: State, s: State, pend: seq<seq<Token>>, fill: seq<nat>, j: nat, b: nat,
      cells: seq<Cell>, n: nat)
    requires Loading(cfg, s0, s, pend, fill) && j < |fill|
    requires var l := s.lanes[s.nactive + j];
      b in l.blocks && SameOutside(s.cells, cells, b, cfg.pageLen) && Right(cfg, cells, l.blocks, All(l), n)
    ensures Loading(cfg, s0, s.(cells := cells), pend, fill[j := n])
  {
    var s', fill', i := s.(cells := cells), fill[j := n], s.nactive + j;
    WriteOk(cfg, s, pend, i, b, cells);
    forall k: nat | k < |fill'| ensures FilledAt(cfg, s', fill', k) {
      if k != j {
        assert FilledAt(cfg, s, fill, k) && Sched.Apart(s.lanes, i, s.nactive + k);
        assert b in ToSet(s.lanes[i].blocks) && b !in ToSet(s.lanes[s.nactive + k].blocks);
        var l := s.lanes[s.nactive + k];
        if cfg.exact { Elsewhere(cfg.m, s.cells, cells, b, l.blocks, All(l), fill[k], cfg.pageLen); }
      }
    }
  }

  lemma AdmittedBlocks(cfg: Config, s0: State, s: State, pend: seq<seq<Token>>, fill: seq<nat>, j: nat)
    requires Loading(cfg, s0, s, pend, fill) && j < |fill|
    ensures var l := s.lanes[s.nactive + j];
      && NoDup(l.blocks) && RowFits(|s.cells|, l.blocks, cfg.pageLen) && |All(l)| + 128 <= |l.blocks| * cfg.pageLen
      && All(l) != [] && |All(l)| + 128 <= cfg.maxSeq && fill[j] <= |All(l)|
  {
    assert AdmittedAt(cfg, s, s.nactive + j) && FilledAt(cfg, s, fill, j);
    var l := s.lanes[s.nactive + j];
    assert Owns(s.free, cfg.nblocks, l.blocks);
    FitsAll(cfg.nblocks, l.blocks, cfg.pageLen);
  }

  /** The next token of an admitted lane. */
  lemma LoadNext(cfg: Config, s0: State, s: State, pend: seq<seq<Token>>, fill: seq<nat>, j: nat)
    requires Loading(cfg, s0, s, pend, fill) && j < |fill|
    requires var l := s.lanes[s.nactive + j]; fill[j] < |All(l)|
    ensures var l, p, pl := s.lanes[s.nactive + j], fill[j], cfg.pageLen;
      && 0 <= p / pl < |l.blocks| && Slot(l.blocks, p, pl) < |s.cells|
      && Loading(cfg, s0,
          s.(cells := s.cells[Slot(l.blocks, p, pl) := cfg.m.kv(ReadRow(s.cells, l.blocks, p, pl), All(l)[p])]), pend,
            fill[j := p + 1])
  {
    AdmittedBlocks(cfg, s0, s, pend, fill, j);
    assert FilledAt(cfg, s, fill, j);
    var l, p, pl := s.lanes[s.nactive + j], fill[j], cfg.pageLen;
    SlotFits(|s.cells|, l.blocks, p, pl);
    var x := cfg.m.kv(ReadRow(s.cells, l.blocks, p, pl), All(l)[p]);
    var cells := s.cells[Slot(l.blocks, p, pl) := x];
    SlotInBlock(s.cells, x, l.blocks, p, pl);
    if cfg.exact { WriteNext(cfg.m, s.cells, l.blocks, All(l), p, pl); }
    LoadWrite(cfg, s0, s, pend, fill, j, l.blocks[p / pl], cells, p + 1);
  }

  /** One page copied in from the host. */
  lemma LoadPage(cfg: Config, s0: State, s: State, pend: seq<seq<Token>>, fill: seq<nat>, j: nat, k: nat, n: nat,
      cells: seq<Cell>)
    requires Loading(cfg, s0, s, pend, fill) && j < |fill| && fill[j] == n == k * cfg.pageLen
    requires var l := s.lanes[s.nactive + j];
      && k < |l.blocks| && n + cfg.pageLen <= |All(l)| && SameOutside(s.cells, cells, l.blocks[k], cfg.pageLen)
      && l.blocks[k] * cfg.pageLen + cfg.pageLen <= |s.cells|
      && (cfg.exact ==> PageIs(cfg.m, cells, l.blocks[k], All(l)[..n + cfg.pageLen], cfg.pageLen))
    ensures Loading(cfg, s0, s.(cells := cells), pend, fill[j := n + cfg.pageLen])
  {
    AdmittedBlocks(cfg, s0, s, pend, fill, j);
    assert FilledAt(cfg, s, fill, j);
    var l := s.lanes[s.nactive + j];
    if cfg.exact { PageArrives(cfg.m, s.cells, cells, l.blocks, All(l), k, n, cfg.pageLen); }
    LoadWrite(cfg, s0, s, pend, fill, j, l.blocks[k], cells, n + cfg.pageLen);
  }

  // ---------- the plan ----------

  /** One entry of seq_info: where the piece starts and how many tokens it has. */
  datatype Piece = Piece(cached: nat, ntoks: nat)

  /** The tokens of each admitted lane. */
  function News(s: State): seq<seq<Token>>
    requires s.nactive <= |s.lanes|
  {
    seq(|s.lanes| - s.nactive, j requires 0 <= j < |s.lanes| - s.nactive => All(s.lanes[s.nactive + j]))
  }

  lemma NewsNext(s: State, n: nat)
    requires s.nactive + n < |s.lanes|
    ensures |News(s)| == |s.lanes| - s.nactive && News(s)[..n + 1] == News(s)[..n] + [All(s.lanes[s.nactive + n])]
  {
  }

  lemma NewsSize(s: State)
    requires s.nactive <= |s.lanes|
    ensures |News(s)| == |s.lanes| - s.nactive
  {
  }

  lemma NewsAt(s: State, j: nat)
    requires s.nactive + j < |s.lanes|
    ensures j < |News(s)| && News(s)[j] == All(s.lanes[s.nactive + j])
  {
  }

  lemma NewsSame(s: State, s': State)
    requires s.nactive == s'.nactive <= |s.lanes| && s'.lanes == s.lanes
    ensures News(s') == News(s)
  {
  }

  /** What remains of lane j is a non-empty stretch of the token list, followed by the next lane's. */
  ghost predicate PlanAt(toks: seq<seq<Token>>, infos: seq<Piece>, starts: seq<nat>, list: seq<Token>, j: nat)
    requires j < |infos| == |starts| && |infos| <= |toks|
  {
    var p, b := infos[j], starts[j];
    && p.ntoks >= 1 && p.cached + p.ntoks == |toks[j]| && b + p.ntoks <= |list|
    && list[b..b + p.ntoks] == toks[j][p.cached..]
    && b + p.ntoks == if j + 1 < |starts| then starts[j + 1] else |list|
  }

  ghost predicate Plan(toks: seq<seq<Token>>, infos: seq<Piece>, starts: seq<nat>, list: seq<Token>, f: nat) {
    && |starts| == |infos| && |infos| <= |toks|
    && (forall j: nat {:trigger PlanAt(toks, infos, starts, list, j)} ::
        f <= j < |infos| ==> PlanAt(toks, infos, starts, list, j))
  }

  /** One more lane joins the plan. */
  lemma PlanLane(toks: seq<seq<Token>>, infos: seq<Piece>, starts: seq<nat>, list: seq<Token>, cached: nat)
    requires Plan(toks, infos, starts, list, 0) && |infos| < |toks| && cached < |toks[|infos|]|
    requires infos == [] ==> list == []
    ensures var t := toks[|infos|];
      Plan(toks, infos + [Piece(cached, |t| - cached)], starts + [|list|], list + t[cached..], 0)
  {
    var t := toks[|infos|];
    var infos', starts', list' := infos + [Piece(cached, |t| - cached)], starts + [|list|], list + t[cached..];
    forall j: nat | j < |infos'| ensures PlanAt(toks, infos', starts', list', j) {
      if j < |infos| {
        assert PlanAt(toks, infos, starts, list, j);
        var b, e := starts[j], starts[j] + infos[j].ntoks;
        assert list'[b..e] == list[b..e];
      }
    }
  }

  /** A call of the model: consecutive pieces of consecutive lanes. */
  ghost predicate PieceAt(toks: seq<seq<Token>>, f: nat, infos: seq<Piece>, part: seq<Token>, offs: seq<nat>, k: nat)
    requires k < |infos| && |offs| == |infos| + 1 && f + |infos| <= |toks|
  {
    var p := infos[k];
    && offs[k + 1] == offs[k] + p.ntoks <= |part| && p.cached + p.ntoks <= |toks[f + k]|
    && part[offs[k]..offs[k + 1]] == toks[f + k][p.cached..p.cached + p.ntoks]
  }

  /** The pieces add up to the tokens of the call. */
  ghost predicate Chunk(toks: seq<seq<Token>>, f: nat, infos: seq<Piece>, part: seq<Token>, offs: seq<nat>) {
    && |offs| == |infos| + 1 && f + |infos| <= |toks|
    && offs[0] == 0 && offs[|infos|] == |part|
    && (forall k: nat {:trigger PieceAt(toks, f, infos, part, offs, k)} ::
        k < |infos| ==> PieceAt(toks, f, infos, part, offs, k))
  }

  lemma ChunkStart(toks: seq<seq<Token>>, f: nat, infos: seq<Piece>, part: seq<Token>, offs: seq<nat>)
    requires Chunk(toks, f, infos, part, offs)
    ensures |offs| == |infos| + 1 && offs[0] == 0
  {
  }

  lemma PieceFacts(toks: seq<seq<Token>>, f: nat, infos: seq<Piece>, part: seq<Token>, offs: seq<nat>, k: nat)
    requires Chunk(toks, f, infos, part, offs) && k < |infos|
    ensures |offs| == |infos| + 1 && offs[k + 1] == offs[k] + infos[k].ntoks <= |part| && f + k < |toks|
    ensures var p := infos[k];
      && p.cached + p.ntoks <= |toks[f + k]|
      && part[offs[k]..offs[k] + p.ntoks] == toks[f + k][p.cached..p.cached + p.ntoks]
  {
    assert PieceAt(toks, f, infos, part, offs, k);
  }

  /** Strictly increasing starts. */
  lemma {:induction false} StartsIncrease(toks: seq<seq<Token>>, infos: seq<Piece>, starts: seq<nat>, list: seq<Token>,
      f: nat, i: nat, j: nat)
    requires Plan(toks, infos, starts, list, f) && f <= i < j < |infos|
    ensures starts[i] < starts[j]
    decreases j
  {
    assert PlanAt(toks, infos, starts, list, j - 1);
    if i < j - 1 { StartsIncrease(toks, infos, starts, list, f, i, j - 1); }
  }

  /** The offsets of lanes f..split in a chunk that ends at lst. */
  function Offsets(starts: seq<nat>, f: nat, split: nat, lst: nat): seq<nat>
    requires f <= split < |starts| && starts[f] <= lst && forall k :: f <= k <= split ==> starts[f] <= starts[k]
  {
    seq(split - f + 2, k requires 0 <= k < split - f + 2 => (if k <= split - f then starts[f + k] else lst) - starts[f])
  }

  /** Cutting the plan inside lane split gives a chunk. */
  lemma ChunkOfPlan(toks: seq<seq<Token>>, infos: seq<Piece>, starts: seq<nat>, list: seq<Token>, f: nat, split: nat,
      n: nat) returns (offs: seq<nat>)
    requires Plan(toks, infos, starts, list, f) && f <= split < |infos| && n <= infos[split].ntoks
    ensures starts[f] <= starts[split] + n <= |list|
    ensures Chunk(toks, f, infos[split := Piece(infos[split].cached, n)][f..split + 1],
      list[starts[f]..starts[split] + n], offs)
  {
    hide Plan, PlanAt;
    ChunkBounds(toks, infos, starts, list, f, split, n);
    var lst := starts[split] + n;
    offs := Offsets(starts, f, split, lst);
    var infos', part := infos[split := Piece(infos[split].cached, n)][f..split + 1], list[starts[f]..lst];
    forall k: nat | k < |infos'| ensures PieceAt(toks, f, infos', part, offs, k) {
      ChunkPiece(toks, infos, starts, list, f, split, n, k);
      assert infos'[k] == infos[split := Piece(infos[split].cached, n)][f + k];
    }
  }

  lemma ChunkBounds(toks: seq<seq<Token>>, infos: seq<Piece>, starts: seq<nat>, list: seq<Token>, f: nat, split: nat,
      n: nat)
    requires Plan(toks, infos, starts, list, f) && f <= split < |infos| && n <= infos[split].ntoks
    ensures |starts| == |infos| <= |toks| && starts[split] + n <= |list|
    ensures forall k :: f <= k <= split ==> starts[f] <= starts[k] && (k < split ==> starts[k] < starts[split])
  {
    assert PlanAt(toks, infos, starts, list, split);
    forall k | f <= k <= split ensures starts[f] <= starts[k] && (k < split ==> starts[k] < starts[split]) {
      if f < k { StartsIncrease(toks, infos, starts, list, f, f, k); }
      if k < split { StartsIncrease(toks, infos, starts, list, f, k, split); }
    }
  }

  lemma ChunkPiece(toks: seq<seq<Token>>, infos: seq<Piece>, starts: seq<nat>, list: seq<Token>, f: nat, split: nat,
      n: nat, k: nat)
    requires Plan(toks, infos, starts, list, f) && f <= split < |infos| && n <= infos[split].ntoks && k <= split - f
    requires starts[f] <= starts[f + k] && (f + k < split ==> starts[f + k] < starts[split])
      && starts[split] + n <= |list|
    requires f + k < split ==> starts[f + k + 1] <= starts[split]
    ensures var p := infos[split := Piece(infos[split].cached, n)][f + k];
      var b, e := starts[f + k] - starts[f],
        (if k + 1 <= split - f then starts[f + k + 1] else starts[split] + n) - starts[f];
      && e == b + p.ntoks && e <= starts[split] + n - starts[f] && p.cached + p.ntoks <= |toks[f + k]|
      && list[starts[f]..starts[split] + n][b..e] == toks[f + k][p.cached..p.cached + p.ntoks]
  {
    assert PlanAt(toks, infos, starts, list, f + k);
    var q, b := infos[f + k], starts[f + k];
    var p := infos[split := Piece(infos[split].cached, n)][f + k];
    assert p.cached == q.cached && p.ntoks == if f + k < split then q.ntoks else n;
    assert b + p.ntoks == if f + k < split then starts[f + k + 1] else starts[split] + n;
    assert list[b..b + p.ntoks] == list[b..b + q.ntoks][..p.ntoks];
    assert toks[f + k][q.cached..][..p.ntoks] == toks[f + k][q.cached..q.cached + p.ntoks];
    SliceOfSlice(list, starts[f], starts[split] + n, b, b + p.ntoks);
  }

  lemma SliceOfSlice(s: seq<Token>, a: nat, d: nat, b: nat, c: nat)
    requires a <= b <= c <= d <= |s|
    ensures s[a..d][b - a..c - a] == s[b..c]
  {
    var x, y := s[a..d][b - a..c - a], s[b..c];
    assert |x| == |y| && forall i :: 0 <= i < |x| ==> x[i] == y[i];
  }

  /** What is left after the cut is again a plan, from lane split on. */
  lemma SplitPlan(toks: seq<seq<Token>>, infos: seq<Piece>, starts: seq<nat>, list: seq<Token>, f: nat, split: nat,
      n: nat)
    requires Plan(toks, infos, starts, list, f) && f <= split < |infos| && n < infos[split].ntoks
    ensures var p := infos[split];
      Plan(toks, infos[split := Piece(p.cached + n, p.ntoks - n)], starts[split := starts[split] + n], list, split)
  {
    var p, b := infos[split], starts[split];
    var infos', starts' := infos[split := Piece(p.cached + n, p.ntoks - n)], starts[split := b + n];
    forall j: nat | split <= j < |infos'| ensures PlanAt(toks, infos', starts', list, j) {
      assert PlanAt(toks, infos, starts, list, j);
      if j == split {
        assert list[b + n..b + p.ntoks] == list[b..b + p.ntoks][n..];
        assert toks[j][p.cached..][n..] == toks[j][p.cached + n..];
      }
    }
  }

  // ---------- drafting ----------

  /** The lists that the first loop of `_prefill` builds. */
  datatype Draft = Draft(lanes: seq<HostCaches.DynCacheLane>, infos: seq<Piece>, starts: seq<nat>, list: seq<Token>)

  /** The j-th admitted lane has its table row, and skips no more than the host cache can bring. */
  ghost predicate DraftedAt(cfg: Config, s: State, d: Draft, j: nat)
    requires j < |d.lanes| == |d.infos| && s.nactive + j < |s.lanes| <= |s.dev|
  {
    var l := s.lanes[s.nactive + j];
    && d.lanes[j].gpuBlocks == l.blocks && l.blocks <= s.dev[s.nactive + j].row
    && d.infos[j].cached <= d.lanes[j].readyCount * cfg.pageLen <= |All(l)|
  }

  ghost predicate Drafted(cfg: Config, s0: State, s: State, pend: seq<seq<Token>>, d: Draft) {
    && cfg.Valid() && Ok(cfg, s, pend) && s == s0.(dev := s.dev)
    && |d.lanes| == |d.infos| <= |s.lanes| - s.nactive
    && Plan(News(s), d.infos, d.starts, d.list, 0)
    && (d.infos == [] ==> d.list == []) && (d.starts != [] ==> d.starts[0] == 0)
    && (forall j: nat {:trigger DraftedAt(cfg, s, d, j)} :: j < |d.lanes| ==> DraftedAt(cfg, s, d, j))
  }

  lemma StartDraft(cfg: Config, s: State, pend: seq<seq<Token>>)
    requires cfg.Valid() && Ok(cfg, s, pend)
    ensures Drafted(cfg, s, s, pend, Draft([], [], [], []))
  {
  }

  /** Whole pages are skipped, but never the last token. */
  function Skip(n: nat, ready: nat, pl: nat): (cached: nat)
    requires 0 < n && ready * pl <= n
    ensures cached < n && cached <= ready * pl
  {
    if ready * pl == n then n - 1 else ready * pl
  }

  /** The lists grow by one lane with these tokens. */
  function Extend(d: Draft, r: HostCaches.DynCacheLane, t: seq<Token>, pl: nat): Draft
    requires t != [] && r.readyCount * pl <= |t|
  {
    var cached := Skip(|t|, r.readyCount, pl);
    Draft(d.lanes + [r], d.infos + [Piece(cached, |t| - cached)], d.starts + [|d.list|], d.list + t[cached..])
  }

  lemma ExtendSize(d: Draft, r: HostCaches.DynCacheLane, t: seq<Token>, pl: nat)
    requires t != [] && r.readyCount * pl <= |t|
    ensures |Extend(d, r, t, pl).infos| == |d.infos| + 1 && Extend(d, r, t, pl).lanes == d.lanes + [r]
  {
  }

  lemma DraftOne(cfg: Config, s0: State, s: State, pend: seq<seq<Token>>, d: Draft, r: HostCaches.DynCacheLane)
    requires Drafted(cfg, s0, s, pend, d) && |d.infos| < |s.lanes| - s.nactive
    requires var l := s.lanes[s.nactive + |d.infos|]; r.gpuBlocks == l.blocks && r.readyCount * cfg.pageLen <= |All(l)|
    ensures var i := s.nactive + |d.infos|;
      var l := s.lanes[i];
      && All(l) != [] && |l.blocks| <= |s.dev[i].row|
      && Drafted(cfg, s0, Route(s, i), pend, Extend(d, r, All(l), cfg.pageLen))
  {
    hide PlanAt, LiveAt;
    var i := s.nactive + |d.infos|;
    var l := s.lanes[i];
    assert AdmittedAt(cfg, s, i);
    RouteOk(cfg, s, pend, i);
    NewsSame(s, Route(s, i)); NewsNext(s, |d.infos|);
    PlanLane(News(s), d.infos, d.starts, d.list, Skip(|All(l)|, r.readyCount, cfg.pageLen));
    DraftRows(cfg, s, d, r);
  }

  lemma DraftRows(cfg: Config, s: State, d: Draft, r: HostCaches.DynCacheLane)
    requires |d.lanes| == |d.infos| < |s.lanes| - s.nactive && |s.lanes| <= |s.dev|
    requires forall j: nat {:trigger DraftedAt(cfg, s, d, j)} :: j < |d.lanes| ==> DraftedAt(cfg, s, d, j)
    requires var l := s.lanes[s.nactive + |d.infos|];
      r.gpuBlocks == l.blocks && r.readyCount * cfg.pageLen <= |All(l)| && All(l) != []
        && |l.blocks| <= |s.dev[s.nactive + |d.infos|].row|
    ensures var i := s.nactive + |d.infos|;
      var d' := Extend(d, r, All(s.lanes[i]), cfg.pageLen);
      forall j: nat {:trigger DraftedAt(cfg, Route(s, i), d', j)} ::
        j < |d'.lanes| ==> DraftedAt(cfg, Route(s, i), d', j)
  {
    var i := s.nactive + |d.infos|;
    var s', d' := Route(s, i), Extend(d, r, All(s.lanes[i]), cfg.pageLen);
    forall j: nat | j < |d'.lanes| ensures DraftedAt(cfg, s', d', j) {
      if j < |d.lanes| { assert DraftedAt(cfg, s, d, j); }
    }
  }

  /** Positions filled once the first n lanes have been paged in. */
  function PagedIn(lanes: seq<HostCaches.DynCacheLane>, n: nat, pl: nat): seq<nat> {
    seq(|lanes|, j requires 0 <= j < |lanes| => if j < n then lanes[j].readyCount * pl else 0)
  }

  lemma PagedInNext(lanes: seq<HostCaches.DynCacheLane>, n: nat, pl: nat)
    requires n < |lanes|
    ensures PagedIn(lanes, n, pl)[n] == 0
    ensures PagedIn(lanes, n, pl)[n := lanes[n].readyCount * pl] == PagedIn(lanes, n + 1, pl)
  {
  }

  // ---------- one call of the model ----------

  function EndOf(fill: seq<nat>, f: nat, infos: seq<Piece>, k: nat, j: nat): nat
    requires k <= |infos| && j < |fill|
  {
    if f <= j < f + k then infos[j - f].cached + infos[j - f].ntoks else fill[j]
  }

  /** How far the lanes are once the first k pieces of a call are done. */
  function Progressed(fill: seq<nat>, f: nat, infos: seq<Piece>, k: nat): seq<nat>
    requires k <= |infos| && f + |infos| <= |fill|
  {
    seq(|fill|, j requires 0 <= j < |fill| => EndOf(fill, f, infos, k, j))
  }

  lemma ProgressedStart(fill: seq<nat>, f: nat, infos: seq<Piece>)
    requires f + |infos| <= |fill|
    ensures Progressed(fill, f, infos, 0) == fill
  {
  }

  lemma ProgressedNext(fill: seq<nat>, f: nat, infos: seq<Piece>, k: nat)
    requires k < |infos| && f + |infos| <= |fill|
    ensures |Progressed(fill, f, infos, k)| == |fill| && Progressed(fill, f, infos, k)[f + k] == fill[f + k]
    ensures Progressed(fill, f, infos, k)[f + k := infos[k].cached + infos[k].ntoks]
      == Progressed(fill, f, infos, k + 1)
  {
  }

  /** The logits of the first n pieces: row k comes from the context that ends with the last token of piece k. */
  ghost predicate Rows(cfg: Config, news: seq<seq<Token>>, f: nat, infos: seq<Piece>, logits: seq<seq<Cell>>) {
    |logits| <= |infos| && forall k :: 0 <= k < |logits| ==> RowOf(cfg, news, f, infos, logits, k)
  }

  lemma NoRows(cfg: Config, news: seq<seq<Token>>, f: nat, infos: seq<Piece>)
    ensures Rows(cfg, news, f, infos, [])
  {
  }

  lemma RowsNext(cfg: Config, news: seq<seq<Token>>, f: nat, infos: seq<Piece>, logits: seq<seq<Cell>>, row: seq<Cell>)
    requires Rows(cfg, news, f, infos, logits) && |logits| < |infos| && f + |logits| < |news|
    requires var p := infos[|logits|];
      p.cached + p.ntoks <= |news[f + |logits|]|
        && (cfg.exact ==> row == Cells(cfg.m, news[f + |logits|][..p.cached + p.ntoks]))
    ensures Rows(cfg, news, f, infos, logits + [row])
  {
    var logits' := logits + [row];
    forall k | 0 <= k < |logits'| ensures RowOf(cfg, news, f, infos, logits', k) {
      if k < |logits| { assert RowOf(cfg, news, f, infos, logits, k); }
    }
  }

  /** Row k of the logits comes from the context that ends with the last token of piece k. */
  ghost predicate RowOf(cfg: Config, news: seq<seq<Token>>, f: nat, infos: seq<Piece>, logits: seq<seq<Cell>>, k: int) {
    && 0 <= k < |infos| && k < |logits| && f + k < |news|
    && infos[k].cached + infos[k].ntoks <= |news[f + k]|
    && (cfg.exact ==> logits[k] == Cells(cfg.m, news[f + k][..infos[k].cached + infos[k].ntoks]))
  }

  // ---------- the split loop ----------

  /** Before the first call the cache holds nothing of the admitted lanes; page-in will bring what the plan skips. */
  ghost predicate Ahead(lanes: seq<HostCaches.DynCacheLane>, infos: seq<Piece>, fill: seq<nat>, f: nat, first: bool,
      pl: nat) {
    && |infos| == |fill| == |lanes|
    && if first then f == 0 && fill == PagedIn(lanes, 0, pl) && forall j ::
        0 <= j < |infos| ==> infos[j].cached <= lanes[j].readyCount * pl
       else forall j :: f <= j < |infos| ==> infos[j].cached <= fill[j]
  }

  /** Lanes before f are finished, and their logits are collected, one row each, in order. */
  ghost predicate Finished(cfg: Config, news: seq<seq<Token>>, fill: seq<nat>, f: nat, rows: seq<seq<Cell>>) {
    && f <= |fill| == |news| && |rows| == f
    && forall j :: 0 <= j < f ==> fill[j] == |news[j]| && (cfg.exact ==> rows[j] == Cells(cfg.m, news[j]))
  }

  /** The state of the split loop: the plan from lane f on, what is loaded, what is collected. */
  ghost predicate Splitting(cfg: Config, news: seq<seq<Token>>, d: Draft, fill: seq<nat>, f: nat, rows: seq<seq<Cell>>,
      first: bool) {
    && f < |d.infos| == |news|
    && Plan(news, d.infos, d.starts, d.list, f)
    && Ahead(d.lanes, d.infos, fill, f, first, cfg.pageLen)
    && Finished(cfg, news, fill, f, rows)
  }

  /** Once page-in has run (if it is due), nothing in the plan is skipped that is not there. */
  function Entering(lanes: seq<HostCaches.DynCacheLane>, fill: seq<nat>, first: bool, pl: nat): seq<nat> {
    if first then PagedIn(lanes, |lanes|, pl) else fill
  }

  lemma EnterAhead(lanes: seq<HostCaches.DynCacheLane>, infos: seq<Piece>, fill: seq<nat>, f: nat, first: bool, pl: nat)
    requires Ahead(lanes, infos, fill, f, first, pl) && f <= |infos|
    ensures |Entering(lanes, fill, first, pl)| == |fill|
    ensures forall j :: f <= j < |infos| ==> infos[j].cached <= Entering(lanes, fill, first, pl)[j]
    ensures forall j :: 0 <= j < f ==> Entering(lanes, fill, first, pl)[j] == fill[j]
  {
  }

  /** The bisection finds the lane to cut, and the cut leaves it at least one token. */
  lemma WhereToCut(news: seq<seq<Token>>, infos: seq<Piece>, starts: seq<nat>, list: seq<Token>, f: nat, lst: nat,
      idx: nat)
    requires Plan(news, infos, starts, list, f) && f < |infos| && starts[f] < lst < |list|
    requires f <= idx <= |starts| && (forall k :: f <= k < idx ==> starts[k] < lst)
      && (idx < |starts| ==> lst <= starts[idx])
    ensures f < idx && 0 < lst - starts[idx - 1] <= infos[idx - 1].ntoks
  {
    assert PlanAt(news, infos, starts, list, idx - 1);
  }

  /** The seq_info of a call that ends inside lane split, n tokens in. */
  function CutInfos(d: Draft, f: nat, split: nat, n: nat): (cut: seq<Piece>)
    requires f <= split < |d.infos|
    ensures |cut| == split + 1 - f
  {
    d.infos[split := Piece(d.infos[split].cached, n)][f..split + 1]
  }

  /** What remains to be done after it. */
  function CutDraft(d: Draft, split: nat, n: nat): (d': Draft)
    requires split < |d.infos| == |d.starts| && n <= d.infos[split].ntoks
    ensures d'.lanes == d.lanes && d'.list == d.list && |d'.starts| == |d.starts|
      && d'.starts[split] == d.starts[split] + n
  {
    var p := d.infos[split];
    d.(infos := d.infos[split := Piece(p.cached + n, p.ntoks - n)], starts := d.starts[split := d.starts[split] + n])
  }

  lemma SplittingSize(cfg: Config, news: seq<seq<Token>>, d: Draft, fill: seq<nat>, f: nat, rows: seq<seq<Cell>>,
      first: bool)
    requires Splitting(cfg, news, d, fill, f, rows, first)
    ensures f < |d.infos| == |d.starts| == |news| == |fill| == |d.lanes|
    ensures Plan(news, d.infos, d.starts, d.list, f)
    ensures first ==> fill == PagedIn(d.lanes, 0, cfg.pageLen)
  {
  }

  /** The call of the model may go ahead: its pieces are a chunk, and nothing it skips is missing. */
  lemma BeforeCut(cfg: Config, news: seq<seq<Token>>, d: Draft, fill: seq<nat>, f: nat, rows: seq<seq<Cell>>,
      first: bool, split: nat, n: nat)
    returns (offs: seq<nat>)
    requires Splitting(cfg, news, d, fill, f, rows, first) && f <= split < |d.infos| && n < d.infos[split].ntoks
    ensures d.starts[f] <= d.starts[split] + n <= |d.list|
    ensures Chunk(news, f, CutInfos(d, f, split, n), d.list[d.starts[f]..d.starts[split] + n], offs)
    ensures |Entering(d.lanes, fill, first, cfg.pageLen)| == |fill|
    ensures forall k :: 0 <= k < |CutInfos(d, f, split, n)| ==>
      CutInfos(d, f, split, n)[k].cached <= Entering(d.lanes, fill, first, cfg.pageLen)[f + k]
  {
    EnterAhead(d.lanes, d.infos, fill, f, first, cfg.pageLen);
    offs := ChunkOfPlan(news, d.infos, d.starts, d.list, f, split, n);
    var cut, entered := CutInfos(d, f, split, n), Entering(d.lanes, fill, first, cfg.pageLen);
    forall k | 0 <= k < |cut| ensures cut[k].cached <= entered[f + k] { assert cut[k].cached == d.infos[f + k].cached; }
  }

  /** After the call: the cut lane is partly loaded, the lanes before it are finished. */
  lemma AfterCut(cfg: Config, news: seq<seq<Token>>, d: Draft, fill: seq<nat>, f: nat, rows: seq<seq<Cell>>,
      first: bool, split: nat, n: nat, logits: seq<seq<Cell>>)
    requires Splitting(cfg, news, d, fill, f, rows, first) && f <= split < |d.infos| && n < d.infos[split].ntoks
    requires |logits| == split + 1 - f && Rows(cfg, news, f, CutInfos(d, f, split, n), logits)
    ensures |Entering(d.lanes, fill, first, cfg.pageLen)| == |fill| && split < |fill|
    ensures Splitting(cfg, news, CutDraft(d, split, n),
      Progressed(Entering(d.lanes, fill, first, cfg.pageLen), f, CutInfos(d, f, split, n), |CutInfos(d, f, split, n)|),
        split, rows + logits[..|logits| - 1], false)
  {
    var pl := cfg.pageLen;
    var cut := CutInfos(d, f, split, n);
    EnterAhead(d.lanes, d.infos, fill, f, first, pl);
    SplitPlan(news, d.infos, d.starts, d.list, f, split, n);
    var entered := Entering(d.lanes, fill, first, pl);
    var fill', rows' := Progressed(entered, f, cut, |cut|), rows + logits[..|logits| - 1];
    forall j | 0 <= j < split ensures fill'[j] == |news[j]| && (cfg.exact ==> rows'[j] == Cells(cfg.m, news[j])) {
      if j >= f {
        assert PlanAt(news, d.infos, d.starts, d.list, j) && cut[j - f] == d.infos[j]
          && RowOf(cfg, news, f, cut, logits, j - f);
        assert news[j][..|news[j]|] == news[j];
      }
    }
  }

  ghost predicate AllLoaded(news: seq<seq<Token>>, fill: seq<nat>) {
    |fill| == |news| && forall j :: 0 <= j < |fill| ==> fill[j] == |news[j]|
  }

  /** After the last call: every lane is finished. */
  lemma AfterLast(cfg: Config, news: seq<seq<Token>>, d: Draft, fill: seq<nat>, f: nat, rows: seq<seq<Cell>>,
      first: bool, logits: seq<seq<Cell>>)
    requires Splitting(cfg, news, d, fill, f, rows, first)
    requires |logits| == |d.infos| - f && Rows(cfg, news, f, d.infos[f..], logits)
    ensures |Entering(d.lanes, fill, first, cfg.pageLen)| == |fill| && f + |d.infos[f..]| <= |fill|
    ensures Finished(cfg, news,
      Progressed(Entering(d.lanes, fill, first, cfg.pageLen), f, d.infos[f..], |d.infos[f..]|), |news|, rows + logits)
  {
    EnterAhead(d.lanes, d.infos, fill, f, first, cfg.pageLen);
    var cut := d.infos[f..];
    var fill', rows' := Progressed(Entering(d.lanes, fill, first, cfg.pageLen), f, cut, |cut|), rows + logits;
    forall j | 0 <= j < |news| ensures fill'[j] == |news[j]| && (cfg.exact ==> rows'[j] == Cells(cfg.m, news[j])) {
      if j >= f {
        assert PlanAt(news, d.infos, d.starts, d.list, j) && cut[j - f] == d.infos[j]
          && RowOf(cfg, news, f, cut, logits, j - f);
        assert news[j][..|news[j]|] == news[j];
      }
    }
  }

  lemma ProgressedSize(fill: seq<nat>, f: nat, infos: seq<Piece>)
    requires f + |infos| <= |fill|
    ensures |Progressed(fill, f, infos, |infos|)| == |fill|
  {
  }

  /** The last call may go ahead, and page out what it leaves. */
  lemma BeforeLast(cfg: Config, news: seq<seq<Token>>, d: Draft, fill: seq<nat>, f: nat, rows: seq<seq<Cell>>,
      first: bool) returns (offs: seq<nat>)
    requires Splitting(cfg, news, d, fill, f, rows, first)
    ensures d.starts[f] <= |d.list| && Chunk(news, f, d.infos[f..], d.list[d.starts[f]..], offs)
    ensures |Entering(d.lanes, fill, first, cfg.pageLen)| == |fill|
    ensures forall k ::
      0 <= k < |d.infos[f..]| ==> d.infos[f..][k].cached <= Entering(d.lanes, fill, first, cfg.pageLen)[f + k]
    ensures AllLoaded(news, Progressed(Entering(d.lanes, fill, first, cfg.pageLen), f, d.infos[f..], |d.infos[f..]|))
  {
    EnterAhead(d.lanes, d.infos, fill, f, first, cfg.pageLen);
    offs := LastChunk(news, d.infos, d.starts, d.list, f);
    var cut := d.infos[f..];
    var fill' := Progressed(Entering(d.lanes, fill, first, cfg.pageLen), f, cut, |cut|);
    forall j | 0 <= j < |news| ensures fill'[j] == |news[j]| {
      if j >= f { assert PlanAt(news, d.infos, d.starts, d.list, j) && cut[j - f] == d.infos[j]; }
    }
  }

  /** The last call is a chunk too. */
  lemma LastChunk(toks: seq<seq<Token>>, infos: seq<Piece>, starts: seq<nat>, list: seq<Token>, f: nat)
      returns (offs: seq<nat>)
    requires Plan(toks, infos, starts, list, f) && f < |infos|
    ensures starts[f] <= |list| && Chunk(toks, f, infos[f..], list[starts[f]..], offs)
  {
    var last := |infos| - 1;
    assert PlanAt(toks, infos, starts, list, last);
    offs := ChunkOfPlan(toks, infos, starts, list, f, last, infos[last].ntoks);
    assert infos[last := Piece(infos[last].cached, infos[last].ntoks)][f..last + 1] == infos[f..];
    assert list[starts[f]..starts[last] + infos[last].ntoks] == list[starts[f]..];
  }

  /** bisect_left between two indices. */
  function BisectLeft(a: seq<nat>, x: nat, lo: nat, hi: nat): (r: nat)
    requires lo <= hi <= |a| && forall i, j :: lo <= i < j < hi ==> a[i] <= a[j]
    ensures lo <= r <= hi && (forall k :: lo <= k < r ==> a[k] < x) && (forall k :: r <= k < hi ==> x <= a[k])
    decreases hi - lo
  {
    if lo == hi then lo
    else
      var mid := (lo + hi) / 2;
      if a[mid] < x then BisectLeft(a, x, mid + 1, hi) else BisectLeft(a, x, lo, mid)
  }

  /**
   * Where a chunk that may reach lst ends: the lane it cuts and how many of its tokens it takes, one of them
   * kept for the next call.
   */
  function CutPoint(d: Draft, f: nat, lst: nat, ghost news: seq<seq<Token>>): (c: (nat, nat))
    requires Plan(news, d.infos, d.starts, d.list, f) && f < |d.infos| && d.starts[f] + 2 <= lst < |d.list|
    ensures f <= c.0 < |d.infos| && c.1 < d.infos[c.0].ntoks
    ensures d.starts[f] < d.starts[c.0] + c.1 <= lst
  {
    assert forall i, j :: f <= i < j < |d.starts| ==> d.starts[i] <= d.starts[j] by {
      forall i, j | f <= i < j < |d.starts| ensures d.starts[i] <= d.starts[j] {
        StartsIncrease(news, d.infos, d.starts, d.list, f, i, j);
      }
    }
    var idx := BisectLeft(d.starts, lst, f, |d.starts|);
    WhereToCut(news, d.infos, d.starts, d.list, f, lst, idx);
    var split := idx - 1;
    var n := lst - d.starts[split];
    assert 0 < n <= d.infos[split].ntoks;
    (split, if n == d.infos[split].ntoks then n - 1 else n)
  }

  lemma DraftedSame(cfg: Config, s0: State, s: State, pend: seq<seq<Token>>, d: Draft)
    requires Drafted(cfg, s0, s, pend, d)
    ensures s == s0.(dev := s.dev) && s.nactive <= |s.lanes|
  {
  }

  lemma LoadedSame(cfg: Config, s0: State, s: State, pend: seq<seq<Token>>, fill: seq<nat>)
    requires Loading(cfg, s0, s, pend, fill)
    ensures s == s0.(cells := s.cells)
  {
  }

  lemma FinishedSize(cfg: Config, news: seq<seq<Token>>, fill: seq<nat>, rows: seq<seq<Cell>>)
    requires Finished(cfg, news, fill, |fill|, rows)
    ensures |rows| == |fill| == |news|
  {
  }

  lemma ActivateSize(cfg: Config, s: State, toks: seq<Token>)
    requires s.nactive <= |s.lanes| <= |s.dev| && |toks| == |s.lanes| - s.nactive
    ensures var s' := Activate(cfg, s, toks); s' == s.(nactive := |s.lanes|, dev := s'.dev)
  {
  }

  lemma StartSplitting(cfg: Config, s0: State, s: State, pend: seq<seq<Token>>, d: Draft)
    requires Drafted(cfg, s0, s, pend, d) && |d.infos| == |s.lanes| - s.nactive > 0
    ensures Loading(cfg, s, s, pend, PagedIn(d.lanes, 0, cfg.pageLen))
    ensures Splitting(cfg, News(s), d, PagedIn(d.lanes, 0, cfg.pageLen), 0, [], true)
  {
    StartLoading(cfg, s, pend);
    assert PagedIn(d.lanes, 0, cfg.pageLen) == Zeros(|d.infos|);
    forall j | 0 <= j < |d.infos| ensures d.infos[j].cached <= d.lanes[j].readyCount * cfg.pageLen {
      assert DraftedAt(cfg, s, d, j);
    }
  }

  /** The block table rows of the admitted lanes are filled in. */
  ghost predicate RowsSet(s: State) {
    forall i: nat {:trigger s.lanes[i]} ::
      s.nactive <= i < |s.lanes| ==> i < |s.dev| && s.lanes[i].blocks <= s.dev[i].row
  }

  /** What the admitted lanes of a finished draft have on the device. */
  lemma DraftedRows(cfg: Config, s0: State, s: State, pend: seq<seq<Token>>, d: Draft)
    requires Drafted(cfg, s0, s, pend, d) && |d.infos| == |s.lanes| - s.nactive
    ensures |d.lanes| == |d.infos| && |s.lanes| <= |s.dev|
    ensures forall j: nat {:trigger d.lanes[j]} ::
      j < |d.lanes| ==> d.lanes[j].gpuBlocks == s.lanes[s.nactive + j].blocks
    ensures RowsSet(s)
  {
    forall j: nat | j < |d.lanes| ensures d.lanes[j].gpuBlocks == s.lanes[s.nactive + j].blocks {
      assert DraftedAt(cfg, s, d, j);
    }
    forall i: nat | s.nactive <= i < |s.lanes| ensures s.lanes[i].blocks <= s.dev[i].row {
      assert DraftedAt(cfg, s, d, i - s.nactive);
    }
  }

  /** A token drawn from a row of logits for this lane. */
  ghost predicate Drawn(cfg: Config, l: LaneV, row: seq<Cell>, t: Token) {
    exists noise: int :: t == cfg.m.pick(row, cfg.Temp(l.req), cfg.TopP(l.req), noise)
  }

  /** One right row for each admitted lane: drawing from them activates the lanes. */
  lemma FinishedActivates(cfg: Config, s0: State, s: State, pend: seq<seq<Token>>, fill: seq<nat>,
      rows: seq<seq<Cell>>, toks: seq<Token>)
    requires s0.nactive <= |s0.lanes| && Loading(cfg, s0, s, pend, fill) && Finished(cfg, News(s0), fill, |fill|, rows)
    requires RowsSet(s) && |toks| == |rows| && forall j: nat {:trigger toks[j]} ::
      j < |toks| ==> Drawn(cfg, s.lanes[s.nactive + j], rows[j], toks[j])
    ensures |toks| == |s.lanes| - s.nactive && Ok(cfg, Activate(cfg, s, toks), pend + Singles(toks))
  {
    forall i: nat | s.nactive <= i < |s.lanes| ensures PrefilledAt(cfg, s, toks, i) {
      var j := i - s.nactive;
      NewsAt(s0, j); LaneHolds(cfg, s0, s, pend, fill, j);
      assert Drawn(cfg, s.lanes[s.nactive + j], rows[j], toks[j]);
    }
    ActivateOk(cfg, s, pend, toks);
  }
}
