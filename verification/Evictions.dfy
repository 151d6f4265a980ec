// `_prepare_lanes` on values: the visiting order, which is only partly repaired after
// each swap-delete, and why whoever is evicted fits again later.
module Evictions {
  import opened Basics
  import opened Seqs
  import opened Kv
  import opened Sched
  import opened Steps
  import opened Counts

  function Empties(n: nat): seq<seq<Token>> { seq(n, _ => []) }

  /** Between rounds: no admitted lane, no pending token. */
  ghost predicate AtRest(cfg: Config, s: State) {
    Ok(cfg, s, Empties(s.nactive)) && |s.lanes| == s.nactive
  }

  /** No lanes, and all blocks free. */
  lemma NothingRests(cfg: Config, s: State)
    requires s.lanes == [] && s.parked == [] && s.nactive == 0 && |s.dev| == cfg.maxBatch
    requires (forall i :: 0 <= i < |s.dev| ==> |s.dev[i].row| == cfg.nblocks && s.dev[i].seqlen == 0)
    requires |s.cells| == cfg.nblocks * cfg.pageLen && forall b: nat :: b in s.free <==> b < cfg.nblocks
    ensures AtRest(cfg, s)
  {
    forall b: nat | b < cfg.nblocks ensures Placed(s.free, [], b) {}
  }

  /** Enough blocks for a decoding call. */
  ghost predicate Prepared(cfg: Config, l: LaneV) {
    Min(cfg.maxSeq, |All(l)| + cfg.syncFreq) <= |l.blocks| * cfg.pageLen
  }

  /** Lane i is still to be visited, or it is prepared and no shorter than those that are. */
  ghost predicate Visited(cfg: Config, s: State, decr: seq<nat>, idx: nat, i: nat)
    requires idx <= s.nactive <= |decr| && s.nactive <= |s.lanes| && i < |s.lanes|
    requires forall k :: idx <= k < s.nactive ==> decr[k] < s.nactive
  {
    || (exists k :: idx <= k < s.nactive && decr[k] == i)
    || (Prepared(cfg, s.lanes[i]) && forall k :: idx <= k < s.nactive ==> |All(s.lanes[decr[k]])| <= |All(s.lanes[i])|)
  }

  /** decr[idx..nactive] are the lanes to visit, longest first; entries before idx may be stale. */
  ghost predicate Order(cfg: Config, s: State, decr: seq<nat>, idx: nat) {
    && idx <= s.nactive <= |decr| && s.nactive <= |s.lanes|
    && (forall k :: idx <= k < s.nactive ==> decr[k] < s.nactive)
    && (forall j, k ::
        idx <= j < k < s.nactive ==> decr[j] != decr[k] && |All(s.lanes[decr[j]])| >= |All(s.lanes[decr[k]])|)
    && (forall i: nat {:trigger Visited(cfg, s, decr, idx, i)} :: i < s.nactive ==> Visited(cfg, s, decr, idx, i))
  }

  lemma Head(cfg: Config, s: State, decr: seq<nat>, idx: nat)
    requires Order(cfg, s, decr, idx) && idx < s.nactive
    ensures idx < |decr| && decr[idx] < s.nactive <= |s.lanes|
  {
  }

  lemma OrderFacts(cfg: Config, s: State, decr: seq<nat>, idx: nat)
    requires Order(cfg, s, decr, idx)
    ensures idx <= s.nactive <= |decr|
    ensures forall k :: idx <= k < s.nactive ==> decr[k] < s.nactive
    ensures forall j, k :: idx <= j < k < s.nactive ==> decr[j] != decr[k]
  {
  }

  lemma RestFacts(cfg: Config, s: State)
    requires AtRest(cfg, s)
    ensures |s.lanes| == s.nactive <= |s.dev|
  {
  }

  lemma RestOwns(cfg: Config, s: State, i: nat)
    requires AtRest(cfg, s) && i < s.nactive
    ensures Owns(s.free, cfg.nblocks, s.lanes[i].blocks) && forall b <- s.free :: b < cfg.nblocks
  {
  }

  lemma NextLane(cfg: Config, s: State, decr: seq<nat>, idx: nat)
    requires Order(cfg, s, decr, idx) && idx < s.nactive && Prepared(cfg, s.lanes[decr[idx]])
    ensures Order(cfg, s, decr, idx + 1)
  {
    var n := idx + 1;
    forall i: nat | i < s.nactive ensures Visited(cfg, s, decr, n, i) { assert Visited(cfg, s, decr, idx, i); }
  }

  /** When every lane has been visited, every lane is prepared. */
  lemma AllPrepared(cfg: Config, s: State, decr: seq<nat>)
    requires Order(cfg, s, decr, s.nactive)
    ensures forall i: nat :: i < s.nactive ==> Prepared(cfg, s.lanes[i])
  {
    forall i: nat | i < s.nactive ensures Prepared(cfg, s.lanes[i]) { assert Visited(cfg, s, decr, s.nactive, i); }
  }

  lemma GrowOrder(cfg: Config, s: State, decr: seq<nat>, idx: nat, bid: nat)
    requires Order(cfg, s, decr, idx) && idx < s.nactive <= |s.dev|
      && |s.lanes[decr[idx]].blocks| < |s.dev[decr[idx]].row|
    ensures Order(cfg, Grow(s, decr[idx], bid), decr, idx)
  {
    var s' := Grow(s, decr[idx], bid);
    assert forall i :: 0 <= i < |s.lanes| ==> |All(s'.lanes[i])| == |All(s.lanes[i])|;
    forall i: nat | i < s'.nactive ensures Visited(cfg, s', decr, idx, i) {
      assert Visited(cfg, s, decr, idx, i);
      if i == decr[idx] { assert decr[idx] == i; }
    }
  }

  /** No active lane is shorter than the last one in the order. */
  lemma Shortest(cfg: Config, s: State, decr: seq<nat>, idx: nat, i: nat)
    requires Order(cfg, s, decr, idx) && idx < s.nactive && i < s.nactive
    ensures |All(s.lanes[decr[s.nactive - 1]])| <= |All(s.lanes[i])|
  {
    assert Visited(cfg, s, decr, idx, i);
  }

  /** The repair loop: entries still to be visited that named the moved lane name its new place. */
  ghost predicate Repaired(decr: seq<nat>, decr': seq<nat>, idx: nat, last: nat)
    requires last < |decr| && |decr'| == |decr|
  {
    forall k :: idx <= k < last ==> decr'[k] == if decr[k] == last then decr[last] else decr[k]
  }

  lemma EvictOrder(cfg: Config, s: State, decr: seq<nat>, idx: nat, decr': seq<nat>)
    requires Order(cfg, s, decr, idx) && idx < s.nactive == |s.lanes| <= |s.dev| && |decr'| == |decr|
    requires Repaired(decr, decr', idx, s.nactive - 1)
    ensures Order(cfg, Kill(s, decr[s.nactive - 1], true), decr', idx)
  {
    var last := s.nactive - 1;
    var v := decr[last];
    var s' := Kill(s, v, true);
    assert forall k :: idx <= k < last ==> decr[k] != v;
    assert forall k :: idx <= k < last ==> s'.lanes[decr'[k]] == s.lanes[decr[k]];
    forall i: nat | i < s'.nactive ensures Visited(cfg, s', decr', idx, i) {
      var i0 := if i == v then last else i;
      assert Visited(cfg, s, decr, idx, i0) && s'.lanes[i] == s.lanes[i0];
      if k :| idx <= k < s.nactive && decr[k] == i0 {
        assert k < last;
        assert decr'[k] == i;
      }
    }
  }

  /** The head of the order is the same lane after the repair. */
  lemma EvictHead(cfg: Config, s: State, decr: seq<nat>, idx: nat, decr': seq<nat>)
    requires Order(cfg, s, decr, idx) && idx < s.nactive == |s.lanes| <= |s.dev| && |decr'| == |decr|
    requires Repaired(decr, decr', idx, s.nactive - 1)
    ensures idx < s.nactive - 1 ==>
      decr'[idx] < s.nactive - 1 && Kill(s, decr[s.nactive - 1], true).lanes[decr'[idx]] == s.lanes[decr[idx]]
  {
  }

  /** Half the cache holds it, with room for the 128 tokens an admission asks for. */
  lemma EvictFits(cfg: Config, s: State, i: nat, j: nat)
    requires cfg.Valid() && AtRest(cfg, s) && i < s.nactive && j < s.nactive && i != j
    requires |All(s.lanes[i])| <= |All(s.lanes[j])|
    ensures |All(s.lanes[i])| + 128 <= cfg.maxSeq
  {
    assert LiveAt(cfg, s, Empties(s.nactive), i) && LiveAt(cfg, s, Empties(s.nactive), j);
    TwoLanes(s.free, s.lanes, cfg.nblocks, i, j);
    Halves(|s.lanes[i].blocks|, |s.lanes[j].blocks|, cfg.nblocks, cfg.pageLen);
  }

  lemma Halves(a: nat, b: nat, n: nat, pl: nat)
    requires a + b <= n
    ensures a * pl + b * pl <= n * pl
  {
    assert a * pl + b * pl == (a + b) * pl;
    MulMono(a + b, n, pl);
  }

  lemma EmptiesDrop(n: nat, i: nat)
    requires i < n
    ensures Drop(Empties(n), i) == Empties(n - 1)
  {
  }

  lemma EvictRest(cfg: Config, s: State, i: nat, j: nat)
    requires cfg.Valid() && AtRest(cfg, s) && i < s.nactive && j < s.nactive && i != j
    requires |All(s.lanes[i])| <= |All(s.lanes[j])|
    ensures AtRest(cfg, Kill(s, i, true))
  {
    RestFacts(cfg, s);
    EvictFits(cfg, s, i, j);
    hide Ok, Kill;
    KillOk(cfg, s, Empties(s.nactive), i, true);
    KillSize(s, i, true);
    EmptiesDrop(s.nactive, i);
  }

  /** No further block is needed for a decoding call. */
  predicate HasRoom(cfg: Config, l: LaneV) { |All(l)| + cfg.syncFreq <= |l.blocks| * cfg.pageLen }

  /** A lane that needs a block has less than its most. */
  lemma NeedsLess(cfg: Config, s: State, i: nat)
    requires cfg.Valid() && AtRest(cfg, s) && i < s.nactive && !HasRoom(cfg, s.lanes[i])
    ensures |s.lanes[i].blocks| < cfg.MostBlocks(s.lanes[i].req)
  {
    assert LiveAt(cfg, s, Empties(s.nactive), i);
    var l := s.lanes[i];
    BelowMost(|l.blocks|, |All(l)|, cfg.MaxLen(l.req), cfg.syncFreq, cfg.pageLen);
  }

  lemma BelowMost(n: nat, len: nat, most: nat, sync: nat, pl: nat)
    requires pl > 0 && n * pl < len + sync && len < most
    ensures n < (most + Max(128, sync) + pl - 1) / pl
  {
    var x := most + Max(128, sync) + pl - 1;
    assert x == x / pl * pl + x % pl;
    if x / pl <= n { MulMono(x / pl, n, pl); }
  }

  /** One more block is enough for the lane at the head of the order. */
  lemma GrowPrepares(cfg: Config, s: State, i: nat, bid: nat)
    requires cfg.Valid() && AtRest(cfg, s) && i < s.nactive && bid in s.free && !HasRoom(cfg, s.lanes[i])
    ensures |s.lanes[i].blocks| < |s.dev[i].row|
    ensures HasRoom(cfg, Grow(s, i, bid).lanes[i])
    ensures AtRest(cfg, Grow(s, i, bid))
  {
    NeedsLess(cfg, s, i);
    GrowOk(cfg, s, Empties(s.nactive), i, bid);
    assert LiveAt(cfg, s, Empties(s.nactive), i);
    assert (|s.lanes[i].blocks| + 1) * cfg.pageLen == |s.lanes[i].blocks| * cfg.pageLen + cfg.pageLen;
  }

  /** With nothing free, a lane alone has the whole cache. */
  lemma AloneIsPrepared(cfg: Config, s: State)
    requires cfg.Valid() && AtRest(cfg, s) && s.nactive == 1 && s.free == {}
    ensures Prepared(cfg, s.lanes[0])
  {
    LastLane(s.lanes, cfg.nblocks);
  }

  lemma NonZero(n: nat, pl: nat)
    requires n * pl > 0
    ensures n > 0
  {
  }

  /** An active lane owns a block. */
  lemma OwnsSome(cfg: Config, s: State, i: nat)
    requires AtRest(cfg, s) && i < s.nactive
    ensures ToSet(s.lanes[i].blocks) != {}
  {
    assert LiveAt(cfg, s, Empties(s.nactive), i);
    NonZero(|s.lanes[i].blocks|, cfg.pageLen);
    assert s.lanes[i].blocks[0] in ToSet(s.lanes[i].blocks);
  }

  lemma KilledFree(s: State, i: nat)
    requires i < |s.lanes| == s.nactive <= |s.dev|
    ensures Kill(s, i, true).free == s.free + ToSet(s.lanes[i].blocks) && Kill(s, i, true).nactive == s.nactive - 1
  {
  }

  // ---------- the order: sorted((-len, i)) ----------

  /** Lane a comes before lane b: longer, or as long with a smaller index. */
  predicate Earlier(lens: seq<nat>, a: nat, b: nat)
    requires a < |lens| && b < |lens|
  {
    lens[a] > lens[b] || (lens[a] == lens[b] && a < b)
  }

  ghost predicate SortedLanes(lens: seq<nat>, decr: seq<nat>, n: nat) {
    && n <= |lens| && |decr| == n
    && (forall k :: 0 <= k < |decr| ==> decr[k] < n)
    && (forall j, k :: 0 <= j < k < |decr| ==> Earlier(lens, decr[j], decr[k]))
    && (forall i :: 0 <= i < n ==> i in decr)
  }

  method SortLanes(lens: seq<nat>) returns (decr: seq<nat>)
    ensures SortedLanes(lens, decr, |lens|)
  {
    decr := [];
    for n := 0 to |lens|
      invariant SortedLanes(lens, decr, n)
    {
      var k := n;
      while k > 0 && Earlier(lens, n, decr[k - 1])
        invariant 0 <= k <= n
        invariant forall j :: k <= j < n ==> Earlier(lens, n, decr[j])
      {
        k := k - 1;
      }
      assert forall j :: 0 <= j < k ==> Earlier(lens, decr[j], n);
      Inserted(lens, decr, n, k);
      decr := decr[..k] + [n] + decr[k..];
    }
  }

  lemma Inserted(lens: seq<nat>, decr: seq<nat>, n: nat, k: nat)
    requires SortedLanes(lens, decr, n) && n < |lens| && k <= n
    requires forall j :: 0 <= j < k ==> Earlier(lens, decr[j], n)
    requires forall j :: k <= j < n ==> Earlier(lens, n, decr[j])
    ensures SortedLanes(lens, decr[..k] + [n] + decr[k..], n + 1)
  {
    var d := decr[..k] + [n] + decr[k..];
    assert forall j :: 0 <= j < |d| ==> d[j] == if j < k then decr[j] else if j == k then n else decr[j - 1];
    forall i | 0 <= i < n + 1 ensures i in d {
      if i < n {
        assert i in decr;
        var j :| 0 <= j < n && decr[j] == i;
        assert d[if j < k then j else j + 1] == i;
      } else {
        assert d[k] == i;
      }
    }
  }

  /** At the start everything is still to be visited. */
  lemma StartOrder(cfg: Config, s: State, lens: seq<nat>, decr: seq<nat>)
    requires s.nactive <= |s.lanes| && |lens| == s.nactive && SortedLanes(lens, decr, s.nactive)
    requires forall i :: 0 <= i < s.nactive ==> lens[i] == |All(s.lanes[i])|
    ensures Order(cfg, s, decr, 0)
  {
    forall i: nat | i < s.nactive ensures Visited(cfg, s, decr, 0, i) { assert i in decr; }
  }

  // ---------- what a round of preparation keeps ----------

  /** Whoever was parked since there were n parked lanes is no longer than any survivor. */
  ghost predicate Outlived(s: State, n: nat) {
    forall k, i :: n <= k < |s.parked| && 0 <= i < |s.lanes| ==> |All(s.parked[k])| <= |All(s.lanes[i])|
  }

  /**
   * A block of lane i that lane j owned when it was s0 and page kk of: either nothing has happened to
   * it, or lane j was parked, no longer than lane i, and the block lies beyond the length of both.
   */
  ghost predicate Inherits(cfg: Config, s0: State, s: State, i: nat, k: nat, j: nat, kk: nat)
    requires i < |s.lanes| && k < |s.lanes[i].blocks| && j < |s0.lanes| && kk < |s0.lanes[j].blocks|
  {
    s.lanes[i].blocks[k] == s0.lanes[j].blocks[kk] ==>
      && |All(s0.lanes[j])| <= |All(s.lanes[i])|
      && ((k == kk && All(s.lanes[i]) == All(s0.lanes[j])) || |All(s0.lanes[j])| <= k * cfg.pageLen)
  }

  /** A block of lane j that has become free: no lane left is shorter than lane j. */
  ghost predicate Freed(s0: State, s: State, j: nat, kk: nat)
    requires j < |s0.lanes| && kk < |s0.lanes[j].blocks|
  {
    s0.lanes[j].blocks[kk] in s.free ==> forall i :: 0 <= i < |s.lanes| ==> |All(s0.lanes[j])| <= |All(s.lanes[i])|
  }

  /** How blocks change hands during preparation. */
  ghost predicate Handed(cfg: Config, s0: State, s: State) {
    && (forall i: nat, k: nat, j: nat, kk: nat {:trigger Inherits(cfg, s0, s, i, k, j, kk)} ::
          i < |s.lanes| && k < |s.lanes[i].blocks| && j < |s0.lanes| && kk < |s0.lanes[j].blocks| ==>
            Inherits(cfg, s0, s, i, k, j, kk))
    && (forall j: nat, kk: nat {:trigger Freed(s0, s, j, kk)} ::
          j < |s0.lanes| && kk < |s0.lanes[j].blocks| ==> Freed(s0, s, j, kk))
  }

  lemma HandedSelf(cfg: Config, s: State)
    requires Partition(s.free, s.lanes, cfg.nblocks)
    ensures Handed(cfg, s, s)
  {
    forall i: nat, k: nat, j: nat, kk: nat | i < |s.lanes| && k < |s.lanes[i].blocks| && j < |s.lanes|
      && kk < |s.lanes[j].blocks|
      ensures Inherits(cfg, s, s, i, k, j, kk)
    {
      assert Apart(s.lanes, i, j) && Owns(s.free, cfg.nblocks, s.lanes[i].blocks);
      assert s.lanes[i].blocks[k] in ToSet(s.lanes[i].blocks) && s.lanes[j].blocks[kk] in ToSet(s.lanes[j].blocks);
    }
    forall j: nat, kk: nat | j < |s.lanes| && kk < |s.lanes[j].blocks| ensures Freed(s, s, j, kk) {
      assert Owns(s.free, cfg.nblocks, s.lanes[j].blocks) && s.lanes[j].blocks[kk] in ToSet(s.lanes[j].blocks);
    }
  }

  lemma HandedKill(cfg: Config, s0: State, s: State, v: nat)
    requires Handed(cfg, s0, s) && v < |s.lanes| == s.nactive <= |s.dev|
    requires forall k :: 0 <= k < s.nactive ==> |All(s.lanes[v])| <= |All(s.lanes[k])|
    ensures Handed(cfg, s0, Kill(s, v, true))
  {
    var s', last := Kill(s, v, true), s.nactive - 1;
    assert forall i :: 0 <= i < |s'.lanes| ==> s'.lanes[i] == s.lanes[if i == v then last else i];
    forall i: nat, k: nat, j: nat, kk: nat | i < |s'.lanes| && k < |s'.lanes[i].blocks| && j < |s0.lanes|
      && kk < |s0.lanes[j].blocks|
      ensures Inherits(cfg, s0, s', i, k, j, kk)
    {
      assert Inherits(cfg, s0, s, if i == v then last else i, k, j, kk);
    }
    forall j: nat, kk: nat | j < |s0.lanes| && kk < |s0.lanes[j].blocks| ensures Freed(s0, s', j, kk) {
      assert Freed(s0, s, j, kk);
      var b := s0.lanes[j].blocks[kk];
      if b in s'.free && b !in s.free {
        var k :| 0 <= k < |s.lanes[v].blocks| && s.lanes[v].blocks[k] == b;
        assert Inherits(cfg, s0, s, v, k, j, kk);
      }
    }
  }

  lemma HandedGrow(cfg: Config, s0: State, s: State, v: nat, bid: nat)
    requires Handed(cfg, s0, s) && v < |s.lanes| && v < |s.dev| && |s.lanes[v].blocks| < |s.dev[v].row|
    requires bid in s.free && |All(s.lanes[v])| <= |s.lanes[v].blocks| * cfg.pageLen
    ensures Handed(cfg, s0, Grow(s, v, bid))
  {
    var s' := Grow(s, v, bid);
    assert forall i :: 0 <= i < |s.lanes| ==> All(s'.lanes[i]) == All(s.lanes[i]);
    forall i: nat, k: nat, j: nat, kk: nat | i < |s'.lanes| && k < |s'.lanes[i].blocks| && j < |s0.lanes|
      && kk < |s0.lanes[j].blocks|
      ensures Inherits(cfg, s0, s', i, k, j, kk)
    {
      if k < |s.lanes[i].blocks| { assert Inherits(cfg, s0, s, i, k, j, kk); } else { assert Freed(s0, s, j, kk); }
    }
    forall j: nat, kk: nat | j < |s0.lanes| && kk < |s0.lanes[j].blocks| ensures Freed(s0, s', j, kk) {
      assert Freed(s0, s, j, kk);
    }
  }

  ghost predicate Steady(cfg: Config, s0: State, s: State) {
    && Held(s) == Held(s0) && Load(cfg, s) == Load(cfg, s0) && s.cells == s0.cells
    && s0.parked <= s.parked && Outlived(s, |s0.parked|)
    && (s0.nactive > 0 ==> s.nactive > 0)
    && Handed(cfg, s0, s)
    && Kept(s0, s)
    // where every packet is light, nobody is parked
    && (AllLight(cfg, s0.lanes) ==> s.parked == s0.parked && AllLight(cfg, s.lanes))
  }

  /** Unless somebody was parked, every lane is still in its place and has its blocks. */
  ghost predicate Kept(s0: State, s: State) {
    s.parked == s0.parked ==>
      |s.lanes| == |s0.lanes| && forall i :: 0 <= i < |s.lanes| ==> s0.lanes[i].blocks <= s.lanes[i].blocks
  }

  ghost predicate AllLight(cfg: Config, ls: seq<LaneV>) { forall l <- ls :: cfg.Light(l.req) }

  lemma SteadySelf(cfg: Config, s: State)
    requires AtRest(cfg, s)
    ensures Steady(cfg, s, s)
  {
    HandedSelf(cfg, s);
    hide AtRest, Handed;
  }

  lemma SteadyKill(cfg: Config, s0: State, s: State, i: nat, j: nat)
    requires cfg.Valid() && AtRest(cfg, s) && s.free == {} && j < s.nactive && !HasRoom(cfg, s.lanes[j])
    requires Steady(cfg, s0, s) && i < |s.lanes| == s.nactive <= |s.dev| && s.nactive > 1
    requires forall k :: 0 <= k < s.nactive ==> |All(s.lanes[i])| <= |All(s.lanes[k])|
    ensures Steady(cfg, s0, Kill(s, i, true))
  {
    KillHeld(cfg, s, i, true);
    HandedKill(cfg, s0, s, i);
    Crowded(cfg, s, j);
    KillOutlives(s, i, |s0.parked|);
    hide AtRest, Handed, Held, Load, Outlived, AllLight;
    assert |Kill(s, i, true).parked| > |s0.parked|;
  }

  lemma KillOutlives(s: State, i: nat, n: nat)
    requires i < |s.lanes| == s.nactive <= |s.dev| && Outlived(s, n)
    requires forall k :: 0 <= k < s.nactive ==> |All(s.lanes[i])| <= |All(s.lanes[k])|
    ensures Outlived(Kill(s, i, true), n)
  {
    var s' := Kill(s, i, true);
    assert forall k :: 0 <= k < |s'.lanes| ==> s'.lanes[k] == s.lanes[if k == i then s.nactive - 1 else k];
  }

  /** Only when some packet is not light does a lane in need find nothing free. */
  lemma Crowded(cfg: Config, s: State, j: nat)
    requires cfg.Valid() && AtRest(cfg, s) && s.free == {} && j < s.nactive && !HasRoom(cfg, s.lanes[j])
    ensures !AllLight(cfg, s.lanes)
  {
    NeedsLess(cfg, s, j);
    if AllLight(cfg, s.lanes) {
      forall l | l in s.lanes ensures cfg.Light(l.req) && |l.blocks| <= cfg.MostBlocks(l.req) {
        var i: nat :| i < |s.lanes| && s.lanes[i] == l;
        assert LiveAt(cfg, s, Empties(s.nactive), i);
      }
      SomeFree(cfg, s.lanes, j);
    }
  }

  lemma SteadyGrow(cfg: Config, s0: State, s: State, i: nat, bid: nat)
    requires AtRest(cfg, s) && bid in s.free
    requires Steady(cfg, s0, s) && i < |s.lanes| && i < |s.dev| && |s.lanes[i].blocks| < |s.dev[i].row|
    ensures Steady(cfg, s0, Grow(s, i, bid))
  {
    GrowHeld(cfg, s, i, bid);
    LaneFits(cfg, s, i);
    HandedGrow(cfg, s0, s, i, bid);
    GrowKeeps(cfg, s0, s, i, bid);
    hide AtRest, Handed, Held, Load, Outlived, Kept, AllLight;
  }

  lemma GrowKeeps(cfg: Config, s0: State, s: State, i: nat, bid: nat)
    requires i < |s.lanes| && i < |s.dev| && |s.lanes[i].blocks| < |s.dev[i].row|
    ensures Outlived(s, |s0.parked|) ==> Outlived(Grow(s, i, bid), |s0.parked|)
    ensures Kept(s0, s) ==> Kept(s0, Grow(s, i, bid))
    ensures AllLight(cfg, s.lanes) ==> AllLight(cfg, Grow(s, i, bid).lanes)
  {
    var s' := Grow(s, i, bid);
    assert forall k :: 0 <= k < |s.lanes| ==>
      All(s'.lanes[k]) == All(s.lanes[k]) && s'.lanes[k].req == s.lanes[k].req
        && s.lanes[k].blocks <= s'.lanes[k].blocks;
  }

  lemma LaneFits(cfg: Config, s: State, i: nat)
    requires AtRest(cfg, s) && i < |s.lanes|
    ensures |All(s.lanes[i])| <= |s.lanes[i].blocks| * cfg.pageLen
  {
    assert LiveAt(cfg, s, Empties(s.nactive), i);
  }
}
