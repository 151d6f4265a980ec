// The generator: continuous batching over a paged cache.
module FastGens {
  import opened Basics
  import opened Seqs
  import opened Kv
  import opened Pages
  import opened Sched
  import opened Steps
  import opened Counts
  import opened Evictions
  import opened Lanes
  import opened Admissions
  import opened Queues
  import opened Decodes
  import opened Prefills
  import opened Outputs
  import opened Rounds
  import opened HostCopies
  import opened Turns
  import opened Stops
  import HostCaches
  import ISets
  import SetNodes

  /** The device tensors, one row for each lane. */
  ghost function Zip(tokens: seq<Token>, seqlen: seq<nat>, maxlen: seq<nat>, temps: seq<int>, topPs: seq<int>,
      blktbl: seq<seq<nat>>): (z: seq<Entry>)
    requires |seqlen| == |maxlen| == |temps| == |topPs| == |blktbl| == |tokens|
    ensures |z| == |tokens|
    ensures forall i :: 0 <= i < |z| ==> z[i] == Entry(tokens[i], seqlen[i], maxlen[i], temps[i], topPs[i], blktbl[i])
  {
    seq(|tokens|, i requires 0 <= i < |tokens| => Entry(tokens[i], seqlen[i], maxlen[i], temps[i], topPs[i], blktbl[i]))
  }

  lemma ZipMove(tokens: seq<Token>, seqlen: seq<nat>, maxlen: seq<nat>, temps: seq<int>, topPs: seq<int>,
      blktbl: seq<seq<nat>>, i: nat, last: nat)
    requires |seqlen| == |maxlen| == |temps| == |topPs| == |blktbl| == |tokens| && i <= last < |tokens|
    ensures var d := Zip(tokens, seqlen, maxlen, temps, topPs, blktbl);
      Zip(tokens[i := tokens[last]], seqlen[i := seqlen[last]][last := 0], maxlen[i := maxlen[last]][last := 0],
        temps[i := temps[last]][last := 0], topPs[i := topPs[last]][last := 0],
          blktbl[i := blktbl[last]][last := Zeros(|blktbl[last]|)])
      == d[i := d[last]][last := d[last].Cleared()]
  {
  }

  lemma ZipRow(tokens: seq<Token>, seqlen: seq<nat>, maxlen: seq<nat>, temps: seq<int>, topPs: seq<int>,
      blktbl: seq<seq<nat>>, i: nat, row: seq<nat>)
    requires |seqlen| == |maxlen| == |temps| == |topPs| == |blktbl| == |tokens| && i < |tokens|
    ensures var d := Zip(tokens, seqlen, maxlen, temps, topPs, blktbl);
      Zip(tokens, seqlen, maxlen, temps, topPs, blktbl[i := row]) == d[i := d[i].(row := row)]
  {
  }

  lemma ZipToken(tokens: seq<Token>, seqlen: seq<nat>, maxlen: seq<nat>, temps: seq<int>, topPs: seq<int>,
      blktbl: seq<seq<nat>>, i: nat, t: Token, n: nat)
    requires |seqlen| == |maxlen| == |temps| == |topPs| == |blktbl| == |tokens| && i < |tokens|
    ensures var d := Zip(tokens, seqlen, maxlen, temps, topPs, blktbl);
      Zip(tokens[i := t], seqlen[i := n], maxlen, temps, topPs, blktbl) == d[i := d[i].(token := t, seqlen := n)]
  {
  }

  /** `s[a:a + len(mid)] = mid` */
  function Splice<T>(s: seq<T>, a: nat, mid: seq<T>): (r: seq<T>)
    requires a + |mid| <= |s|
    ensures |r| == |s| && forall i :: 0 <= i < |s| ==> r[i] == if a <= i < a + |mid| then mid[i - a] else s[i]
  {
    s[..a] + mid + s[a + |mid|..]
  }

  function Lens(ls: seq<Lane>): seq<nat>
    reads ls
  {
    seq(|ls|, i requires 0 <= i < |ls| reads ls => |ls[i].req.prompt| + |ls[i].tokens| + 1)
  }

  function MaxLens(cfg: Config, ls: seq<Lane>): seq<nat> {
    seq(|ls|, i requires 0 <= i < |ls| => cfg.MaxLen(ls[i].req))
  }

  function Temps(cfg: Config, ls: seq<Lane>): seq<int> { seq(|ls|, i requires 0 <= i < |ls| => cfg.Temp(ls[i].req)) }

  function TopPs(cfg: Config, ls: seq<Lane>): seq<int> { seq(|ls|, i requires 0 <= i < |ls| => cfg.TopP(ls[i].req)) }

  /** Every lane is in one place and no two lanes share their set of blocks. */
  ghost predicate Lists(lane: seq<Lane>, parking: seq<Lane>, free: ISets.ISet) {
    && NoDup(lane) && NoDup(parking) && (forall l <- lane :: l !in parking)
    && (forall l, k ::
        l in ToSet(lane) + ToSet(parking) && k in ToSet(lane) + ToSet(parking) && l != k ==> l.blockset != k.blockset)
    && (forall l <- ToSet(lane) + ToSet(parking) :: l.blockset != free)
  }

  lemma ListsDrop(lane: seq<Lane>, parking: seq<Lane>, free: ISets.ISet, i: nat)
    requires Lists(lane, parking, free) && i < |lane|
    ensures Lists(Drop(lane, i), parking, free) && Lists(Drop(lane, i), parking + [lane[i]], free)
    ensures ToSet(Drop(lane, i)) + ToSet(parking) <= ToSet(lane) + ToSet(parking)
    ensures ToSet(Drop(lane, i)) + ToSet(parking + [lane[i]]) <= ToSet(lane) + ToSet(parking)
    ensures lane[i] !in ToSet(Drop(lane, i)) + ToSet(parking)
  {
    var ls := Drop(lane, i);
    assert forall k :: 0 <= k < |ls| ==> ls[k] == lane[if k == i then |ls| else k];
    assert lane[i] in lane;
    assert ToSet(ls) <= ToSet(lane) && ToSet(parking + [lane[i]]) == ToSet(parking) + {lane[i]};
  }

  class FastGen {
    const conf: Config
    // the same settings; the run is no longer claimed exact once a copy to the host may have come too late
    ghost var cfg: Config
    var nactive: nat
    var lane: seq<Lane>
    var parking: seq<Lane>
    var freeBlocks: ISets.ISet
    // decoder device tensors
    var tokens: seq<Token>
    var seqlen: seq<nat>
    var maxlen: seq<nat>
    var temps: seq<int>
    var topPs: seq<int>
    var blktbl: seq<seq<nat>>
    const cache: array<Cell>
    const hostCache: HostCaches.HostCache
    const stream: Stream

    ghost function Mine(): set<Lane>
      reads `lane, `parking
    {
      ToSet(lane) + ToSet(parking)
    }

    ghost function Sets(): set<ISets.ISet>
      reads `lane, `parking
    {
      set l | l in Mine() :: l.blockset
    }

    ghost function Heap(): set<object>
      reads `lane, `parking, `freeBlocks
    {
      Mine() + Sets() + {freeBlocks}
    }

    ghost predicate Sep()
      reads this, Mine(), Sets(), freeBlocks
    {
      && Lists(lane, parking, freeBlocks) && Sizes() && freeBlocks.Valid() && (forall l <- Mine() :: l.Valid())
      && cfg == conf.(exact := cfg.exact)
    }

    ghost predicate Sizes()
      reads this
    {
      |seqlen| == |maxlen| == |temps| == |topPs| == |blktbl| == |tokens|
    }

    ghost function Dev(): seq<Entry>
      reads this
      requires Sizes()
    {
      Zip(tokens, seqlen, maxlen, temps, topPs, blktbl)
    }

    ghost function Values(ls: seq<Lane>): seq<LaneV>
      reads ls
    {
      seq(|ls|, i requires 0 <= i < |ls| reads ls => ls[i].Value())
    }

    ghost function Snap(): State
      reads this, Mine(), Sets(), freeBlocks, cache
      requires Sep()
    {
      State(Values(lane), nactive, Values(parking), freeBlocks.Elems(), Dev(), cache[..])
    }

    /** The host cache is in order and belongs to this generator's model and page length. */
    ghost predicate HostOk()
      reads `cfg, hostCache
    {
      hostCache.Valid() && hostCache.m == cfg.m && hostCache.pageLen == cfg.pageLen
    }

    constructor (conf: Config, noise: seq<Token>, hostLimit: nat)
      requires conf.Valid() && |noise| == conf.maxBatch
      ensures this.conf == conf && cfg == conf && stream.copies == [] && !stream.cacheReady && stream.owner == []
        && fresh(stream)
      ensures fresh(cache) && fresh(freeBlocks) && fresh(hostCache) && lane == [] && parking == []
      ensures Sep() && AtRest(cfg, Snap()) && HostOk() && hostCache.frozen == {} && hostCache.unfilled == {}
    {
      hide ISets.ElemsOf, SetNodes.Canon, AtRest, HostCaches.CacheOk, HostCaches.ContentsOk;
      this.conf, this.cfg := conf, conf;
      stream := new Stream();
      nactive, lane, parking := 0, [], [];
      freeBlocks := new ISets.ISet.Interval(0, conf.nblocks);
      tokens := noise;
      seqlen, maxlen := Zeros(conf.maxBatch), Zeros(conf.maxBatch);
      temps, topPs := Zeros(conf.maxBatch), Zeros(conf.maxBatch);
      blktbl := seq(conf.maxBatch, _ => Zeros(conf.nblocks));
      cache := new Cell[conf.nblocks * conf.pageLen](_ => 0);
      hostCache := new HostCaches.HostCache(conf.m, conf.pageLen, hostLimit);
      new;
      assert Values(lane) == [] && Values(parking) == [];
      NothingRests(cfg, Snap());
    }

    /** What a method that changes lanes and free blocks cannot touch. */
    lemma Outside(q: object?)
      requires q is PacketQueue?
      ensures this !in Heap() && stream !in Heap() && hostCache !in Heap() && cache !in Heap() && q !in Heap()
      ensures freeBlocks in Heap()
    {
    }

    /** The device side of `_kill_lane`. */
    method MoveEntry(i: nat, last: nat)
      requires Sizes() && i <= last < |tokens|
      modifies this`tokens, this`seqlen, this`maxlen, this`temps, this`topPs, this`blktbl
      ensures Sizes() && Dev() == old(Dev())[i := old(Dev())[last]][last := old(Dev())[last].Cleared()]
    {
      hide ISets.ElemsOf, SetNodes.Canon;
      ZipMove(tokens, seqlen, maxlen, temps, topPs, blktbl, i, last);
      tokens := tokens[i := tokens[last]];
      seqlen := seqlen[i := seqlen[last]][last := 0];
      maxlen := maxlen[i := maxlen[last]][last := 0];
      temps := temps[i := temps[last]][last := 0];
      topPs := topPs[i := topPs[last]][last := 0];
      blktbl := blktbl[i := blktbl[last]][last := Zeros(|blktbl[last]|)];
    }

    method MoveDevice(i: nat, last: nat)
      requires Sep() && i <= last < |tokens|
      modifies this`tokens, this`seqlen, this`maxlen, this`temps, this`topPs, this`blktbl
      ensures Sep() && Heap() == old(Heap())
      ensures var d := old(Snap()).dev;
        Snap() == old(Snap()).(dev := d[i := d[last]][last := d[last].Cleared()])
    {
      hide ISets.ElemsOf, SetNodes.Canon;
      hide Zip;
      MoveEntry(i, last);
    }

    /** No copy is pending, and in an exact run every node but those being filled is filled. */
    ghost predicate Docked()
      reads `cfg, stream, hostCache
    {
      HostOk() && stream.copies == [] && stream.owner == [] && (cfg.exact ==> hostCache.unfilled == hostCache.frozen)
    }

    /** The pending copies, and the pages they bring if they run now. */
    ghost predicate Flying()
      reads `cfg, stream, hostCache, cache
    {
      HostOk() && InFlight(cfg, hostCache.node, hostCache.place, hostCache.frozen, hostCache.unfilled, cache[..],
        stream.copies, stream.owner)
    }

    /** What the snapshot says of the fields. */
    lemma SnapFacts()
      requires Sep()
      ensures Snap().nactive == nactive && |Snap().lanes| == |lane| && |Snap().parked| == |parking|
        && |Snap().dev| == |tokens| == |seqlen| == |blktbl|
      ensures forall i: nat {:trigger lane[i]} {:trigger Snap().lanes[i]} ::
        i < |lane| ==> Snap().lanes[i] == lane[i].Value()
      ensures freeBlocks.Valid() && Snap().free == freeBlocks.Elems() && Snap().cells == cache[..]
      ensures cfg == conf.(exact := cfg.exact)
    {
    }

    lemma DevFacts()
      requires Sep()
      ensures |Snap().dev| == |tokens| == |seqlen| == |maxlen| == |temps| == |topPs| == |blktbl|
      ensures forall i: nat {:trigger Snap().dev[i]} :: i < |tokens| ==>
        Snap().dev[i] == Entry(tokens[i], seqlen[i], maxlen[i], temps[i], topPs[i], blktbl[i])
    {
    }

    lemma ValuesDrop(ls: seq<Lane>, i: nat)
      requires i < |ls|
      ensures Values(Drop(ls, i)) == Drop(Values(ls), i)
    {
    }

    lemma ValuesAdd(ls: seq<Lane>, l: Lane)
      ensures Values(ls + [l]) == Values(ls) + [l.Value()]
    {
    }

    /** lane.free */
    method FreeLane(i: nat)
      requires Sep() && i < |lane|
      modifies lane[i], lane[i].blockset, freeBlocks
      ensures Sep() && Heap() == old(Heap())
      ensures var l := old(Snap()).lanes[i];
        Snap() == old(Snap()).(lanes := old(Snap()).lanes[i := l.(blocks := [])],
          free := old(Snap()).free + ToSet(l.blocks))
    {
      hide ISets.ElemsOf, SetNodes.Canon;
      lane[i].Free(freeBlocks);
      assert Sets() == old(Sets());
      assert Values(lane) == old(Values(lane))[i := old(lane[i].Value()).(blocks := [])];
      assert lane[i] in lane && forall k :: 0 <= k < |parking| ==> parking[k] in parking;
      assert Values(parking) == old(Values(parking));
    }

    /** Removing lane i from the list, for good or to be parked. */
    method DropLane(i: nat, park: bool)
      requires Sep() && i < |lane| == nactive
      modifies this`nactive, this`lane, this`parking
      ensures Sep() && Heap() <= old(Heap())
      ensures var s := old(Snap());
        Snap() == s.(lanes := Drop(s.lanes, i), nactive := |s.lanes| - 1,
          parked := if park then s.parked + [s.lanes[i]] else s.parked)
    {
      hide ISets.ElemsOf, SetNodes.Canon;
      var ls, ps := Drop(lane, i), if park then parking + [lane[i]] else parking;
      ListsDrop(lane, parking, freeBlocks, i); ValuesDrop(lane, i); ValuesAdd(parking, lane[i]);
      hide Drop, Lists;
      lane, parking, nactive := ls, ps, nactive - 1;
      assert Values(lane) == old(Values(ls)) && Values(parking) == old(Values(ps));
      assert Sets() <= old(Sets());
    }

    /** Freeing, dropping and moving together are a kill. */
    lemma KillByParts(s: State, i: nat, park: bool)
      requires i < |s.lanes| == s.nactive <= |s.dev|
      ensures var l, last := s.lanes[i], s.nactive - 1;
        var lanes := s.lanes[i := l.(blocks := [])];
        Kill(s, i, park) == s.(lanes := Drop(lanes, i), free := s.free + ToSet(l.blocks), nactive := last,
          parked := if park then s.parked + [lanes[i]] else s.parked,
          dev := s.dev[i := s.dev[last]][last := s.dev[last].Cleared()])
    {
      assert Drop(s.lanes[i := s.lanes[i].(blocks := [])], i) == Drop(s.lanes, i);
    }

    method KillLane(i: nat, park: bool)
      requires Sep() && i < |lane| == nactive <= |tokens|
      modifies this`nactive, this`lane, this`parking, this`tokens, this`seqlen, this`maxlen, this`temps, this`topPs,
        this`blktbl, lane[i], lane[i].blockset, freeBlocks
      ensures Sep() && Snap() == Kill(old(Snap()), i, park) && Heap() <= old(Heap())
    {
      hide ISets.ElemsOf, SetNodes.Canon, Sep, Snap, Kill, Drop, Heap;
      SnapFacts(); KillByParts(Snap(), i, park);
      var last := nactive - 1;
      FreeLane(i);
      DropLane(i, park);
      MoveDevice(i, last);
    }

    // ---------- _prepare_lanes ----------

    /** lane.add_block */
    method GiveBlock(i: nat, bid: nat)
      requires Sep() && i < |lane| && bid !in lane[i].blocks && bid <= 0xFFFF_FFFF
      modifies lane[i], lane[i].blockset
      ensures Sep() && Heap() == old(Heap())
      ensures var l := old(Snap()).lanes[i];
        Snap() == old(Snap()).(lanes := old(Snap()).lanes[i := l.(blocks := l.blocks + [bid])])
    {
      hide ISets.ElemsOf, SetNodes.Canon;
      lane[i].AddBlock(bid);
      assert Sets() == old(Sets());
      assert Values(lane) == old(Values(lane))[i := old(lane[i].Value()).(blocks := old(lane[i].blocks) + [bid])];
      assert lane[i] in lane && forall k :: 0 <= k < |parking| ==> parking[k] in parking;
      assert Values(parking) == old(Values(parking));
    }

    method WriteTable(i: nat, k: nat, bid: nat)
      requires Sep() && i < |tokens| && k < |blktbl[i]|
      modifies this`blktbl
      ensures Sep() && Heap() == old(Heap())
      ensures var e := old(Snap()).dev[i];
        Snap() == old(Snap()).(dev := old(Snap()).dev[i := e.(row := e.row[k := bid])])
    {
      hide ISets.ElemsOf, SetNodes.Canon;
      var row: seq<nat> := blktbl[i][k := bid];
      ZipRow(tokens, seqlen, maxlen, temps, topPs, blktbl, i, row);
      hide Zip;
      blktbl := blktbl[i := row];
    }

    method PopFree() returns (bid: nat)
      requires Sep() && freeBlocks.Elems() != {}
      modifies freeBlocks
      ensures Sep() && bid in old(freeBlocks.Elems()) && Heap() == old(Heap())
      ensures Snap() == old(Snap()).(free := old(Snap()).free - {bid})
    {
      hide ISets.ElemsOf, SetNodes.Canon;
      bid := freeBlocks.PopLeft();
    }

    method AddBlock(i: nat) returns (bid: nat)
      requires Sep() && i < |lane| && i < |tokens| && |lane[i].blocks| < |blktbl[i]|
      requires freeBlocks.Elems() != {} && freeBlocks.Elems() !! ToSet(lane[i].blocks)
        && (forall b <- freeBlocks.Elems() :: b <= 0xFFFF_FFFF)
      modifies this`blktbl, lane[i], lane[i].blockset, freeBlocks
      ensures Sep() && Heap() == old(Heap())
      ensures bid in old(freeBlocks.Elems()) && Snap() == Grow(old(Snap()), i, bid)
    {
      hide ISets.ElemsOf, SetNodes.Canon;
      SnapFacts();
      hide Sep, Snap, Heap;
      bid := PopFree();
      assert bid !in lane[i].blocks by { assert bid !in ToSet(lane[i].blocks); }
      WriteTable(i, |lane[i].blocks|, bid);
      GiveBlock(i, bid);
    }

    function Lengths(): (lens: seq<nat>)
      reads this, lane
      requires nactive == |lane|
      ensures |lens| == nactive && forall i :: 0 <= i < nactive ==> lens[i] == |All(lane[i].Value())|
    {
      var ls := lane;
      seq(|ls|, i requires 0 <= i < |ls| reads ls => |ls[i].req.prompt| + |ls[i].tokens|)
    }

    /** A lane at the head of the order has room for the next decoding call. */
    ghost predicate Roomy(decr: seq<nat>, idx: nat)
      reads this, lane
    {
      idx < |decr| && decr[idx] < |lane| && HasRoom(cfg, lane[decr[idx]].Value())
    }

    /** The repair after the lane at index last moved to decr[last]. */
    method FixOrder(decr: seq<nat>, idx: nat, last: nat) returns (decr': seq<nat>)
      requires idx <= last < |decr|
      requires forall j, k :: idx <= j < k <= last ==> decr[j] != decr[k]
      ensures |decr'| == |decr| && Repaired(decr, decr', idx, last)
    {
      hide ISets.ElemsOf, SetNodes.Canon;
      decr' := decr;
      var nxt := idx;
      while nxt < last
        invariant idx <= nxt <= last && decr' == decr
        invariant forall k :: idx <= k < nxt ==> decr[k] != last
      {
        if decr[nxt] == last {
          decr' := decr[nxt := decr[last]];
          break;
        }
        nxt := nxt + 1;
      }
    }

    /** Evicting the shortest lane; decr' is the order once it is repaired. */
    method EvictLast(decr: seq<nat>, idx: nat, ghost decr': seq<nat>, ghost s0: State)
      requires cfg.Valid() && Sep() && AtRest(cfg, Snap()) && Order(cfg, Snap(), decr, idx) && idx < nactive
        && Steady(cfg, s0, Snap())
      requires freeBlocks.Elems() == {} && !Roomy(decr, idx)
      requires nactive > 1 && |decr'| == |decr| && Repaired(decr, decr', idx, nactive - 1)
      modifies this`nactive, this`lane, this`parking, this`tokens, this`seqlen, this`maxlen, this`temps, this`topPs,
        this`blktbl, Heap()
      ensures Sep() && AtRest(cfg, Snap()) && Order(cfg, Snap(), decr', idx) && Steady(cfg, s0, Snap())
      ensures nactive == old(nactive) - 1 && freeBlocks.Elems() != {} && Heap() <= old(Heap())
      ensures idx < nactive ==> !Roomy(decr', idx)
    {
      hide ISets.ElemsOf, SetNodes.Canon, AtRest, Order, Steady, Sep, Snap, Kill;
      ghost var s := Snap();
      var last := nactive - 1;
      SnapFacts(); RestFacts(cfg, s); OrderFacts(cfg, s, decr, idx);
      forall i: nat | i < nactive ensures |All(s.lanes[decr[last]])| <= |All(s.lanes[i])| {
        Shortest(cfg, s, decr, idx, i);
      }
      EvictRest(cfg, s, decr[last], if decr[last] == 0 then 1 else 0);
      OwnsSome(cfg, s, decr[last]);
      SteadyKill(cfg, s0, s, decr[last], decr[idx]);
      EvictOrder(cfg, s, decr, idx, decr'); EvictHead(cfg, s, decr, idx, decr');
      KilledFree(s, decr[last]);
      KillLane(decr[last], true);
      SnapFacts();
    }

    method ParkLast(decr: seq<nat>, idx: nat, ghost s0: State) returns (decr': seq<nat>)
      requires cfg.Valid() && Sep() && AtRest(cfg, Snap()) && Order(cfg, Snap(), decr, idx) && idx < nactive
        && Steady(cfg, s0, Snap())
      requires nactive > 1 && freeBlocks.Elems() == {} && !Roomy(decr, idx)
      modifies this`nactive, this`lane, this`parking, this`tokens, this`seqlen, this`maxlen, this`temps, this`topPs,
        this`blktbl, Heap()
      ensures Sep() && AtRest(cfg, Snap()) && Order(cfg, Snap(), decr', idx) && Steady(cfg, s0, Snap())
      ensures nactive == old(nactive) - 1 && freeBlocks.Elems() != {} && Heap() <= old(Heap())
      ensures idx < nactive ==> !Roomy(decr', idx)
    {
      hide ISets.ElemsOf, SetNodes.Canon;
      ghost var s := Snap();
      OrderFacts(cfg, s, decr, idx);
      decr' := FixOrder(decr, idx, nactive - 1);
      assert Sep() && Snap() == s && Heap() == old(Heap());
      hide AtRest, Order, Steady, Sep, Snap;
      EvictLast(decr, idx, decr', s0);
    }

    /** One more block for the lane at the head of the order. */
    method GrowHead(decr: seq<nat>, idx: nat, ghost s0: State)
      requires cfg.Valid() && Sep() && AtRest(cfg, Snap()) && Order(cfg, Snap(), decr, idx) && idx < nactive
        && Steady(cfg, s0, Snap())
      requires freeBlocks.Elems() != {} && !Roomy(decr, idx)
      modifies this`nactive, this`lane, this`parking, this`tokens, this`seqlen, this`maxlen, this`temps, this`topPs,
        this`blktbl, Heap()
      ensures Sep() && AtRest(cfg, Snap()) && Order(cfg, Snap(), decr, idx) && Steady(cfg, s0, Snap())
      ensures nactive == old(nactive) && Roomy(decr, idx) && Heap() == old(Heap())
    {
      hide ISets.ElemsOf, SetNodes.Canon;
      SnapFacts(); RestFacts(cfg, Snap());
      hide AtRest, Order, Steady, Sep, Snap, Grow;
      ghost var s := Snap();
      Head(cfg, s, decr, idx);
      var i := decr[idx];
      ghost var b0 :| b0 in s.free;
      GrowPrepares(cfg, s, i, b0);
      RestOwns(cfg, s, i);
      var bid := AddBlock(i);
      GrowPrepares(cfg, s, i, bid);
      GrowOrder(cfg, s, decr, idx, bid);
      SteadyGrow(cfg, s0, s, i, bid);
    }

    /** One turn of the loop. */
    method VisitLane(decr: seq<nat>, idx: nat, ghost s0: State) returns (decr': seq<nat>, idx': nat)
      requires cfg.Valid() && Sep() && AtRest(cfg, Snap()) && Order(cfg, Snap(), decr, idx) && idx < nactive
        && Steady(cfg, s0, Snap())
      modifies this`nactive, this`lane, this`parking, this`tokens, this`seqlen, this`maxlen, this`temps, this`topPs,
        this`blktbl, Heap()
      ensures Sep() && AtRest(cfg, Snap()) && Order(cfg, Snap(), decr', idx') && Steady(cfg, s0, Snap())
      ensures Heap() <= old(Heap())
      ensures nactive - idx' < old(nactive) - idx
        || (nactive - idx' == old(nactive) - idx && Roomy(decr', idx') && !old(Roomy(decr, idx)))
    {
      hide ISets.ElemsOf, SetNodes.Canon;
      hide AtRest, Order, Steady, Sep, Snap, Heap;
      decr', idx' := decr, idx;
      SnapFacts(); Head(cfg, Snap(), decr, idx);
      var avail := |lane[decr[idx]].blocks| * conf.pageLen;
      if |lane[decr[idx]].req.prompt| + |lane[decr[idx]].tokens| + conf.syncFreq <= avail {
        NextLane(cfg, Snap(), decr, idx);
        idx' := idx + 1;
        return;
      }
      if freeBlocks.Size() == 0 {
        var last := nactive - 1;
        if last > 0 {
          decr' := ParkLast(decr, idx, s0);
          if idx == last { return; }
        }
      }
      SnapFacts();
      if freeBlocks.Size() != 0 {
        GrowHead(decr', idx, s0);
      } else {
        assert nactive == 1;
        AloneIsPrepared(cfg, Snap());
        NextLane(cfg, Snap(), decr', idx);
        idx' := nactive;
      }
    }

    /** `sorted((-len(ln), i) ...)` */
    method VisitingOrder() returns (decr: seq<nat>)
      requires Sep() && AtRest(cfg, Snap())
      ensures Sep() && Snap() == old(Snap()) && Heap() == old(Heap()) && nactive == |lane|
      ensures Order(cfg, Snap(), decr, 0) && Steady(cfg, Snap(), Snap())
    {
      hide ISets.ElemsOf, SetNodes.Canon;
      ghost var s := Snap();
      SnapFacts(); RestFacts(cfg, s);
      var lens := Lengths();
      decr := SortLanes(lens);
      SteadySelf(cfg, s);
      StartOrder(cfg, s, lens, decr);
    }

    /**
     * `_prepare_lanes`: afterwards every active lane has room for a decoding call. Lanes may have
     * been parked, none longer than a lane still active, and never the last one.
     */
    method PrepareLanes()
      requires cfg.Valid() && Sep() && AtRest(cfg, Snap())
      modifies this`nactive, this`lane, this`parking, this`tokens, this`seqlen, this`maxlen, this`temps, this`topPs,
        this`blktbl, Heap()
      ensures Sep() && AtRest(cfg, Snap()) && Steady(cfg, old(Snap()), Snap()) && Heap() <= old(Heap())
      ensures forall i: nat :: i < nactive ==> Prepared(cfg, lane[i].Value())
    {
      hide ISets.ElemsOf, SetNodes.Canon, AtRest, Order, Steady, Sep, Snap, Heap;
      ghost var s0 := Snap();
      Outside(null);
      var decr := VisitingOrder();
      OrderFacts(cfg, s0, decr, 0); SnapFacts();
      var idx: nat := 0;
      while idx < nactive
        invariant idx <= nactive
        invariant Sep() && AtRest(cfg, Snap()) && Order(cfg, Snap(), decr, idx) && Steady(cfg, s0, Snap())
        invariant Heap() <= old(Heap())
        decreases nactive - idx, if Roomy(decr, idx) then 0 else 1
      {
        decr, idx := VisitLane(decr, idx, s0);
        OrderFacts(cfg, Snap(), decr, idx); SnapFacts();
      }
      SnapFacts(); RestFacts(cfg, Snap());
      AllPrepared(cfg, Snap(), decr);
    }

    // ---------- _add_lanes ----------

    /** A lane that is in neither list. */
    ghost predicate InHand(l: Lane)
      reads `lane, `parking, `freeBlocks, l, l.blockset
    {
      l !in Mine() && l.Valid() && l.blockset != freeBlocks && l.blockset !in Sets()
    }

    method Unpark() returns (l: Lane)
      requires Sep() && parking != []
      modifies this`parking
      ensures Sep() && InHand(l) && l.Value() == old(Snap()).parked[0]
      ensures Snap() == old(Snap()).(parked := old(Snap()).parked[1..])
      ensures l in old(Heap()) && l.blockset in old(Heap()) && Heap() <= old(Heap())
    {
      hide ISets.ElemsOf, SetNodes.Canon;
      l := parking[0];
      assert parking == [l] + parking[1..];
      assert Values(parking) == [l.Value()] + Values(parking[1..]);
      parking := parking[1..];
      assert Mine() <= old(Mine());
      assert Sets() <= old(Sets());
    }

    method Repark(l: Lane, front: bool)
      requires Sep() && InHand(l)
      modifies this`parking
      ensures Sep() && Heap() == old(Heap()) + {l, l.blockset}
      ensures var s := old(Snap());
        Snap() == s.(parked := if front then [l.Value()] + s.parked else s.parked + [l.Value()])
    {
      hide ISets.ElemsOf, SetNodes.Canon;
      var ps := if front then [l] + parking else parking + [l];
      assert Values(ps) == if front then [l.Value()] + Values(parking) else Values(parking) + [l.Value()];
      assert ToSet(ps) == ToSet(parking) + {l};
      PutBack(l, ps);
    }

    method PutBack(l: Lane, ps: seq<Lane>)
      requires Sep() && InHand(l) && NoDup(ps) && ToSet(ps) == ToSet(parking) + {l}
      modifies this`parking
      ensures Sep() && Heap() == old(Heap()) + {l, l.blockset}
      ensures Snap() == old(Snap()).(parked := old(Values(ps)))
    {
      hide ISets.ElemsOf, SetNodes.Canon;
      assert forall k :: k in ps <==> k in ToSet(ps);
      parking := ps;
      assert Mine() == old(Mine()) + {l};
      assert Sets() == old(Sets()) + {l.blockset};
    }

    /** The lane in hand takes its blocks and a place in the list. */
    method Enlist(l: Lane, ask: nat) returns (ghost rest: set<nat>)
      requires Sep() && InHand(l) && l.blocks == [] && ask <= freeBlocks.Size()
      modifies this`lane, this`freeBlocks, l, l.blockset
      ensures Sep() && Snap() == Admit(old(Snap()), l.Value(), rest)
      ensures Strip(l.Value()) == old(l.Value()) && NoDup(l.blocks) && |l.blocks| == ask
      ensures old(freeBlocks.Elems()) == ToSet(l.blocks) + rest && ToSet(l.blocks) !! rest
      ensures Heap() <= old(Heap()) + {l, l.blockset, freeBlocks} && fresh(freeBlocks)
    {
      hide ISets.ElemsOf, SetNodes.Canon;
      TakeBlocks(l, ask);
      rest := freeBlocks.Elems();
      PutLane(l);
    }

    method PutLane(l: Lane)
      requires Sep() && InHand(l)
      modifies this`lane
      ensures Sep() && Heap() == old(Heap()) + {l, l.blockset}
      ensures Snap() == old(Snap()).(lanes := old(Snap()).lanes + [l.Value()])
    {
      hide ISets.ElemsOf, SetNodes.Canon;
      assert ToSet(lane + [l]) == ToSet(lane) + {l};
      lane := lane + [l];
      assert Values(lane) == old(Values(lane)) + [l.Value()];
      assert Mine() == old(Mine()) + {l};
      assert Sets() == old(Sets()) + {l.blockset};
    }

    method TakeBlocks(l: Lane, ask: nat)
      requires Sep() && InHand(l) && l.blocks == [] && ask <= freeBlocks.Size()
      modifies this`freeBlocks, l, l.blockset
      ensures Sep() && InHand(l) && fresh(freeBlocks)
      ensures Snap() == old(Snap()).(free := freeBlocks.Elems())
      ensures Strip(l.Value()) == old(l.Value()) && NoDup(l.blocks) && |l.blocks| == ask
      ensures old(freeBlocks.Elems()) == ToSet(l.blocks) + freeBlocks.Elems() && ToSet(l.blocks) !! freeBlocks.Elems()
    {
      hide ISets.ElemsOf, SetNodes.Canon;
      var blocks := TakeFree(ask);
      GiveAll(l, blocks);
    }

    method TakeFree(ask: nat) returns (blocks: ISets.ISet)
      requires Sep() && ask <= freeBlocks.Size()
      modifies this`freeBlocks
      ensures Sep() && fresh(freeBlocks) && fresh(blocks) && blocks != freeBlocks && blocks.Valid()
        && |blocks.Elems()| == ask
      ensures old(freeBlocks.Elems()) == blocks.Elems() + freeBlocks.Elems() && blocks.Elems() !! freeBlocks.Elems()
      ensures Snap() == old(Snap()).(free := freeBlocks.Elems())
    {
      hide ISets.ElemsOf, SetNodes.Canon;
      var rest;
      blocks, rest := freeBlocks.Take(ask);
      freeBlocks := rest;
      assert Values(lane) == old(Values(lane)) && Values(parking) == old(Values(parking));
    }

    method GiveAll(l: Lane, blocks: ISets.ISet)
      requires Sep() && InHand(l) && l.blocks == [] && blocks.Valid() && blocks != l.blockset
      modifies l, l.blockset
      ensures Sep() && InHand(l) && Snap() == old(Snap())
      ensures Strip(l.Value()) == old(l.Value()) && NoDup(l.blocks) && |l.blocks| == |old(blocks.Elems())|
        && ToSet(l.blocks) == old(blocks.Elems())
    {
      hide ISets.ElemsOf, SetNodes.Canon;
      l.SetBlocks(blocks);
      assert Values(lane) == old(Values(lane)) && Values(parking) == old(Values(parking));
    }

    lemma UndoByParts(s: State)
      requires s.lanes != []
      ensures var last := |s.lanes| - 1; var l := s.lanes[last].(blocks := []);
        var lanes := s.lanes[last := l];
        Undo(s) == s.(lanes := lanes[..|lanes| - 1], free := s.free + ToSet(s.lanes[last].blocks),
          parked := [l] + s.parked)
    {
      var last := |s.lanes| - 1;
      assert s.lanes[last := s.lanes[last].(blocks := [])][..last] == s.lanes[..last];
    }

    /** _add_lanes undoing an admission. */
    method UndoLast()
      requires Sep() && lane != []
      modifies this`lane, this`parking, lane[|lane| - 1], lane[|lane| - 1].blockset, freeBlocks
      ensures Sep() && Snap() == Undo(old(Snap())) && Heap() <= old(Heap())
    {
      hide ISets.ElemsOf, SetNodes.Canon, Undo, Sep, Snap, InHand;
      SnapFacts(); UndoByParts(Snap());
      var last := |lane| - 1;
      var l := lane[last];
      FreeLane(last);
      SnapFacts();
      RemoveLast();
      Repark(l, true);
    }

    method RemoveLast()
      requires Sep() && lane != []
      modifies this`lane
      ensures Sep() && InHand(old(lane[|lane| - 1])) && Heap() <= old(Heap())
      ensures var s := old(Snap()); Snap() == s.(lanes := s.lanes[..|s.lanes| - 1])
    {
      hide ISets.ElemsOf, SetNodes.Canon;
      var last := |lane| - 1;
      assert Drop(lane, last) == lane[..last];
      ListsDrop(lane, parking, freeBlocks, last); ValuesDrop(lane, last);
      lane := lane[..last];
      assert Mine() <= old(Mine());
      assert Sets() <= old(Sets());
    }

    /** The lane in hand is admitted, or parked again when its blocks are not available. */
    method TryAdmit(l: Lane, parked: bool) returns (ok: bool, ghost rest: set<nat>)
      requires cfg.pageLen > 0 && Sep() && InHand(l) && l.blocks == []
      modifies this`lane, this`parking, this`freeBlocks, l, l.blockset
      ensures Sep() && Heap() <= old(Heap()) + {l, l.blockset, freeBlocks}
        && (freeBlocks == old(freeBlocks) || fresh(freeBlocks))
      ensures ok == (AskOf(cfg, |All(old(l.Value()))|) <= |old(Snap()).free|)
      ensures Strip(l.Value()) == old(l.Value()) && All(l.Value()) == old(All(l.Value()))
      ensures ok ==> Snap() == Admit(old(Snap()), l.Value(), rest)
      ensures ok ==> NoDup(l.blocks) && |l.blocks| == AskOf(cfg, |All(l.Value())|)
      ensures ok ==> old(Snap()).free == ToSet(l.blocks) + rest && ToSet(l.blocks) !! rest
      ensures !ok ==> var v, s := old(l.Value()), old(Snap());
        Snap() == s.(parked := if parked then [v] + s.parked else s.parked + [v])
    {
      hide ISets.ElemsOf, SetNodes.Canon;
      SnapFacts();
      var avail := freeBlocks.Size();
      var ask := AskOf(conf, |l.req.prompt| + |l.tokens|);
      if ask > avail {
        Repark(l, parked);
        return false, {};
      }
      rest := Enlist(l, ask);
      ok := true;
    }

    /** One turn of the loop, for a parked lane. */
    method AddParked(ghost s0: State, ghost pend: seq<seq<Token>>, ghost took: seq<Request>) returns (more: bool)
      requires cfg.Valid() && Sep() && Adding(cfg, s0, Snap(), pend, took) && |lane| < cfg.maxBatch && parking != []
      modifies this`lane, this`parking, this`freeBlocks, Heap()
      ensures Sep() && Adding(cfg, s0, Snap(), pend, took)
      ensures Heap() <= old(Heap()) + {freeBlocks} && (freeBlocks == old(freeBlocks) || fresh(freeBlocks))
      ensures |lane| == |old(lane)| + if more then 1 else 0
      ensures |old(lane)| == 0 && !more ==> Blocked(cfg, Snap())
      ensures Blocked(cfg, old(Snap())) ==> !more && Snap() == old(Snap())
    {
      hide ISets.ElemsOf, SetNodes.Canon, Adding, Sep, Snap, Admit, Heap, InHand;
      ghost var s := Snap();
      SnapFacts(); FirstParked(s0, s, pend, took);
      var l := Unpark();
      ghost var v := l.Value();
      ghost var rest;
      more, rest := TryAdmit(l, true);
      SnapFacts();
      if more {
        AdmitParked(cfg, s0, s, pend, took, l.Value(), rest);
        AdmitSize(s.(parked := s.parked[1..]), l.Value(), rest);
      } else {
        assert [s.parked[0]] + s.parked[1..] == s.parked;
        assert Snap() == s;
      }
    }

    lemma FirstParked(s0: State, s: State, pend: seq<seq<Token>>, took: seq<Request>)
      requires cfg.Valid() && Adding(cfg, s0, s, pend, took) && s.parked != []
      ensures s.parked[0].blocks == []
      ensures s.lanes == [] && !Blocked(cfg, s) ==> AskOf(cfg, |All(s.parked[0])|) <= |s.free|
      ensures Blocked(cfg, s) ==> AskOf(cfg, |All(s.parked[0])|) > |s.free|
    {
      assert s.parked[0] in s.parked;
      if Blocked(cfg, s) { BlockedAsks(cfg, s, pend); }
      else if s.lanes == [] { RoomForOne(cfg, s, pend, |All(s.parked[0])|); }
    }

    /** One turn of the loop, for a packet read from the queue. */
    method AddPacket(r: Request, ghost s0: State, ghost pend: seq<seq<Token>>, ghost took: seq<Request>)
        returns (more: bool)
      requires cfg.Valid() && Sep() && Adding(cfg, s0, Snap(), pend, took) && |lane| < cfg.maxBatch && parking == []
        && cfg.Accepts(r)
      modifies this`lane, this`parking, this`freeBlocks
      ensures Sep() && Adding(cfg, s0, Snap(), pend, took + [r]) && (forall o <- Heap() :: o in old(Heap()) || fresh(o))
      ensures |lane| == |old(lane)| + if more then 1 else 0
      ensures |old(lane)| == 0 && !more ==> Blocked(cfg, Snap())
    {
      hide ISets.ElemsOf, SetNodes.Canon, Adding, Sep, Snap, Admit, Heap, InHand;
      ghost var s := Snap();
      SnapFacts(); AcceptedWaits(cfg, r); FirstPacket(s0, s, pend, took, r);
      var l := NewLane(r);
      SnapFacts(); Outside(null);
      ghost var rest;
      more, rest := TryAdmit(l, false);
      SnapFacts();
      if more {
        AdmitFresh(cfg, s0, s, pend, took, r, l.Value(), rest);
        AdmitSize(s, l.Value(), rest);
      } else {
        ParkFresh(cfg, s0, s, pend, took, r);
      }
    }

    /** Lane.from_pkt */
    method NewLane(r: Request) returns (l: Lane)
      requires Sep()
      ensures Sep() && Snap() == old(Snap()) && Heap() == old(Heap())
      ensures fresh(l) && fresh(l.blockset) && InHand(l) && l.Value() == FreshLane(r)
    {
      hide ISets.ElemsOf, SetNodes.Canon;
      l := new Lane(r);
    }

    lemma FirstPacket(s0: State, s: State, pend: seq<seq<Token>>, took: seq<Request>, r: Request)
      requires cfg.Valid() && Adding(cfg, s0, s, pend, took) && cfg.Accepts(r)
      ensures s.lanes == [] && cfg.Fits(|All(FreshLane(r))|) ==> AskOf(cfg, |All(FreshLane(r))|) <= |s.free|
    {
      if s.lanes == [] && cfg.Fits(|All(FreshLane(r))|) { RoomForOne(cfg, s, pend, |All(FreshLane(r))|); }
    }

    /** One turn of the loop, when nothing is parked. */
    method AddQueued(q: PacketQueue, ghost s0: State, ghost pend: seq<seq<Token>>, ghost took: seq<Request>)
        returns (eoq': bool, more: bool, ghost took': seq<Request>)
      requires cfg.Valid() && Sep() && Adding(cfg, s0, Snap(), pend, took) && |lane| < cfg.maxBatch && parking == []
      requires q.open && forall r <- q.packets :: cfg.Accepts(r)
      modifies this`lane, this`parking, this`freeBlocks, q
      ensures Sep() && Adding(cfg, s0, Snap(), pend, took') && (forall o <- Heap() :: o in old(Heap()) || fresh(o))
      ensures took' + q.packets == took + old(q.packets)
      ensures eoq' == !q.open && (eoq' ==> q.packets == [])
      ensures |lane| == |old(lane)| + if more then 1 else 0
      ensures |old(lane)| == 0 && !more ==> (eoq' && parking == []) || Blocked(cfg, Snap())
    {
      hide ISets.ElemsOf, SetNodes.Canon;
      eoq', more, took' := false, false, took;
      ghost var s := Snap();
      var item := q.Get(|lane| == 0);
      assert Sep() && Snap() == s && Heap() == old(Heap());
      hide Adding, Sep, Snap;
      match item
      case Nothing => return;
      case Sentinel => eoq' := true;
      case Packet(r) =>
        more := AddPacket(r, s0, pend, took);
        took' := took + [r];
    }

    /** One turn of the loop. */
    method AddOne(eoq: bool, q: PacketQueue, ghost s0: State, ghost pend: seq<seq<Token>>, ghost took: seq<Request>)
        returns (eoq': bool, more: bool, ghost took': seq<Request>)
      requires cfg.Valid() && Sep() && Adding(cfg, s0, Snap(), pend, took) && |lane| < cfg.maxBatch
      requires eoq == !q.open && forall r <- q.packets :: cfg.Accepts(r)
      modifies this`lane, this`parking, this`freeBlocks, Heap(), q
      ensures Sep() && Adding(cfg, s0, Snap(), pend, took') && (forall o <- Heap() :: o in old(Heap()) || fresh(o))
      ensures took' + q.packets == took + old(q.packets)
      ensures eoq' == !q.open && (eoq ==> eoq') && (eoq ==> q.packets == old(q.packets))
        && (eoq' && !eoq ==> q.packets == [])
      ensures |lane| == |old(lane)| + if more then 1 else 0
      ensures |old(lane)| == 0 && !more ==> (eoq' && parking == []) || Blocked(cfg, Snap())
      ensures Blocked(cfg, old(Snap())) ==> !more && Snap() == old(Snap()) && took' == took && eoq' == eoq
    {
      hide ISets.ElemsOf, SetNodes.Canon, Adding, Sep, Snap;
      SnapFacts();
      eoq', more, took' := eoq, false, took;
      if parking != [] {
        more := AddParked(s0, pend, took);
      } else if !eoq {
        eoq', more, took' := AddQueued(q, s0, pend, took);
      }
    }

    /** The loop; tokens counts those admitted. */
    method AddMany(eoq: bool, q: PacketQueue, ghost pend: seq<seq<Token>>)
        returns (eoq': bool, tokens: nat, ghost took: seq<Request>)
      requires cfg.Valid() && Sep() && Ok(cfg, Snap(), pend) && |lane| == nactive
      requires eoq == !q.open && forall r <- q.packets :: cfg.Accepts(r)
      modifies this`lane, this`parking, this`freeBlocks, Heap(), q
      ensures Sep() && Adding(cfg, old(Snap()), Snap(), pend, took)
        && (forall o <- Heap() :: o in old(Heap()) || fresh(o))
      ensures took + q.packets == old(q.packets)
      ensures eoq' == !q.open && (eoq ==> eoq') && (eoq' && !eoq ==> q.packets == [])
      ensures |lane| >= nactive && (|lane| == 0 ==> (eoq' && parking == []) || Blocked(cfg, Snap()))
      ensures Blocked(cfg, old(Snap())) ==> Snap() == old(Snap()) && took == [] && eoq' == eoq
    {
      hide ISets.ElemsOf, SetNodes.Canon;
      ghost var s0 := Snap();
      SnapFacts(); StartAdding(cfg, s0, pend); LanesFit(cfg, s0, pend);
      hide Adding, Ok, Sep, Snap;
      eoq', took, tokens := eoq, [], 0;
      var more := true;
      while more && |lane| < conf.maxBatch
        invariant Sep() && Adding(cfg, s0, Snap(), pend, took) && (forall o <- Heap() :: o in old(Heap()) || fresh(o))
        invariant took + q.packets == old(q.packets)
        invariant eoq' == !q.open && (eoq ==> eoq') && (eoq' && !eoq ==> q.packets == [])
        invariant |lane| == 0 && !more ==> (eoq' && parking == []) || Blocked(cfg, Snap())
        invariant Blocked(cfg, s0) ==> Snap() == s0 && took == [] && eoq' == eoq
        invariant nactive <= |lane| <= cfg.maxBatch
        decreases cfg.maxBatch - |lane|, if more then 1 else 0
      {
        assert forall r <- q.packets :: r in old(q.packets);
        eoq', more, took := AddOne(eoq', q, s0, pend, took);
        if more { tokens := tokens + Length(|lane| - 1); }
      }
    }

    function Length(i: nat): nat
      requires i < |lane|
      reads this, lane
    {
      |lane[i].req.prompt| + |lane[i].tokens|
    }

    /**
     * `_add_lanes`: parked lanes and then packets are admitted in order as long as their blocks
     * are free; a small batch is undone when decoding can go on without it. Behind a lane that is
     * too long nobody is admitted and nothing is read.
     */
    method AddLanes(eoq: bool, q: PacketQueue, ghost pend: seq<seq<Token>>)
        returns (eoq': bool, added: nat, ghost took: seq<Request>)
      requires cfg.Valid() && Sep() && Ok(cfg, Snap(), pend) && |lane| == nactive
      requires eoq == !q.open && forall r <- q.packets :: cfg.Accepts(r)
      modifies this`lane, this`parking, this`freeBlocks, Heap(), q
      ensures Sep() && Adding(cfg, old(Snap()), Snap(), pend, took)
        && (forall o <- Heap() :: o in old(Heap()) || fresh(o))
      ensures took + q.packets == old(q.packets)
      ensures eoq' == !q.open && (eoq ==> eoq') && (eoq' && !eoq ==> q.packets == [])
      ensures |lane| == nactive + added
      ensures nactive == 0 && added == 0 ==> (eoq' && parking == []) || Blocked(cfg, Snap())
      ensures Blocked(cfg, old(Snap())) ==> added == 0 && Snap() == old(Snap()) && took == [] && eoq' == eoq
    {
      hide ISets.ElemsOf, SetNodes.Canon, Adding, Ok, Sep, Snap, Heap, Blocked;
      ghost var s0 := Snap();
      SnapFacts();
      var tokens;
      eoq', tokens, took := AddMany(eoq, q, pend);
      SnapFacts(); Outside(q);
      if tokens < conf.minPrefill && |lane| - nactive < conf.minPrefillBatch && !eoq' && nactive > 0 {
        UndoAll(s0, pend, took);
      }
      added := |lane| - nactive;
      SnapFacts();
    }

    /** Nothing is prefilled for now. */
    method UndoAll(ghost s0: State, ghost pend: seq<seq<Token>>, ghost took: seq<Request>)
      requires Sep() && Adding(cfg, s0, Snap(), pend, took)
      modifies this`lane, this`parking, Heap()
      ensures Sep() && Adding(cfg, s0, Snap(), pend, took) && Heap() <= old(Heap()) && |lane| == nactive
      ensures |old(lane)| == nactive ==> Snap() == old(Snap())
    {
      hide ISets.ElemsOf, SetNodes.Canon, Adding;
      SnapFacts(); AddingFacts(cfg, s0, Snap(), pend, took);
      while |lane| > nactive
        invariant Sep() && Adding(cfg, s0, Snap(), pend, took) && Heap() <= old(Heap()) && |lane| >= nactive
        invariant |old(lane)| == nactive ==> Snap() == old(Snap())
        decreases |lane|
      {
        SnapFacts(); UndoAdding(cfg, s0, Snap(), pend, took);
        UndoLast();
        SnapFacts();
      }
    }

    // ---------- _decode ----------

    /** The kernels of one decoding step, for one lane: write the cell of its last token, read its row, draw. */
    method DecodeLane(i: nat, ghost s0: State, ghost pend: seq<seq<Token>>, ghost k: nat, ghost nsteps: nat)
        returns (t: Token)
      requires cfg.Valid() && Sep() && Decoding(cfg, s0, Snap(), pend, k, i) && i < nactive && k < nsteps
        && Room(cfg, s0, nsteps)
      modifies this`tokens, this`seqlen, cache
      ensures Sep() && Decoding(cfg, s0, Snap(), pend[i := pend[i] + [t]], k, i + 1)
    {
      hide ISets.ElemsOf, SetNodes.Canon, Decoding, Room;
      ghost var s := Snap();
      SnapFacts(); DevFacts();
      StepReady(cfg, s0, s, pend, k, i);
      var pl, row, n := conf.pageLen, blktbl[i], seqlen[i] - 1;
      var noise: int := *;
      WriteCell(row, n, conf.m.kv(ReadRow(cache[..], row, n, pl), tokens[i]));
      t := conf.m.pick(ReadRow(cache[..], row, n + 1, pl), temps[i], topPs[i], noise);
      DecodedOne(cfg, s0, s, pend, k, i, t, noise, nsteps);
      SetToken(i, t, n + 2);
    }

    method WriteCell(row: seq<nat>, n: nat, x: Cell)
      requires Sep() && cfg.pageLen > 0 && n / cfg.pageLen < |row| && Slot(row, n, cfg.pageLen) < cache.Length
      modifies cache
      ensures Sep() && cache[..] == old(cache[..])[Slot(row, n, cfg.pageLen) := x]
      ensures Snap() == old(Snap()).(cells := old(cache[..])[Slot(row, n, cfg.pageLen) := x])
    {
      hide ISets.ElemsOf, SetNodes.Canon;
      cache[Slot(row, n, conf.pageLen)] := x;
      assert cache[..] == old(cache[..])[Slot(row, n, cfg.pageLen) := x];
    }

    method SetToken(i: nat, t: Token, n: nat)
      requires Sep() && i < |tokens|
      modifies this`tokens, this`seqlen
      ensures Sep()
      ensures var e := old(Snap()).dev[i];
        Snap() == old(Snap()).(dev := old(Snap()).dev[i := e.(token := t, seqlen := n)])
    {
      hide ISets.ElemsOf, SetNodes.Canon;
      ZipToken(tokens, seqlen, maxlen, temps, topPs, blktbl, i, t, n);
      hide Zip;
      tokens, seqlen := tokens[i := t], seqlen[i := n];
    }

    /** One step for every active lane. */
    method DecodeRound(ghost s0: State, out: seq<seq<Token>>, k: nat, ghost nsteps: nat) returns (out': seq<seq<Token>>)
      requires cfg.Valid() && Sep() && Decoding(cfg, s0, Snap(), out, k, 0) && k < nsteps && Room(cfg, s0, nsteps)
      modifies this`tokens, this`seqlen, cache
      ensures Sep() && Decoding(cfg, s0, Snap(), out', k + 1, 0)
    {
      hide ISets.ElemsOf, SetNodes.Canon;
      SnapFacts(); DecodingSize(cfg, s0, Snap(), out, k, 0);
      hide Decoding, Sep, Snap, Room;
      out' := out;
      for i := 0 to nactive
        invariant Sep() && Decoding(cfg, s0, Snap(), out', k, i) && |out'| == nactive
      {
        var t := DecodeLane(i, s0, out', k, nsteps);
        out' := out'[i := out'[i] + [t]];
      }
      SnapFacts(); NextRound(cfg, s0, Snap(), out', k);
    }

    function MaxOf(s: seq<nat>): (m: nat)
      requires s != []
      ensures m in s && forall x <- s :: x <= m
    {
      if |s| == 1 then s[0] else
        var m := MaxOf(s[1..]);
        assert s == [s[0]] + s[1..];
        if m < s[0] then s[0] else m
    }

    /** The number of steps, from the maximum over the whole length tensor; the source's assertion holds. */
    method CountSteps() returns (nsteps: nat)
      requires cfg.Valid() && Sep() && AtRest(cfg, Snap()) && nactive > 0
      requires forall i: nat :: i < nactive ==> Prepared(cfg, lane[i].Value())
      ensures 1 <= nsteps <= cfg.syncFreq && Room(cfg, Snap(), nsteps)
    {
      hide ISets.ElemsOf, SetNodes.Canon;
      ghost var s := Snap();
      SnapFacts(); DevFacts(); RestFacts(cfg, s);
      var maxsl := MaxOf(seqlen);
      ghost var i :| 0 <= i < |seqlen| && seqlen[i] == maxsl;
      assert s.dev[i].seqlen == maxsl;
      forall j | 0 <= j < |s.dev| ensures s.dev[j].seqlen <= maxsl {
        assert s.dev[j].seqlen == seqlen[j] && seqlen[j] in seqlen;
      }
      StepsFit(cfg, s, maxsl);
      assert maxsl < cfg.maxSeq;
      nsteps := Min(conf.maxSeq - maxsl, conf.syncFreq);
    }

    /**
     * `_decode`: as many steps as the longest lane still allows, at most sync_freq. Only the
     * tensors and the cells of the active lanes' blocks change.
     */
    method Decode() returns (out: seq<seq<Token>>, nsteps: nat)
      requires cfg.Valid() && Sep() && AtRest(cfg, Snap()) && nactive > 0
      requires forall i: nat :: i < nactive ==> Prepared(cfg, lane[i].Value())
      modifies this`tokens, this`seqlen, cache
      ensures Sep() && Decoding(cfg, old(Snap()), Snap(), out, nsteps, 0) && 1 <= nsteps <= cfg.syncFreq
    {
      hide ISets.ElemsOf, SetNodes.Canon;
      ghost var s0 := Snap();
      nsteps := CountSteps();
      assert Sep() && Snap() == s0;
      SnapFacts(); StartDecoding(cfg, s0);
      hide Decoding, Sep, Snap, Room, AtRest;
      out := Empties(nactive);
      for k := 0 to nsteps
        invariant Sep() && Decoding(cfg, s0, Snap(), out, k, 0)
      {
        out := DecodeRound(s0, out, k, nsteps);
      }
    }

    // ---------- _prefill ----------

    /** `blktbl[i, :len(blks)] = blks` */
    method RouteLane(i: nat)
      requires Sep() && i < |lane| && i < |tokens| && |lane[i].blocks| <= |blktbl[i]|
      modifies this`blktbl
      ensures Sep() && Snap() == Route(old(Snap()), i)
    {
      hide ISets.ElemsOf, SetNodes.Canon;
      var row := lane[i].blocks + blktbl[i][|lane[i].blocks|..];
      ZipRow(tokens, seqlen, maxlen, temps, topPs, blktbl, i, row);
      hide Zip;
      blktbl := blktbl[i := row];
    }

    /** The host cache's part of the first loop, for one lane. */
    method AskHost(blks: seq<nat>, toks: seq<Token>, ghost lanes: seq<HostCaches.DynCacheLane>,
        ghost ids: seq<seq<HostCaches.NodeId>>, ghost news: seq<seq<Token>>)
      returns (r: HostCaches.DynCacheLane, ghost ids': seq<seq<HostCaches.NodeId>>)
      requires Docked() && Sep() && hostCache.Batch(lanes, ids, news)
      modifies hostCache
      ensures Docked() && Sep() && Snap() == old(Snap()) && hostCache.Batch(lanes + [r], ids', news + [toks])
      ensures r.gpuBlocks == blks && r.readyCount * cfg.pageLen <= |toks|
    {
      hide ISets.ElemsOf, SetNodes.Canon, HostCaches.CacheOk, HostCaches.LaneOk, HostCaches.Fresh;
      ghost var path;
      r, path := hostCache.PrepareNext(blks, toks, lanes, ids, news);
      ids' := ids + [path];
      var n := |lanes|;
      assert HostCaches.LaneOk(hostCache.node, hostCache.place, hostCache.frozen, hostCache.pageLen, (lanes + [r])[n],
        ids'[n], (news + [toks])[n]);
      PathFits(r, path, toks);
    }

    /** The same, for admitted lane k. */
    method AskLane(k: nat, ghost lanes: seq<HostCaches.DynCacheLane>, ghost ids: seq<seq<HostCaches.NodeId>>)
      returns (r: HostCaches.DynCacheLane, ghost ids': seq<seq<HostCaches.NodeId>>)
      requires Docked() && Sep() && k < |lane| - nactive && hostCache.Batch(lanes, ids, News(Snap())[..k])
      modifies hostCache
      ensures Docked() && Sep() && Snap() == old(Snap()) && hostCache.Batch(lanes + [r], ids', News(Snap())[..k + 1])
      ensures var l := lane[nactive + k];
        r.gpuBlocks == l.blocks && r.readyCount * cfg.pageLen <= |All(l.Value())|
    {
      SnapFacts(); NewsNext(Snap(), k);
      hide ISets.ElemsOf, SetNodes.Canon, HostCaches.CacheOk, HostCaches.LaneOk, HostCaches.Fresh, News, Sep, Snap,
        HostOk, InFlight;
      var l := lane[nactive + k];
      r, ids' := AskHost(l.blocks, l.req.prompt + l.tokens, lanes, ids, News(Snap())[..k]);
    }

    /** The lists grow by one lane, and its table row is filled in. */
    method DraftRow(d: Draft, r: HostCaches.DynCacheLane, ghost s0: State, ghost pend: seq<seq<Token>>)
        returns (d': Draft)
      requires Sep() && Drafted(cfg, s0, Snap(), pend, d) && |d.infos| < |lane| - nactive
      requires var l := lane[nactive + |d.infos|];
        r.gpuBlocks == l.blocks && r.readyCount * cfg.pageLen <= |All(l.Value())|
      modifies this`blktbl
      ensures Sep() && Drafted(cfg, s0, Snap(), pend, d') && |d'.infos| == |d.infos| + 1 && d'.lanes == d.lanes + [r]
      ensures News(Snap()) == News(old(Snap()))
    {
      hide ISets.ElemsOf, SetNodes.Canon, Plan, Extend;
      ghost var s := Snap();
      var i := nactive + |d.infos|;
      SnapFacts(); DevFacts();
      var toks := lane[i].req.prompt + lane[i].tokens;
      DraftOne(cfg, s0, s, pend, d, r);
      ExtendSize(d, r, toks, cfg.pageLen);
      d' := Extend(d, r, toks, conf.pageLen);
      hide Drafted, News;
      RouteLane(i);
      NewsSame(s, Snap());
    }

    /** The first loop of `_prefill`, for one lane. */
    method DraftLane(d: Draft, ghost ids: seq<seq<HostCaches.NodeId>>, ghost s0: State, ghost pend: seq<seq<Token>>)
      returns (d': Draft, ghost ids': seq<seq<HostCaches.NodeId>>)
      requires Sep() && Docked() && Drafted(cfg, s0, Snap(), pend, d) && |d.infos| < |lane| - nactive
      requires hostCache.Batch(d.lanes, ids, News(Snap())[..|d.infos|])
      modifies this`blktbl, hostCache
      ensures Sep() && Docked() && Drafted(cfg, s0, Snap(), pend, d') && |d'.infos| == |d.infos| + 1
      ensures hostCache.Batch(d'.lanes, ids', News(Snap())[..|d'.infos|])
    {
      hide ISets.ElemsOf, SetNodes.Canon, HostCaches.CacheOk, HostCaches.LaneOk, HostCaches.Fresh, Drafted, News, Sep,
        Snap, HostOk, InFlight;
      var r;
      r, ids' := AskLane(|d.infos|, d.lanes, ids);
      d' := DraftRow(d, r, s0, pend);
    }

    lemma PathFits(r: HostCaches.DynCacheLane, path: seq<HostCaches.NodeId>, toks: seq<Token>)
      requires Docked()
        && HostCaches.LaneOk(hostCache.node, hostCache.place, hostCache.frozen, cfg.pageLen, r, path, toks)
      ensures r.readyCount * cfg.pageLen <= |toks|
    {
      MulMono(r.readyCount, |path|, cfg.pageLen);
    }

    /** The first loop of `_prefill`. */
    method DraftAll(ghost pend: seq<seq<Token>>) returns (d: Draft, ghost ids: seq<seq<HostCaches.NodeId>>)
      requires cfg.Valid() && Sep() && Docked() && Ok(cfg, Snap(), pend) && hostCache.frozen == {}
      modifies this`blktbl, hostCache
      ensures Sep() && Docked() && Drafted(cfg, old(Snap()), Snap(), pend, d) && |d.infos| == |lane| - nactive
      ensures hostCache.Batch(d.lanes, ids, News(Snap()))
    {
      hide ISets.ElemsOf, SetNodes.Canon, HostCaches.CacheOk, HostCaches.LaneOk;
      ghost var s0 := Snap();
      SnapFacts(); StartDraft(cfg, s0, pend);
      d, ids := Draft([], [], [], []), [];
      hide Drafted;
      while |d.infos| < |lane| - nactive
        invariant Sep() && Docked() && Drafted(cfg, s0, Snap(), pend, d) && |d.infos| <= |lane| - nactive
        invariant hostCache.Batch(d.lanes, ids, News(Snap())[..|d.infos|])
      {
        d, ids := DraftLane(d, ids, s0, pend);
      }
      assert News(Snap())[..|d.infos|] == News(Snap());
    }

    /** One page from the host. */
    method CopyIn(b: nat, page: seq<Cell>)
      requires Sep() && |page| == cfg.pageLen && b * cfg.pageLen + cfg.pageLen <= cache.Length
      modifies cache
      ensures Sep() && Snap() == old(Snap()).(cells := cache[..])
      ensures SameOutside(old(cache[..]), cache[..], b, cfg.pageLen)
        && cache[b * cfg.pageLen..b * cfg.pageLen + cfg.pageLen] == page
    {
      hide ISets.ElemsOf, SetNodes.Canon;
      var base := b * conf.pageLen;
      forall o | 0 <= o < |page| { cache[base + o] := page[o]; }
      assert cache[base..base + cfg.pageLen] == page;
    }

    /** page_in for one lane. */
    method PageInLane(j: nat, r: HostCaches.DynCacheLane, ghost path: seq<HostCaches.NodeId>, ghost s0: State,
        ghost pend: seq<seq<Token>>, ghost fill: seq<nat>)
      requires Sep() && Docked() && Loading(cfg, s0, Snap(), pend, fill) && j < |fill| && fill[j] == 0
      requires r.gpuBlocks == lane[nactive + j].blocks
      requires HostCaches.LaneOk(hostCache.node, hostCache.place, hostCache.frozen, hostCache.pageLen, r, path,
        All(lane[nactive + j].Value()))
      modifies cache
      ensures Sep() && Loading(cfg, s0, Snap(), pend, fill[j := r.readyCount * cfg.pageLen])
    {
      hide ISets.ElemsOf, SetNodes.Canon, HostCaches.LaneOk, HostCaches.CacheOk, Ok;
      assert fill[j := 0] == fill;
      for k := 0 to r.readyCount
        invariant Sep() && Loading(cfg, s0, Snap(), pend, fill[j := k * cfg.pageLen])
      {
        ghost var s, f := Snap(), fill[j := k * cfg.pageLen];
        PageHere(s0, pend, f, j, k, r, path, All(lane[nactive + j].Value()), k * cfg.pageLen);
        CopyIn(r.gpuBlocks[k], hostCache.host[r.cpuBlocks[k]]);
        LoadPage(cfg, s0, s, pend, f, j, k, k * cfg.pageLen, cache[..]);
        PageEnd(k, cfg.pageLen);
        assert f[j := k * cfg.pageLen + cfg.pageLen] == fill[j := (k + 1) * cfg.pageLen];
      }
    }

    /** The pages of this lane's prompt in the host cache. */
    ghost predicate OnTrack(r: HostCaches.DynCacheLane, path: seq<HostCaches.NodeId>, toks: seq<Token>)
      reads hostCache
    {
      HostCaches.LaneOk(hostCache.node, hostCache.place, hostCache.frozen, hostCache.pageLen, r, path, toks)
    }

    /** What is needed to copy page k of a lane. */
    lemma PageHere(s0: State, pend: seq<seq<Token>>, fill: seq<nat>, j: nat, k: nat, r: HostCaches.DynCacheLane,
        path: seq<HostCaches.NodeId>, t: seq<Token>, n: nat)
      requires Sep() && Docked() && Loading(cfg, s0, Snap(), pend, fill) && j < |fill| && k < r.readyCount
        && n == k * cfg.pageLen
      requires nactive + j < |lane| && r.gpuBlocks == lane[nactive + j].blocks && t == All(lane[nactive + j].Value())
        && OnTrack(r, path, t)
      ensures k < |r.gpuBlocks| && k < |r.cpuBlocks| && r.cpuBlocks[k] in hostCache.host
      ensures r.gpuBlocks[k] * cfg.pageLen + cfg.pageLen <= cache.Length && n + cfg.pageLen <= |t|
      ensures |hostCache.host[r.cpuBlocks[k]]| == cfg.pageLen
      ensures cfg.exact ==> hostCache.host[r.cpuBlocks[k]] == LastPage(cfg.m, t[..n + cfg.pageLen], cfg.pageLen)
    {
      hide ISets.ElemsOf, SetNodes.Canon, HostCaches.LaneOk, Loading;
      SnapFacts(); LoadingSize(cfg, s0, Snap(), pend, fill);
      AdmittedBlocks(cfg, s0, Snap(), pend, fill, j);
      HostCaches.ReadyPage(cfg.m, hostCache.node, hostCache.place, hostCache.frozen, hostCache.host,
        hostCache.freeCaches, cfg.pageLen,
        hostCache.unfilled, r, path, t, k);
      PageEnd(k, cfg.pageLen);
      PageInRow(r.gpuBlocks, k, |t|, cfg.pageLen, |cache[..]|);
    }

    /** The lanes of the copy plan are the admitted lanes. */
    ghost predicate Planned(lanes: seq<HostCaches.DynCacheLane>, ids: seq<seq<HostCaches.NodeId>>)
      reads this, lane, hostCache
    {
      && HostOk() && nactive <= |lane| && |lanes| == |ids| == |lane| - nactive
      && (hostCache.disabled ==> forall j :: 0 <= j < |ids| ==> ids[j] == [])
      && (forall j: nat {:trigger lanes[j]} :: j < |lanes| ==> lanes[j].gpuBlocks == lane[nactive + j].blocks)
      && (forall j: nat {:trigger lanes[j]} :: j < |lanes| ==>
            HostCaches.LaneOk(hostCache.node, hostCache.place, hostCache.frozen, hostCache.pageLen, lanes[j], ids[j],
              All(lane[nactive + j].Value())))
    }

    /** page_in: nothing when the cache is off or the mode forbids it. */
    method PageIn(dyn: HostCaches.DynCache, ghost ids: seq<seq<HostCaches.NodeId>>, ghost s0: State,
        ghost pend: seq<seq<Token>>, ghost fill: seq<nat>)
      requires Sep() && Docked() && Planned(dyn.lanes, ids) && Loading(cfg, s0, Snap(), pend, fill)
      requires dyn.mode & HostCaches.PAGE_IN != 0 ==> fill == PagedIn(dyn.lanes, 0, cfg.pageLen)
      modifies cache
      ensures Sep() && Loading(cfg, s0, Snap(), pend,
        Entering(dyn.lanes, fill, dyn.mode & HostCaches.PAGE_IN != 0, cfg.pageLen))
    {
      hide ISets.ElemsOf, SetNodes.Canon, HostCaches.CacheOk, Loading;
      if hostCache.disabled || dyn.mode & HostCaches.PAGE_IN == 0 {
        if hostCache.disabled { NothingReady(dyn.lanes, ids); }
        return;
      }
      for j := 0 to |dyn.lanes|
        invariant Sep() && Loading(cfg, s0, Snap(), pend, PagedIn(dyn.lanes, j, cfg.pageLen))
      {
        PagedInNext(dyn.lanes, j, cfg.pageLen);
        PageInLane(j, dyn.lanes[j], ids[j], s0, pend, PagedIn(dyn.lanes, j, cfg.pageLen));
      }
    }

    lemma NothingReady(lanes: seq<HostCaches.DynCacheLane>, ids: seq<seq<HostCaches.NodeId>>)
      requires Planned(lanes, ids) && hostCache.disabled
      ensures PagedIn(lanes, |lanes|, cfg.pageLen) == PagedIn(lanes, 0, cfg.pageLen)
    {
      forall j: nat | j < |lanes| ensures lanes[j].readyCount * cfg.pageLen == 0 {
        assert lanes[j].readyCount == 0;
      }
    }

    /** The kernels of one call of the model, for one position of an admitted lane. */
    method FwdToken(j: nat, p: nat, t: Token, ghost s0: State, ghost pend: seq<seq<Token>>, ghost fill: seq<nat>)
      requires Sep() && Loading(cfg, s0, Snap(), pend, fill) && j < |fill| && fill[j] == p
      requires var l := lane[nactive + j].Value(); p < |All(l)| && t == All(l)[p] && l.blocks <= blktbl[nactive + j]
      modifies cache
      ensures Sep() && Loading(cfg, s0, Snap(), pend, fill[j := p + 1])
    {
      hide ISets.ElemsOf, SetNodes.Canon, Ok;
      ghost var s := Snap();
      SnapFacts(); DevFacts(); LoadingSize(cfg, s0, s, pend, fill); AdmittedBlocks(cfg, s0, s, pend, fill, j);
      LoadNext(cfg, s0, s, pend, fill, j);
      var row, pl := blktbl[nactive + j], conf.pageLen;
      LongerRow(cache[..], lane[nactive + j].blocks, row, p, pl);
      hide Loading;
      WriteCell(row, p, conf.m.kv(ReadRow(cache[..], row, p, pl), t));
    }

    /** One piece: the tokens of one lane from position cached on. */
    method FwdPiece(j: nat, piece: Piece, toks: seq<Token>, off: nat, ghost s0: State, ghost pend: seq<seq<Token>>,
        ghost fill: seq<nat>)
      returns (row: seq<Cell>)
      requires Sep() && Loading(cfg, s0, Snap(), pend, fill) && j < |fill| && piece.cached <= fill[j]
        && off + piece.ntoks <= |toks|
      requires var l := lane[nactive + j].Value(); var e := piece.cached + piece.ntoks;
        e <= |All(l)| && toks[off..off + piece.ntoks] == All(l)[piece.cached..e] && l.blocks <= blktbl[nactive + j]
      modifies cache
      ensures Sep() && Loading(cfg, s0, Snap(), pend, fill[j := piece.cached + piece.ntoks])
      ensures cfg.exact ==> row == Cells(cfg.m, All(lane[nactive + j].Value())[..piece.cached + piece.ntoks])
    {
      hide ISets.ElemsOf, SetNodes.Canon, Ok, Loading, Cells;
      SnapFacts(); LoadingSize(cfg, s0, Snap(), pend, fill);
      ForgetSome(cfg, s0, Snap(), pend, fill, j, piece.cached);
      var e := piece.cached + piece.ntoks;
      for p := piece.cached to e
        invariant Sep() && Loading(cfg, s0, Snap(), pend, fill[j := p])
      {
        assert toks[off..off + piece.ntoks][p - piece.cached] == toks[off + (p - piece.cached)];
        FwdToken(j, p, toks[off + (p - piece.cached)], s0, pend, fill[j := p]);
        assert fill[j := p][j := p + 1] == fill[j := p + 1];
      }
      row := ReadRow(cache[..], blktbl[nactive + j], e, conf.pageLen);
      RowDone(j, e, s0, pend, fill[j := e]);
    }

    lemma RowDone(j: nat, e: nat, s0: State, pend: seq<seq<Token>>, fill: seq<nat>)
      requires Sep() && Loading(cfg, s0, Snap(), pend, fill) && j < |fill| && fill[j] == e
      requires var l := lane[nactive + j].Value(); e <= |All(l)| && l.blocks <= blktbl[nactive + j]
      ensures cfg.exact ==>
        ReadRow(cache[..], blktbl[nactive + j], e, cfg.pageLen) == Cells(cfg.m, All(lane[nactive + j].Value())[..e])
    {
      SnapFacts();
      assert FilledAt(cfg, Snap(), fill, j);
      AdmittedBlocks(cfg, s0, Snap(), pend, fill, j);
      LongerRow(cache[..], lane[nactive + j].blocks, blktbl[nactive + j], e, cfg.pageLen);
    }

    /** The table rows of the admitted lanes start with their blocks. */
    ghost predicate Routed()
      reads this, lane
    {
      |lane| <= |blktbl| && forall i :: nactive <= i < |lane| ==> lane[i].blocks <= blktbl[i]
    }

    /** Piece k of a call of the model. */
    method ForwardOne(f: nat, k: nat, infos: seq<Piece>, part: seq<Token>, off: nat, ghost offs: seq<nat>,
        ghost s0: State, ghost pend: seq<seq<Token>>, ghost fill: seq<nat>)
      returns (row: seq<Cell>)
      requires Sep() && Routed() && k < |infos| && f + |infos| <= |fill| && s0.nactive <= |s0.lanes|
      requires Loading(cfg, s0, Snap(), pend, Progressed(fill, f, infos, k))
      requires Chunk(News(s0), f, infos, part, offs) && off == offs[k] && infos[k].cached <= fill[f + k]
      modifies cache
      ensures Sep() && Routed() && Loading(cfg, s0, Snap(), pend, Progressed(fill, f, infos, k + 1))
      ensures offs[k + 1] == off + infos[k].ntoks
      ensures f + k < |News(s0)| && infos[k].cached + infos[k].ntoks <= |News(s0)[f + k]|
      ensures cfg.exact ==> row == Cells(cfg.m, News(s0)[f + k][..infos[k].cached + infos[k].ntoks])
    {
      hide ISets.ElemsOf, SetNodes.Canon, Loading, Chunk, Progressed, News, Sep, Snap, RowFits;
      SnapFacts(); DevFacts(); LoadingSize(cfg, s0, Snap(), pend, Progressed(fill, f, infos, k));
      ProgressedNext(fill, f, infos, k);
      PieceFacts(News(s0), f, infos, part, offs, k);
      NewsAt(s0, f + k);
      row := FwdPiece(f + k, infos[k], part, off, s0, pend, Progressed(fill, f, infos, k));
      SnapFacts(); LoadingSize(cfg, s0, Snap(), pend, Progressed(fill, f, infos, k + 1));
    }

    /** The computing part of one call of the model, piece after piece. */
    method Forward(f: nat, infos: seq<Piece>, part: seq<Token>, ghost offs: seq<nat>, ghost s0: State,
        ghost pend: seq<seq<Token>>, ghost fill: seq<nat>)
      returns (logits: seq<seq<Cell>>)
      requires Sep() && Loading(cfg, s0, Snap(), pend, fill) && Routed() && s0.nactive <= |s0.lanes|
      requires Chunk(News(s0), f, infos, part, offs) && f + |infos| <= |fill|
      requires forall k :: 0 <= k < |infos| ==> infos[k].cached <= fill[f + k]
      modifies cache
      ensures Sep() && Loading(cfg, s0, Snap(), pend, Progressed(fill, f, infos, |infos|)) && Routed()
      ensures |logits| == |infos| && Rows(cfg, News(s0), f, infos, logits)
    {
      hide ISets.ElemsOf, SetNodes.Canon, Loading, Chunk, Progressed, News, Rows, Sep, Snap, Routed;
      logits := [];
      var off := 0;
      ChunkStart(News(s0), f, infos, part, offs); ProgressedStart(fill, f, infos); NoRows(cfg, News(s0), f, infos);
      for k := 0 to |infos|
        invariant Sep() && Loading(cfg, s0, Snap(), pend, Progressed(fill, f, infos, k)) && Routed()
        invariant off == offs[k] && |logits| == k && Rows(cfg, News(s0), f, infos, logits)
      {
        var row := ForwardOne(f, k, infos, part, off, offs, s0, pend, fill);
        RowsNext(cfg, News(s0), f, infos, logits, row);
        logits := logits + [row];
        off := off + infos[k].ntoks;
      }
    }

    /** What is needed to queue a copy of page k of a lane. */
    lemma PageThere(s0: State, pend: seq<seq<Token>>, fill: seq<nat>, j: nat, k: nat, r: HostCaches.DynCacheLane,
        path: seq<HostCaches.NodeId>)
      requires Sep() && HostOk() && Loading(cfg, s0, Snap(), pend, fill) && j < |fill|
        && r.readyCount <= k < |r.cpuBlocks|
      requires r.gpuBlocks == lane[nactive + j].blocks && fill[j] == |All(lane[nactive + j].Value())|
      requires HostCaches.LaneOk(hostCache.node, hostCache.place, hostCache.frozen, hostCache.pageLen, r, path,
        All(lane[nactive + j].Value()))
      ensures k < |r.gpuBlocks| && k < |path| && path[k] in hostCache.place
      ensures Bound(cfg, hostCache.node, hostCache.place, hostCache.unfilled, cache[..],
        Copy(r.gpuBlocks[k], r.cpuBlocks[k]), path[k])
      ensures Berthed(cfg, Snap(), r.gpuBlocks[k], |hostCache.place[path[k]].path|)
    {
      hide ISets.ElemsOf, SetNodes.Canon, Loading, HostCaches.CacheOk, RowFits, Holds;
      SnapFacts(); LoadingSize(cfg, s0, Snap(), pend, fill); LaneHolds(cfg, s0, Snap(), pend, fill, j);
      var s, t := Snap(), All(lane[nactive + j].Value());
      AdmittedBlocks(cfg, s0, s, pend, fill, j);
      hide Sep, Snap;
      assert HostCaches.OnPath(hostCache.node, hostCache.place, hostCache.frozen, cfg.pageLen, r, path, t, k);
      PageInLaneRow(s.cells, r.gpuBlocks, t, k);
      if cfg.exact { FullPage(cfg.m, cache[..], r.gpuBlocks, t, k, cfg.pageLen); }
      assert BerthAt(cfg, s, r.gpuBlocks[k], |hostCache.place[path[k]].path|, nactive + j, k);
    }

    lemma PageInLaneRow(c: seq<Cell>, blocks: seq<nat>, t: seq<Token>, k: nat)
      requires cfg.pageLen > 0 && (k + 1) * cfg.pageLen <= |t| <= |blocks| * cfg.pageLen
        && RowFits(|c|, blocks, cfg.pageLen)
      ensures k < |blocks| && blocks[k] * cfg.pageLen + cfg.pageLen <= |c|
    {
      PageEnd(k, cfg.pageLen);
      PageInRow(blocks, k, |t|, cfg.pageLen, |c|);
    }

    method QueueCopy(c: Copy, ghost n: NodeId, ghost s: State)
      requires Flying() && AllBerthed(cfg, s, hostCache.place, stream.copies, stream.owner) && n in hostCache.place
      requires Bound(cfg, hostCache.node, hostCache.place, hostCache.unfilled, cache[..], c, n)
      requires Berthed(cfg, s, c.block, |hostCache.place[n].path|)
      modifies stream`copies, stream`owner
      ensures Flying() && HostOk() && AllBerthed(cfg, s, hostCache.place, stream.copies, stream.owner)
        && stream.owner == old(stream.owner) + [n]
    {
      hide HostCaches.CacheOk, HostCaches.ContentsOk, Berthed;
      OneQueued(cfg, hostCache.node, hostCache.place, hostCache.frozen, hostCache.unfilled, cache[..], stream.copies,
        stream.owner, c, n);
      OneBerthed(cfg, s, hostCache.place, stream.copies, stream.owner, c, n);
      hide InFlight, AllBerthed, Bound;
      stream.copies, stream.owner := stream.copies + [c], stream.owner + [n];
    }

    /** page_out for one lane: copies of the pages that were not in the host cache are queued. */
    method PageOutLane(j: nat, r: HostCaches.DynCacheLane, ghost path: seq<HostCaches.NodeId>, ghost s0: State,
        ghost pend: seq<seq<Token>>, ghost fill: seq<nat>)
      requires Sep() && Flying() && Loading(cfg, s0, Snap(), pend, fill) && j < |fill|
      requires AllBerthed(cfg, Snap(), hostCache.place, stream.copies, stream.owner)
      requires r.gpuBlocks == lane[nactive + j].blocks && fill[j] == |All(lane[nactive + j].Value())|
      requires HostCaches.LaneOk(hostCache.node, hostCache.place, hostCache.frozen, hostCache.pageLen, r, path,
        All(lane[nactive + j].Value()))
      modifies stream`copies, stream`owner
      ensures Flying() && AllBerthed(cfg, Snap(), hostCache.place, stream.copies, stream.owner)
        && old(stream.owner) <= stream.owner
      ensures forall k :: r.readyCount <= k < |path| ==> path[k] in stream.owner
    {
      hide ISets.ElemsOf, SetNodes.Canon, HostCaches.LaneOk, Loading, Flying, HostOk, AllBerthed, Bound, Berthed, NoDup;
      SnapFacts(); LoadingSize(cfg, s0, Snap(), pend, fill);
      LaneSizes(hostCache.node, hostCache.place, hostCache.frozen, hostCache.pageLen, r, path,
        All(lane[nactive + j].Value()));
      FlyingHost();
      ghost var s := Snap();
      for k := r.readyCount to |r.cpuBlocks|
        invariant Flying() && HostOk() && AllBerthed(cfg, s, hostCache.place, stream.copies, stream.owner)
        invariant old(stream.owner) <= stream.owner
        invariant forall i :: r.readyCount <= i < k ==> path[i] in stream.owner
      {
        PageThere(s0, pend, fill, j, k, r, path);
        QueueCopy(Copy(r.gpuBlocks[k], r.cpuBlocks[k]), path[k], s);
      }
    }

    lemma FlyingHost()
      requires Flying()
      ensures HostOk()
    {
    }

    lemma LaneSizes(node: map<HostCaches.NodeId, HostCaches.Node>, place: map<HostCaches.NodeId, HostCaches.Place>,
        frozen: set<HostCaches.NodeId>,
        pl: nat, r: HostCaches.DynCacheLane, path: seq<HostCaches.NodeId>, t: seq<Token>)
      requires HostCaches.LaneOk(node, place, frozen, pl, r, path, t)
      ensures |r.cpuBlocks| == |path| && r.readyCount <= |path|
    {
    }

    /** A copy is queued for every frozen node, from the lane that inserted it. */
    ghost predicate Issued()
      reads `cfg, stream, hostCache, cache
      reads this, Mine(), Sets(), freeBlocks
    {
      && Sep() && Flying() && (forall n <- hostCache.frozen :: n in stream.owner)
      && AllBerthed(cfg, Snap(), hostCache.place, stream.copies, stream.owner)
      && (hostCache.disabled ==> stream.copies == [])
    }

    /** page_out. */
    method PageOut(dyn: HostCaches.DynCache, ghost ids: seq<seq<HostCaches.NodeId>>, ghost s0: State,
        ghost pend: seq<seq<Token>>, ghost fill: seq<nat>)
      requires Sep() && Docked() && Planned(dyn.lanes, ids) && Loading(cfg, s0, Snap(), pend, fill)
        && |fill| == |dyn.lanes|
      requires forall j: nat :: j < |fill| ==> fill[j] == |All(lane[nactive + j].Value())|
      requires forall n <- hostCache.frozen :: HostCaches.Fresh(ids, dyn.lanes, n)
      requires dyn.mode & HostCaches.PAGE_OUT != 0
      modifies stream`copies, stream`owner
      ensures Issued()
    {
      hide ISets.ElemsOf, SetNodes.Canon, HostCaches.CacheOk, HostCaches.LaneOk, Loading;
      if !hostCache.disabled {
        for j := 0 to |dyn.lanes|
          invariant Flying() && AllBerthed(cfg, Snap(), hostCache.place, stream.copies, stream.owner)
          invariant forall i, k :: 0 <= i < j && dyn.lanes[i].readyCount <= k < |ids[i]| ==> ids[i][k] in stream.owner
        {
          ghost var before := stream.owner;
          PageOutLane(j, dyn.lanes[j], ids[j], s0, pend, fill);
          assert forall n <- before :: n in stream.owner;
        }
      }
      AllQueued(dyn.lanes, ids);
    }

    lemma AllQueued(lanes: seq<HostCaches.DynCacheLane>, ids: seq<seq<HostCaches.NodeId>>)
      requires |lanes| == |ids|
      requires forall n <- hostCache.frozen :: HostCaches.Fresh(ids, lanes, n)
      requires hostCache.disabled ==> forall j :: 0 <= j < |ids| ==> ids[j] == []
      requires !hostCache.disabled ==> forall i, k ::
        0 <= i < |lanes| && lanes[i].readyCount <= k < |ids[i]| ==> ids[i][k] in stream.owner
      ensures forall n <- hostCache.frozen :: n in stream.owner
    {
      forall n | n in hostCache.frozen ensures n in stream.owner {
        var j: nat, k: nat :| j < |ids| && lanes[j].readyCount <= k < |ids[j]| && ids[j][k] == n;
      }
    }

    /** One call of the model: pages in, computes, pages out, as the mode says. */
    method FwdPrefill(dyn: HostCaches.DynCache, f: nat, infos: seq<Piece>, part: seq<Token>, ghost offs: seq<nat>,
        ghost ids: seq<seq<HostCaches.NodeId>>, ghost s0: State, ghost pend: seq<seq<Token>>, ghost fill: seq<nat>,
        ghost entered: seq<nat>)
      returns (logits: seq<seq<Cell>>)
      requires Sep() && Routed() && Docked() && Planned(dyn.lanes, ids) && Loading(cfg, s0, Snap(), pend, fill)
        && s0.nactive <= |s0.lanes|
      requires dyn.mode & HostCaches.PAGE_IN != 0 ==> fill == PagedIn(dyn.lanes, 0, cfg.pageLen)
      requires entered == Entering(dyn.lanes, fill, dyn.mode & HostCaches.PAGE_IN != 0, cfg.pageLen)
      requires Chunk(News(s0), f, infos, part, offs) && f + |infos| <= |entered| == |dyn.lanes| == |News(s0)|
      requires forall k :: 0 <= k < |infos| ==> infos[k].cached <= entered[f + k]
      requires dyn.mode & HostCaches.PAGE_OUT != 0 ==> AllLoaded(News(s0), Progressed(entered, f, infos, |infos|))
      requires forall n <- hostCache.frozen :: HostCaches.Fresh(ids, dyn.lanes, n)
      modifies cache, stream`copies, stream`owner
      ensures Sep() && Routed() && Planned(dyn.lanes, ids)
        && Loading(cfg, s0, Snap(), pend, Progressed(entered, f, infos, |infos|))
      ensures |logits| == |infos| && Rows(cfg, News(s0), f, infos, logits)
      ensures if dyn.mode & HostCaches.PAGE_OUT != 0 then Issued() else Docked()
    {
      hide ISets.ElemsOf, SetNodes.Canon, HostCaches.CacheOk, HostCaches.LaneOk, HostCaches.Fresh, Issued, InFlight,
        AllBerthed,
        Loading, Chunk, Progressed, News, Rows, Entering;
      PageIn(dyn, ids, s0, pend, fill);
      logits := Forward(f, infos, part, offs, s0, pend, entered);
      if dyn.mode & HostCaches.PAGE_OUT != 0 {
        FullLanes(s0, pend, Progressed(entered, f, infos, |infos|));
        PageOut(dyn, ids, s0, pend, Progressed(entered, f, infos, |infos|));
      }
    }

    lemma FullLanes(s0: State, pend: seq<seq<Token>>, fill: seq<nat>)
      requires Sep() && Loading(cfg, s0, Snap(), pend, fill) && s0.nactive <= |s0.lanes| && AllLoaded(News(s0), fill)
      ensures nactive + |fill| == |lane| && forall j: nat :: j < |fill| ==> fill[j] == |All(lane[nactive + j].Value())|
    {
      hide ISets.ElemsOf, SetNodes.Canon, Loading;
      SnapFacts(); LoadingSize(cfg, s0, Snap(), pend, fill);
      forall j: nat | j < |fill| ensures fill[j] == |All(lane[nactive + j].Value())| { NewsAt(s0, j); }
    }

    /** The call of the model for the lanes from f to split, n tokens into the last. */
    method CallChunk(dyn: HostCaches.DynCache, d: Draft, f: nat, rows: seq<seq<Cell>>, split: nat, n: nat,
        ghost ids: seq<seq<HostCaches.NodeId>>, ghost s0: State, ghost pend: seq<seq<Token>>, ghost fill: seq<nat>)
      returns (rows': seq<seq<Cell>>, ghost fill': seq<nat>)
      requires Sep() && Routed() && Docked() && Planned(dyn.lanes, ids) && Loading(cfg, s0, Snap(), pend, fill)
        && s0.nactive <= |s0.lanes|
      requires d.lanes == dyn.lanes && Splitting(cfg, News(s0), d, fill, f, rows, dyn.mode & HostCaches.PAGE_IN != 0)
      requires forall n <- hostCache.frozen :: HostCaches.Fresh(ids, dyn.lanes, n)
      requires f <= split < |d.infos| && n < d.infos[split].ntoks && dyn.mode & HostCaches.PAGE_OUT == 0
      modifies cache, stream`copies, stream`owner
      ensures Sep() && Routed() && Docked() && Planned(dyn.lanes, ids) && Loading(cfg, s0, Snap(), pend, fill')
      ensures Splitting(cfg, News(s0), CutDraft(d, split, n), fill', split, rows', false)
    {
      ghost var first := dyn.mode & HostCaches.PAGE_IN != 0;
      ghost var news, entered := News(s0), Entering(d.lanes, fill, first, cfg.pageLen);
      SplittingSize(cfg, news, d, fill, f, rows, first);
      hide ISets.ElemsOf, SetNodes.Canon, HostCaches.CacheOk, HostCaches.LaneOk, HostCaches.Fresh, Loading, Chunk,
        Progressed, News, Rows, Entering, Splitting, CutInfos, CutDraft;
      ghost var offs := BeforeCut(cfg, news, d, fill, f, rows, first, split, n);
      var cut, part := CutInfos(d, f, split, n), d.list[d.starts[f]..d.starts[split] + n];
      var logits := FwdPrefill(dyn, f, cut, part, offs, ids, s0, pend, fill, entered);
      AfterCut(cfg, news, d, fill, f, rows, first, split, n, logits);
      rows' := rows + logits[..|logits| - 1];
      fill' := Progressed(entered, f, cut, |cut|);
    }

    /** The call with its switches: no page-out now, and no page-in from the next call on. */
    method PrefillChunk(dyn: HostCaches.DynCache, d: Draft, f: nat, rows: seq<seq<Cell>>, split: nat, n: nat,
        ghost ids: seq<seq<HostCaches.NodeId>>, ghost s0: State, ghost pend: seq<seq<Token>>, ghost fill: seq<nat>)
      returns (rows': seq<seq<Cell>>, ghost fill': seq<nat>)
      requires Sep() && Routed() && Docked() && Planned(dyn.lanes, ids) && Loading(cfg, s0, Snap(), pend, fill)
        && s0.nactive <= |s0.lanes|
      requires d.lanes == dyn.lanes && Splitting(cfg, News(s0), d, fill, f, rows, dyn.mode & HostCaches.PAGE_IN != 0)
      requires forall n <- hostCache.frozen :: HostCaches.Fresh(ids, dyn.lanes, n)
      requires f <= split < |d.infos| && n < d.infos[split].ntoks
      modifies cache, stream`copies, stream`owner, dyn
      ensures Sep() && Routed() && Docked() && Planned(dyn.lanes, ids) && Loading(cfg, s0, Snap(), pend, fill')
      ensures Splitting(cfg, News(s0), CutDraft(d, split, n), fill', split, rows', false)
        && dyn.mode & HostCaches.PAGE_IN == 0
    {
      hide ISets.ElemsOf, SetNodes.Canon, HostCaches.CacheOk, HostCaches.LaneOk, HostCaches.Fresh, Loading, News,
        Splitting, CutDraft, Plan;
      dyn.Disable(HostCaches.PAGE_OUT);
      rows', fill' := CallChunk(dyn, d, f, rows, split, n, ids, s0, pend, fill);
      dyn.Disable(HostCaches.PAGE_IN);
    }

    /** The split loop: calls of at most max_prefill tokens as long as more remain. */
    method PrefillSplit(dyn: HostCaches.DynCache, d0: Draft, ghost ids: seq<seq<HostCaches.NodeId>>, ghost s0: State,
        ghost pend: seq<seq<Token>>)
      returns (d: Draft, f: nat, rows: seq<seq<Cell>>, ghost fill: seq<nat>)
      requires Sep() && Routed() && Docked() && Planned(dyn.lanes, ids) && s0.nactive <= |s0.lanes|
        && cfg.maxPrefill >= 2
      requires Loading(cfg, s0, Snap(), pend, PagedIn(d0.lanes, 0, cfg.pageLen))
      requires d0.lanes == dyn.lanes && Splitting(cfg, News(s0), d0, PagedIn(d0.lanes, 0, cfg.pageLen), 0, [], true)
        && dyn.mode == 3
      requires forall n <- hostCache.frozen :: HostCaches.Fresh(ids, dyn.lanes, n)
      modifies cache, stream`copies, stream`owner, dyn
      ensures Sep() && Routed() && Docked() && Planned(dyn.lanes, ids) && Loading(cfg, s0, Snap(), pend, fill)
      ensures d.lanes == dyn.lanes && Splitting(cfg, News(s0), d, fill, f, rows, dyn.mode & HostCaches.PAGE_IN != 0)
      ensures f < |d.starts| && |d.list| <= d.starts[f] + cfg.maxPrefill
    {
      d, f, rows, fill := d0, 0, [], PagedIn(d0.lanes, 0, cfg.pageLen);
      SplittingSize(cfg, News(s0), d, fill, f, rows, true);
      hide ISets.ElemsOf, SetNodes.Canon, HostCaches.CacheOk, HostCaches.LaneOk, HostCaches.Fresh, Loading, News,
        Splitting, CutDraft, Plan, PagedIn, Routed, Sep, Snap;
      while d.starts[f] + conf.maxPrefill < |d.list|
        invariant f < |d.starts| == |d.infos| && Plan(News(s0), d.infos, d.starts, d.list, f)
        invariant Sep() && Routed() && Docked() && Planned(dyn.lanes, ids) && Loading(cfg, s0, Snap(), pend, fill)
        invariant d.lanes == dyn.lanes && Splitting(cfg, News(s0), d, fill, f, rows, dyn.mode & HostCaches.PAGE_IN != 0)
        decreases |d.list| - d.starts[f]
      {
        var (split, n) := CutPoint(d, f, d.starts[f] + conf.maxPrefill, News(s0));
        rows, fill := PrefillChunk(dyn, d, f, rows, split, n, ids, s0, pend, fill);
        d, f := CutDraft(d, split, n), split;
        SplittingSize(cfg, News(s0), d, fill, f, rows, dyn.mode & HostCaches.PAGE_IN != 0);
      }
    }

    /** The last call of the model. */
    method CallLast(dyn: HostCaches.DynCache, d: Draft, f: nat, rows: seq<seq<Cell>>,
        ghost ids: seq<seq<HostCaches.NodeId>>, ghost s0: State, ghost pend: seq<seq<Token>>, ghost fill: seq<nat>)
      returns (rows': seq<seq<Cell>>, ghost fill': seq<nat>)
      requires Sep() && Routed() && Docked() && Planned(dyn.lanes, ids) && Loading(cfg, s0, Snap(), pend, fill)
        && s0.nactive <= |s0.lanes|
      requires d.lanes == dyn.lanes && Splitting(cfg, News(s0), d, fill, f, rows, dyn.mode & HostCaches.PAGE_IN != 0)
      requires forall n <- hostCache.frozen :: HostCaches.Fresh(ids, dyn.lanes, n)
      requires dyn.mode & HostCaches.PAGE_OUT != 0
      modifies cache, stream`copies, stream`owner
      ensures Sep() && Routed() && Issued() && Loading(cfg, s0, Snap(), pend, fill')
      ensures Finished(cfg, News(s0), fill', |fill'|, rows')
    {
      ghost var first := dyn.mode & HostCaches.PAGE_IN != 0;
      ghost var news, entered := News(s0), Entering(d.lanes, fill, first, cfg.pageLen);
      SplittingSize(cfg, news, d, fill, f, rows, first);
      hide ISets.ElemsOf, SetNodes.Canon, HostCaches.CacheOk, HostCaches.LaneOk, HostCaches.Fresh, Issued, InFlight,
        AllBerthed, Loading, Chunk, Progressed, News, Rows, Entering, Splitting, Finished, HostOk;
      ghost var offs := BeforeLast(cfg, news, d, fill, f, rows, first);
      var logits := FwdPrefill(dyn, f, d.infos[f..], d.list[d.starts[f]..], offs, ids, s0, pend, fill, entered);
      AfterLast(cfg, news, d, fill, f, rows, first, logits);
      rows' := rows + logits;
      fill' := Progressed(entered, f, d.infos[f..], |d.infos[f..]|);
      ProgressedSize(entered, f, d.infos[f..]);
    }

    /** The last call with its switch: page-out of every inserted page. */
    method PrefillLast(dyn: HostCaches.DynCache, d: Draft, f: nat, rows: seq<seq<Cell>>,
        ghost ids: seq<seq<HostCaches.NodeId>>, ghost s0: State, ghost pend: seq<seq<Token>>, ghost fill: seq<nat>)
      returns (rows': seq<seq<Cell>>, ghost fill': seq<nat>)
      requires Sep() && Routed() && Docked() && Planned(dyn.lanes, ids) && Loading(cfg, s0, Snap(), pend, fill)
        && s0.nactive <= |s0.lanes|
      requires d.lanes == dyn.lanes && Splitting(cfg, News(s0), d, fill, f, rows, dyn.mode & HostCaches.PAGE_IN != 0)
      requires forall n <- hostCache.frozen :: HostCaches.Fresh(ids, dyn.lanes, n)
      modifies cache, stream`copies, stream`owner, dyn
      ensures Sep() && Routed() && Issued() && Loading(cfg, s0, Snap(), pend, fill')
      ensures Finished(cfg, News(s0), fill', |fill'|, rows')
    {
      hide ISets.ElemsOf, SetNodes.Canon, HostCaches.CacheOk, HostCaches.LaneOk, HostCaches.Fresh, Issued, InFlight,
        AllBerthed, Loading, News, Splitting, Finished, HostOk;
      dyn.Enable(HostCaches.PAGE_OUT);
      rows', fill' := CallLast(dyn, d, f, rows, ids, s0, pend, fill);
    }

    /** A token for every row, with the lane's own sampling settings. */
    method Sample(rows: seq<seq<Cell>>) returns (toks: seq<Token>)
      requires nactive + |rows| == |lane| && cfg == conf.(exact := cfg.exact)
      ensures |toks| == |rows| && forall j: nat {:trigger toks[j]} ::
        j < |toks| ==> Drawn(cfg, lane[nactive + j].Value(), rows[j], toks[j])
    {
      toks := [];
      for j := 0 to |rows|
        invariant |toks| == j && forall k: nat {:trigger toks[k]} ::
          k < j ==> Drawn(cfg, lane[nactive + k].Value(), rows[k], toks[k])
      {
        var noise: int := *;
        var r := lane[nactive + j].req;
        var t := conf.m.pick(rows[j], conf.Temp(r), conf.TopP(r), noise);
        assert t == cfg.m.pick(rows[j], cfg.Temp(r), cfg.TopP(r), noise);
        assert Drawn(cfg, lane[nactive + j].Value(), rows[j], t);
        toks := toks + [t];
      }
    }

    /** The slice assignments at the end of `_prefill`. */
    method StoreRows(ls: seq<Lane>, toks: seq<Token>)
      requires Sizes() && nactive + |ls| <= |tokens| && |toks| == |ls|
      modifies this`tokens, this`seqlen, this`maxlen, this`temps, this`topPs
      ensures Sizes() && tokens == Splice(old(tokens), nactive, toks)
        && seqlen == Splice(old(seqlen), nactive, Lens(ls))
      ensures maxlen == Splice(old(maxlen), nactive, MaxLens(conf, ls))
      ensures temps == Splice(old(temps), nactive, Temps(conf, ls))
        && topPs == Splice(old(topPs), nactive, TopPs(conf, ls))
    {
      hide Splice;
      tokens := Splice(tokens, nactive, toks);
      seqlen := Splice(seqlen, nactive, Lens(ls));
      maxlen := Splice(maxlen, nactive, MaxLens(conf, ls));
      temps := Splice(temps, nactive, Temps(conf, ls));
      topPs := Splice(topPs, nactive, TopPs(conf, ls));
    }

    /** The tensors of the new lanes, and the new number of active lanes. */
    method ActivateAll(toks: seq<Token>)
      requires Sep() && nactive + |toks| == |lane| <= |tokens|
      modifies this`nactive, this`tokens, this`seqlen, this`maxlen, this`temps, this`topPs
      ensures Sep() && Snap() == Activate(cfg, old(Snap()), toks)
    {
      hide ISets.ElemsOf, SetNodes.Canon;
      var ls := lane[nactive..];
      ActivatedRows(ls, toks);
      hide Zip, Splice, Activate, Lens, MaxLens, Temps, TopPs;
      StoreRows(ls, toks);
      nactive := |lane|;
    }

    lemma ActivatedRows(ls: seq<Lane>, toks: seq<Token>)
      requires Sep() && nactive + |toks| == |lane| <= |tokens| && ls == lane[nactive..]
      ensures |Lens(ls)| == |MaxLens(conf, ls)| == |Temps(conf, ls)| == |TopPs(conf, ls)| == |toks|
      ensures var t, l, m := Splice(tokens, nactive, toks), Splice(seqlen, nactive, Lens(ls)),
        Splice(maxlen, nactive, MaxLens(conf, ls));
        var e, p := Splice(temps, nactive, Temps(conf, ls)), Splice(topPs, nactive, TopPs(conf, ls));
        && |l| == |m| == |e| == |p| == |blktbl| == |t|
        && Activate(cfg, Snap(), toks) == Snap().(nactive := |lane|, dev := Zip(t, l, m, e, p, blktbl))
    {
      hide ISets.ElemsOf, SetNodes.Canon;
      SnapFacts(); DevFacts();
      var s, na := Snap(), nactive;
      hide Sep, Snap, Zip, Splice;
      var t, l, m := Splice(tokens, na, toks), Splice(seqlen, na, Lens(ls)), Splice(maxlen, na, MaxLens(conf, ls));
      var e, p := Splice(temps, na, Temps(conf, ls)), Splice(topPs, na, TopPs(conf, ls));
      var z, d := Zip(t, l, m, e, p, blktbl), Activate(cfg, s, toks).dev;
      forall i | 0 <= i < |z| ensures z[i] == d[i] { ActivatedRow(s, ls, toks, i); }
      assert z == d;
    }

    /** Row i of the tensors after the slice assignments. */
    lemma ActivatedRow(s: State, ls: seq<Lane>, toks: seq<Token>, i: nat)
      requires cfg == conf.(exact := cfg.exact) && Sizes() && |lane| == |s.lanes| && s.nactive == nactive
      requires nactive + |toks| == |lane| <= |tokens| && ls == lane[nactive..] && i < |tokens| == |s.dev|
      requires s.dev[i] == Entry(tokens[i], seqlen[i], maxlen[i], temps[i], topPs[i], blktbl[i])
      requires i < |lane| ==> s.lanes[i] == lane[i].Value()
      ensures Activate(cfg, s, toks).dev[i]
        == Entry(Splice(tokens, nactive, toks)[i], Splice(seqlen, nactive, Lens(ls))[i],
        Splice(maxlen, nactive, MaxLens(conf, ls))[i], Splice(temps, nactive, Temps(conf, ls))[i],
        Splice(topPs, nactive, TopPs(conf, ls))[i], blktbl[i])
    {
      ActivatedAt(cfg, s, toks, i);
      hide Splice, Activate;
      if nactive <= i < |lane| {
        var r := lane[i].req;
        assert ls[i - nactive] == lane[i] && conf.MaxLen(r) == cfg.MaxLen(r) && conf.Temp(r) == cfg.Temp(r)
          && conf.TopP(r) == cfg.TopP(r);
      }
    }

    /** The draft is complete: page-in and the split loop can start. */
    lemma DraftReady(s0: State, pend: seq<seq<Token>>, d: Draft, ids: seq<seq<HostCaches.NodeId>>)
      requires Sep() && HostOk() && Drafted(cfg, s0, Snap(), pend, d) && |d.infos| == |lane| - nactive
      requires hostCache.Batch(d.lanes, ids, News(Snap()))
      ensures Planned(d.lanes, ids) && Routed() && forall n <- hostCache.frozen :: HostCaches.Fresh(ids, d.lanes, n)
    {
      hide ISets.ElemsOf, SetNodes.Canon, HostCaches.CacheOk, HostCaches.LaneOk, HostCaches.Fresh, Drafted;
      SnapFacts(); DraftedRows(cfg, s0, Snap(), pend, d);
      RoutedReady();
      CopiesReady(d.lanes, ids);
    }

    lemma CopiesReady(lanes: seq<HostCaches.DynCacheLane>, ids: seq<seq<HostCaches.NodeId>>)
      requires Sep() && HostOk() && nactive <= |lane| && nactive <= |Snap().lanes|
        && hostCache.Batch(lanes, ids, News(Snap())) && |lanes| == |lane| - nactive
      requires forall j: nat {:trigger lanes[j]} ::
        j < |lanes| ==> nactive + j < |Snap().lanes| && lanes[j].gpuBlocks == Snap().lanes[nactive + j].blocks
      ensures Planned(lanes, ids)
    {
      hide ISets.ElemsOf, SetNodes.Canon, HostCaches.CacheOk, HostCaches.LaneOk, HostCaches.Fresh, HostOk, Sep, Snap,
        News;
      SnapFacts();
      var s := Snap();
      forall j: nat | j < |lanes|
        ensures lanes[j].gpuBlocks == lane[nactive + j].blocks
        ensures HostCaches.LaneOk(hostCache.node, hostCache.place, hostCache.frozen, hostCache.pageLen, lanes[j],
          ids[j], All(lane[nactive + j].Value()))
      {
        NewsAt(s, j);
        assert s.lanes[nactive + j] == lane[nactive + j].Value();
        assert HostCaches.LaneOk(hostCache.node, hostCache.place, hostCache.frozen, hostCache.pageLen, lanes[j],
          ids[j], News(s)[j]);
      }
    }

    lemma RoutedReady()
      requires Sep() && |lane| <= |Snap().dev| && RowsSet(Snap())
      ensures Routed()
    {
      SnapFacts(); DevFacts();
      forall i | nactive <= i < |lane| ensures lane[i].blocks <= blktbl[i] {
        assert Snap().lanes[i].blocks <= Snap().dev[i].row;
      }
    }

    /** The calls of the model: all lanes loaded, one row of logits for each, every inserted page filled. */
    method LoadWith(dyn: HostCaches.DynCache, d: Draft, ghost ids: seq<seq<HostCaches.NodeId>>, ghost s1: State,
        ghost pend: seq<seq<Token>>)
      returns (rows: seq<seq<Cell>>, ghost fill: seq<nat>)
      requires Sep() && Routed() && Docked() && Planned(dyn.lanes, ids) && s1.nactive <= |s1.lanes|
        && cfg.maxPrefill >= 2
      requires Loading(cfg, s1, Snap(), pend, PagedIn(d.lanes, 0, cfg.pageLen))
      requires d.lanes == dyn.lanes && Splitting(cfg, News(s1), d, PagedIn(d.lanes, 0, cfg.pageLen), 0, [], true)
        && dyn.mode == 3
      requires forall n <- hostCache.frozen :: HostCaches.Fresh(ids, dyn.lanes, n)
      modifies cache, stream`copies, stream`owner, dyn
      ensures Sep() && Routed() && Issued() && Loading(cfg, s1, Snap(), pend, fill)
      ensures Finished(cfg, News(s1), fill, |fill|, rows)
    {
      hide ISets.ElemsOf, SetNodes.Canon, HostCaches.CacheOk, HostCaches.LaneOk, HostCaches.Fresh, Issued, InFlight,
        AllBerthed,
        Loading, News, Splitting, Finished, PagedIn;
      var d', f;
      d', f, rows, fill := PrefillSplit(dyn, d, ids, s1, pend);
      rows, fill := PrefillLast(dyn, d', f, rows, ids, s1, pend, fill);
    }

    /** The cells of all admitted lanes, and one row of logits for each. */
    method LoadAll(ghost pend: seq<seq<Token>>) returns (rows: seq<seq<Cell>>, ghost s1: State, ghost fill: seq<nat>)
      requires cfg.Valid() && Sep() && Docked() && Ok(cfg, Snap(), pend) && hostCache.frozen == {} && nactive < |lane|
      modifies this`blktbl, stream`copies, stream`owner, cache, hostCache
      ensures Sep() && Routed() && Issued()
      ensures s1.nactive <= |s1.lanes| && s1 == old(Snap()).(dev := s1.dev) && Loading(cfg, s1, Snap(), pend, fill)
      ensures Finished(cfg, News(s1), fill, |fill|, rows)
    {
      hide ISets.ElemsOf, SetNodes.Canon, HostCaches.CacheOk, HostCaches.LaneOk, HostCaches.Fresh;
      ghost var s0 := Snap();
      SnapFacts();
      var d;
      ghost var ids;
      d, ids := DraftAll(pend);
      s1 := Snap();
      SnapFacts(); DraftReady(s0, pend, d, ids);
      DraftedSame(cfg, s0, s1, pend, d); StartSplitting(cfg, s0, s1, pend, d);
      hide Drafted, Loading, Splitting, News, Finished;
      var dyn := new HostCaches.DynCache(d.lanes);
      assert Sep() && Snap() == s1;
      rows, fill := LoadWith(dyn, d, ids, s1, pend);
    }

    /** The draws, and the tensors of the new lanes. */
    method FinishPrefill(rows: seq<seq<Cell>>, ghost s1: State, ghost pend: seq<seq<Token>>, ghost fill: seq<nat>)
        returns (out: seq<Token>)
      requires cfg.Valid() && Sep() && Routed() && s1.nactive <= |s1.lanes|
      requires Loading(cfg, s1, Snap(), pend, fill) && Finished(cfg, News(s1), fill, |fill|, rows) && |pend| == nactive
      requires AllBerthed(cfg, Snap(), hostCache.place, stream.copies, stream.owner)
      modifies this`nactive, this`tokens, this`seqlen, this`maxlen, this`temps, this`topPs
      ensures Sep() && nactive == |lane| && |out| == |lane| - old(nactive) && Ok(cfg, Snap(), pend + Singles(out))
      ensures AllMoored(cfg, Snap(), pend + Singles(out), hostCache.place, stream.copies, stream.owner)
      ensures var s := old(Snap()); Snap() == s.(nactive := |lane|, dev := Snap().dev)
    {
      hide ISets.ElemsOf, SetNodes.Canon, Loading, Finished, Ok, Drawn, News;
      ghost var s := Snap();
      SnapFacts(); LoadingSize(cfg, s1, s, pend, fill); FinishedSize(cfg, News(s1), fill, rows); NewsSame(s1, s);
      NewsSize(s);
      out := Sample(rows);
      assert Sep() && Routed() && Snap() == s;
      StartLanes(rows, out, s1, pend, fill);
    }

    method StartLanes(ghost rows: seq<seq<Cell>>, out: seq<Token>, ghost s1: State, ghost pend: seq<seq<Token>>,
        ghost fill: seq<nat>)
      requires cfg.Valid() && Sep() && Routed() && s1.nactive <= |s1.lanes|
      requires Loading(cfg, s1, Snap(), pend, fill) && Finished(cfg, News(s1), fill, |fill|, rows)
      requires |out| == |rows| == |lane| - nactive && |pend| == nactive
      requires AllBerthed(cfg, Snap(), hostCache.place, stream.copies, stream.owner)
      requires forall j: nat {:trigger out[j]} :: j < |out| ==> Drawn(cfg, lane[nactive + j].Value(), rows[j], out[j])
      modifies this`nactive, this`tokens, this`seqlen, this`maxlen, this`temps, this`topPs
      ensures Sep() && nactive == |lane| && Ok(cfg, Snap(), pend + Singles(out))
      ensures AllMoored(cfg, Snap(), pend + Singles(out), hostCache.place, stream.copies, stream.owner)
      ensures var s := old(Snap()); Snap() == s.(nactive := |lane|, dev := Snap().dev)
    {
      hide ISets.ElemsOf, SetNodes.Canon, Loading, Finished, Ok, Drawn, News, AllBerthed, AllMoored, Activate, Sep,
        Snap, Routed, RowsSet;
      ghost var s := Snap();
      SnapFacts(); RoutedRows(s);
      Starts(rows, out, s1, s, pend, fill);
      ActivateAll(out);
      SnapFacts();
    }

    /** What becomes of the state when the admitted lanes start. */
    lemma Starts(rows: seq<seq<Cell>>, out: seq<Token>, s1: State, s: State, pend: seq<seq<Token>>, fill: seq<nat>)
      requires cfg.Valid() && Sep() && s == Snap() && s1.nactive <= |s1.lanes|
      requires Loading(cfg, s1, s, pend, fill) && Finished(cfg, News(s1), fill, |fill|, rows)
      requires |out| == |rows| == |lane| - nactive && |pend| == nactive
      requires RowsSet(s) && AllBerthed(cfg, s, hostCache.place, stream.copies, stream.owner)
      requires forall j: nat {:trigger out[j]} :: j < |out| ==> Drawn(cfg, lane[nactive + j].Value(), rows[j], out[j])
      ensures s.nactive <= |s.lanes| <= |s.dev| && |out| == |s.lanes| - s.nactive
      ensures Ok(cfg, Activate(cfg, s, out), pend + Singles(out)) && Activate(cfg, s, out).nactive == |s.lanes|
      ensures AllMoored(cfg, Activate(cfg, s, out), pend + Singles(out), hostCache.place, stream.copies, stream.owner)
      ensures var a := Activate(cfg, s, out); a == s.(nactive := |s.lanes|, dev := a.dev)
    {
      hide ISets.ElemsOf, SetNodes.Canon, Loading, Finished, Ok, Drawn, News, AllBerthed, AllMoored, Activate, Sep,
        Snap, RowsSet;
      SnapFacts(); LoadingSize(cfg, s1, s, pend, fill);
      ActivateMoors(cfg, s, pend, out, hostCache.place, stream.copies, stream.owner);
      FinishedActivates(cfg, s1, s, pend, fill, rows, out);
      ActivateSize(cfg, s, out);
    }

    lemma RoutedRows(s: State)
      requires Sep() && Routed() && s == Snap()
      ensures RowsSet(s)
    {
      SnapFacts(); DevFacts();
    }

    /**
     * `_prefill`: every admitted lane becomes active with one token drawn from its own prompt's
     * context, whatever was cached and however the tokens were split. The pages it adds to the
     * host cache are still on their way.
     */
    method Prefill(ghost pend: seq<seq<Token>>) returns (out: seq<Token>)
      requires cfg.Valid() && Sep() && Docked() && Ok(cfg, Snap(), pend) && hostCache.frozen == {}
        && !stream.cacheReady && nactive < |lane|
      modifies this`nactive, this`tokens, this`seqlen, this`maxlen, this`temps, this`topPs, this`blktbl
      modifies stream, cache, hostCache
      ensures Sep() && nactive == |lane|
      ensures |out| == |lane| - old(nactive) && Ok(cfg, Snap(), pend + Singles(out)) && Afloat(pend + Singles(out))
      ensures var s := old(Snap()); Snap() == s.(nactive := |lane|, dev := Snap().dev, cells := Snap().cells)
    {
      hide ISets.ElemsOf, SetNodes.Canon, HostCaches.CacheOk, HostCaches.LaneOk, Loading, Finished, Ok, News,
        AllBerthed, AllMoored;
      var rows;
      ghost var s0, s1, fill := Snap(), Snap(), [];
      SnapFacts(); PendSize(cfg, s0, pend);
      rows, s1, fill := LoadAll(pend);
      Depart();
      ghost var s := Snap();
      SnapFacts(); LoadedSame(cfg, s1, s, pend, fill);
      out := FinishPrefill(rows, s1, pend, fill);
    }

    /** tick, and the event that marks the end of the copies; none may be outstanding. */
    method Depart()
      requires Issued() && !stream.cacheReady
      modifies stream, hostCache
      ensures Sep() && Snap() == old(Snap()) && Flying() && hostCache.frozen == {}
        && hostCache.place == old(hostCache.place)
      ensures AllBerthed(cfg, Snap(), hostCache.place, stream.copies, stream.owner)
        && (stream.copies != [] ==> stream.cacheReady && !hostCache.disabled)
    {
      hide ISets.ElemsOf, SetNodes.Canon, HostCaches.CacheOk, AllBerthed;
      TickInFlight(cfg, hostCache.node, hostCache.place, hostCache.frozen, hostCache.unfilled, cache[..],
        stream.copies, stream.owner);
      hide InFlight;
      hostCache.Tick();
      assert !stream.cacheReady;
      stream.cacheReady := !hostCache.disabled;
    }

    /** Between prefill and the next sync: copies are pending, each from a page of an active lane. */
    ghost predicate Afloat(pend: seq<seq<Token>>)
      requires Sep()
      reads `cfg, stream, hostCache, cache
      reads this, Mine(), Sets(), freeBlocks
    {
      && Flying() && hostCache.frozen == {}
      && AllMoored(cfg, Snap(), pend, hostCache.place, stream.copies, stream.owner)
      && (stream.copies != [] ==> stream.cacheReady && !hostCache.disabled)
    }

    /** The first of the pending copies runs. */
    method LandFirst()
      requires Flying() && hostCache.frozen == {} && stream.copies != []
      modifies stream`copies, stream`owner, hostCache`host, hostCache`unfilled
      ensures Flying() && |stream.owner| == |stream.copies| && stream.copies == old(stream.copies)[1..]
        && stream.owner == old(stream.owner)[1..]
    {
      hide HostCaches.CacheOk, HostCaches.ContentsOk, PageIs;
      var c := stream.copies[0];
      ghost var n, right := stream.owner[0], cfg.exact && stream.owner[0] !in stream.owner[1..];
      FirstLands(cfg, hostCache.node, hostCache.place, hostCache.unfilled, cache[..], stream.copies, stream.owner);
      LandReady();
      hide InFlight;
      var start := c.block * hostCache.pageLen;
      hostCache.Land(c.buf, cache[start..start + hostCache.pageLen], n, right);
      stream.copies, stream.owner := stream.copies[1..], stream.owner[1..];
    }

    lemma LandReady()
      requires Flying() && stream.copies != []
      ensures |stream.owner| == |stream.copies| && stream.owner[0] in hostCache.unfilled
        && stream.owner[0] in hostCache.node && stream.owner[0] in hostCache.place
      ensures hostCache.node[stream.owner[0]].cache == stream.copies[0].buf
      ensures var start := stream.copies[0].block * hostCache.pageLen;
        && start + hostCache.pageLen <= cache.Length
        && (cfg.exact ==> var path := hostCache.place[stream.owner[0]].path;
              hostCache.pageLen <= |path|
                && cache[start..start + hostCache.pageLen] == LastPage(hostCache.m, path, hostCache.pageLen))
    {
      hide HostCaches.CacheOk;
      assert Bound(cfg, hostCache.node, hostCache.place, hostCache.unfilled, cache[..], stream.copies[0],
        stream.owner[0]);
      var start := stream.copies[0].block * hostCache.pageLen;
      assert cache[..][start..start + hostCache.pageLen] == cache[start..start + hostCache.pageLen];
    }

    /** `_sync_host_cache`: the pending copies are waited for. */
    method SyncHostCache()
      requires Flying() && hostCache.frozen == {} && (stream.copies != [] ==> stream.cacheReady)
      modifies stream, hostCache`host, hostCache`unfilled
      ensures Docked() && !stream.cacheReady
    {
      hide HostCaches.CacheOk, HostCaches.ContentsOk, InFlight;
      if stream.cacheReady {
        while stream.copies != []
          invariant Flying() && hostCache.frozen == {}
          decreases |stream.copies|
        {
          LandFirst();
        }
        stream.cacheReady := false;
      }
      NothingFlies();
    }

    lemma NothingFlies()
      requires Flying() && hostCache.frozen == {} && stream.copies == []
      ensures Docked()
    {
      NoneInFlight(cfg, hostCache.node, hostCache.place, hostCache.unfilled, cache[..]);
    }

    /** Meanwhile any number of the pending copies may run. */
    method SomeCopies(ghost pend: seq<seq<Token>>)
      requires Sep() && Afloat(pend)
      modifies stream`copies, stream`owner, hostCache`host, hostCache`unfilled
      ensures Sep() && Snap() == old(Snap()) && Afloat(pend)
      ensures exists k: nat :: k <= |old(stream.copies)| && stream.copies == old(stream.copies)[k..]
    {
      hide ISets.ElemsOf, SetNodes.Canon, HostCaches.CacheOk, HostCaches.ContentsOk, InFlight, AllMoored;
      var n: nat := *;
      ghost var k: nat := 0;
      while n > 0 && stream.copies != []
        invariant Sep() && Snap() == old(Snap()) && Afloat(pend)
        invariant k <= |old(stream.copies)| && stream.copies == old(stream.copies)[k..]
      {
        MooredRest(cfg, Snap(), pend, hostCache.place, stream.copies, stream.owner);
        LandFirst();
        n, k := n - 1, k + 1;
      }
    }

    // ---------- _generate ----------

    /** The lane's tokens are replaced, in place. */
    method SetTokens(i: nat, toks: seq<Token>)
      requires Sep() && i < |lane|
      modifies lane[i]
      ensures Sep() && Heap() == old(Heap())
      ensures var s := old(Snap());
        Snap() == s.(lanes := s.lanes[i := s.lanes[i].(tokens := toks)])
    {
      hide ISets.ElemsOf, SetNodes.Canon;
      lane[i].tokens := toks;
      assert lane[i] in lane && forall k :: 0 <= k < |parking| ==> parking[k] in parking;
      assert Values(lane) == old(Values(lane))[i := old(lane[i].Value()).(tokens := toks)];
      assert Values(parking) == old(Values(parking));
    }

    /** `_ended_lanes` for lanes from lo on. */
    method EndedLanes(lo: nat, toks: seq<seq<Token>>) returns (done: seq<bool>)
      requires |seqlen| == |maxlen| && lo + |toks| <= |seqlen| && cfg == conf.(exact := cfg.exact)
      ensures |done| == |toks|
      ensures forall k: nat {:trigger done[k]} :: k < |done| ==>
        (done[k] <==> (exists t <- toks[k] :: t in cfg.stopTokens) || seqlen[lo + k] >= maxlen[lo + k])
    {
      done := [];
      for k := 0 to |toks|
        invariant |done| == k && forall j: nat {:trigger done[j]} :: j < k ==>
          (done[j] <==> (exists t <- toks[j] :: t in cfg.stopTokens) || seqlen[lo + j] >= maxlen[lo + j])
      {
        var eos := exists t <- toks[k] :: t in conf.stopTokens;
        done := done + [eos || seqlen[lo + k] >= maxlen[lo + k]];
      }
    }

    /** `_trim_packet`: the tokens of a lane that is due are cut, in place. */
    method CutLane(i: nat, got: seq<Token>, ghost s: State, ghost pend: seq<seq<Token>>) returns (a: Answer)
      requires cfg.Valid() && Sep() && Ok(cfg, s, pend) && i < s.nactive == |s.lanes| == nactive == |lane|
      requires got == pend[i] && |got| <= cfg.syncFreq
      requires Snap() == Append(s, i, got) && Due(cfg, s.lanes[i].req, s.lanes[i].tokens + got)
      modifies lane[i]
      ensures Sep() && Heap() == old(Heap())
      ensures Snap() == s.(lanes := s.lanes[i := s.lanes[i].(tokens := a.tokens)])
      ensures Proper(cfg, [a]) && a.req == s.lanes[i].req
    {
      hide ISets.ElemsOf, SetNodes.Canon;
      SnapFacts(); LaneAtEnd(cfg, s, pend, i);
      var toks, r := lane[i].tokens, lane[i].req;
      assert toks == s.lanes[i].tokens + got && r == s.lanes[i].req;
      OldTokensPass(cfg, r, s.lanes[i].tokens, got);
      ghost var s1 := Snap();
      assert conf.EndOf(r) == cfg.EndOf(r);
      var trim := TrimPos(conf.EndOf(r), toks, conf.syncFreq);
      assert Sep() && Snap() == s1 && Heap() == old(Heap());
      TrimComplete(cfg, r, toks, trim);
      a := Answer(r, toks[..trim]);
      hide Complete, WellCut, Due, Genuine, Settled, Ok;
      assert Proper(cfg, [a]);
      hide Proper;
      SetTokens(i, toks[..trim]);
    }

    /** A lane that is due: its tokens are cut, it is yielded and killed. */
    method EndLane(i: nat, got: seq<Token>, ghost s: State, ghost pend: seq<seq<Token>>) returns (a: Answer)
      requires cfg.Valid() && Sep() && Ok(cfg, s, pend) && i < s.nactive == |s.lanes| == nactive == |lane|
      requires got == pend[i] && |got| <= cfg.syncFreq
      requires Snap() == Append(s, i, got) && Due(cfg, s.lanes[i].req, s.lanes[i].tokens + got)
      modifies this`nactive, this`lane, this`parking, this`tokens, this`seqlen, this`maxlen, this`temps, this`topPs,
        this`blktbl, Heap()
      ensures Sep() && Heap() <= old(Heap()) && |lane| == nactive
      ensures Snap() == Kill(s, i, false)
      ensures Proper(cfg, [a]) && a.req == s.lanes[i].req
    {
      hide ISets.ElemsOf, SetNodes.Canon, Ok, Proper, Append, Due;
      SnapFacts(); PendSize(cfg, s, pend);
      a := CutLane(i, got, s, pend);
      LaneEnds(cfg, s, pend, i, Snap()); KillSize(s, i, false);
      SnapFacts();
      hide Sep, Snap, Kill;
      KillLane(i, false);
      SnapFacts();
    }

    /** `done[i] or _has_stop_str(...)` */
    method IsDue(r: Request, toks: seq<Token>, n: nat, done: bool, ghost before: seq<Token>, ghost got: seq<Token>)
        returns (due: bool)
      requires cfg == conf.(exact := cfg.exact) && cfg.EndOf(r).Valid() && Settled(cfg, r, before)
        && toks == before + got && n == |got|
      requires done <==> EndsNow(cfg, r, before, got)
      ensures due <==> Due(cfg, r, toks)
    {
      DueNow(cfg, r, before, got);
      due := done;
      assert conf.EndOf(r) == cfg.EndOf(r);
      if !due {
        assert toks[..|toks| - n] == before;
        due := HasStopStr(conf.EndOf(r), toks, n);
      }
    }

    /** `_sync_host_cache` leaves the lanes alone. */
    method SyncQuietly()
      requires Sep() && Flying() && hostCache.frozen == {} && (stream.copies != [] ==> stream.cacheReady)
      modifies stream, hostCache`host, hostCache`unfilled
      ensures Sep() && Snap() == old(Snap()) && Heap() == old(Heap()) && Docked() && !stream.cacheReady
    {
      hide ISets.ElemsOf, SetNodes.Canon, HostCaches.CacheOk, HostCaches.ContentsOk, InFlight;
      SyncHostCache();
    }

    /** A lane that is due: the host cache is synced, the packet yielded and the lane killed. */
    method YieldLane(i: nat, got: seq<Token>, ghost s: State, ghost pend: seq<seq<Token>>) returns (a: Answer)
      requires cfg.Valid() && Sep() && Ok(cfg, s, pend) && i < s.nactive == |s.lanes| == nactive == |lane|
      requires got == pend[i] && |got| <= cfg.syncFreq
      requires Snap() == Append(s, i, got) && Due(cfg, s.lanes[i].req, s.lanes[i].tokens + got)
      requires Flying() && hostCache.frozen == {} && (stream.copies != [] ==> stream.cacheReady)
      modifies this`nactive, this`lane, this`parking, this`tokens, this`seqlen, this`maxlen, this`temps, this`topPs,
        this`blktbl, Heap(), stream, hostCache`host, hostCache`unfilled
      ensures Sep() && Heap() <= old(Heap()) && |lane| == nactive && Docked() && hostCache.frozen == {}
        && !stream.cacheReady
      ensures Snap() == Kill(s, i, false)
      ensures Proper(cfg, [a]) && a.req == s.lanes[i].req
    {
      hide ISets.ElemsOf, SetNodes.Canon, HostCaches.CacheOk, HostCaches.ContentsOk, InFlight, Ok, Kill, Append, Due,
        Proper, Sep, Snap;
      Outside(null);
      SyncQuietly();
      a := EndLane(i, got, s, pend);
    }

    /** The lane gets its new tokens, and it is tested whether it ends with them. */
    method TakeTokens(i: nat, got: seq<Token>, done: bool, ghost pend: seq<seq<Token>>) returns (due: bool)
      requires cfg.Valid() && Sep() && Ok(cfg, Snap(), pend) && i < nactive == |lane| && i < |pend| && got == pend[i]
        && Flying()
      requires done <==> EndsNow(cfg, lane[i].req, lane[i].tokens, got)
      modifies lane[i]
      ensures Sep() && Heap() == old(Heap()) && Flying()
      ensures var s := old(Snap());
        Snap() == Append(s, i, got) && (due <==> Due(cfg, s.lanes[i].req, s.lanes[i].tokens + got))
    {
      hide ISets.ElemsOf, SetNodes.Canon, Genuine, Complete, WellCut, EndsNow, Due, HostCaches.CacheOk,
        HostCaches.ContentsOk, InFlight;
      ghost var s := Snap();
      SnapFacts(); LanesFit(cfg, s, pend); LaneAtEnd(cfg, s, pend, i);
      hide Ok, Settled, Honest;
      ghost var before := lane[i].tokens;
      var toks := lane[i].tokens + got;
      SetTokens(i, toks);
      ghost var s1 := Snap();
      assert s1 == Steps.Append(s, i, got);
      SnapFacts();
      due := IsDue(lane[i].req, toks, |got|, done, before, got);
      assert Sep() && Snap() == s1 && Heap() == old(Heap());
    }

    /** The end of a round for one lane: it keeps its tokens, or it is yielded. */
    method FinishLane(i: nat, got: seq<Token>, done: bool, ghost pend: seq<seq<Token>>) returns (out: seq<Answer>)
      requires cfg.Valid() && Sep() && Ok(cfg, Snap(), pend) && i < nactive == |lane|
      requires Flying() && hostCache.frozen == {} && (stream.copies != [] ==> stream.cacheReady)
      requires i < |pend| && got == pend[i] && 1 <= |got| <= cfg.syncFreq
      requires done <==> EndsNow(cfg, lane[i].req, lane[i].tokens, got)
      modifies this`nactive, this`lane, this`parking, this`tokens, this`seqlen, this`maxlen, this`temps, this`topPs,
        this`blktbl, Heap(), stream, hostCache`host, hostCache`unfilled
      ensures Sep() && Heap() <= old(Heap()) && |lane| == nactive
      ensures Ended1(cfg, old(Snap()), Snap(), pend, i, out)
      ensures if out == [] then stream.copies == old(stream.copies) && stream.owner == old(stream.owner)
        && stream.cacheReady == old(stream.cacheReady) && Flying()
        else Docked()
    {
      hide ISets.ElemsOf, SetNodes.Canon, EndsNow, Due, Ok, Proper, Append, Kill, Ended1, Sep, Snap, Flying, Docked,
        HostOk;
      ghost var s := Snap();
      SnapFacts(); LanesFit(cfg, s, pend);
      Outside(null);
      var due := TakeTokens(i, got, done, pend);
      SnapFacts();
      if due {
        var a := YieldLane(i, got, s, pend);
        out := [a];
        EndedWith(cfg, s, pend, i, a);
      } else {
        out := [];
        WentOn(cfg, s, pend, i);
      }
    }

    /** The same, with the pending copies still moored. */
    method FinishFloating(i: nat, got: seq<Token>, done: bool, ghost pend: seq<seq<Token>>,
        ghost pend': seq<seq<Token>>) returns (out: seq<Answer>)
      requires cfg.Valid() && Sep() && Ok(cfg, Snap(), pend) && i < nactive == |lane| && Afloat(pend)
      requires i < |pend| && got == pend[i] && 1 <= |got| <= cfg.syncFreq && pend' == pend[i := []]
      requires done <==> EndsNow(cfg, lane[i].req, lane[i].tokens, got)
      modifies this`nactive, this`lane, this`parking, this`tokens, this`seqlen, this`maxlen, this`temps, this`topPs,
        this`blktbl, Heap(), stream, hostCache`host, hostCache`unfilled
      ensures Sep() && Heap() <= old(Heap()) && |lane| == nactive
      ensures Ended1(cfg, old(Snap()), Snap(), pend, i, out)
      ensures out == [] ==> Afloat(pend')
      ensures out != [] ==> Docked() && hostCache.frozen == {}
    {
      hide ISets.ElemsOf, SetNodes.Canon, EndsNow, Ok, AllMoored, Append, Kill, Afloat, Flying, Docked, HostOk, Ended1,
        Sep, Snap, Heap;
      Outside(null);
      ghost var s := Snap();
      SnapFacts(); AfloatParts(pend);
      AppendMoors(cfg, s, pend, i, hostCache.place, stream.copies, stream.owner);
      out := FinishLane(i, got, done, pend);
      EndedState(cfg, s, Snap(), pend, i, out);
      if out == [] { FloatOn(pend'); }
    }

    lemma AfloatParts(pend: seq<seq<Token>>)
      requires Sep() && Afloat(pend)
      ensures Flying() && hostCache.frozen == {}
        && AllMoored(cfg, Snap(), pend, hostCache.place, stream.copies, stream.owner)
      ensures stream.copies != [] ==> stream.cacheReady && !hostCache.disabled
    {
    }

    lemma FloatOn(pend: seq<seq<Token>>)
      requires Sep() && Flying() && hostCache.frozen == {}
        && AllMoored(cfg, Snap(), pend, hostCache.place, stream.copies, stream.owner)
      requires stream.copies != [] ==> stream.cacheReady && !hostCache.disabled
      ensures Afloat(pend)
    {
    }

    lemma DockedFloats(pend: seq<seq<Token>>)
      requires Sep() && Docked() && hostCache.frozen == {}
      ensures Afloat(pend)
    {
    }

    /** One turn of the last loop. */
    method FinishTurn(i: nat, got: seq<seq<Token>>, done: bool, outs: seq<Answer>, ghost s0: State)
        returns (outs': seq<Answer>)
      requires cfg.Valid() && Sep() && i < |got| && i < nactive && Finishing(cfg, s0, Snap(), got, i + 1, outs)
      requires Afloat(got[..i + 1] + Empties(nactive - (i + 1))) && 1 <= |got[i]| <= cfg.syncFreq
      requires i < |s0.lanes| && (done <==> EndsNow(cfg, s0.lanes[i].req, s0.lanes[i].tokens, got[i]))
      modifies this`nactive, this`lane, this`parking, this`tokens, this`seqlen, this`maxlen, this`temps, this`topPs,
        this`blktbl, Heap(), stream, hostCache`host, hostCache`unfilled
      ensures Sep() && Heap() <= old(Heap()) && i <= nactive
      ensures Finishing(cfg, s0, Snap(), got, i, outs') && Afloat(got[..i] + Empties(nactive - i))
    {
      hide ISets.ElemsOf, SetNodes.Canon, EndsNow, Ok, Finishing, Ended1, Sep, Snap, Afloat, Docked, Flying, HostOk,
        Heap;
      Outside(null);
      ghost var s, k := Snap(), nactive - i - 1;
      ghost var pend := got[..i + 1] + Empties(k);
      SnapFacts(); FinishingLane(cfg, s0, s, got, i, outs);
      PendClear(got, i, k);
      var out := FinishFloating(i, got[i], done, pend, got[..i] + Empties(k + 1));
      FinishingOne(cfg, s0, s, Snap(), got, i, outs, out, pend);
      outs' := outs + out;
      SnapFacts(); Remaining(cfg, s, Snap(), pend, i, out);
      if out != [] { DockedFloats(got[..i] + Empties(k)); }
    }

    /** The loop, from the last lane to the first since killing moves the last lane. */
    method FinishLoop(got: seq<seq<Token>>, done: seq<bool>, ghost s0: State) returns (outs: seq<Answer>)
      requires cfg.Valid() && Sep() && nactive == |got| == |done| == |s0.lanes|
      requires Finishing(cfg, s0, Snap(), got, nactive, []) && Afloat(got[..nactive] + Empties(0))
      requires forall i: nat {:trigger got[i]} :: i < |got| ==> 1 <= |got[i]| <= cfg.syncFreq
      requires forall i: nat {:trigger done[i]} ::
        i < |done| ==> (done[i] <==> EndsNow(cfg, s0.lanes[i].req, s0.lanes[i].tokens, got[i]))
      modifies this`nactive, this`lane, this`parking, this`tokens, this`seqlen, this`maxlen, this`temps, this`topPs,
        this`blktbl, Heap(), stream, hostCache`host, hostCache`unfilled
      ensures Sep() && Heap() <= old(Heap())
      ensures Finishing(cfg, s0, Snap(), got, 0, outs) && Afloat(got[..0] + Empties(nactive))
    {
      hide ISets.ElemsOf, SetNodes.Canon, EndsNow, Ok, Finishing, Sep, Snap, Afloat;
      outs := [];
      var i: nat := nactive;
      while i > 0
        invariant i <= |got| && Sep() && Finishing(cfg, s0, Snap(), got, i, outs) && Heap() <= old(Heap())
        invariant i <= nactive && Afloat(got[..i] + Empties(nactive - i))
      {
        i := i - 1;
        assert 1 <= |got[i]| <= cfg.syncFreq
          && (done[i] <==> EndsNow(cfg, s0.lanes[i].req, s0.lanes[i].tokens, got[i]));
        outs := FinishTurn(i, got, done[i], outs, s0);
      }
    }

    /** The last loop of a round. */
    method FinishLanes(got: seq<seq<Token>>, done: seq<bool>) returns (outs: seq<Answer>)
      requires cfg.Valid() && Sep() && Ok(cfg, Snap(), got) && |lane| == nactive && Tested(got, done) && Afloat(got)
      modifies this`nactive, this`lane, this`parking, this`tokens, this`seqlen, this`maxlen, this`temps, this`topPs,
        this`blktbl, Heap(), stream, hostCache`host, hostCache`unfilled
      ensures Sep() && AtRest(cfg, Snap()) && Afloat(Empties(nactive)) && Heap() <= old(Heap()) && Proper(cfg, outs)
      ensures Held(old(Snap())) == Held(Snap()) + Answered(outs) && Load(cfg, Snap()) + |got| <= Load(cfg, old(Snap()))
      ensures Snap().parked == old(Snap().parked)
    {
      hide ISets.ElemsOf, SetNodes.Canon, EndsNow, Ok, Finishing, AtRest, Held, Load, Answered, Proper, InFlight,
        AllMoored;
      ghost var s0 := Snap();
      TestedNow(got, done); StartFinishing(cfg, s0, got);
      assert got[..nactive] + Empties(0) == got;
      hide Sep, Snap, Afloat;
      outs := FinishLoop(got, done, s0);
      assert got[..0] + Empties(nactive) == Empties(nactive);
      EndFinishing(cfg, s0, Snap(), got, outs);
      SnapFacts();
    }

    lemma TestedNow(got: seq<seq<Token>>, done: seq<bool>)
      requires Sep() && Tested(got, done)
      ensures nactive == Snap().nactive && |lane| == |Snap().lanes|
      ensures forall i: nat {:trigger done[i]} :: i < |done| ==>
        (done[i] <==> EndsNow(cfg, Snap().lanes[i].req, Snap().lanes[i].tokens, got[i]))
    {
      hide ISets.ElemsOf, SetNodes.Canon, EndsNow;
      SnapFacts();
    }

    /** The new tokens of the active lanes, and which lanes end with them. */
    ghost predicate Tested(got: seq<seq<Token>>, done: seq<bool>)
      reads this, lane
    {
      && nactive == |got| == |done| && nactive <= |lane|
      && (forall i: nat {:trigger got[i]} :: i < |got| ==> 1 <= |got[i]| <= cfg.syncFreq)
      && (forall i: nat {:trigger done[i]} ::
          i < |done| ==> (done[i] <==> EndsNow(cfg, lane[i].req, lane[i].tokens, got[i])))
    }

    lemma TestedSize(got: seq<seq<Token>>, done: seq<bool>)
      requires Tested(got, done)
      ensures |got| == |done| == nactive
    {
    }

    /** `_ended_lanes` on lanes lo..nactive, in terms of the lanes. */
    method TestLanes(lo: nat, got: seq<seq<Token>>, done: seq<bool>) returns (done': seq<bool>)
      requires Sep() && Ok(cfg, Snap(), got) && lo == |done| <= nactive == |got| && nactive <= |lane|
      requires forall i: nat {:trigger got[i]} :: i < |got| ==> 1 <= |got[i]| <= cfg.syncFreq
      requires forall i: nat {:trigger done[i]} ::
        i < |done| ==> (done[i] <==> EndsNow(cfg, lane[i].req, lane[i].tokens, got[i]))
      ensures Tested(got, done')
    {
      hide ISets.ElemsOf, SetNodes.Canon, Ok, Sep, Snap;
      SnapFacts(); DevFacts(); LanesFit(cfg, Snap(), got);
      ghost var s := Snap();
      forall i: nat | i < nactive
        ensures seqlen[i] == |lane[i].req.prompt| + |lane[i].tokens + got[i]| && maxlen[i] == cfg.MaxLen(lane[i].req) {
        LengthsAreRight(cfg, s, got, i);
        assert s.lanes[i] == lane[i].Value() && s.dev[i].seqlen == seqlen[i] && s.dev[i].maxlen == maxlen[i];
      }
      var more := EndedLanes(lo, got[lo..]);
      done' := done + more;
      forall i: nat | i < |done'| ensures done'[i] <==> EndsNow(cfg, lane[i].req, lane[i].tokens, got[i]) {
        if i >= lo { assert got[lo..][i - lo] == got[i] && done'[i] == more[i - lo]; }
      }
    }

    /** The decoding part of a round. */
    method DecodePart() returns (got: seq<seq<Token>>, done: seq<bool>, ghost n: nat)
      requires cfg.Valid() && Sep() && AtRest(cfg, Snap())
      requires forall i: nat :: i < nactive ==> Prepared(cfg, lane[i].Value())
      modifies this`tokens, this`seqlen, cache
      ensures Sep() && Ok(cfg, Snap(), got) && Tested(got, done) && |lane| == nactive
      ensures var s := old(Snap());
        Snap() == s.(dev := Snap().dev, cells := Snap().cells) && OnlyHits(cfg, s, cache[..], n)
    {
      hide ISets.ElemsOf, SetNodes.Canon;
      SnapFacts(); RestFacts(cfg, Snap());
      got, done, n := [], [], 0;
      if nactive > 0 {
        var nsteps;
        ghost var s := Snap();
        got, nsteps := Decode();
        n := nsteps;
        SnapFacts(); DecodedFacts(cfg, s, Snap(), got, nsteps);
        hide Decoding, Ok, OnlyHits;
        done := TestLanes(0, got, []);
      } else {
        assert Empties(0) == [];
      }
    }

    /** The prefill part of a round. */
    method PrefillPart(added: nat, got: seq<seq<Token>>, done: seq<bool>)
        returns (got': seq<seq<Token>>, done': seq<bool>)
      requires cfg.Valid() && Sep() && Docked() && hostCache.frozen == {} && !stream.cacheReady
      requires Ok(cfg, Snap(), got) && Tested(got, done) && |lane| == nactive + added
      modifies this`nactive, this`tokens, this`seqlen, this`maxlen, this`temps, this`topPs, this`blktbl
      modifies stream, cache, hostCache
      ensures Sep() && Afloat(got') && Ok(cfg, Snap(), got') && Tested(got', done') && nactive == |lane|
      ensures var s := old(Snap()); Snap() == s.(nactive := |lane|, dev := Snap().dev, cells := Snap().cells)
    {
      hide ISets.ElemsOf, SetNodes.Canon, HostCaches.CacheOk, HostCaches.ContentsOk, InFlight, AllMoored;
      got', done' := got, done;
      SnapFacts();
      if added > 0 {
        hide Ok;
        var out := Prefill(got);
        got' := got + Singles(out);
        SnapFacts();
        assert forall i: nat {:trigger got'[i]} :: i < |got'| ==> 1 <= |got'[i]| <= cfg.syncFreq;
        done' := TestLanes(|got|, got', done);
      } else {
        DockedFloats(got);
      }
    }

    /** Between rounds: no pending token, no admitted lane, no page being inserted. */
    ghost predicate Idle()
      reads this, Mine(), Sets(), freeBlocks, stream, cache, hostCache
    {
      cfg.Valid() && Sep() && AtRest(cfg, Snap()) && Afloat(Empties(nactive))
    }

    lemma IdleNow()
      requires cfg.Valid() && Sep() && AtRest(cfg, Snap()) && Afloat(Empties(nactive))
      ensures Idle()
    {
    }

    lemma IdleParts()
      requires Idle()
      ensures cfg.Valid() && Sep() && AtRest(cfg, Snap()) && Afloat(Empties(nactive))
    {
    }

    /** `_sync_host_cache` and `maintain`. */
    method TidyHost()
      requires Flying() && hostCache.frozen == {} && (stream.copies != [] ==> stream.cacheReady)
      modifies stream, hostCache
      ensures Docked() && hostCache.frozen == {} && !stream.cacheReady
    {
      hide HostCaches.CacheOk, HostCaches.ContentsOk, InFlight, HostCaches.Evicted;
      SyncHostCache();
      ghost var gone := hostCache.Maintain();
    }

    /** The run is claimed exact no longer if decoding has rewritten the block of a pending copy. */
    ghost method Weigh(s1: State, n: nat, got: seq<seq<Token>>)
      requires cfg.Valid() && Sep() && Ok(cfg, Snap(), got) && hostCache.frozen == {} && HostOk()
      requires InFlight(cfg, hostCache.node, hostCache.place, {}, hostCache.unfilled, s1.cells, stream.copies,
        stream.owner)
      requires OnlyHits(cfg, s1, cache[..], n)
      modifies this`cfg
      ensures cfg.exact == (old(cfg).exact && Spared(old(cfg), s1, n, stream.copies))
        && cfg == old(cfg).(exact := cfg.exact)
      ensures cfg.Valid() && Sep() && Snap() == old(Snap()) && Ok(cfg, Snap(), got) && Flying()
    {
      hide ISets.ElemsOf, SetNodes.Canon, HostCaches.CacheOk, HostCaches.ContentsOk;
      if Spared(cfg, s1, n, stream.copies) {
        SparedInFlight(cfg, s1, n, hostCache.node, hostCache.place, hostCache.unfilled, cache[..], stream.copies,
          stream.owner);
      } else {
        LooseOk(cfg, Snap(), got);
        LooseInFlight(cfg, hostCache.node, hostCache.place, hostCache.unfilled, s1.cells, cache[..], stream.copies,
          stream.owner);
        cfg := cfg.(exact := false);
      }
    }

    /** Decoding, and the host cache's housekeeping: only now are the copies known to be complete. */
    method DecodeAndTidy() returns (got: seq<seq<Token>>, done: seq<bool>, ghost n: nat)
      requires cfg.Valid() && Sep() && AtRest(cfg, Snap()) && Flying() && hostCache.frozen == {}
        && (stream.copies != [] ==> stream.cacheReady)
      requires forall i: nat :: i < nactive ==> Prepared(cfg, lane[i].Value())
      modifies this`cfg, this`tokens, this`seqlen, cache, stream, hostCache
      ensures cfg.exact == (old(cfg).exact && Spared(old(cfg), old(Snap()), n, old(stream.copies)))
        && cfg == old(cfg).(exact := cfg.exact)
      ensures cfg.Valid() && Sep() && Docked() && hostCache.frozen == {} && !stream.cacheReady
      ensures Ok(cfg, Snap(), got) && Tested(got, done) && |lane| == nactive
      ensures var s := old(Snap()); Snap() == s.(dev := Snap().dev, cells := Snap().cells)
    {
      hide ISets.ElemsOf, SetNodes.Canon, HostCaches.CacheOk, HostCaches.ContentsOk, AtRest, Ok, EndsNow, OnlyHits,
        InFlight, Spared;
      ghost var s1 := Snap();
      SnapFacts();
      got, done, n := DecodePart();
      SnapFacts();
      Weigh(s1, n, got);
      LooseTests(old(cfg), got, done);
      TidyHost();
    }

    /** `_ended_lanes` has nothing to do with what is claimed of the run. */
    lemma LooseTests(was: Config, got: seq<seq<Token>>, done: seq<bool>)
      requires cfg == was.(exact := cfg.exact) && nactive == |got| == |done| && nactive <= |lane|
      requires forall i: nat {:trigger got[i]} :: i < |got| ==> 1 <= |got[i]| <= was.syncFreq
      requires forall i: nat {:trigger done[i]} ::
        i < |done| ==> (done[i] <==> EndsNow(was, lane[i].req, lane[i].tokens, got[i]))
      ensures Tested(got, done)
    {
      forall i: nat | i < |done| ensures done[i] <==> EndsNow(cfg, lane[i].req, lane[i].tokens, got[i]) {
        assert cfg.MaxLen(lane[i].req) == was.MaxLen(lane[i].req);
      }
    }

    /** Preparation, while copies are pending. */
    method PreparePart()
      requires Idle()
      modifies this`nactive, this`lane, this`parking, this`tokens, this`seqlen, this`maxlen, this`temps, this`topPs,
        this`blktbl, Heap(), stream, hostCache
      ensures cfg.Valid() && Sep() && AtRest(cfg, Snap()) && Steady(cfg, old(Snap()), Snap()) && Heap() <= old(Heap())
      ensures forall i: nat :: i < nactive ==> Prepared(cfg, lane[i].Value())
      ensures Flying() && hostCache.frozen == {} && (stream.copies != [] ==> stream.cacheReady && !hostCache.disabled)
      ensures AllMoored(cfg, old(Snap()), Empties(old(Snap()).nactive), hostCache.place, stream.copies, stream.owner)
      ensures exists k: nat :: k <= |old(stream.copies)| && stream.copies == old(stream.copies)[k..]
    {
      hide ISets.ElemsOf, SetNodes.Canon, HostCaches.CacheOk, HostCaches.ContentsOk, AtRest, Ok, Steady, InFlight,
        AllMoored;
      Outside(null);
      SnapFacts();
      SomeCopies(Empties(nactive));
      PrepareLanes();
    }

    /** The first half of a round: evict and grow, decode, tidy the host cache. */
    method RoundStart() returns (got: seq<seq<Token>>, done: seq<bool>, ghost t: Turn)
      requires Idle()
      modifies this`cfg, this`nactive, this`lane, this`parking, this`tokens, this`seqlen, this`maxlen, this`temps,
        this`topPs, this`blktbl, Heap(), stream, cache, hostCache
      ensures cfg.Valid() && Sep() && Docked() && hostCache.frozen == {} && !stream.cacheReady && Heap() <= old(Heap())
      ensures Ok(cfg, Snap(), got) && Tested(got, done) && |lane| == nactive
      ensures Prepared1(conf, old(Snap()), Snap())
      ensures cfg == old(cfg).(exact := cfg.exact)
      ensures cfg.exact == (old(cfg).exact && Spared(conf, t.s, t.n, t.copies))
      ensures Steady(old(cfg), old(Snap()), t.s) && t.s.nactive == nactive
      ensures exists k: nat :: k <= |old(stream.copies)| && t.copies == old(stream.copies)[k..]
      ensures hostCache.disabled || AllLight(conf, old(Snap()).lanes) ==> Spared(conf, t.s, t.n, t.copies)
    {
      hide ISets.ElemsOf, SetNodes.Canon, Sep, Snap, Flying, Docked, HostOk, Idle, AtRest, Ok, Steady, Prepared1,
        EndsNow, Tested, AllMoored, Spared, AllLight, Heap;
      IdleParts(); Outside(null);
      ghost var s0 := Snap();
      SnapFacts();
      PreparePart();
      Outside(null);
      ghost var s1, place, c0, o0 := Snap(), hostCache.place, stream.copies, stream.owner;
      SteadyFacts(cfg, s0, s1); SnapFacts();
      ghost var n;
      got, done, n := DecodeAndTidy();
      SnapFacts();
      t := Turn(s1, n, c0, []);
      SameSpared(old(cfg), conf, s1, n, c0);
      LightSpares(old(cfg), conf, s0, s1, n, place, c0, o0);
      Prepares(old(cfg), conf, s0, s1, Snap());
    }

    /** Admission; the host cache has no part in it. */
    method AddPart(eoq: bool, q: PacketQueue, got: seq<seq<Token>>, done: seq<bool>)
      returns (eoq': bool, added: nat, ghost took: seq<Request>)
      requires cfg.Valid() && Sep() && Docked() && Ok(cfg, Snap(), got) && Tested(got, done) && |lane| == nactive
      requires eoq == !q.open && (forall r <- q.packets :: cfg.Accepts(r))
      modifies this`lane, this`parking, this`freeBlocks, Heap(), q
      ensures Sep() && Docked() && Ok(cfg, Snap(), got) && Tested(got, done) && |lane| == nactive + added
      ensures (forall o <- Heap() :: o in old(Heap()) || fresh(o))
      ensures var s, s' := old(Snap()), Snap();
        s'.nactive == s.nactive <= |s'.lanes| && s'.lanes[..s.nactive] == s.lanes && Fifo(s, s', took)
      ensures took + q.packets == old(q.packets)
      ensures eoq' == !q.open && (eoq ==> eoq') && (eoq' && !eoq ==> q.packets == [])
      ensures nactive == 0 && added == 0 ==> (eoq' && parking == []) || Blocked(cfg, Snap())
      ensures Blocked(cfg, old(Snap())) ==> added == 0 && Snap() == old(Snap()) && took == [] && eoq' == eoq
    {
      hide ISets.ElemsOf, SetNodes.Canon, HostCaches.CacheOk, HostCaches.ContentsOk, Ok, Adding, EndsNow, Fifo;
      ghost var s2 := Snap();
      SnapFacts(); Outside(q);
      eoq', added, took := AddLanes(eoq, q, got);
      ghost var s3 := Snap();
      SnapFacts(); AddingFacts(cfg, s2, s3, got, took);
      assert Tested(got, done) by {
        assert forall i: nat {:trigger lane[i]} :: i < nactive ==> s3.lanes[..nactive][i] == s2.lanes[i];
      }
    }

    /** The second half: admit and prefill. */
    method RoundAdd(eoq: bool, q: PacketQueue, got: seq<seq<Token>>, done: seq<bool>)
      returns (eoq': bool, got': seq<seq<Token>>, done': seq<bool>, ghost took: seq<Request>)
      requires cfg.Valid() && Sep() && Docked() && hostCache.frozen == {} && !stream.cacheReady
        && Ok(cfg, Snap(), got) && Tested(got, done) && |lane| == nactive
      requires eoq == !q.open && (forall r <- q.packets :: cfg.Accepts(r))
      modifies this`nactive, this`lane, this`parking, this`tokens, this`seqlen, this`maxlen, this`temps, this`topPs,
        this`blktbl, this`freeBlocks, Heap(), stream, cache, hostCache, q
      ensures Sep() && Afloat(got') && (forall o <- Heap() :: o in old(Heap()) || fresh(o))
      ensures Ok(cfg, Snap(), got') && Tested(got', done') && |lane| == nactive
      ensures Joined(old(Snap()), Snap(), took)
      ensures took + q.packets == old(q.packets)
      ensures eoq' == !q.open && (eoq ==> eoq') && (eoq' && !eoq ==> q.packets == [])
      ensures nactive == 0 ==> (eoq' && parking == []) || Blocked(cfg, Snap())
      ensures Blocked(cfg, old(Snap())) ==>
        Snap().parked == old(Snap().parked) && nactive == old(nactive) && took == [] && eoq' == eoq
    {
      hide ISets.ElemsOf, SetNodes.Canon, Sep, Snap, Docked, HostOk, Afloat, Ok, Adding, Joined, EndsNow, Tested, Fifo;
      ghost var s2 := Snap();
      Outside(q);
      var added;
      eoq', added, took := AddPart(eoq, q, got, done);
      ghost var s3 := Snap();
      Outside(q); SnapFacts();
      got', done' := PrefillPart(added, got, done);
      SnapFacts();
      JoinedBy(s2, s3, Snap(), took);
    }

    /** The last loop. */
    method RoundEnd(got: seq<seq<Token>>, done: seq<bool>) returns (outs: seq<Answer>)
      requires cfg.Valid() && Sep() && Afloat(got) && Ok(cfg, Snap(), got) && Tested(got, done) && |lane| == nactive
      modifies this`nactive, this`lane, this`parking, this`tokens, this`seqlen, this`maxlen, this`temps, this`topPs,
        this`blktbl, Heap(), stream, hostCache
      ensures Idle() && Heap() <= old(Heap()) && Proper(cfg, outs)
      ensures Held(old(Snap())) == Held(Snap()) + Answered(outs) && Load(cfg, Snap()) + |got| <= Load(cfg, old(Snap()))
      ensures Snap().parked == old(Snap().parked)
    {
      hide ISets.ElemsOf, SetNodes.Canon, AtRest, Ok, Proper, EndsNow, Held, Load, Answered, Sep, Snap, Afloat, Idle,
        Tested, Heap;
      Outside(null);
      outs := FinishLanes(got, done);
      IdleNow();
    }

    /**
     * One turn of the loop of `_generate`. The run stays exact exactly when the decoding steps spared
     * every pending page. Behind a parked lane that is too long nobody is admitted and nothing is
     * read; otherwise the round makes progress.
     */
    method Round(eoq: bool, q: PacketQueue) returns (eoq': bool, outs: seq<Answer>, ghost t: Turn)
      requires Idle() && eoq == !q.open && (forall r <- q.packets :: cfg.Accepts(r))
      requires !eoq || parking != [] || nactive > 0
      modifies this, Heap(), stream, cache, hostCache, q
      ensures Idle() && (forall o <- Heap() :: o in old(Heap()) || fresh(o)) && eoq' == !q.open
        && (eoq' && !eoq ==> q.packets == []) && (eoq ==> eoq')
      ensures exists took: seq<Request> :: took + q.packets == old(q.packets)
      ensures Held(old(Snap())) + multiset(old(q.packets)) == Held(Snap()) + multiset(q.packets) + Answered(outs)
      ensures Proper(cfg, outs) && t.outs == outs
      ensures cfg == old(cfg).(exact := cfg.exact)
      ensures cfg.exact == (old(cfg).exact && Spared(conf, t.s, t.n, t.copies))
      ensures Steady(old(cfg), old(Snap()), t.s)
      ensures exists k: nat :: k <= |old(stream.copies)| && t.copies == old(stream.copies)[k..]
      ensures hostCache.disabled || AllLight(conf, old(Snap()).lanes) ==> Spared(conf, t.s, t.n, t.copies)
      ensures GoesOn(conf, old(Snap()), old(q.packets), eoq, Snap(), q.packets, eoq')
    {
      hide ISets.ElemsOf, SetNodes.Canon, Idle, Sep, Snap, Docked, HostOk, Afloat, AtRest, Ok, Proper, Heap, AllLight,
        Tested, Joined, Prepared1, Held, Answered, Measure, Load, Steady, Spared, GoesOn, Blocked;
      IdleParts(); SnapFacts(); Outside(q);
      ghost var s0 := Snap();
      var got, done;
      got, done, t := RoundStart();
      ghost var s2 := Snap();
      Outside(q); SnapFacts();
      assert forall r <- q.packets :: cfg.Accepts(r) by { assert forall r <- q.packets :: old(cfg).Accepts(r); }
      ghost var took;
      eoq', got, done, took := RoundAdd(eoq, q, got, done);
      ghost var s4 := Snap();
      TestedSize(got, done); Outside(q); SnapFacts();
      outs := RoundEnd(got, done);
      IdleParts(); SnapFacts();
      assert took + q.packets == old(q.packets);
      RoundGoesOn(cfg, conf, s0, s2, s4, Snap(), old(q.packets), took, q.packets, outs, eoq, eoq');
      t := t.(outs := outs);
    }

    /**
     * `_generate`: reads every packet up to the sentinel and ends; each packet is answered exactly
     * once, and every answer ends where it should. The answers of a round are those of a fresh,
     * unpaged computation as long as no pending page has been rewritten up to then; the run is exact
     * in the end exactly when none was, as when the host cache is off or packets are light.
     */
    method Generate(q: PacketQueue) returns (outs: seq<Answer>, ghost ts: seq<Turn>)
      requires Idle() && nactive == 0 && parking == [] && q.open
      requires forall r <- q.packets :: cfg.Accepts(r) && cfg.Fits(|r.prompt|)
      modifies this, Heap(), stream, cache, hostCache, q
      ensures Idle() && nactive == 0 && parking == [] && !q.open && q.packets == []
      ensures Answered(outs) == multiset(old(q.packets)) && outs == OutsOf(ts)
      ensures forall a <- outs :: WellCut(cfg, a.req, a.tokens)
      ensures old(cfg).exact ==> CompleteSoFar(conf, ts)
      ensures cfg.exact == (old(cfg).exact && AllSpared(conf, ts))
      ensures cfg.exact ==> forall a <- outs :: Complete(cfg, a.req, a.tokens)
      ensures cfg == old(cfg).(exact := cfg.exact)
      ensures old(cfg).exact && (hostCache.disabled || forall r <- old(q.packets) :: conf.Light(r)) ==> cfg.exact
    {
      hide ISets.ElemsOf, SetNodes.Canon, Idle, Sep, Snap, AtRest, Ok, Complete, WellCut, Proper, Afloat, Held,
        Answered, Measure, AllLight, Steady, Spared, AllSpared, CompleteSoFar, OutsOf;
      var eoq := false;
      outs, ts := [], [];
      IdleParts(); SnapFacts(); NothingHeld(); NothingProper(cfg); NoTurns(conf);
      while !eoq || parking != [] || nactive > 0
        invariant Idle() && Sep() && (forall o <- Heap() :: o in old(Heap()) || fresh(o)) && eoq == !q.open
          && (eoq ==> q.packets == [])
        invariant forall r <- q.packets :: cfg.Accepts(r)
        invariant Held(Snap()) + multiset(q.packets) + Answered(outs) == multiset(old(q.packets)) && Proper(cfg, outs)
        invariant cfg == conf.(exact := cfg.exact) && outs == OutsOf(ts)
        invariant cfg.exact == (old(cfg).exact && AllSpared(conf, ts)) && (old(cfg).exact ==> CompleteSoFar(conf, ts))
        invariant old(cfg).exact && (hostCache.disabled || forall r <- old(q.packets) :: conf.Light(r)) ==> cfg.exact
        decreases Measure(conf, Snap(), |q.packets|, eoq)
      {
        var more;
        ghost var s, packets, was := Snap(), q.packets, cfg;
        ghost var t;
        HeldLight(conf, s, old(q.packets), packets, outs);
        eoq, more, t := Round(eoq, q);
        IdleParts();
        ghost var took: seq<Request> :| took + q.packets == packets;
        assert forall r <- q.packets :: r in packets;
        ProperMore(was, cfg, outs, more); TurnsNext(conf, was, cfg, ts, t, old(cfg).exact);
        AnsweredMore(outs, more);
        StillHeld(Held(s), multiset(packets), Answered(outs), Held(Snap()), multiset(q.packets), Answered(more));
        outs, ts := outs + more, ts + [t];
        HeldFits(cfg, conf, Snap(), old(q.packets), q.packets, outs);
      }
      NothingHeld(); ProperMeans(cfg, outs);
    }

    /**
     * When one packet is too long the loop of `_generate` never ends: after any number of rounds
     * its guard still holds, and that packet has not been answered.
     */
    method GoOn(q: PacketQueue, n: nat, ghost long: Request) returns (eoq: bool, outs: seq<Answer>)
      requires Idle() && nactive == 0 && parking == [] && q.open && forall r <- q.packets :: cfg.Accepts(r)
      requires long in q.packets && !cfg.Fits(|long.prompt|)
      modifies this, Heap(), stream, cache, hostCache, q
      ensures Idle() && (!eoq || parking != [] || nactive > 0) && long !in Answered(outs)
      ensures Held(Snap()) + multiset(q.packets) + Answered(outs) == multiset(old(q.packets))
    {
      hide ISets.ElemsOf, SetNodes.Canon, Idle, Sep, Snap, AtRest, Ok, Complete, WellCut, Proper, Afloat, Held,
        Answered, Measure, AllLight, Steady, Spared;
      eoq, outs := false, [];
      IdleParts(); SnapFacts(); NothingHeld(); NothingProper(cfg);
      for i := 0 to n
        invariant Idle() && Sep() && (forall o <- Heap() :: o in old(Heap()) || fresh(o)) && eoq == !q.open
          && (eoq ==> q.packets == [])
        invariant (forall r <- q.packets :: cfg.Accepts(r)) && cfg == conf.(exact := cfg.exact)
        invariant Held(Snap()) + multiset(q.packets) + Answered(outs) == multiset(old(q.packets)) && Proper(cfg, outs)
        invariant !eoq || parking != [] || nactive > 0
      {
        var more;
        ghost var s, packets, was := Snap(), q.packets, cfg;
        ghost var t;
        eoq, more, t := Round(eoq, q);
        IdleParts();
        ghost var took: seq<Request> :| took + q.packets == packets;
        assert forall r <- q.packets :: r in packets;
        ProperMore(was, cfg, outs, more);
        AnsweredMore(outs, more);
        StillHeld(Held(s), multiset(packets), Answered(outs), Held(Snap()), multiset(q.packets), Answered(more));
        outs := outs + more;
        LongStays(cfg, outs, old(q.packets), Held(Snap()), q.packets, long);
        if eoq && parking == [] && nactive == 0 { NothingHeld(); }
      }
      LongStays(cfg, outs, old(q.packets), Held(Snap()), q.packets, long);
    }

    lemma NothingHeld()
      requires Idle() && nactive == 0 && parking == []
      ensures Held(Snap()) == multiset{} && Answered([]) == multiset{}
    {
      hide Afloat;
      SnapFacts(); RestFacts(cfg, Snap());
      assert Packets(Snap().lanes) == [] && Packets(Snap().parked) == [];
      var none: seq<Answer> := [];
      assert seq(|none|, i requires 0 <= i < |none| => none[i].req) == [];
    }
  }
}
