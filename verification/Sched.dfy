// What the generator works on, as values: packets, lanes, the settings of a run, and
// which lane owns which block of the device cache.
module Sched {
  import opened Basics
  import opened Seqs
  import opened Kv
  import opened Stops

  /** An input packet; its tokens are the prompt. */
  datatype Request = Request(threadId: int, prompt: seq<Token>, temperature: Option<int>, topP: Option<int>,
    maxGen: Option<nat>, stopStr: Option<string>)

  /**
   * The settings of a run. `exact` belongs to the specification: it says that so far every page read
   * back from the host was the one to be saved, and only then are cells and tokens claimed to be those
   * of a fresh computation.
   */
  datatype Config = Config(m: Model, pageLen: nat, nblocks: nat, maxSeq: nat, maxBatch: nat, syncFreq: nat,
    maxPrefill: nat, minPrefill: nat, minPrefillBatch: nat, maxGen: Option<nat>, temperature: int, topP: int,
    stopTokens: seq<Token>, text: Token -> string, ghost exact: bool)
  {
    /** The constructor's assertions, and what the generator silently relies on. */
    ghost predicate Valid() {
      && 1 <= syncFreq < pageLen && maxSeq == nblocks * pageLen && nblocks <= 0x1_0000_0000
      && maxBatch >= 1 && maxSeq >= maxBatch * pageLen && maxSeq >= 256 && maxPrefill >= 2
      && (forall t :: |text(t)| > 0)
    }

    function EndOf(r: Request): Ending {
      Ending(stopTokens, r.stopStr, if r.maxGen.Some? then r.maxGen else maxGen, text)
    }

    /** Lane.from_pkt: the length at which a lane must stop. */
    function MaxLen(r: Request): nat {
      var g := if r.maxGen.Some? then r.maxGen else maxGen;
      if g.None? then maxSeq else if |r.prompt| + g.value < maxSeq then |r.prompt| + g.value else maxSeq
    }

    function Temp(r: Request): int { if r.temperature.Some? then r.temperature.value else temperature }

    function TopP(r: Request): int { if r.topP.Some? then r.topP.value else topP }

    /** The most blocks a lane ever holds: those of its longest length, with the surplus asked for it. */
    function MostBlocks(r: Request): nat {
      if pageLen == 0 then 0 else (MaxLen(r) + Max(128, syncFreq) + pageLen - 1) / pageLen
    }

    /** A full batch of such packets never needs more blocks than there are. */
    predicate Light(r: Request) { MostBlocks(r) * maxBatch <= nblocks }

    /** What the generator expects of a packet. */
    predicate Accepts(r: Request) {
      r.prompt != [] && (r.stopStr.Some? ==> r.stopStr.value != "")
    }

    /** So many tokens, and the 128 more that an admission asks for, fit an empty cache. */
    predicate Fits(n: nat) { n + 128 <= maxSeq }
  }

  /** A lane, seen as a value. */
  datatype LaneV = LaneV(req: Request, tokens: seq<Token>, blocks: seq<nat>)

  function All(l: LaneV): seq<Token> { l.req.prompt + l.tokens }

  // ---------- block ownership ----------

  lemma {:induction false} BelowSize(s: set<nat>, n: nat)
    requires forall b <- s :: b < n
    ensures |s| <= n
  {
    if n > 0 {
      BelowSize(s - {n - 1}, n - 1);
      if n - 1 in s { assert s == (s - {n - 1}) + {n - 1}; } else { assert s == s - {n - 1}; }
    } else {
      assert s == {};
    }
  }

  ghost predicate Apart(ls: seq<LaneV>, i: nat, j: nat)
    requires i < |ls| && j < |ls|
  {
    i != j ==> ToSet(ls[i].blocks) !! ToSet(ls[j].blocks)
  }

  ghost predicate Owns(free: set<nat>, nb: nat, blocks: seq<nat>) {
    NoDup(blocks) && ToSet(blocks) !! free && (forall b <- blocks :: b < nb)
  }

  /** Block b is free or owned. */
  ghost predicate Placed(free: set<nat>, ls: seq<LaneV>, b: nat) {
    b in free || exists i: nat {:trigger ls[i]} :: i < |ls| && b in ls[i].blocks
  }

  /** The free set and the lanes' block sets are pairwise disjoint and together are [0, nb). */
  ghost predicate Partition(free: set<nat>, ls: seq<LaneV>, nb: nat) {
    && (forall i: nat {:trigger ls[i]} :: i < |ls| ==> Owns(free, nb, ls[i].blocks))
    && (forall i: nat, j: nat {:trigger Apart(ls, i, j)} :: i < |ls| && j < |ls| ==> Apart(ls, i, j))
    && (forall b <- free :: b < nb)
    && (forall b: nat {:trigger Placed(free, ls, b)} :: b < nb ==> Placed(free, ls, b))
  }

  /** A lane hands its blocks back and the last lane takes its place. */
  lemma PartitionKill(free: set<nat>, ls: seq<LaneV>, nb: nat, i: nat)
    requires Partition(free, ls, nb) && i < |ls|
    ensures Partition(free + ToSet(ls[i].blocks), Drop(ls, i), nb)
  {
    var last := |ls| - 1;
    var free', ls' := free + ToSet(ls[i].blocks), Drop(ls, i);
    forall k: nat | k < |ls'| ensures Owns(free', nb, ls'[k].blocks) {
      var k0 := if k == i then last else k;
      assert ls'[k] == ls[k0] && Apart(ls, i, k0);
    }
    forall k: nat, j: nat | k < |ls'| && j < |ls'| ensures Apart(ls', k, j) {
      assert Apart(ls, if k == i then last else k, if j == i then last else j);
    }
    forall b: nat | b < nb ensures Placed(free', ls', b) {
      assert Placed(free, ls, b);
      if b !in free' {
        var k: nat :| k < |ls| && b in ls[k].blocks;
        assert b in ls'[if k == last then i else k].blocks;
      }
    }
  }

  /** A new lane receives part of the free set. */
  lemma PartitionAdmit(free: set<nat>, ls: seq<LaneV>, nb: nat, l: LaneV, rest: set<nat>)
    requires Partition(free, ls, nb) && NoDup(l.blocks)
    requires free == ToSet(l.blocks) + rest && ToSet(l.blocks) !! rest
    ensures Partition(rest, ls + [l], nb)
  {
    var ls' := ls + [l];
    assert forall b <- l.blocks :: b in free by { assert forall b <- l.blocks :: b in ToSet(l.blocks); }
    forall k: nat | k < |ls'| ensures Owns(rest, nb, ls'[k].blocks) {
      if k < |ls| { assert Owns(free, nb, ls[k].blocks); }
    }
    forall k: nat, j: nat | k < |ls'| && j < |ls'| ensures Apart(ls', k, j) {
      if k < |ls| { assert Owns(free, nb, ls[k].blocks); }
      if j < |ls| { assert Owns(free, nb, ls[j].blocks); }
      if k < |ls| && j < |ls| { assert Apart(ls, k, j); }
    }
    forall b: nat | b < nb ensures Placed(rest, ls', b) {
      assert Placed(free, ls, b);
      if b !in rest {
        if b in l.blocks { assert b in ls'[|ls|].blocks; }
        else {
          var k: nat :| k < |ls| && b in ls[k].blocks;
          assert b in ls'[k].blocks;
        }
      }
    }
  }

  /** A lane grows by a free block. */
  lemma PartitionGrow(free: set<nat>, ls: seq<LaneV>, nb: nat, i: nat, bid: nat)
    requires Partition(free, ls, nb) && i < |ls| && bid in free
    ensures Partition(free - {bid}, ls[i := ls[i].(blocks := ls[i].blocks + [bid])], nb)
    ensures |ls[i].blocks| < nb
  {
    var l := ls[i].(blocks := ls[i].blocks + [bid]);
    var free', ls' := free - {bid}, ls[i := l];
    assert Owns(free, nb, ls[i].blocks);
    assert ToSet(l.blocks) == ToSet(ls[i].blocks) + {bid};
    assert bid in ToSet(ls[i].blocks) <==> bid in ls[i].blocks;
    forall k: nat | k < |ls'| ensures Owns(free', nb, ls'[k].blocks) { assert Owns(free, nb, ls[k].blocks); }
    forall k: nat, j: nat | k < |ls'| && j < |ls'| ensures Apart(ls', k, j) {
      assert Apart(ls, k, j) && Owns(free, nb, ls[k].blocks) && Owns(free, nb, ls[j].blocks);
    }
    forall b: nat | b < nb ensures Placed(free', ls', b) {
      assert Placed(free, ls, b);
      if b !in free' {
        if b == bid { assert b in ls'[i].blocks; }
        else {
          var k: nat :| k < |ls| && b in ls[k].blocks;
          assert b in ls'[k].blocks;
        }
      }
    }
    NoDupSize(l.blocks);
    BelowSize(ToSet(l.blocks), nb);
  }

  /** Ownership does not look at tokens. */
  lemma PartitionSame(free: set<nat>, ls: seq<LaneV>, ls': seq<LaneV>, nb: nat)
    requires Partition(free, ls, nb) && |ls'| == |ls|
    requires forall i: nat {:trigger ls'[i]} :: i < |ls| ==> ls'[i].blocks == ls[i].blocks
    ensures Partition(free, ls', nb)
  {
    forall k: nat, j: nat | k < |ls'| && j < |ls'| ensures Apart(ls', k, j) { assert Apart(ls, k, j); }
    forall b: nat | b < nb ensures Placed(free, ls', b) {
      assert Placed(free, ls, b);
      if b !in free {
        var k: nat :| k < |ls| && b in ls[k].blocks;
        assert b in ls'[k].blocks;
      }
    }
  }

  /** Two lanes together own at most all the blocks. */
  lemma TwoLanes(free: set<nat>, ls: seq<LaneV>, nb: nat, i: nat, j: nat)
    requires Partition(free, ls, nb) && i < |ls| && j < |ls| && i != j
    ensures |ls[i].blocks| + |ls[j].blocks| <= nb
  {
    assert Apart(ls, i, j) && Owns(free, nb, ls[i].blocks) && Owns(free, nb, ls[j].blocks);
    NoDupSize(ls[i].blocks); NoDupSize(ls[j].blocks);
    BelowSize(ToSet(ls[i].blocks) + ToSet(ls[j].blocks), nb);
  }

  lemma BlocksBelow(free: set<nat>, ls: seq<LaneV>, nb: nat, i: nat)
    requires Partition(free, ls, nb) && i < |ls|
    ensures |ls[i].blocks| <= nb
  {
    assert Owns(free, nb, ls[i].blocks);
    NoDupSize(ls[i].blocks);
    BelowSize(ToSet(ls[i].blocks), nb);
  }

  lemma {:induction false} AllBelow(n: nat) returns (s: set<nat>)
    ensures |s| == n && forall b: nat :: b in s <==> b < n
  {
    s := {};
    for k := 0 to n
      invariant |s| == k && forall b: nat :: b in s <==> b < k
    {
      s := s + {k};
    }
  }

  /** With nothing free, a lane alone owns every block. */
  lemma LastLane(ls: seq<LaneV>, nb: nat)
    requires Partition({}, ls, nb) && |ls| == 1
    ensures |ls[0].blocks| == nb
  {
    var s := AllBelow(nb);
    forall b: nat ensures b in s <==> b in ToSet(ls[0].blocks) {
      assert b < nb ==> Placed({}, ls, b);
    }
    assert s == ToSet(ls[0].blocks);
    assert Owns({}, nb, ls[0].blocks);
    NoDupSize(ls[0].blocks);
  }

  ghost function Owned(ls: seq<LaneV>): set<nat> {
    if ls == [] then {} else Owned(ls[..|ls| - 1]) + ToSet(ls[|ls| - 1].blocks)
  }

  lemma {:induction false} OwnedOf(ls: seq<LaneV>, i: nat, b: nat)
    requires i < |ls| && b in ls[i].blocks
    ensures b in Owned(ls)
  {
    if i < |ls| - 1 { OwnedOf(ls[..|ls| - 1], i, b); }
  }

  lemma NoDupAtMost(s: seq<nat>)
    ensures |ToSet(s)| <= |s|
    decreases |s|
  {
    if s != [] {
      var t := s[..|s| - 1];
      NoDupAtMost(t);
      assert ToSet(s) == ToSet(t) + {s[|s| - 1]};
    }
  }

  /** Lanes of packets that are light own at most their share. */
  lemma {:induction false} LightShare(cfg: Config, ls: seq<LaneV>)
    requires forall l <- ls :: |l.blocks| * cfg.maxBatch <= cfg.nblocks
    ensures |Owned(ls)| * cfg.maxBatch <= |ls| * cfg.nblocks
    decreases |ls|
  {
    if ls != [] {
      var n := |ls| - 1;
      LightShare(cfg, ls[..n]);
      NoDupAtMost(ls[n].blocks);
      assert ls[n] in ls;
      AddShare(|Owned(ls)|, |Owned(ls[..n])|, |ls[n].blocks|, n, cfg.maxBatch, cfg.nblocks);
    }
  }

  lemma AddShare(u: nat, a: nat, b: nat, n: nat, m: nat, nb: nat)
    requires u <= a + b && a * m <= n * nb && b * m <= nb
    ensures u * m <= (n + 1) * nb
  {
    MulMono(u, a + b, m);
    assert (a + b) * m == a * m + b * m && (n + 1) * nb == n * nb + nb;
  }

  /** One of them owning less than its share, together they own less than theirs. */
  lemma {:induction false} LessShare(cfg: Config, ls: seq<LaneV>, i: nat)
    requires i < |ls| && forall l <- ls :: |l.blocks| * cfg.maxBatch <= cfg.nblocks
    requires (|ls[i].blocks| + 1) * cfg.maxBatch <= cfg.nblocks
    ensures (|Owned(ls)| + 1) * cfg.maxBatch <= |ls| * cfg.nblocks
    decreases |ls|
  {
    var n := |ls| - 1;
    var a, b := |Owned(ls[..n])|, |ls[n].blocks|;
    NoDupAtMost(ls[n].blocks);
    assert ls[n] in ls;
    if i == n {
      LightShare(cfg, ls[..n]);
      AddShare(|Owned(ls)| + 1, a, b + 1, n, cfg.maxBatch, cfg.nblocks);
    } else {
      LessShare(cfg, ls[..n], i);
      AddShare(|Owned(ls)| + 1, a + 1, b, n, cfg.maxBatch, cfg.nblocks);
    }
  }

  lemma NotAll(u: nat, n: nat, m: nat, nb: nat)
    requires (u + 1) * m <= n * nb && n <= m && m > 0
    ensures u < nb
  {
    MulMono(n, m, nb);
    assert (nb + 1) * m == nb * m + m;
    if u >= nb { MulMono(nb + 1, u + 1, m); }
  }

  /** With light packets only, nothing is free only when every lane has its most. */
  lemma SomeFree(cfg: Config, ls: seq<LaneV>, i: nat)
    requires Partition({}, ls, cfg.nblocks) && i < |ls| <= cfg.maxBatch
    requires forall l <- ls :: cfg.Light(l.req) && |l.blocks| <= cfg.MostBlocks(l.req)
    ensures |ls[i].blocks| >= cfg.MostBlocks(ls[i].req)
  {
    if |ls[i].blocks| < cfg.MostBlocks(ls[i].req) {
      AllOwned(ls, cfg.nblocks);
      hide Partition;
      forall l | l in ls ensures |l.blocks| * cfg.maxBatch <= cfg.nblocks {
        MulMono(|l.blocks|, cfg.MostBlocks(l.req), cfg.maxBatch);
      }
      MulMono(|ls[i].blocks| + 1, cfg.MostBlocks(ls[i].req), cfg.maxBatch);
      LessShare(cfg, ls, i);
      NotAll(|Owned(ls)|, |ls|, cfg.maxBatch, cfg.nblocks);
    }
  }

  lemma AllOwned(ls: seq<LaneV>, nb: nat)
    requires Partition({}, ls, nb)
    ensures |Owned(ls)| >= nb
  {
    var s := AllBelow(nb);
    forall b: nat | b < nb ensures b in Owned(ls) {
      assert Placed({}, ls, b);
      var k: nat :| k < |ls| && b in ls[k].blocks;
      OwnedOf(ls, k, b);
    }
    assert s <= Owned(ls);
    SubsetSize(s, Owned(ls));
  }

  lemma SubsetSize(a: set<nat>, b: set<nat>)
    requires a <= b
    ensures |a| <= |b|
  {
    assert b == a + (b - a);
  }

  /** With no lane, every block is free. */
  lemma NoLane(free: set<nat>, nb: nat)
    requires Partition(free, [], nb)
    ensures |free| == nb
  {
    var s := AllBelow(nb);
    forall b: nat ensures b in s <==> b in free { assert b < nb ==> Placed(free, [], b); }
    assert s == free;
  }
}
