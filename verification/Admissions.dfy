// `_add_lanes` on values: lanes are admitted in the order they were parked or queued,
// and what is not admitted keeps its place.
module Admissions {
  import opened Basics
  import opened Seqs
  import opened Kv
  import opened Sched
  import opened Steps
  import opened Counts

  function Strip(l: LaneV): LaneV { l.(blocks := []) }

  function Strips(ls: seq<LaneV>): seq<LaneV> { seq(|ls|, i requires 0 <= i < |ls| => Strip(ls[i])) }

  function FreshLane(r: Request): LaneV { LaneV(r, [], []) }

  function FreshLanes(rs: seq<Request>): seq<LaneV> { seq(|rs|, i requires 0 <= i < |rs| => FreshLane(rs[i])) }

  /** Since s0 the packets took were read: admitted and parked lanes are the old parking, then them, in order. */
  ghost predicate Fifo(s0: State, s: State, took: seq<Request>) {
    s.nactive <= |s.lanes| && Strips(s.lanes[s.nactive..]) + s.parked == s0.parked + FreshLanes(took)
  }

  ghost predicate Adding(cfg: Config, s0: State, s: State, pend: seq<seq<Token>>, took: seq<Request>) {
    && Ok(cfg, s, pend)
    && s.nactive == s0.nactive && s.cells == s0.cells && s.dev == s0.dev
    && s.lanes[..s.nactive] == s0.lanes
    && Fifo(s0, s, took)
  }

  lemma StartAdding(cfg: Config, s: State, pend: seq<seq<Token>>)
    requires Ok(cfg, s, pend) && |s.lanes| == s.nactive
    ensures Adding(cfg, s, s, pend, [])
  {
    assert s.lanes[s.nactive..] == [] && s.lanes[..s.nactive] == s.lanes;
  }

  /** How many blocks a lane of n tokens asks for. */
  function AskOf(cfg: Config, n: nat): nat
    requires cfg.pageLen > 0
  {
    (n + (128 + cfg.pageLen - 1)) / cfg.pageLen
  }

  /** The pages that a lane asks for hold its tokens and 128 more, and no page more than needed. */
  lemma Ask(n: nat, pl: nat)
    requires pl > 0
    ensures n + 128 <= (n + (128 + pl - 1)) / pl * pl < n + 128 + pl
  {
    var x := n + (128 + pl - 1);
    assert x == x / pl * pl + x % pl;
  }

  lemma AskFits(cfg: Config, n: nat)
    requires cfg.Valid() && n + 128 <= cfg.maxSeq
    ensures AskOf(cfg, n) <= cfg.nblocks
  {
    Ask(n, cfg.pageLen);
    var a := AskOf(cfg, n);
    if a > cfg.nblocks { MulMono(cfg.nblocks + 1, a, cfg.pageLen); }
  }

  /** A longer lane asks for more blocks than there are. */
  lemma AskTooMuch(cfg: Config, n: nat)
    requires cfg.Valid() && n + 128 > cfg.maxSeq
    ensures AskOf(cfg, n) > cfg.nblocks
  {
    Ask(n, cfg.pageLen);
    var a := AskOf(cfg, n);
    if a <= cfg.nblocks { MulMono(a, cfg.nblocks, cfg.pageLen); }
  }

  /** A lane with the blocks it asked for can be admitted. */
  lemma AskedAdmits(cfg: Config, l: LaneV)
    requires cfg.Valid() && Waiting(cfg, l) && |l.blocks| == AskOf(cfg, |All(l)|)
    ensures Admitted(cfg, l)
  {
    Ask(|All(l)|, cfg.pageLen);
    DivMono(|All(l)| + (128 + cfg.pageLen - 1), cfg.MaxLen(l.req) + Max(128, cfg.syncFreq) + cfg.pageLen - 1,
      cfg.pageLen);
  }

  lemma DivMono(a: nat, b: nat, d: nat)
    requires d > 0 && a <= b
    ensures a / d <= b / d
  {
    if b / d < a / d { MulMono(b / d + 1, a / d, d); }
  }

  /** With no lane at all, every waiting lane can be admitted. */
  lemma RoomForOne(cfg: Config, s: State, pend: seq<seq<Token>>, n: nat)
    requires cfg.Valid() && Ok(cfg, s, pend) && s.lanes == [] && n + 128 <= cfg.maxSeq
    ensures AskOf(cfg, n) <= |s.free|
  {
    NoLane(s.free, cfg.nblocks);
    AskFits(cfg, n);
  }

  /** There are never more free blocks than blocks. */
  lemma FreeBound(cfg: Config, s: State, pend: seq<seq<Token>>)
    requires Ok(cfg, s, pend)
    ensures |s.free| <= cfg.nblocks
  {
    BelowSize(s.free, cfg.nblocks);
  }

  /** Whatever got its blocks fits. */
  lemma AdmittedFits(cfg: Config, s: State, pend: seq<seq<Token>>, l: LaneV, rest: set<nat>)
    requires cfg.Valid() && Ok(cfg, s, pend) && NoDup(l.blocks) && s.free == ToSet(l.blocks) + rest
    requires |l.blocks| == AskOf(cfg, |All(l)|)
    ensures cfg.Fits(|All(l)|)
  {
    FreeBound(cfg, s, pend);
    NoDupSize(l.blocks);
    Within(ToSet(l.blocks), s.free);
    if !cfg.Fits(|All(l)|) { AskTooMuch(cfg, |All(l)|); }
  }

  lemma {:induction false} Within(a: set<nat>, b: set<nat>)
    requires a <= b
    ensures |a| <= |b|
  {
    if x :| x in a { Within(a - {x}, b - {x}); }
  }

  /** The lane that would come next is too long. */
  ghost predicate Blocked(cfg: Config, s: State) { s.parked != [] && !cfg.Fits(|All(s.parked[0])|) }

  /** Such a lane asks for more blocks than are free. */
  lemma BlockedAsks(cfg: Config, s: State, pend: seq<seq<Token>>)
    requires cfg.Valid() && Ok(cfg, s, pend) && Blocked(cfg, s)
    ensures AskOf(cfg, |All(s.parked[0])|) > |s.free|
  {
    FreeBound(cfg, s, pend);
    AskTooMuch(cfg, |All(s.parked[0])|);
  }

  lemma AdmitSize(s: State, l: LaneV, rest: set<nat>)
    ensures |Admit(s, l, rest).lanes| == |s.lanes| + 1
  {
  }

  /** A parked lane is admitted. */
  lemma AdmitParked(cfg: Config, s0: State, s: State, pend: seq<seq<Token>>, took: seq<Request>, l: LaneV,
      rest: set<nat>)
    requires cfg.Valid() && Adding(cfg, s0, s, pend, took) && s.parked != [] && Strip(l) == s.parked[0]
      && |s.lanes| < cfg.maxBatch
    requires NoDup(l.blocks) && s.free == ToSet(l.blocks) + rest && ToSet(l.blocks) !! rest
    requires |l.blocks| == AskOf(cfg, |All(l)|)
    ensures Adding(cfg, s0, Admit(s.(parked := s.parked[1..]), l, rest), pend, took)
  {
    hide Ok, Admitted;
    var s1 := s.(parked := s.parked[1..]);
    UnparkOk(cfg, s, pend);
    assert All(l) == All(s.parked[0]);
    AdmittedFits(cfg, s, pend, l, rest);
    AskedAdmits(cfg, l);
    AdmitOk(cfg, s1, pend, l, rest);
    var s' := Admit(s1, l, rest);
    assert s'.lanes[s.nactive..] == s.lanes[s.nactive..] + [l] && s'.lanes[..s.nactive] == s.lanes[..s.nactive];
    assert Strips(s'.lanes[s.nactive..]) + s'.parked == Strips(s.lanes[s.nactive..]) + s.parked;
  }

  lemma UnparkOk(cfg: Config, s: State, pend: seq<seq<Token>>)
    requires Ok(cfg, s, pend) && s.parked != []
    ensures Ok(cfg, s.(parked := s.parked[1..]), pend) && Parked(cfg, s.parked[0])
  {
    var s' := s.(parked := s.parked[1..]);
    assert s.parked[0] in s.parked;
    forall k: nat | k < s'.nactive ensures LiveAt(cfg, s', pend, k) { assert LiveAt(cfg, s, pend, k); }
    forall k: nat | s'.nactive <= k < |s'.lanes| ensures AdmittedAt(cfg, s', k) { assert AdmittedAt(cfg, s, k); }
  }

  /** A packet is admitted as a new lane. */
  lemma AdmitFresh(cfg: Config, s0: State, s: State, pend: seq<seq<Token>>, took: seq<Request>, r: Request, l: LaneV,
      rest: set<nat>)
    requires cfg.Valid() && Adding(cfg, s0, s, pend, took) && s.parked == [] && Strip(l) == FreshLane(r)
      && |s.lanes| < cfg.maxBatch
    requires NoDup(l.blocks) && s.free == ToSet(l.blocks) + rest && ToSet(l.blocks) !! rest
    requires Parked(cfg, FreshLane(r)) && |l.blocks| == AskOf(cfg, |All(l)|)
    ensures Adding(cfg, s0, Admit(s, l, rest), pend, took + [r])
  {
    hide Ok, Admitted;
    assert All(l) == All(FreshLane(r));
    AdmittedFits(cfg, s, pend, l, rest);
    AskedAdmits(cfg, l);
    AdmitOk(cfg, s, pend, l, rest);
    var s' := Admit(s, l, rest);
    assert s'.lanes[s.nactive..] == s.lanes[s.nactive..] + [l] && s'.lanes[..s.nactive] == s.lanes[..s.nactive];
    assert Strips(s'.lanes[s.nactive..]) + s'.parked == Strips(s.lanes[s.nactive..]) + s.parked + [FreshLane(r)];
    assert FreshLanes(took + [r]) == FreshLanes(took) + [FreshLane(r)];
    assert s0.parked + FreshLanes(took + [r]) == s0.parked + FreshLanes(took) + [FreshLane(r)];
  }

  /** A packet that does not fit is parked; nobody else is. */
  lemma ParkFresh(cfg: Config, s0: State, s: State, pend: seq<seq<Token>>, took: seq<Request>, r: Request)
    requires Adding(cfg, s0, s, pend, took) && s.parked == [] && Parked(cfg, FreshLane(r))
    ensures Adding(cfg, s0, s.(parked := s.parked + [FreshLane(r)]), pend, took + [r])
  {
    var s' := s.(parked := s.parked + [FreshLane(r)]);
    forall k: nat | k < s'.nactive ensures LiveAt(cfg, s', pend, k) { assert LiveAt(cfg, s, pend, k); }
    forall k: nat | s'.nactive <= k < |s'.lanes| ensures AdmittedAt(cfg, s', k) { assert AdmittedAt(cfg, s, k); }
    assert FreshLanes(took + [r]) == FreshLanes(took) + [FreshLane(r)];
    assert s0.parked + FreshLanes(took + [r]) == s0.parked + FreshLanes(took) + [FreshLane(r)];
    assert Strips(s'.lanes[s.nactive..]) + s'.parked == Strips(s.lanes[s.nactive..]) + s.parked + [FreshLane(r)];
  }

  lemma AcceptedWaits(cfg: Config, r: Request)
    requires cfg.Accepts(r)
    ensures Parked(cfg, FreshLane(r)) && |All(FreshLane(r))| == |r.prompt|
  {
    assert r.prompt + [] == r.prompt;
  }

  /** An admission is taken back. */
  lemma UndoAdding(cfg: Config, s0: State, s: State, pend: seq<seq<Token>>, took: seq<Request>)
    requires Adding(cfg, s0, s, pend, took) && s.nactive < |s.lanes|
    ensures Adding(cfg, s0, Undo(s), pend, took)
  {
    UndoOk(cfg, s, pend);
    var s', last := Undo(s), |s.lanes| - 1;
    assert s'.lanes[..s.nactive] == s.lanes[..s.nactive];
    assert s.lanes[s.nactive..] == s'.lanes[s.nactive..] + [s.lanes[last]];
    assert Strips(s.lanes[s.nactive..]) == Strips(s'.lanes[s.nactive..]) + [Strip(s.lanes[last])];
  }

  // ---------- nothing is lost ----------

  lemma {:induction false} WorkConcat(cfg: Config, a: seq<LaneV>, b: seq<LaneV>)
    ensures Work(cfg, a + b) == Work(cfg, a) + Work(cfg, b)
    decreases |b|
  {
    if b == [] {
      assert a + b == a;
    } else {
      assert (a + b)[..|a + b| - 1] == a + b[..|b| - 1];
      WorkConcat(cfg, a, b[..|b| - 1]);
    }
  }

  lemma {:induction false} WorkStrips(cfg: Config, a: seq<LaneV>)
    ensures Work(cfg, Strips(a)) == Work(cfg, a)
    decreases |a|
  {
    if a != [] {
      assert Strips(a)[..|a| - 1] == Strips(a[..|a| - 1]);
      WorkStrips(cfg, a[..|a| - 1]);
    }
  }

  lemma {:induction false} WorkFresh(cfg: Config, rs: seq<Request>)
    ensures Work(cfg, FreshLanes(rs)) <= (cfg.maxSeq + 1) * |rs|
    decreases |rs|
  {
    if rs != [] {
      assert FreshLanes(rs)[..|rs| - 1] == FreshLanes(rs[..|rs| - 1]);
      WorkFresh(cfg, rs[..|rs| - 1]);
    }
  }

  /** The packets read are added to those held, and to the work by at most a cache length each. */
  lemma AddedHeld(cfg: Config, s0: State, s: State, took: seq<Request>)
    requires Fifo(s0, s, took) && s.lanes[..s.nactive] == s0.lanes
    ensures Held(s) == Held(s0) + multiset(took)
  {
    var joined := s.lanes[s.nactive..];
    assert s.lanes == s0.lanes + joined;
    assert Packets(s.lanes) == Packets(s0.lanes) + Packets(joined);
    assert multiset(Packets(s.lanes)) == multiset(Packets(s0.lanes)) + multiset(Packets(joined));
    assert Packets(Strips(joined) + s.parked) == Packets(joined) + Packets(s.parked);
    assert Packets(s0.parked + FreshLanes(took)) == Packets(s0.parked) + took;
    assert multiset(Packets(joined)) + multiset(Packets(s.parked)) == multiset(Packets(joined) + Packets(s.parked))
      == multiset(Packets(s0.parked) + took) == multiset(Packets(s0.parked)) + multiset(took);
    assert Held(s) == multiset(Packets(s0.lanes)) + (multiset(Packets(joined)) + multiset(Packets(s.parked)));
  }

  lemma AddedWork(cfg: Config, s0: State, s: State, took: seq<Request>)
    requires Fifo(s0, s, took) && s.lanes[..s.nactive] == s0.lanes
    ensures Load(cfg, s) <= Load(cfg, s0) + (cfg.maxSeq + 1) * |took|
  {
    var joined := s.lanes[s.nactive..];
    assert s.lanes == s0.lanes + joined;
    WorkConcat(cfg, s0.lanes, joined); WorkStrips(cfg, joined);
    WorkConcat(cfg, Strips(joined), s.parked); WorkConcat(cfg, s0.parked, FreshLanes(took)); WorkFresh(cfg, took);
  }
}
