// Which packets the generator holds, and how much work they still are.
module Counts {
  import opened Seqs
  import opened Kv
  import opened Sched
  import opened Steps

  ghost function Packets(ls: seq<LaneV>): seq<Request> { seq(|ls|, i requires 0 <= i < |ls| => ls[i].req) }

  /** Tokens a lane may still receive. */
  function Left(cfg: Config, l: LaneV): nat { if |All(l)| <= cfg.maxSeq then cfg.maxSeq + 1 - |All(l)| else 0 }

  ghost function Work(cfg: Config, ls: seq<LaneV>): nat {
    if ls == [] then 0 else Work(cfg, ls[..|ls| - 1]) + Left(cfg, ls[|ls| - 1])
  }

  /** The packets in active, admitted and parked lanes. */
  ghost function Held(s: State): multiset<Request> {
    multiset(Packets(s.lanes)) + multiset(Packets(s.parked))
  }

  ghost function Load(cfg: Config, s: State): nat {
    Work(cfg, s.lanes) + Work(cfg, s.parked)
  }

  lemma {:induction false} WorkSet(cfg: Config, ls: seq<LaneV>, i: nat, l: LaneV)
    requires i < |ls|
    ensures Work(cfg, ls[i := l]) == Work(cfg, ls) - Left(cfg, ls[i]) + Left(cfg, l)
    decreases |ls|
  {
    var n := |ls| - 1;
    if i < n {
      WorkSet(cfg, ls[..n], i, l);
      assert ls[i := l][..n] == ls[..n][i := l];
    } else {
      assert ls[i := l][..n] == ls[..n];
    }
  }

  lemma WorkAdd(cfg: Config, ls: seq<LaneV>, l: LaneV)
    ensures Work(cfg, ls + [l]) == Work(cfg, ls) + Left(cfg, l)
  {
    assert (ls + [l])[..|ls|] == ls;
  }

  lemma WorkDrop(cfg: Config, ls: seq<LaneV>, i: nat)
    requires i < |ls|
    ensures Work(cfg, Drop(ls, i)) == Work(cfg, ls) - Left(cfg, ls[i])
  {
    WorkSet(cfg, ls, i, ls[|ls| - 1]);
  }

  lemma PacketsDrop(ls: seq<LaneV>, i: nat)
    requires i < |ls|
    ensures multiset(Packets(ls)) == multiset(Packets(Drop(ls, i))) + multiset{ls[i].req}
  {
    var ps, n := Packets(ls), |ls| - 1;
    assert Packets(Drop(ls, i)) + [ps[n]] == ps[i := ps[n]];
    assert multiset(ps[i := ps[n]]) == multiset(ps) - multiset{ps[i]} + multiset{ps[n]};
    assert multiset(Packets(Drop(ls, i)) + [ps[n]]) == multiset(Packets(Drop(ls, i))) + multiset{ps[n]};
    assert ps[i] in ps;
  }

  lemma PacketsSame(ls: seq<LaneV>, ls': seq<LaneV>)
    requires |ls'| == |ls| && forall i :: 0 <= i < |ls| ==> ls'[i].req == ls[i].req
    ensures Packets(ls') == Packets(ls)
  {
  }

  /** Killing forgets one packet; parking forgets none. */
  lemma KillHeld(cfg: Config, s: State, i: nat, park: bool)
    requires i < |s.lanes| == s.nactive <= |s.dev|
    ensures Held(s) == Held(Kill(s, i, park)) + if park then multiset{} else multiset{s.lanes[i].req}
    ensures Load(cfg, s) == Load(cfg, Kill(s, i, park)) + if park then 0 else Left(cfg, s.lanes[i])
  {
    PacketsDrop(s.lanes, i); WorkDrop(cfg, s.lanes, i);
    if park {
      var l := s.lanes[i].(blocks := []);
      WorkAdd(cfg, s.parked, l);
      assert Packets(s.parked + [l]) == Packets(s.parked) + [l.req];
    }
  }

  lemma GrowHeld(cfg: Config, s: State, i: nat, bid: nat)
    requires i < |s.lanes| && i < |s.dev| && |s.lanes[i].blocks| < |s.dev[i].row|
    ensures Held(Grow(s, i, bid)) == Held(s) && Load(cfg, Grow(s, i, bid)) == Load(cfg, s)
  {
    PacketsSame(s.lanes, Grow(s, i, bid).lanes);
    WorkSet(cfg, s.lanes, i, Grow(s, i, bid).lanes[i]);
  }

  lemma AppendHeld(cfg: Config, s: State, i: nat, got: seq<Token>)
    requires i < |s.lanes| && |All(s.lanes[i]) + got| <= cfg.maxSeq
    ensures Held(Append(s, i, got)) == Held(s) && Load(cfg, Append(s, i, got)) == Load(cfg, s) - |got|
  {
    PacketsSame(s.lanes, Append(s, i, got).lanes);
    WorkSet(cfg, s.lanes, i, Append(s, i, got).lanes[i]);
  }

  /** Work does not depend on what is claimed of the run. */
  lemma {:induction false} LooseWork(cfg: Config, cfg': Config, ls: seq<LaneV>)
    requires cfg'.maxSeq == cfg.maxSeq
    ensures Work(cfg', ls) == Work(cfg, ls)
    decreases |ls|
  {
    if ls != [] { LooseWork(cfg, cfg', ls[..|ls| - 1]); }
  }

  lemma LooseLoad(cfg: Config, cfg': Config, s: State)
    requires cfg'.maxSeq == cfg.maxSeq
    ensures Load(cfg', s) == Load(cfg, s)
  {
    LooseWork(cfg, cfg', s.lanes); LooseWork(cfg, cfg', s.parked);
  }
}
