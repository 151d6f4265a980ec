// A run from an empty generator in which a copy to the host comes too late and an answer is
// wrong: four blocks of 256 positions, 200 steps between syncs, a packet of 384 tokens and one
// of 256. In the second round the short lane is evicted and its first block, which the copy has
// not yet read, goes to the long one; in the third the short lane is resumed from the page that
// the copy then saved.
module LateRuns {
  import opened Basics
  import opened Seqs
  import opened Kv
  import opened Pages
  import opened Stops
  import opened Sched
  import opened Steps
  import opened Evictions
  import opened Admissions
  import opened Decodes
  import opened Prefills
  import opened HostCopies
  import opened Outputs
  import opened Rounds

  /** A model whose cells count positions, and a sampler that returns the first cell it is given. */
  function Counting(): Model {
    Model((c: seq<Cell>, t: Token) => |c|,
          (c: seq<Cell>, temp: int, topP: int, noise: int) => if c == [] then 0 else c[0])
  }

  function Settings(): Config {
    Config(Counting(), 256, 4, 1024, 2, 200, 1024, 0, 0, None, 0, 0, [], _ => "x", true)
  }

  function Long(): Request { Request(0, seq(384, _ => 1), None, None, Some(201), None) }

  function Short(): Request { Request(1, Zeros(256), None, None, Some(2), None) }

  lemma SettingsValid()
    ensures Settings().Valid() && Settings().exact
    ensures Settings().MaxLen(Long()) == 585 && Settings().MaxLen(Short()) == 258
    ensures Settings().MostBlocks(Long()) == 4 && Settings().MostBlocks(Short()) == 2
  {
  }

  lemma CountingCells(toks: seq<Token>, p: nat)
    requires p < |toks|
    ensures Cells(Counting(), toks)[p] == p
  {
    CellAt(Counting(), toks, p);
  }

  lemma DrawsZero(toks: seq<Token>)
    requires toks != []
    ensures Counting().pick(Cells(Counting(), toks), 0, 0, 0) == 0
  {
    CountingCells(toks, 0);
  }

  // ---------- the first round: both packets are admitted and prefilled ----------

  /** As the constructor leaves it. */
  function Empty(): State {
    State([], 0, [], {0, 1, 2, 3}, seq(2, _ => Entry(0, 0, 0, 0, 0, Zeros(4))), Zeros(1024))
  }

  /** Both packets with the least blocks that are free. */
  ghost function Asked(): State {
    Admit(Admit(Empty(), LaneV(Long(), [], [0, 1]), {2, 3}), LaneV(Short(), [], [2, 3]), {})
  }

  lemma FreshAdmitted(r: Request, blocks: seq<nat>)
    requires r == Long() || r == Short()
    requires |blocks| == 2
    ensures Admitted(Settings(), LaneV(r, [], blocks)) && AskOf(Settings(), |r.prompt|) == 2
  {
    SettingsValid();
    assert All(LaneV(r, [], blocks)) == r.prompt;
  }

  /** The packets ask for two blocks each, and get them. */
  lemma BothAdmitted()
    ensures AtRest(Settings(), Empty()) && Ok(Settings(), Asked(), [])
    ensures AskOf(Settings(), |Long().prompt|) == 2 == AskOf(Settings(), |Short().prompt|)
  {
    SettingsValid();
    NothingRests(Settings(), Empty());
    assert Empties(0) == [];
    FreshAdmitted(Long(), [0, 1]); FreshAdmitted(Short(), [2, 3]);
    assert ToSet([0, 1]) == {0, 1} && ToSet([2, 3]) == {2, 3};
    assert {0, 1, 2, 3} == ToSet([0, 1]) + {2, 3};
    hide Ok, Admitted;
    AdmitOk(Settings(), Empty(), [], LaneV(Long(), [], [0, 1]), {2, 3});
    AdmitOk(Settings(), Admit(Empty(), LaneV(Long(), [], [0, 1]), {2, 3}), [], LaneV(Short(), [], [2, 3]), {});
  }

  /** The calls of the model write an admitted lane's cells one after the other. */
  lemma LoadLane(cfg: Config, s0: State, s: State, pend: seq<seq<Token>>, fill: seq<nat>, j: nat)
      returns (s': State, fill': seq<nat>)
    requires Loading(cfg, s0, s, pend, fill) && j < |fill| && s.nactive + j < |s.lanes|
      && fill[j] <= |All(s.lanes[s.nactive + j])|
    ensures Loading(cfg, s0, s', pend, fill') && fill' == fill[j := |All(s.lanes[s.nactive + j])|]
    decreases |All(s.lanes[s.nactive + j])| - fill[j]
  {
    LoadingSize(cfg, s0, s, pend, fill);
    if fill[j] == |All(s.lanes[s.nactive + j])| {
      s', fill' := s, fill;
    } else {
      LoadNext(cfg, s0, s, pend, fill, j);
      var l, p, pl := s.lanes[s.nactive + j], fill[j], cfg.pageLen;
      hide Loading;
      s', fill' := LoadLane(cfg, s0,
        s.(cells := s.cells[Slot(l.blocks, p, pl) := cfg.m.kv(ReadRow(s.cells, l.blocks, p, pl), All(l)[p])]), pend,
        fill[j := p + 1], j);
    }
  }

  /** Both lanes with their table rows. */
  ghost function Tabled(): State {
    BothAdmitted();
    Route(Route(Asked(), 0), 1)
  }

  lemma TabledOk()
    ensures Ok(Settings(), Tabled(), []) && RowsSet(Tabled()) && Tabled().nactive == 0
    ensures Tabled().lanes == [LaneV(Long(), [], [0, 1]), LaneV(Short(), [], [2, 3])]
    ensures Tabled().parked == [] && Tabled().free == {}
  {
    BothAdmitted();
    RouteOk(Settings(), Asked(), [], 0);
    RouteOk(Settings(), Route(Asked(), 0), [], 1);
  }

  /** After the first round: both lanes have drawn a token, and nothing is free. */
  ghost predicate Begun(s: State) {
    && AtRest(Settings(), s) && s.nactive == 2 && s.parked == [] && s.free == {}
    && s.lanes == [LaneV(Long(), [0], [0, 1]), LaneV(Short(), [0], [2, 3])]
  }

  /** A loaded lane, its row filled in, may start with the token 0. */
  lemma StartsWithZero(s0: State, s: State, fill: seq<nat>, i: nat)
    requires Loading(Settings(), s0, s, [], fill) && s.nactive == 0 && i < |fill| && RowsSet(s)
    requires fill[i] == |All(s.lanes[i])| > 0 && s.lanes[i].req.temperature == s.lanes[i].req.topP == None
    ensures i < |s.dev| && Prefilled(Settings(), s, i, 0)
  {
    var l := s.lanes[i];
    LaneHolds(Settings(), s0, s, [], fill, i);
    DrawsZero(All(l));
    assert 0 == Counting().pick(Cells(Counting(), All(l)), Settings().Temp(l.req), Settings().TopP(l.req), 0);
  }

  /** Both lanes loaded and started; their first tokens are 0. */
  lemma BothStart() returns (s: State)
    ensures s.nactive == 2 && s.lanes == [LaneV(Long(), [], [0, 1]), LaneV(Short(), [], [2, 3])]
    ensures s.parked == [] && s.free == {} && Ok(Settings(), s, [[0], [0]])
  {
    hide Ok, Loading, RowsSet, Tabled, Asked, Activate;
    var cfg, s0 := Settings(), Tabled();
    SettingsValid(); TabledOk(); StartLoading(cfg, s0, []);
    assert All(s0.lanes[0]) == Long().prompt && All(s0.lanes[1]) == Short().prompt;
    var s1, fill := LoadLane(cfg, s0, s0, [], Zeros(2), 0);
    LoadingSize(cfg, s0, s1, [], fill);
    var s2;
    s2, fill := LoadLane(cfg, s0, s1, [], fill, 1);
    LoadingOk(s0, s2, fill);
    StartsWithZero(s0, s2, fill, 0); StartsWithZero(s0, s2, fill, 1);
    s := BothActive(s2);
  }

  lemma BothActive(s: State) returns (s': State)
    requires Ok(Settings(), s, []) && s.nactive == 0 && |s.lanes| == 2 <= |s.dev|
    requires Prefilled(Settings(), s, 0, 0) && Prefilled(Settings(), s, 1, 0)
    ensures Ok(Settings(), s', [[0], [0]]) && s' == s.(nactive := 2, dev := s'.dev)
  {
    hide Ok, Prefilled;
    forall i: nat | i < 2 ensures PrefilledAt(Settings(), s, [0, 0], i) { }
    ActivateOk(Settings(), s, [], [0, 0]);
    s' := Activate(Settings(), s, [0, 0]);
    assert [] + Singles([0, 0]) == [[0], [0]];
  }

  lemma LoadingOk(s0: State, s: State, fill: seq<nat>)
    requires Loading(Settings(), s0, s, [], fill) && RowsSet(s0)
    ensures Ok(Settings(), s, []) && s == s0.(cells := s.cells) && RowsSet(s)
  {
  }

  /** The first round; block 2 holds the page of the short packet, and its copy is pending. */
  lemma FirstRound() returns (s: State)
    ensures Begun(s)
    ensures PageIs(Counting(), s.cells, 2, Zeros(256), 256)
    ensures Moored(Settings(), s, Empties(2), 2, 256)
  {
    var cfg := Settings();
    SettingsValid();
    var s0 := BothStart();
    AppendOk(cfg, s0, [[0], [0]], 1);
    var s1 := Append(s0, 1, [0]);
    assert [[0], [0]][1 := []] == [[0], []];
    AppendOk(cfg, s1, [[0], []], 0);
    s := Append(s1, 0, [0]);
    assert [[0], []][0 := []] == Empties(2);
    assert [] + [0] == [0];
    assert s.lanes == [LaneV(Long(), [0], [0, 1]), LaneV(Short(), [0], [2, 3])];
    ShortPage(s);
  }

  lemma ShortPage(s: State)
    requires Begun(s)
    ensures PageIs(Counting(), s.cells, 2, Zeros(256), 256) && Moored(Settings(), s, Empties(2), 2, 256)
  {
    var cfg, l := Settings(), s.lanes[1];
    assert LiveAt(cfg, s, Empties(2), 1);
    assert All(l) + [] == All(l) && All(l)[..256] == Zeros(256);
    PageLeaves(Counting(), s.cells, l.blocks, All(l), 256, 0, 256);
    assert PageOf(cfg, s, Empties(2), 2, 256, 1, 0);
  }

  // ---------- the second round: the short lane is evicted, the long one decodes ----------

  /** The short lane is parked, and the least of its blocks goes to the long one. */
  ghost function Evicted(s: State): State
    requires Begun(s)
  {
    RestFacts(Settings(), s);
    Grow(Kill(s, 1, true), 0, 2)
  }

  /** Two lanes, nothing free: the second is evicted and the first grows by one of its blocks. */
  lemma EvictAndGrow(cfg: Config, s: State, b: nat)
    requires cfg.Valid() && AtRest(cfg, s) && s.nactive == 2 && s.free == {} && |s.lanes| == 2
    requires !HasRoom(cfg, s.lanes[0]) && |All(s.lanes[1])| <= |All(s.lanes[0])| && b in s.lanes[1].blocks
    ensures 2 <= |s.dev|
    ensures var s' := Kill(s, 1, true);
      && |s'.dev| > 0 && |s.lanes[0].blocks| < |s'.dev[0].row|
      && Steady(cfg, s, Grow(s', 0, b)) && AtRest(cfg, Grow(s', 0, b))
  {
    RestFacts(cfg, s);
    var s' := Kill(s, 1, true);
    assert b in s'.free && s'.lanes[0] == s.lanes[0] && s'.nactive == 1;
    hide AtRest, Steady, HasRoom, Kill;
    SteadySelf(cfg, s);
    SteadyKill(cfg, s, s, 1, 0);
    EvictRest(cfg, s, 1, 0);
    RestFacts(cfg, s');
    GrowPrepares(cfg, s', 0, b);
    SteadyGrow(cfg, s, s', 0, b);
  }

  /**
   * The preparation of the second round: the long lane is visited first and lacks room, nothing is
   * free, and the short lane comes last in the order.
   */
  lemma Evicts(s: State)
    requires Begun(s)
    ensures SortedLanes([|All(s.lanes[0])|, |All(s.lanes[1])|], [0, 1], 2) && !HasRoom(Settings(), s.lanes[0])
    ensures Kill(s, 1, true).free == {2, 3}
    ensures var s' := Evicted(s);
      && AtRest(Settings(), s') && Steady(Settings(), s, s') && s'.nactive == 1 && s'.free == {3}
      && s'.lanes == [LaneV(Long(), [0], [0, 1, 2])] && s'.parked == [LaneV(Short(), [0], [])]
      && HasRoom(Settings(), s'.lanes[0]) && Room(Settings(), s', 200)
  {
    SettingsValid();
    RestFacts(Settings(), s);
    assert |All(s.lanes[0])| == 385 && |All(s.lanes[1])| == 257;
    EvictAndGrow(Settings(), s, 2);
    assert ToSet([2, 3]) == {2, 3} && [0, 1] + [2] == [0, 1, 2];
    hide AtRest, Steady;
    assert Evicted(s).free == {3};
    assert Kill(s, 1, true).lanes == [s.lanes[0]];
    assert Evicted(s).lanes[0].blocks == [0, 1, 2];
  }

  /** A lane alone takes n steps; its draws are those of its cells. */
  lemma {:induction false} DecodesOn(cfg: Config, s: State, n: nat) returns (s': State, pend: seq<seq<Token>>)
    requires cfg.Valid() && AtRest(cfg, s) && s.nactive == 1 && Room(cfg, s, n)
    ensures Decoding(cfg, s, s', pend, n, 0)
  {
    if n == 0 {
      StartDecoding(cfg, s);
      s', pend := s, Empties(1);
    } else {
      var s1, pend1 := DecodesOn(cfg, s, n - 1);
      DecodedFacts(cfg, s, s1, pend1, n - 1);
      LanesFit(cfg, s1, pend1);
      var t := cfg.m.pick(Cells(cfg.m, All(s1.lanes[0]) + pend1[0]), s1.dev[0].temp, s1.dev[0].topP, 0);
      DecodedOne(cfg, s, s1, pend1, n - 1, 0, t, 0, n);
      s', pend := DecodeStep(cfg, s1, 0, t), pend1[0 := pend1[0] + [t]];
      NextRound(cfg, s, s', pend, n - 1);
    }
  }

  /** Whatever is decoded, the page the copy then reads starts with the cell of position 512. */
  lemma TooLate(s: State, s2: State, pend: seq<seq<Token>>)
    requires Begun(s) && Decoding(Settings(), Evicted(s), s2, pend, 200, 0)
    ensures Struck(Settings(), Evicted(s), 200, 2) && !PageIs(Counting(), s2.cells, 2, Zeros(256), 256)
    ensures |s2.cells| == 1024 && s2.cells[512] == 512
  {
    hide AtRest, Steady, Begun, Evicted, Decoding, Struck, PageIs, Moored;
    var cfg, s1 := Settings(), Evicted(s);
    SettingsValid(); BegunRests(s); Evicts(s); ShortPage(s);
    LongCell(s1, s2, pend); LongStrikes(s1);
    LateCopy(cfg, s, s1, s2, pend, 200, 2, Zeros(256));
  }

  lemma BegunRests(s: State)
    requires Begun(s)
    ensures AtRest(Settings(), s) && s.nactive == 2
  {
  }

  /** Its positions from 512 on are in block 2. */
  lemma LongStrikes(s1: State)
    requires s1.nactive == 1 && s1.lanes == [LaneV(Long(), [0], [0, 1, 2])]
    ensures Struck(Settings(), s1, 200, 2)
  {
    assert Writes(Settings(), s1, 200, 0, 512);
  }

  lemma LongCell(s1: State, s2: State, pend: seq<seq<Token>>)
    requires Decoding(Settings(), s1, s2, pend, 200, 0) && s1.nactive == 1
      && s1.lanes == [LaneV(Long(), [0], [0, 1, 2])]
    ensures |s2.cells| == 1024 && s2.cells[512] == 512
  {
    var l := s2.lanes[0];
    assert LiveAt(Settings(), s2, pend, 0);
    var full := All(l) + pend[0];
    assert |full| == 585;
    CountingCells(full[..584], 512);
    assert ReadRow(s2.cells, l.blocks, 584, 256)[512] == s2.cells[512];
  }

  // ---------- the third round: the short lane is resumed from the page that was saved ----------

  /** The state when the long lane has been yielded. */
  ghost function Yielded(s2: State): State
    requires s2.nactive == |s2.lanes| == 1 <= |s2.dev|
  {
    Kill(s2, 0, false)
  }

  /** What is drawn after the page was copied into block 0 and the cell of position 256 was written. */
  function Redrawn(cells: seq<Cell>): Token
    requires |cells| == 1024
  {
    var c := cells[512..768] + cells[256..];
    var m, blocks := Counting(), [0, 1];
    var c' := c[256 := m.kv(ReadRow(c, blocks, 256, 256), 0)];
    m.pick(ReadRow(c', blocks, 257, 256), 0, 0, 0)
  }

  /** In the second round the short lane must wait; in the third it is admitted and ends with its draw. */
  lemma Resumes(s: State, s2: State, pend: seq<seq<Token>>)
    requires Begun(s) && Decoding(Settings(), Evicted(s), s2, pend, 200, 0)
    ensures |pend| == 1 && EndsNow(Settings(), Long(), [0], pend[0])
    ensures s2.nactive == |s2.lanes| == 1 <= |s2.dev|
    ensures var ask := AskOf(Settings(), |All(Yielded(s2).parked[0])|);
      |s2.free| < ask && ask <= |Yielded(s2).free| && Yielded(s2).free == {0, 1, 2, 3}
    ensures Yielded(s2).parked == [LaneV(Short(), [0], [])] && Yielded(s2).lanes == []
  {
    hide AtRest, Steady, Begun, Evicted, Decoding, Ok, Kill, EndsNow;
    SettingsValid(); Evicts(s);
    DecodedFacts(Settings(), Evicted(s), s2, pend, 200);
    LanesFit(Settings(), s2, pend);
    LongEnds(pend[0]); KillLong(s2);
  }

  lemma LongEnds(got: seq<Token>)
    requires |got| == 200
    ensures EndsNow(Settings(), Long(), [0], got)
  {
  }

  /** All blocks are free again, and the short lane asks for two. */
  lemma KillLong(s2: State)
    requires s2.nactive == 1 <= |s2.dev| && s2.lanes == [LaneV(Long(), [0], [0, 1, 2])] && s2.free == {3}
    ensures Kill(s2, 0, false).free == {0, 1, 2, 3} && Kill(s2, 0, false).lanes == []
      && Kill(s2, 0, false).parked == s2.parked
    ensures AskOf(Settings(), |All(LaneV(Short(), [0], []))|) == 2
  {
    assert ToSet([0, 1, 2]) == {0, 1, 2};
    assert {0, 1, 2} + {3} == {0, 1, 2, 3};
  }

  /** The token drawn is not that of a fresh computation, and the answer that it ends is wrong. */
  lemma WrongAnswer(s: State, s2: State, pend: seq<seq<Token>>)
    requires Begun(s) && Decoding(Settings(), Evicted(s), s2, pend, 200, 0)
    ensures |s2.cells| == 1024 && Redrawn(s2.cells) == 512
    ensures WellCut(Settings(), Short(), [0, 512]) && !Genuine(Settings(), Short(), [0, 512])
    ensures forall toks :: Complete(Settings(), Short(), toks) <==> toks == [0, 0]
  {
    TooLate(s, s2, pend);
    ShortAnswers();
  }

  /** The short packet ends after two tokens, and genuine tokens are 0. */
  lemma ShortAnswers()
    ensures WellCut(Settings(), Short(), [0, 512]) && !Genuine(Settings(), Short(), [0, 512])
    ensures forall toks :: Complete(Settings(), Short(), toks) <==> toks == [0, 0]
  {
    ShortEnds([0, 512]); ShortEnds([0, 0]);
    ShortGenuine([0, 512], 1); ShortGenuine([0, 0], 0); ShortGenuine([0, 0], 1);
    forall toks | Complete(Settings(), Short(), toks) ensures toks == [0, 0] {
      OneAnswer(Settings(), Short(), toks, [0, 0]);
    }
  }

  lemma ShortEnds(toks: seq<Token>)
    requires |toks| == 2
    ensures WellCut(Settings(), Short(), toks)
  {
  }

  lemma ShortGenuine(toks: seq<Token>, k: nat)
    requires k < |toks|
    ensures Sampled(Settings(), Short(), toks, k) <==> toks[k] == 0
  {
    var ctx := Short().prompt + toks[..k];
    DrawsZero(ctx);
    assert 0 == Counting().pick(Cells(Counting(), ctx), Settings().Temp(Short()), Settings().TopP(Short()), 0);
  }

  /** The run: from the empty generator to an answer that no fresh computation gives. */
  lemma LateRun() returns (s: State, s2: State, pend: seq<seq<Token>>)
    ensures AtRest(Settings(), Empty()) && Begun(s) && Decoding(Settings(), Evicted(s), s2, pend, 200, 0)
    ensures |s2.cells| == 1024 && !Complete(Settings(), Short(), [0, Redrawn(s2.cells)])
  {
    BothAdmitted(); SettingsValid();
    s := FirstRound();
    Evicts(s);
    hide Begun, Evicted, AtRest, Steady;
    s2, pend := DecodesOn(Settings(), Evicted(s), 200);
    WrongAnswer(s, s2, pend);
  }
}
