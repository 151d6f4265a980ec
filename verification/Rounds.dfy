// One round of `_generate` on values: who ends, what is yielded, and how much work is left.
module Rounds {
  import opened Basics
  import opened Seqs
  import opened Kv
  import opened Stops
  import opened Sched
  import opened Steps
  import opened Counts
  import opened Evictions
  import opened Admissions
  import opened Decodes
  import opened Outputs

  /** A yielded packet: the request it answers and the answer. */
  datatype Answer = Answer(req: Request, tokens: seq<Token>)

  ghost function Answered(outs: seq<Answer>): multiset<Request> {
    multiset(seq(|outs|, i requires 0 <= i < |outs| => outs[i].req))
  }

  /** Only packets that fit are answered; every answer ends where it should and, in an exact run, is complete. */
  ghost predicate Proper(cfg: Config, outs: seq<Answer>) {
    && (forall a <- outs :: cfg.Fits(|a.req.prompt|) && WellCut(cfg, a.req, a.tokens))
    && (cfg.exact ==> forall a <- outs :: Complete(cfg, a.req, a.tokens))
  }

  lemma LooseProper(cfg: Config, outs: seq<Answer>)
    requires Proper(cfg, outs)
    ensures Proper(cfg.(exact := false), outs)
  {
    var loose := cfg.(exact := false);
    forall a | a in outs ensures loose.Fits(|a.req.prompt|) && WellCut(loose, a.req, a.tokens) {
      assert loose.EndOf(a.req) == cfg.EndOf(a.req);
      assert forall toks :: Ended(loose, a.req, toks) == Ended(cfg, a.req, toks);
    }
  }

  lemma AnsweredMore(outs: seq<Answer>, more: seq<Answer>)
    ensures Answered(outs + more) == Answered(outs) + Answered(more)
  {
    var f := (o: seq<Answer>) => seq(|o|, i requires 0 <= i < |o| => o[i].req);
    assert f(outs + more) == f(outs) + f(more);
  }

  lemma StillHeld(h: multiset<Request>, p: multiset<Request>, a: multiset<Request>, h': multiset<Request>,
      p': multiset<Request>, more: multiset<Request>)
    requires h + p == h' + p' + more
    ensures h' + p' + (a + more) == h + p + a
  {
  }

  lemma NothingProper(cfg: Config)
    ensures Proper(cfg, [])
  {
  }

  lemma ProperMeans(cfg: Config, outs: seq<Answer>)
    requires Proper(cfg, outs)
    ensures forall a <- outs :: cfg.Fits(|a.req.prompt|) && WellCut(cfg, a.req, a.tokens)
    ensures cfg.exact ==> forall a <- outs :: Complete(cfg, a.req, a.tokens)
  {
  }

  lemma ProperMore(was: Config, cfg: Config, outs: seq<Answer>, more: seq<Answer>)
    requires Proper(was, outs) && Proper(cfg, more) && cfg == was.(exact := cfg.exact) && (cfg.exact ==> was.exact)
    ensures Proper(cfg, outs + more)
  {
    if was.exact && !cfg.exact { LooseProper(was, outs); }
    assert Proper(cfg, outs);
  }

  /** Whoever is held was read from the queue. */
  lemma HeldLight(conf: Config, s: State, all: seq<Request>, rest: seq<Request>, outs: seq<Answer>)
    requires Held(s) + multiset(rest) + Answered(outs) == multiset(all)
    ensures (forall r <- all :: conf.Light(r)) ==> AllLight(conf, s.lanes)
  {
    forall l | l in s.lanes ensures l.req in all {
      var i :| 0 <= i < |s.lanes| && s.lanes[i] == l;
      assert Packets(s.lanes)[i] == l.req;
      assert l.req in multiset(Packets(s.lanes));
      assert l.req in Held(s) + multiset(rest) + Answered(outs);
      assert l.req in multiset(all);
    }
  }

  /** When every packet fits, so does whatever waits. */
  lemma HeldFits(cfg: Config, conf: Config, s: State, all: seq<Request>, rest: seq<Request>, outs: seq<Answer>)
    requires AtRest(cfg, s) && Held(s) + multiset(rest) + Answered(outs) == multiset(all)
    requires conf.maxSeq == cfg.maxSeq && forall r <- all :: conf.Fits(|r.prompt|)
    ensures !Blocked(conf, s)
  {
    if s.parked != [] {
      var l := s.parked[0];
      assert l in s.parked && Parked(cfg, l);
      assert Packets(s.parked)[0] == l.req;
      assert l.req in multiset(Packets(s.parked));
      assert l.req in Held(s) + multiset(rest) + Answered(outs);
      assert l.req in multiset(all);
      if l.tokens == [] { assert All(l) == l.req.prompt; }
    }
  }

  /** A packet that is too long is not answered, so it is still to come or held. */
  lemma LongStays(cfg: Config, outs: seq<Answer>, all: seq<Request>, held: multiset<Request>, rest: seq<Request>,
      long: Request)
    requires Proper(cfg, outs) && long in all && !cfg.Fits(|long.prompt|)
    requires held + multiset(rest) + Answered(outs) == multiset(all)
    ensures long !in Answered(outs) && (long in held || long in rest)
  {
    AnsweredIn(outs, long);
    assert long in multiset(all);
  }

  lemma AnsweredIn(outs: seq<Answer>, r: Request)
    ensures r in Answered(outs) ==> exists a <- outs :: a.req == r
  {
    var reqs := seq(|outs|, i requires 0 <= i < |outs| => outs[i].req);
    if r in Answered(outs) {
      var i :| 0 <= i < |reqs| && reqs[i] == r;
      assert outs[i] in outs;
    }
  }

  lemma AnsweredOne(a: Answer)
    ensures Answered([a]) == multiset{a.req}
  {
    assert seq(1, i requires 0 <= i < |[a]| => [a][i].req) == [a.req];
  }

  /** `_ended_lanes`: a stop token among the new ones, or the length limit. */
  predicate EndsNow(cfg: Config, r: Request, toks: seq<Token>, got: seq<Token>) {
    (exists t <- got :: t in cfg.stopTokens) || |r.prompt| + |toks + got| >= cfg.MaxLen(r)
  }

  /** For a settled lane, the two tests on the new tokens are the test on everything. */
  lemma DueNow(cfg: Config, r: Request, toks: seq<Token>, got: seq<Token>)
    requires Settled(cfg, r, toks)
    ensures Due(cfg, r, toks + got) <==>
      EndsNow(cfg, r, toks, got) || (r.stopStr.Some? && Occurs(r.stopStr.value, Decode(cfg.text, toks + got)))
  {
  }

  lemma NotDueSettles(cfg: Config, r: Request, toks: seq<Token>)
    requires !Due(cfg, r, toks)
    ensures Settled(cfg, r, toks)
  {
  }

  /** What an active lane brings to the end of a round. */
  lemma LaneAtEnd(cfg: Config, s: State, pend: seq<seq<Token>>, i: nat)
    requires cfg.Valid() && Ok(cfg, s, pend) && i < s.nactive
    ensures i < |pend| && i < |s.lanes|
    ensures var l := s.lanes[i];
      && cfg.EndOf(l.req).Valid() && Settled(cfg, l.req, l.tokens)
      && Honest(cfg, l.req, l.tokens + pend[i]) && |l.req.prompt| + |l.tokens + pend[i]| <= cfg.maxSeq
      && l.tokens + pend[i] != []
      && |All(l) + pend[i]| <= cfg.maxSeq && cfg.Fits(|l.req.prompt|)
  {
    assert LiveAt(cfg, s, pend, i);
    BlocksBelow(s.free, s.lanes, cfg.nblocks, i);
    MulMono(|s.lanes[i].blocks|, cfg.nblocks, cfg.pageLen);
  }

  /** The window of stop tokens that `_trim_packet` looks at is wide enough. */
  lemma OldTokensPass(cfg: Config, r: Request, toks: seq<Token>, got: seq<Token>)
    requires Settled(cfg, r, toks) && |got| <= cfg.syncFreq
    ensures forall j :: 0 <= j < |toks + got| - cfg.syncFreq - 1 ==> (toks + got)[j] !in cfg.stopTokens
  {
    forall j | 0 <= j < |toks + got| - cfg.syncFreq - 1 ensures (toks + got)[j] !in cfg.stopTokens {
      assert (toks + got)[j] == toks[j] && toks[j] in toks;
    }
  }

  /** A lane goes on with its new tokens. */
  lemma LaneGoesOn(cfg: Config, s: State, pend: seq<seq<Token>>, i: nat)
    requires cfg.Valid() && Ok(cfg, s, pend) && i < s.nactive && pend[i] != []
      && !Due(cfg, s.lanes[i].req, s.lanes[i].tokens + pend[i])
    ensures var s' := Append(s, i, pend[i]);
      Ok(cfg, s', pend[i := []]) && Held(s') == Held(s) && Load(cfg, s') < Load(cfg, s)
  {
    LaneAtEnd(cfg, s, pend, i);
    NotDueSettles(cfg, s.lanes[i].req, s.lanes[i].tokens + pend[i]);
    AppendOk(cfg, s, pend, i);
    AppendHeld(cfg, s, i, pend[i]);
  }

  /** A lane ends; its tokens no longer matter. */
  lemma LaneEnds(cfg: Config, s: State, pend: seq<seq<Token>>, i: nat, s1: State)
    requires cfg.Valid() && Ok(cfg, s, pend) && i < s.nactive == |s.lanes|
    requires |s1.lanes| == |s.lanes| && s1 == s.(lanes := s.lanes[i := s1.lanes[i]])
      && s1.lanes[i].blocks == s.lanes[i].blocks
    ensures s1.nactive <= |s1.dev| && Kill(s1, i, false) == Kill(s, i, false)
    ensures var s' := Kill(s1, i, false);
      Ok(cfg, s', Drop(pend, i)) && Held(s) == Held(s') + multiset{s.lanes[i].req} && Load(cfg, s') < Load(cfg, s)
  {
    LaneAtEnd(cfg, s, pend, i);
    KillOk(cfg, s, pend, i, false);
    KillHeld(cfg, s, i, false);
    assert Drop(s1.lanes, i) == Drop(s.lanes, i);
  }

  /** What finishing lane i does: it keeps its tokens, or it is yielded and dies. */
  ghost predicate Ended1(cfg: Config, s: State, s': State, pend: seq<seq<Token>>, i: nat, out: seq<Answer>) {
    && i < s.nactive == |s.lanes| == |pend| && s.nactive <= |s.dev| && |out| <= 1
    && s' == (if out == [] then Steps.Append(s, i, pend[i]) else Kill(s, i, false))
    && Ok(cfg, s', if out == [] then pend[i := []] else Drop(pend, i))
    && Held(s) == Held(s') + Answered(out) && Load(cfg, s') < Load(cfg, s)
    && Proper(cfg, out)
  }

  lemma WentOn(cfg: Config, s: State, pend: seq<seq<Token>>, i: nat)
    requires cfg.Valid() && Ok(cfg, s, pend) && i < s.nactive == |s.lanes|
    requires pend[i] != [] && !Due(cfg, s.lanes[i].req, s.lanes[i].tokens + pend[i])
    ensures Ended1(cfg, s, Steps.Append(s, i, pend[i]), pend, i, [])
  {
    LaneGoesOn(cfg, s, pend, i);
    LanesFit(cfg, s, pend);
    var none: seq<Answer> := [];
    assert Answered(none) == multiset{};
  }

  lemma EndedWith(cfg: Config, s: State, pend: seq<seq<Token>>, i: nat, a: Answer)
    requires cfg.Valid() && Ok(cfg, s, pend) && i < s.nactive == |s.lanes| && Proper(cfg, [a])
      && a.req == s.lanes[i].req
    ensures s.nactive <= |s.dev| && Ended1(cfg, s, Kill(s, i, false), pend, i, [a])
  {
    LaneEnds(cfg, s, pend, i, s);
    LanesFit(cfg, s, pend);
    AnsweredOne(a);
  }

  // ---------- the pending tokens while lanes are finished from the last to the first ----------

  lemma PendClear(got: seq<seq<Token>>, i: nat, k: nat)
    requires i < |got|
    ensures (got[..i + 1] + Empties(k))[i := []] == got[..i] + Empties(k + 1)
  {
  }

  lemma PendDrop(got: seq<seq<Token>>, i: nat, k: nat)
    requires i < |got|
    ensures Drop(got[..i + 1] + Empties(k), i) == got[..i] + Empties(k)
  {
  }

  // ---------- the measure ----------

  /** The work of the lanes, that of the packets to come, and the sentinel. */
  ghost function Measure(cfg: Config, s: State, coming: nat, eoq: bool): nat {
    Load(cfg, s) + (cfg.maxSeq + 2) * coming + if eoq then 0 else 1
  }

  lemma MeasureAdd(cfg: Config, s0: State, s: State, took: seq<Request>, coming: nat)
    requires Load(cfg, s) <= Load(cfg, s0) + (cfg.maxSeq + 1) * |took|
    ensures Load(cfg, s) + (cfg.maxSeq + 2) * coming <= Load(cfg, s0) + (cfg.maxSeq + 2) * (|took| + coming)
  {
    assert (cfg.maxSeq + 2) * (|took| + coming) == (cfg.maxSeq + 1) * |took| + |took| + (cfg.maxSeq + 2) * coming;
  }

  /** Lanes from i on are finished; the others are as they were. */
  ghost predicate Finishing(cfg: Config, s0: State, s: State, got: seq<seq<Token>>, i: nat, outs: seq<Answer>) {
    && i <= |got| && i <= s.nactive == |s.lanes| && i <= |s0.lanes| && s.lanes[..i] == s0.lanes[..i]
    && Ok(cfg, s, got[..i] + Empties(s.nactive - i))
    && Held(s0) == Held(s) + Answered(outs) && Load(cfg, s) + |got| - i <= Load(cfg, s0)
    && Proper(cfg, outs) && s.parked == s0.parked
  }

  lemma StartFinishing(cfg: Config, s: State, got: seq<seq<Token>>)
    requires Ok(cfg, s, got) && s.nactive == |s.lanes|
    ensures |got| == s.nactive && Finishing(cfg, s, s, got, s.nactive, [])
  {
    assert got[..s.nactive] + Empties(0) == got;
    var none: seq<Answer> := [];
    assert Answered(none) == multiset{};
  }

  lemma FinishingLane(cfg: Config, s0: State, s: State, got: seq<seq<Token>>, i: nat, outs: seq<Answer>)
    requires Finishing(cfg, s0, s, got, i + 1, outs)
    ensures i < |got| && i < s.nactive == |s.lanes| && i < |s0.lanes| && s.lanes[i] == s0.lanes[i]
    ensures Ok(cfg, s, got[..i + 1] + Empties(s.nactive - i - 1))
      && (got[..i + 1] + Empties(s.nactive - i - 1))[i] == got[i]
  {
    assert s.lanes[..i + 1][i] == s0.lanes[..i + 1][i];
  }

  lemma LanesBelow(ls0: seq<LaneV>, ls: seq<LaneV>, ls': seq<LaneV>, i: nat)
    requires i < |ls0| && i < |ls| && ls[..i + 1] == ls0[..i + 1]
    requires i <= |ls'| && ls'[..i] == ls[..i]
    ensures ls'[..i] == ls0[..i]
  {
    assert ls[..i + 1][..i] == ls[..i];
  }

  lemma Regrouped<T>(a: multiset<T>, b: multiset<T>, c: multiset<T>, x: multiset<T>, y: multiset<T>)
    requires a == b + x && b == c + y
    ensures a == c + (x + y)
  {
  }

  lemma EndedState(cfg: Config, s: State, s': State, pend: seq<seq<Token>>, i: nat, out: seq<Answer>)
    requires Ended1(cfg, s, s', pend, i, out)
    ensures out == [] ==> s' == Steps.Append(s, i, pend[i])
  {
  }

  /** How many lanes remain after lane i is finished. */
  lemma Remaining(cfg: Config, s: State, s': State, pend: seq<seq<Token>>, i: nat, out: seq<Answer>)
    requires Ended1(cfg, s, s', pend, i, out)
    ensures s'.nactive == if out == [] then s.nactive else s.nactive - 1
    ensures |s'.lanes| == s'.nactive
  {
  }

  lemma FinishingNext(cfg: Config, s0: State, s: State, s': State, got: seq<seq<Token>>, i: nat, outs: seq<Answer>,
      out: seq<Answer>)
    requires Finishing(cfg, s0, s, got, i + 1, outs)
      && Ended1(cfg, s, s', got[..i + 1] + Empties(s.nactive - i - 1), i, out)
    ensures Finishing(cfg, s0, s', got, i, outs + out)
  {
    PendClear(got, i, s.nactive - i - 1); PendDrop(got, i, s.nactive - i - 1);
    AnsweredMore(outs, out);
    hide Ok, Complete, Held, Load, Answered;
    LanesBelow(s0.lanes, s.lanes, s'.lanes, i);
    Regrouped(Held(s0), Held(s), Held(s'), Answered(outs), Answered(out));
  }

  lemma FinishingOne(cfg: Config, s0: State, s: State, s': State, got: seq<seq<Token>>, i: nat, outs: seq<Answer>,
      out: seq<Answer>,
      pend: seq<seq<Token>>)
    requires Finishing(cfg, s0, s, got, i + 1, outs) && pend == got[..i + 1] + Empties(s.nactive - (i + 1))
    requires Ended1(cfg, s, s', pend, i, out)
    ensures Finishing(cfg, s0, s', got, i, outs + out)
  {
    hide Finishing, Ended1;
    FinishingNext(cfg, s0, s, s', got, i, outs, out);
  }

  lemma EndFinishing(cfg: Config, s0: State, s: State, got: seq<seq<Token>>, outs: seq<Answer>)
    requires Finishing(cfg, s0, s, got, 0, outs)
    ensures AtRest(cfg, s) && Held(s0) == Held(s) + Answered(outs) && Load(cfg, s) + |got| <= Load(cfg, s0)
      && Proper(cfg, outs) && s.parked == s0.parked
  {
    assert got[..0] + Empties(s.nactive) == Empties(s.nactive);
  }

  /** The device's lengths and limits are the lane's. */
  lemma LengthsAreRight(cfg: Config, s: State, pend: seq<seq<Token>>, i: nat)
    requires Ok(cfg, s, pend) && i < s.nactive
    ensures i < |pend| && i < |s.dev| && i < |s.lanes|
    ensures var l := s.lanes[i];
      s.dev[i].seqlen == |l.req.prompt| + |l.tokens + pend[i]| && s.dev[i].maxlen == cfg.MaxLen(l.req)
  {
    assert LiveAt(cfg, s, pend, i);
  }

  // ---------- a whole round ----------

  /** Preparing and decoding lose no packet and add no work; parked lanes stay parked. */
  ghost predicate Prepared1(cfg: Config, s0: State, s: State) {
    && Held(s) == Held(s0) && Load(cfg, s) == Load(cfg, s0)
    && s0.parked <= s.parked && (s0.nactive > 0 ==> s.nactive > 0)
  }

  lemma Prepares(cfg: Config, conf: Config, s0: State, s1: State, s2: State)
    requires Steady(cfg, s0, s1) && s2 == s1.(dev := s2.dev, cells := s2.cells) && conf.maxSeq == cfg.maxSeq
    ensures Prepared1(conf, s0, s2)
  {
    LooseLoad(cfg, conf, s0); LooseLoad(cfg, conf, s1);
    hide Load, Held, Handed, Kept, AllLight, Outlived;
    SameLoad(conf, s1, s2);
  }

  lemma SameLoad(cfg: Config, s1: State, s2: State)
    requires s2.lanes == s1.lanes && s2.parked == s1.parked
    ensures Load(cfg, s2) == Load(cfg, s1) && Held(s2) == Held(s1)
  {
  }

  lemma AddingFacts(cfg: Config, s0: State, s: State, pend: seq<seq<Token>>, took: seq<Request>)
    requires Adding(cfg, s0, s, pend, took)
    ensures Ok(cfg, s, pend) && s.nactive == s0.nactive <= |s.lanes| && s.lanes[..s.nactive] == s0.lanes
      && Fifo(s0, s, took)
  {
  }

  /** Admitting and prefilling add exactly the packets read. */
  ghost predicate Joined(s0: State, s: State, took: seq<Request>) {
    s0.nactive <= |s.lanes| && s.lanes[..s0.nactive] == s0.lanes && Fifo(s0, s.(nactive := s0.nactive), took)
  }

  lemma JoinedBy(s0: State, s1: State, s: State, took: seq<Request>)
    requires s1.nactive == s0.nactive <= |s1.lanes| && s1.lanes[..s1.nactive] == s0.lanes && Fifo(s0, s1, took)
    requires s.lanes == s1.lanes && s.parked == s1.parked
    ensures Joined(s0, s, took)
  {
  }

  /** Only when nobody was waiting can admission leave nobody. */
  lemma NobodyLeft(s0: State, s: State, took: seq<Request>)
    requires Joined(s0, s, took) && s.lanes == [] && s.parked == []
    ensures s0.parked == [] && s0.nactive == 0
  {
    assert |Strips(s.lanes[s0.nactive..]) + s.parked| == |s0.parked + FreshLanes(took)|;
  }

  /** Nothing is lost in a round, and it makes progress. */
  lemma RoundCounts(cfg: Config, s0: State, s2: State, s4: State, s5: State, packets: seq<Request>, took: seq<Request>,
      rest: seq<Request>,
      outs: seq<Answer>, n: nat, eoq: bool, eoq': bool)
    requires Prepared1(cfg, s0, s2) && Joined(s2, s4, took) && took + rest == packets
    requires Held(s4) == Held(s5) + Answered(outs) && Load(cfg, s5) + n <= Load(cfg, s4)
    requires eoq ==> eoq'
    ensures Held(s0) + multiset(packets) == Held(s5) + multiset(rest) + Answered(outs)
    ensures n > 0 || (eoq' && !eoq) ==> Measure(cfg, s5, |rest|, eoq') < Measure(cfg, s0, |packets|, eoq)
  {
    hide Held, Load, Joined, Answered;
    JoinedCounts(cfg, s2, s4, took);
    MeasureAdd(cfg, s2, s4, took, |rest|);
    assert multiset(packets) == multiset(took) + multiset(rest);
    Balance(Held(s0), multiset(took), multiset(rest), Held(s5), Answered(outs));
  }

  lemma Balance<T>(h0: multiset<T>, t: multiset<T>, r: multiset<T>, h5: multiset<T>, a: multiset<T>)
    requires h0 + t == h5 + a
    ensures h0 + (t + r) == h5 + r + a
  {
    assert h0 + (t + r) == (h0 + t) + r;
    assert h5 + r + a == (h5 + a) + r;
  }

  lemma JoinedCounts(cfg: Config, s2: State, s4: State, took: seq<Request>)
    requires Joined(s2, s4, took)
    ensures Held(s4) == Held(s2) + multiset(took) && Load(cfg, s4) <= Load(cfg, s2) + (cfg.maxSeq + 1) * |took|
  {
    var s3 := s4.(nactive := s2.nactive);
    AddedHeld(cfg, s2, s3, took); AddedWork(cfg, s2, s3, took);
    assert Held(s4) == Held(s3) && Load(cfg, s4) == Load(cfg, s3);
  }

  /**
   * A round makes progress, or a parked lane that is too long is in the way. Behind such a lane
   * nobody is admitted and nothing is read, and it stays where it is.
   */
  ghost predicate GoesOn(cfg: Config, s: State, packets: seq<Request>, eoq: bool, s': State, packets': seq<Request>,
      eoq': bool)
  {
    && (Measure(cfg, s', |packets'|, eoq') < Measure(cfg, s, |packets|, eoq) || Blocked(cfg, s'))
    && (Blocked(cfg, s) ==> packets' == packets && eoq' == eoq && s.parked <= s'.parked && Blocked(cfg, s'))
  }

  lemma RoundGoesOn(cfg: Config, conf: Config, s0: State, s2: State, s4: State, s5: State, packets: seq<Request>,
      took: seq<Request>, rest: seq<Request>, outs: seq<Answer>, eoq: bool, eoq': bool)
    requires Prepared1(conf, s0, s2) && Joined(s2, s4, took) && took + rest == packets && conf.maxSeq == cfg.maxSeq
    requires Held(s4) == Held(s5) + Answered(outs) && Load(cfg, s5) + s4.nactive <= Load(cfg, s4)
    requires (eoq ==> eoq') && (!eoq || s0.parked != [] || s0.nactive > 0)
    requires s4.nactive == |s4.lanes| && s5.parked == s4.parked
    requires s4.nactive == 0 ==> (eoq' && s4.parked == []) || Blocked(cfg, s4)
    requires Blocked(cfg, s2) ==> s4.parked == s2.parked && took == [] && eoq' == eoq
    ensures Held(s0) + multiset(packets) == Held(s5) + multiset(rest) + Answered(outs)
    ensures GoesOn(conf, s0, packets, eoq, s5, rest, eoq')
  {
    hide Held, Load, Answered, Measure;
    LooseCounts(cfg, conf, s0, s2, s4, s5, packets, took, rest, outs, s4.nactive, eoq, eoq');
    if s4.nactive == 0 && !Blocked(cfg, s4) { NobodyLeft(s2, s4, took); }
    if Blocked(conf, s0) { assert s2.parked[0] == s0.parked[0]; }
  }

  /** The same, with the last part of the round measured as the specification's settings say. */
  lemma LooseCounts(cfg: Config, conf: Config, s0: State, s2: State, s4: State, s5: State, packets: seq<Request>,
      took: seq<Request>,
      rest: seq<Request>, outs: seq<Answer>, n: nat, eoq: bool, eoq': bool)
    requires Prepared1(conf, s0, s2) && Joined(s2, s4, took) && took + rest == packets && conf.maxSeq == cfg.maxSeq
    requires Held(s4) == Held(s5) + Answered(outs) && Load(cfg, s5) + n <= Load(cfg, s4)
    requires eoq ==> eoq'
    ensures Held(s0) + multiset(packets) == Held(s5) + multiset(rest) + Answered(outs)
    ensures n > 0 || (eoq' && !eoq) ==> Measure(conf, s5, |rest|, eoq') < Measure(conf, s0, |packets|, eoq)
  {
    LooseLoad(cfg, conf, s4); LooseLoad(cfg, conf, s5);
    hide Load, Held, Prepared1, Joined, Answered;
    RoundCounts(conf, s0, s2, s4, s5, packets, took, rest, outs, n, eoq, eoq');
  }
}
