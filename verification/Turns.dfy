// What the rounds of a run did, one after the other: which answers are still those of a fresh
// computation, and up to which round.
module Turns {
  import opened Basics
  import opened Kv
  import opened Stops
  import opened Sched
  import opened Steps
  import opened Decodes
  import opened Outputs
  import opened Rounds
  import opened HostCopies

  /** A round: the state after preparation, the decoding steps, the copies then pending, and the answers. */
  datatype Turn = Turn(s: State, n: nat, copies: seq<Copy>, outs: seq<Answer>)

  ghost function OutsOf(ts: seq<Turn>): seq<Answer> {
    if ts == [] then [] else OutsOf(ts[..|ts| - 1]) + ts[|ts| - 1].outs
  }

  /** In none of these rounds a pending page was rewritten. */
  ghost predicate AllSpared(cfg: Config, ts: seq<Turn>) {
    forall t <- ts :: Spared(cfg, t.s, t.n, t.copies)
  }

  ghost predicate AllComplete(cfg: Config, outs: seq<Answer>) {
    forall a <- outs :: Complete(cfg, a.req, a.tokens)
  }

  /** The answers of each round are complete as long as every page was spared up to then. */
  ghost predicate CompleteSoFar(cfg: Config, ts: seq<Turn>) {
    forall i: nat {:trigger ts[i]} :: i < |ts| && AllSpared(cfg, ts[..i + 1]) ==> AllComplete(cfg, ts[i].outs)
  }

  lemma NoTurns(cfg: Config)
    ensures AllSpared(cfg, []) && CompleteSoFar(cfg, []) && OutsOf([]) == []
  {
  }

  /** Whether pages are spared has nothing to do with what is claimed of the run. */
  lemma SameSpared(cfg: Config, conf: Config, s: State, n: nat, copies: seq<Copy>)
    requires cfg.pageLen == conf.pageLen
    ensures Spared(cfg, s, n, copies) == Spared(conf, s, n, copies)
  {
    forall b: nat ensures Struck(cfg, s, n, b) == Struck(conf, s, n, b) {
      StruckToo(cfg, conf, s, n, b); StruckToo(conf, cfg, s, n, b);
    }
  }

  lemma StruckToo(cfg: Config, conf: Config, s: State, n: nat, b: nat)
    requires cfg.pageLen == conf.pageLen
    ensures Struck(cfg, s, n, b) ==> Struck(conf, s, n, b)
  {
    if Struck(cfg, s, n, b) {
      var i: nat, p: nat :|
        i < s.nactive <= |s.lanes| && Writes(cfg, s, n, i, p) && s.lanes[i].blocks[p / cfg.pageLen] == b;
      assert Writes(conf, s, n, i, p);
    }
  }

  lemma SameComplete(cfg: Config, conf: Config, outs: seq<Answer>)
    requires cfg == conf.(exact := cfg.exact)
    requires AllComplete(cfg, outs)
    ensures AllComplete(conf, outs)
  {
    forall a <- outs ensures Complete(conf, a.req, a.tokens) {
      assert Complete(cfg, a.req, a.tokens);
      assert forall toks :: Ended(conf, a.req, toks) == Ended(cfg, a.req, toks);
      forall k: nat | k < |a.tokens| ensures Sampled(conf, a.req, a.tokens, k) {
        assert Sampled(cfg, a.req, a.tokens, k);
        assert conf.Temp(a.req) == cfg.Temp(a.req) && conf.TopP(a.req) == cfg.TopP(a.req);
      }
    }
  }

  /** One more round. */
  lemma TurnsNext(conf: Config, was: Config, cfg: Config, ts: seq<Turn>, t: Turn, start: bool)
    requires was.exact == (start && AllSpared(conf, ts)) && cfg == conf.(exact := cfg.exact)
    requires cfg.exact == (was.exact && Spared(conf, t.s, t.n, t.copies)) && Proper(cfg, t.outs)
    requires start ==> CompleteSoFar(conf, ts)
    ensures cfg.exact == (start && AllSpared(conf, ts + [t]))
    ensures start ==> CompleteSoFar(conf, ts + [t])
    ensures OutsOf(ts + [t]) == OutsOf(ts) + t.outs
  {
    hide Spared, Complete, WellCut;
    var us := ts + [t];
    assert us[..|ts|] == ts;
    assert AllSpared(conf, us) <==> AllSpared(conf, ts) && Spared(conf, t.s, t.n, t.copies) by {
      assert forall x :: x in us <==> x in ts || x == t;
    }
    if start {
      forall i: nat | i < |us| && AllSpared(conf, us[..i + 1]) ensures AllComplete(conf, us[i].outs) {
        if i < |ts| {
          assert us[..i + 1] == ts[..i + 1] && us[i] == ts[i];
        } else {
          assert us[..i + 1] == us;
          SameComplete(cfg, conf, t.outs);
        }
      }
    }
  }
}
