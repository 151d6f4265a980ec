// What a yielded packet is: the shortest genuine answer that ends the generation.
// When the sampler is deterministic there is exactly one, so nothing else the
// generator does -- batching, eviction, paging, host caching -- can be seen in it.
module Outputs {
  import opened Basics
  import opened Kv
  import opened Stops
  import opened Sched
  import opened Steps

  predicate Ended(cfg: Config, r: Request, toks: seq<Token>) {
    Stopped(cfg.EndOf(r), toks) || |r.prompt| + |toks| >= cfg.maxSeq
  }

  /** The generation ends here and not before. */
  ghost predicate WellCut(cfg: Config, r: Request, toks: seq<Token>) {
    Ended(cfg, r, toks) && forall j :: 0 <= j < |toks| ==> !Ended(cfg, r, toks[..j])
  }

  ghost predicate Complete(cfg: Config, r: Request, toks: seq<Token>) {
    Genuine(cfg, r, toks) && WellCut(cfg, r, toks)
  }

  /** Some rule of `_ended_lanes` or `_has_stop_str` applies. */
  ghost predicate Due(cfg: Config, r: Request, toks: seq<Token>) {
    || (exists t <- toks :: t in cfg.stopTokens)
    || |r.prompt| + |toks| >= cfg.MaxLen(r)
    || (r.stopStr.Some? && Occurs(r.stopStr.value, Decode(cfg.text, toks)))
  }

  /** Cutting a due lane where `_trim_packet` cuts it gives a complete answer. */
  lemma TrimComplete(cfg: Config, r: Request, toks: seq<Token>, trim: nat)
    requires Honest(cfg, r, toks) && |r.prompt| + |toks| <= cfg.maxSeq && Due(cfg, r, toks) && trim <= |toks|
    requires forall j :: 0 <= j < trim ==> !Stopped(cfg.EndOf(r), toks[..j])
    requires trim < |toks| || Stopped(cfg.EndOf(r), toks) ==> Stopped(cfg.EndOf(r), toks[..trim])
    ensures WellCut(cfg, r, toks[..trim]) && (cfg.exact ==> Complete(cfg, r, toks[..trim]))
  {
    if cfg.exact { GenuinePrefix(cfg, r, toks, trim); }
    assert toks[..|toks|] == toks;
    if t :| t in toks && t in cfg.stopTokens {
      var k :| 0 <= k < |toks| && toks[k] == t;
      assert toks[..k + 1][k] == t;
      assert Stopped(cfg.EndOf(r), toks[..k + 1]);
    }
    forall j | 0 <= j < trim ensures !Ended(cfg, r, toks[..trim][..j]) {
      assert toks[..trim][..j] == toks[..j];
    }
  }

  ghost predicate Greedy(m: Model) {
    forall c: seq<Cell>, temp: int, topP: int, n: int, n': int :: m.pick(c, temp, topP, n) == m.pick(c, temp, topP, n')
  }

  lemma {:induction false} SamePrefix(cfg: Config, r: Request, a: seq<Token>, b: seq<Token>, n: nat)
    requires Greedy(cfg.m) && Genuine(cfg, r, a) && Genuine(cfg, r, b) && n <= |a| && n <= |b|
    ensures a[..n] == b[..n]
    decreases n
  {
    if n > 0 {
      SamePrefix(cfg, r, a, b, n - 1);
      assert Sampled(cfg, r, a, n - 1) && Sampled(cfg, r, b, n - 1);
      assert a[..n] == a[..n - 1] + [a[n - 1]] && b[..n] == b[..n - 1] + [b[n - 1]];
    }
  }

  /** A deterministic sampler leaves one complete answer to a packet. */
  lemma OneAnswer(cfg: Config, r: Request, a: seq<Token>, b: seq<Token>)
    requires Greedy(cfg.m) && Complete(cfg, r, a) && Complete(cfg, r, b)
    ensures a == b
  {
    var n := if |a| < |b| then |a| else |b|;
    SamePrefix(cfg, r, a, b, n);
    assert a[..|a|] == a && b[..|b|] == b;
  }
}
