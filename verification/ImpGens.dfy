// ImpGen: several ranks drive their own FastGen in lockstep. Packets are broadcast over a queue
// that shows every rank the same order; rank 0 broadcasts, in a second queue, whether there is
// one more packet to take, and every rank follows these flags. Threads on any rank issue
// requests meanwhile. A run is any sequence of steps of threads, ranks and queues.
module ImpGens {
  import opened Basics
  import opened Seqs

  datatype Item = Task(tid: nat) | Stop

  /** What `next` on the generator returns: nothing yet, an answered packet, or its end. */
  datatype Yield = Handover | Packet(tid: nat) | Exhausted

  /** What happens to a rank's generator: it is fed, and it runs. */
  datatype Turn = Fed(items: seq<Item>) | Ran(y: Yield)

  /**
   * Where the main thread is: outside `work`, in the loop of `_sync_q`, told to take a packet, synced, or at
   * the end.
   */
  datatype Phase = Outside | Asking(pushed: bool) | Fetching | Synced | Finished

  datatype Rank = Rank(claims: nat, waiting: set<nat>, futures: set<nat>, settled: seq<nat>, stopped: bool,
    phase: Phase, flags: nat, taken: nat, packets: seq<Item>, inFlight: int, turns: seq<Turn>)

  /** log: everything put into the packet queue; seen[r]: how much of it has reached rank r; flags: the flag queue. */
  datatype State = State(log: seq<Item>, seen: seq<nat>, flags: seq<bool>, stops: nat, ranks: seq<Rank>)

  /** size: the number of ranks; engine: the generator's answer to `next`, the same function on every rank. */
  datatype Group = Group(size: nat, engine: seq<Turn> -> Yield)

  datatype Event =
    | Claim(r: nat) | Put(r: nat, tid: nat) | Stopping(r: nat, sees: bool) | Deliver(r: nat)
    | Begin(r: nat) | Push | Flag(r: nat) | Fetch(r: nat) | Next(r: nat)

  // ---------- the program ----------

  function Start(g: Group): State {
    State([], Zeros(g.size), [], 0, seq(g.size, _ => Rank(0, {}, {}, [], false, Outside, 0, 0, [], 0, [])))
  }

  function With(s: State, r: nat, k: Rank): State
    requires r < |s.ranks|
  {
    s.(ranks := s.ranks[r := k])
  }

  /** `generate_future`, up to the registration of the future. */
  function ClaimId(g: Group, k: Rank, r: nat): Rank {
    var tid := k.claims * g.size + r;
    k.(claims := k.claims + 1, waiting := k.waiting + {tid}, futures := k.futures + {tid})
  }

  /** The end of the loop of `_sync_q`, and what follows it. */
  function Feed(k: Rank): Rank {
    k.(phase := Synced, packets := [], inFlight := k.inFlight + |k.packets|, turns := k.turns + [Fed(k.packets)])
  }

  /** `work` after `_sync_q`. */
  function RunOnce(g: Group, k: Rank): Rank {
    if k.inFlight == 0 then k.(phase := Outside)
    else
      var y := g.engine(k.turns);
      var k' := k.(phase := Outside, turns := k.turns + [Ran(y)]);
      match y
      case Handover => k'
      case Exhausted => k'.(phase := Finished)
      case Packet(tid) =>
        var done := k'.(inFlight := k.inFlight - 1);
        if tid in k.futures then done.(futures := k.futures - {tid}, settled := k.settled + [tid]) else done
  }

  /** One step, where it is possible. */
  function Step(g: Group, s: State, e: Event): (o: Option<State>)
    requires |s.ranks| == |s.seen| == g.size > 0
    ensures o.Some? ==> |o.value.ranks| == |o.value.seen| == g.size
  {
    match e
    case Claim(r) => if r < g.size then Some(With(s, r, ClaimId(g, s.ranks[r], r))) else None
    case Put(r, tid) =>
      if r < g.size && tid in s.ranks[r].waiting then
        var k := s.ranks[r];
        Some(With(s, r, k.(waiting := k.waiting - {tid})).(log := s.log + [Task(tid)]))
      else None
    case Stopping(r, sees) =>
      if r >= g.size then None
      else
        var k := s.ranks[r];
        var s' := if k.stopped then s else With(s, r, k.(stopped := true)).(stops := s.stops + 1);
        if !sees then Some(s') else if s'.stops == g.size && r == 0 then Some(s'.(log := s.log + [Stop])) else None
    case Deliver(r) => if r < g.size && s.seen[r] < |s.log| then Some(s.(seen := s.seen[r := s.seen[r] + 1])) else None
    case Begin(r) =>
      if r < g.size && s.ranks[r].phase.Outside? then Some(With(s, r,
        s.ranks[r].(phase := Asking(false), packets := []))) else None
    case Push =>
      if s.ranks[0].phase == Asking(false) then
        Some(With(s, 0, s.ranks[0].(phase := Asking(true))).(flags := s.flags + [s.ranks[0].taken < s.seen[0]]))
      else None
    case Flag(r) =>
      if r < g.size && s.ranks[r].phase == Asking(r == 0) && s.ranks[r].flags < |s.flags| then
        var k := s.ranks[r].(flags := s.ranks[r].flags + 1);
        Some(With(s, r, if s.flags[s.ranks[r].flags] then k.(phase := Fetching) else Feed(k)))
      else None
    case Fetch(r) =>
      if r < g.size && s.ranks[r].phase.Fetching? && s.ranks[r].taken < s.seen[r] && s.ranks[r].taken < |s.log| then
        var k := s.ranks[r];
        Some(With(s, r, k.(phase := Asking(false), packets := k.packets + [s.log[k.taken]], taken := k.taken + 1)))
      else None
    case Next(r) => if r < g.size && s.ranks[r].phase.Synced? then Some(With(s, r, RunOnce(g, s.ranks[r]))) else None
  }

  // ---------- what a rank's generator has been through ----------

  function Items(t: seq<Turn>): seq<Item> {
    if t == [] then [] else Items(t[..|t| - 1]) + (if t[|t| - 1].Fed? then t[|t| - 1].items else [])
  }

  function Answers(t: seq<Turn>): seq<nat> {
    if t == [] then [] else
      Answers(t[..|t| - 1]) + (if t[|t| - 1].Ran? && t[|t| - 1].y.Packet? then [t[|t| - 1].y.tid] else [])
  }

  function InFlight(t: seq<Turn>): int { |Items(t)| - |Answers(t)| }

  function Trues(f: seq<bool>): nat {
    if f == [] then 0 else Trues(f[..|f| - 1]) + if f[|f| - 1] then 1 else 0
  }

  /** How many packets the completed rounds of these flags took. */
  function Base(f: seq<bool>): nat {
    if f == [] then 0 else if f[|f| - 1] then Base(f[..|f| - 1]) else Trues(f[..|f| - 1])
  }

  lemma {:induction false} BaseBelow(f: seq<bool>)
    ensures Base(f) <= Trues(f) <= |f|
  {
    if f != [] { BaseBelow(f[..|f| - 1]); }
  }

  /** The sync rounds these flags complete. */
  function Rounds(f: seq<bool>): nat {
    BaseBelow(f);
    |f| - Trues(f)
  }

  /** `next`, if anything is in flight. */
  function Running(g: Group, t: seq<Turn>): seq<Turn> { if InFlight(t) == 0 then [] else [Ran(g.engine(t))] }

  /** The history every rank's generator has when the rank has followed these flags. */
  ghost function History(g: Group, log: seq<Item>, f: seq<bool>): seq<Turn>
    requires Trues(f) <= |log|
  {
    if f == [] then []
    else
      var h := f[..|f| - 1];
      BaseBelow(h);
      var t := History(g, log, h);
      if f[|f| - 1] then t
      else
        var fed := t + [Fed(log[Base(h)..Trues(h)])];
        fed + Running(g, fed)
  }

  lemma {:induction false} HistoryGrows(g: Group, log: seq<Item>, more: seq<Item>, f: seq<bool>)
    requires Trues(f) <= |log|
    ensures Trues(f) <= |log + more| && History(g, log + more, f) == History(g, log, f)
    decreases |f|
  {
    if f != [] {
      var h := f[..|f| - 1];
      BaseBelow(h);
      HistoryGrows(g, log, more, h);
      assert (log + more)[Base(h)..Trues(h)] == log[Base(h)..Trues(h)];
    }
  }

  // ---------- the invariant ----------

  ghost predicate EndsFed(t: seq<Turn>) { t != [] && t[|t| - 1].Fed? }

  /** Rank r issued this id. */
  predicate Issued(g: Group, k: Rank, r: nat, tid: nat) { g.size > 0 && tid % g.size == r && tid / g.size < k.claims }

  /** Each id issued by rank r waits for an answer or has had exactly one, and only such ids do. */
  ghost predicate Settled(g: Group, k: Rank, r: nat) {
    && NoDup(k.settled) && k.waiting <= k.futures + ToSet(k.settled)
    && (forall tid: nat {:trigger tid in k.futures} {:trigger Issued(g, k, r, tid)} ::
          Issued(g, k, r, tid) <==> tid in k.futures || tid in k.settled)
    && (forall tid <- k.settled :: tid !in k.futures)
  }

  /** What rank r has taken and fed is what the flags it has followed say. */
  ghost predicate Following(g: Group, s: State, k: Rank) {
    && k.flags <= |s.flags| && Trues(s.flags[..k.flags]) <= |s.log|
    && var f := s.flags[..k.flags];
    && Trues(f) == k.taken + (if k.phase.Fetching? then 1 else 0)
    && Base(f) <= k.taken && k.packets == s.log[Base(f)..k.taken]
    && k.turns + (if k.phase.Synced? then Running(g, k.turns) else []) == History(g, s.log, f)
    && k.inFlight == InFlight(k.turns)
    && (k.phase.Synced? || k.phase.Outside? || k.phase.Finished? ==> k.packets == [])
    && (k.phase.Synced? ==> EndsFed(k.turns))
  }

  ghost predicate RankOk(g: Group, s: State, r: nat)
    requires r < |s.ranks| && r < |s.seen|
  {
    Following(g, s, s.ranks[r]) && Settled(g, s.ranks[r], r)
    && (r == 0 ==> |s.flags| == s.ranks[0].flags + if s.ranks[0].phase == Asking(true) then 1 else 0)
  }

  /** Every id in the queue was issued once and put once. */
  ghost predicate LogOk(g: Group, s: State) {
    && (forall i: nat, j: nat {:trigger s.log[i], s.log[j]} ::
        i < j < |s.log| && s.log[i].Task? ==> s.log[i] != s.log[j])
    && (forall i: nat {:trigger s.log[i]} :: i < |s.log| && s.log[i].Task? ==> Accounted(g, s, s.log[i].tid))
  }

  ghost predicate Accounted(g: Group, s: State, tid: nat) {
    g.size > 0 && tid % g.size < |s.ranks| && Issued(g, s.ranks[tid % g.size], tid % g.size, tid)
      && tid !in s.ranks[tid % g.size].waiting
  }

  ghost predicate Inv(g: Group, s: State) {
    && |s.ranks| == |s.seen| == g.size > 0 && Trues(s.flags) <= |s.log|
    && (forall r: nat {:trigger s.seen[r]} :: r < g.size ==> s.seen[r] <= |s.log|)
    && (forall r: nat {:trigger RankOk(g, s, r)} :: r < g.size ==> RankOk(g, s, r))
    && LogOk(g, s)
  }

  // ---------- every step keeps the invariant ----------

  /** A rank that does not move is not affected by what the others put. */
  lemma Unmoved(g: Group, s: State, s': State, r: nat)
    requires Inv(g, s) && r < g.size && r < |s'.ranks| && r < |s'.seen| && s'.ranks[r] == s.ranks[r]
    requires s.log <= s'.log && s.flags <= s'.flags && (r == 0 ==> s'.flags == s.flags)
    ensures RankOk(g, s', r)
  {
    assert RankOk(g, s, r);
    var f, k := s.flags[..s.ranks[r].flags], s.ranks[r];
    assert s'.flags[..k.flags] == f;
    assert s'.log == s.log + s'.log[|s.log|..];
    HistoryGrows(g, s.log, s'.log[|s.log|..], f);
    assert s'.log[Base(f)..k.taken] == s.log[Base(f)..k.taken];
  }

  /** The part of the step that one rank takes, queues unchanged. */
  lemma OneMoves(g: Group, s: State, s': State, r: nat)
    requires Inv(g, s) && r < g.size && |s'.ranks| == g.size && s' == s.(ranks := s.ranks[r := s'.ranks[r]])
    requires RankOk(g, s', r) && s'.ranks[r].claims == s.ranks[r].claims && s'.ranks[r].waiting == s.ranks[r].waiting
    ensures Inv(g, s')
  {
    forall q: nat | q < g.size ensures RankOk(g, s', q) { if q != r { Unmoved(g, s, s', q); } }
    forall i: nat | i < |s.log| && s.log[i].Task? ensures Accounted(g, s', s.log[i].tid) {
      assert Accounted(g, s, s.log[i].tid);
    }
  }

  lemma IdParts(g: Group, c: nat, r: nat)
    requires g.size > 0 && r < g.size
    ensures (c * g.size + r) % g.size == r && (c * g.size + r) / g.size == c
  {
    DivUnique(c * g.size + r, g.size, c, r);
  }

  lemma ClaimSettles(g: Group, k: Rank, r: nat)
    requires Settled(g, k, r) && g.size > 0 && r < g.size
    ensures Settled(g, ClaimId(g, k, r), r)
  {
    var k', tid := ClaimId(g, k, r), k.claims * g.size + r;
    IdParts(g, k.claims, r);
    forall id: nat ensures Issued(g, k', r, id) <==> Issued(g, k, r, id) || id == tid {
      if Issued(g, k', r, id) && id / g.size == k.claims { assert id == id / g.size * g.size + id % g.size; }
    }
    assert !Issued(g, k, r, tid);
  }

  lemma ClaimKeeps(g: Group, s: State, r: nat)
    requires Inv(g, s) && r < g.size
    ensures Inv(g, With(s, r, ClaimId(g, s.ranks[r], r)))
  {
    hide Settled, History, Running, Trues, Base;
    var s' := With(s, r, ClaimId(g, s.ranks[r], r));
    assert RankOk(g, s, r);
    ClaimSettles(g, s.ranks[r], r);
    forall q: nat | q < g.size ensures RankOk(g, s', q) { if q != r { Unmoved(g, s, s', q); } }
    forall i: nat | i < |s.log| && s.log[i].Task? ensures Accounted(g, s', s.log[i].tid) {
      assert Accounted(g, s, s.log[i].tid);
      NotWaiting(g, s, r, s.log[i].tid);
    }
  }

  /** A request that was put is not the one that comes next. */
  lemma NotWaiting(g: Group, s: State, r: nat, tid: nat)
    requires Accounted(g, s, tid) && r < |s.ranks| == g.size
    ensures Accounted(g, With(s, r, ClaimId(g, s.ranks[r], r)), tid)
  {
    IdParts(g, s.ranks[r].claims, r);
  }

  lemma PutKeeps(g: Group, s: State, r: nat, tid: nat)
    requires Inv(g, s) && r < g.size && tid in s.ranks[r].waiting
    ensures Inv(g, With(s, r, s.ranks[r].(waiting := s.ranks[r].waiting - {tid})).(log := s.log + [Task(tid)]))
  {
    var k := s.ranks[r];
    var s' := With(s, r, k.(waiting := k.waiting - {tid})).(log := s.log + [Task(tid)]);
    assert RankOk(g, s, r) && Issued(g, k, r, tid);
    forall q: nat | q < g.size ensures RankOk(g, s', q) {
      Unmoved(g, s, s.(log := s'.log), q);
      assert RankOk(g, s.(log := s'.log), q);
    }
    forall i: nat | i < |s'.log| && s'.log[i].Task? ensures Accounted(g, s', s'.log[i].tid) {
      if i < |s.log| { assert Accounted(g, s, s.log[i].tid); }
    }
    forall i: nat, j: nat | i < j < |s'.log| && s'.log[i].Task? ensures s'.log[i] != s'.log[j] {
      if j == |s.log| { assert Accounted(g, s, s.log[i].tid); }
    }
  }

  /** That a rank has asked to stop does not matter. */
  lemma Marked(g: Group, s: State, s': State, k: Rank, r: nat)
    requires Following(g, s, k) && Settled(g, k, r) && s'.log == s.log && s'.flags == s.flags
    ensures Following(g, s', k.(stopped := true)) && Settled(g, k.(stopped := true), r)
    ensures Following(g, s', k.(stopped := false)) && Settled(g, k.(stopped := false), r)
  {
  }

  lemma StoppingKeeps(g: Group, s: State, r: nat, sees: bool)
    requires Inv(g, s) && Step(g, s, Stopping(r, sees)).Some?
    ensures Inv(g, Step(g, s, Stopping(r, sees)).value)
  {
    var s' := Step(g, s, Stopping(r, sees)).value;
    var longer := s.(log := s'.log);
    forall q: nat | q < g.size ensures RankOk(g, s', q) {
      Unmoved(g, s, longer, q);
      var k, k' := s.ranks[q], s'.ranks[q];
      assert RankOk(g, longer, q) && k' == k.(stopped := k'.stopped);
      Marked(g, longer, s', k, q);
    }
    forall i: nat | i < |s'.log| && s'.log[i].Task? ensures Accounted(g, s', s'.log[i].tid) {
      assert Accounted(g, s, s.log[i].tid);
    }
  }

  lemma DeliverKeeps(g: Group, s: State, r: nat)
    requires Inv(g, s) && r < g.size && s.seen[r] < |s.log|
    ensures Inv(g, s.(seen := s.seen[r := s.seen[r] + 1]))
  {
    var s' := s.(seen := s.seen[r := s.seen[r] + 1]);
    forall q: nat | q < g.size ensures RankOk(g, s', q) { Unmoved(g, s, s', q); }
    forall i: nat | i < |s.log| && s.log[i].Task? ensures Accounted(g, s', s.log[i].tid) {
      assert Accounted(g, s, s.log[i].tid);
    }
  }

  lemma BeginKeeps(g: Group, s: State, r: nat)
    requires Inv(g, s) && r < g.size && s.ranks[r].phase.Outside?
    ensures Inv(g, With(s, r, s.ranks[r].(phase := Asking(false), packets := [])))
  {
    assert RankOk(g, s, r);
    OneMoves(g, s, With(s, r, s.ranks[r].(phase := Asking(false), packets := [])), r);
  }

  lemma TruesNext(f: seq<bool>, b: bool)
    ensures Trues(f + [b]) == Trues(f) + if b then 1 else 0
    ensures Base(f + [b]) == if b then Base(f) else Trues(f)
  {
    assert (f + [b])[..|f|] == f;
  }

  /** Rank 0 announces a packet only when one has reached it. */
  lemma PushKeeps(g: Group, s: State)
    requires Inv(g, s) && s.ranks[0].phase == Asking(false)
    ensures Inv(g, With(s, 0, s.ranks[0].(phase := Asking(true))).(flags := s.flags + [s.ranks[0].taken < s.seen[0]]))
  {
    hide Following, Settled, History, Running, Trues, Base;
    var b := s.ranks[0].taken < s.seen[0];
    var k := s.ranks[0].(phase := Asking(true));
    var s' := With(s, 0, k).(flags := s.flags + [b]);
    assert RankOk(g, s, 0);
    PushFollows(g, s, s', s.ranks[0]);
    TruesNext(s.flags, b);
    forall q: nat | q < g.size ensures RankOk(g, s', q) { if q != 0 { Unmoved(g, s, s', q); } }
    forall i: nat | i < |s.log| && s.log[i].Task? ensures Accounted(g, s', s.log[i].tid) {
      assert Accounted(g, s, s.log[i].tid);
    }
    assert s.seen[0] <= |s.log|;
  }

  lemma PushFollows(g: Group, s: State, s': State, k: Rank)
    requires Following(g, s, k) && k.phase == Asking(false) && k.flags == |s.flags| && s.log == s'.log
      && s.flags <= s'.flags
    ensures Following(g, s', k.(phase := Asking(true))) && k.taken == Trues(s.flags)
    ensures forall r: nat :: Settled(g, k, r) ==> Settled(g, k.(phase := Asking(true)), r)
  {
    hide History, Running, Trues, Base;
    assert s.flags[..k.flags] == s.flags == s'.flags[..k.flags];
  }

  lemma {:induction false} TruesPrefix(f: seq<bool>, n: nat)
    requires n <= |f|
    ensures Trues(f[..n]) <= Trues(f)
    decreases |f|
  {
    if n < |f| {
      TruesPrefix(f[..|f| - 1], n);
      assert f[..|f| - 1][..n] == f[..n];
    } else {
      assert f[..n] == f;
    }
  }

  lemma TurnNext(t: seq<Turn>, x: Turn)
    ensures Items(t + [x]) == Items(t) + (if x.Fed? then x.items else [])
    ensures Answers(t + [x]) == Answers(t) + (if x.Ran? && x.y.Packet? then [x.y.tid] else [])
  {
    assert (t + [x])[..|t|] == t;
  }

  lemma HistoryNext(g: Group, log: seq<Item>, f: seq<bool>, b: bool)
    requires Trues(f + [b]) <= |log|
    ensures Base(f) <= Trues(f) <= Trues(f + [b])
    ensures History(g, log, f + [b]) ==
      if b then History(g, log, f)
      else var fed := History(g, log, f) + [Fed(log[Base(f)..Trues(f)])]; fed + Running(g, fed)
  {
    TruesNext(f, b); BaseBelow(f);
    assert (f + [b])[..|f|] == f;
  }

  /** The rank is told to take a packet. */
  lemma FollowsTrue(g: Group, s: State, k: Rank)
    requires Following(g, s, k) && k.phase.Asking? && k.flags < |s.flags| && s.flags[k.flags]
      && Trues(s.flags) <= |s.log|
    ensures Following(g, s, k.(flags := k.flags + 1, phase := Fetching))
  {
    var f := s.flags[..k.flags];
    assert s.flags[..k.flags + 1] == f + [true];
    TruesPrefix(s.flags, k.flags + 1); TruesNext(f, true); HistoryNext(g, s.log, f, true);
  }

  /** The rank is told that there are no more, and feeds its generator. */
  lemma FollowsFalse(g: Group, s: State, k: Rank)
    requires Following(g, s, k) && k.phase.Asking? && k.flags < |s.flags| && !s.flags[k.flags]
      && Trues(s.flags) <= |s.log|
    ensures Following(g, s, Feed(k.(flags := k.flags + 1)))
  {
    hide History, Base, Trues, Items, Answers, Running;
    var f := s.flags[..k.flags];
    assert s.flags[..k.flags + 1] == f + [false];
    TruesPrefix(s.flags, k.flags + 1); TruesNext(f, false); HistoryNext(g, s.log, f, false);
    TurnNext(k.turns, Fed(k.packets));
    assert k.turns + [] == k.turns;
    assert s.log[k.taken..k.taken] == [];
  }

  /** Following one more flag. */
  lemma FlagKeeps(g: Group, s: State, r: nat)
    requires Inv(g, s) && r < g.size && s.ranks[r].phase == Asking(r == 0) && s.ranks[r].flags < |s.flags|
    ensures Inv(g, Step(g, s, Flag(r)).value)
  {
    var k := s.ranks[r];
    var s' := Step(g, s, Flag(r)).value;
    assert RankOk(g, s, r);
    if s.flags[k.flags] { FollowsTrue(g, s, k); } else { FollowsFalse(g, s, k); }
    hide Following;
    SameQueues(g, s, s', s'.ranks[r]);
    OneMoves(g, s, s', r);
  }

  lemma SameQueues(g: Group, s: State, s': State, k: Rank)
    requires Following(g, s, k) && s'.log == s.log && s'.flags == s.flags
    ensures Following(g, s', k)
  {
  }

  lemma FetchKeeps(g: Group, s: State, r: nat)
    requires Inv(g, s) && Step(g, s, Fetch(r)).Some?
    ensures Inv(g, Step(g, s, Fetch(r)).value)
  {
    var k := s.ranks[r];
    assert RankOk(g, s, r);
    var s' := Step(g, s, Fetch(r)).value;
    var b := Base(s.flags[..k.flags]);
    assert s.log[b..k.taken + 1] == s.log[b..k.taken] + [s.log[k.taken]];
    OneMoves(g, s, s', r);
  }

  lemma RunFollows(g: Group, s: State, k: Rank)
    requires Following(g, s, k) && k.phase.Synced?
    ensures Following(g, s, RunOnce(g, k))
  {
    hide History, Base, Trues, Items, Answers;
    TurnNext(k.turns, Ran(g.engine(k.turns)));
    assert k.turns + [] == k.turns;
    assert RunOnce(g, k).turns + [] == RunOnce(g, k).turns;
  }

  lemma RunSettles(g: Group, k: Rank, r: nat)
    requires Settled(g, k, r)
    ensures Settled(g, RunOnce(g, k), r)
  {
  }

  lemma RunShape(g: Group, k: Rank)
    ensures var k' := RunOnce(g, k);
      k'.claims == k.claims && k'.waiting == k.waiting && k'.flags == k.flags && !k'.phase.Asking?
  {
  }

  lemma NextKeeps(g: Group, s: State, r: nat)
    requires Inv(g, s) && r < g.size && s.ranks[r].phase.Synced?
    ensures Inv(g, With(s, r, RunOnce(g, s.ranks[r])))
  {
    hide Following, Settled, RunOnce;
    var k := s.ranks[r];
    assert RankOk(g, s, r);
    var s' := With(s, r, RunOnce(g, k));
    RunFollows(g, s, k); RunSettles(g, k, r); RunShape(g, k);
    SameQueues(g, s, s', s'.ranks[r]);
    OneMoves(g, s, s', r);
  }

  lemma StepKeeps(g: Group, s: State, e: Event)
    requires Inv(g, s) && Step(g, s, e).Some?
    ensures Inv(g, Step(g, s, e).value)
  {
    hide Inv;
    match e
    case Claim(r) => ClaimKeeps(g, s, r);
    case Put(r, tid) => PutKeeps(g, s, r, tid);
    case Stopping(r, sees) => StoppingKeeps(g, s, r, sees);
    case Deliver(r) => DeliverKeeps(g, s, r);
    case Begin(r) => BeginKeeps(g, s, r);
    case Push => PushKeeps(g, s);
    case Flag(r) => FlagKeeps(g, s, r);
    case Fetch(r) => FetchKeeps(g, s, r);
    case Next(r) => NextKeeps(g, s, r);
  }

  // ---------- runs ----------

  /** The state after these steps, if each was possible. */
  function Run(g: Group, es: seq<Event>): (r: Option<State>)
    requires g.size > 0
    ensures r.Some? ==> |r.value.ranks| == |r.value.seen| == g.size
  {
    if es == [] then Some(Start(g))
    else
      var s := Run(g, es[..|es| - 1]);
      if s.None? then None else Step(g, s.value, es[|es| - 1])
  }

  /** No request has been made on this rank. */
  predicate Unused(k: Rank) {
    && k.claims == k.flags == k.taken == 0 && k.waiting == k.futures == {} && k.settled == []
    && k.phase.Outside? && k.packets == [] && k.inFlight == 0 && k.turns == []
  }

  lemma NothingFollowed(g: Group, s: State, k: Rank)
    requires Unused(k) && s.flags == [] && s.log == []
    ensures Following(g, s, k)
  {
    var f := s.flags[..k.flags];
    assert f == [];
    assert k.turns + [] == k.turns;
    assert s.log[Base(f)..k.taken] == [];
  }

  lemma NothingIssued(g: Group, k: Rank, r: nat)
    requires g.size > 0 && Unused(k)
    ensures Settled(g, k, r)
  {
    forall tid: nat ensures !Issued(g, k, r, tid) { QuotientAtLeast(tid, g.size); }
  }

  lemma QuotientAtLeast(x: nat, d: nat)
    requires d > 0
    ensures x / d >= 0
  {
  }

  lemma StartInv(g: Group)
    requires g.size > 0
    ensures Inv(g, Start(g))
  {
    hide RankOk, LogOk, Following, Settled;
    var s := Start(g);
    forall r: nat | r < g.size ensures RankOk(g, s, r) {
      NothingFollowed(g, s, s.ranks[r]); NothingIssued(g, s.ranks[r], r);
      RankParts(g, s, r);
    }
    NothingPut(g, s);
  }

  lemma RankParts(g: Group, s: State, r: nat)
    requires r < |s.ranks| && r < |s.seen| && Following(g, s, s.ranks[r]) && Settled(g, s.ranks[r], r)
    requires s.flags == [] && s.ranks[r].flags == 0 && s.ranks[r].phase.Outside?
    ensures RankOk(g, s, r)
  {
  }

  lemma NothingPut(g: Group, s: State)
    requires s.log == []
    ensures LogOk(g, s)
  {
  }

  lemma {:induction false} RunInv(g: Group, es: seq<Event>)
    requires g.size > 0 && Run(g, es).Some?
    ensures Inv(g, Run(g, es).value)
    decreases |es|
  {
    if es == [] {
      StartInv(g);
    } else {
      RunInv(g, es[..|es| - 1]);
      StepKeeps(g, Run(g, es[..|es| - 1]).value, es[|es| - 1]);
    }
  }

  // ---------- agreement ----------

  /** Flags that only announce packets change nothing that has been fed. */
  lemma {:induction false} SameRounds(g: Group, log: seq<Item>, f: seq<bool>, h: seq<bool>)
    requires f <= h && Rounds(f) == Rounds(h) && Trues(h) <= |log|
    ensures Trues(f) <= |log| && History(g, log, f) == History(g, log, h)
    decreases |h|
  {
    hide History, Trues, Base;
    if |f| == |h| {
      assert f == h;
    } else {
      var p, b := h[..|h| - 1], h[|h| - 1];
      assert p[..|f|] == f && h == p + [b];
      RoundsPrefix(p, |f|);
      TruesNext(p, b);
      assert b;
      SameRounds(g, log, f, p);
      HistoryNext(g, log, p, b);
    }
  }

  lemma {:induction false} RoundsPrefix(f: seq<bool>, n: nat)
    requires n <= |f|
    ensures Rounds(f[..n]) <= Rounds(f)
    decreases |f|
  {
    if n < |f| {
      RoundsPrefix(f[..|f| - 1], n);
      assert f[..|f| - 1][..n] == f[..n];
    } else {
      assert f[..n] == f;
    }
  }

  lemma {:induction false} ItemsConcat(t: seq<Turn>, x: seq<Turn>)
    ensures Items(t + x) == Items(t) + Items(x) && Answers(t + x) == Answers(t) + Answers(x)
    decreases |x|
  {
    if x == [] {
      assert t + x == t;
    } else {
      var y := x[..|x| - 1];
      assert (t + x)[..|t + x| - 1] == t + y;
      ItemsConcat(t, y);
    }
  }

  /** The sync rounds a rank has completed. */
  function RoundsOf(s: State, r: nat): nat
    requires r < |s.ranks|
  {
    if s.ranks[r].flags <= |s.flags| then Rounds(s.flags[..s.ranks[r].flags]) else 0
  }

  /** What has been fed once these flags are followed. */
  lemma {:induction false} ItemsAreLog(g: Group, log: seq<Item>, f: seq<bool>)
    requires Trues(f) <= |log|
    ensures Base(f) <= |log| && Items(History(g, log, f)) == log[..Base(f)]
    decreases |f|
  {
    BaseBelow(f);
    if f != [] {
      hide History, Trues, Base, Items, Answers;
      var h, b := f[..|f| - 1], f[|f| - 1];
      assert f == h + [b];
      HistoryNext(g, log, h, b); TruesNext(h, b);
      ItemsAreLog(g, log, h);
      if !b { RoundIsFed(g, History(g, log, h), log, Base(h), Trues(h)); }
    } else {
      assert log[..0] == [];
    }
  }

  lemma RoundIsFed(g: Group, t: seq<Turn>, log: seq<Item>, i: nat, j: nat)
    requires i <= j <= |log| && Items(t) == log[..i]
    ensures var fed := t + [Fed(log[i..j])]; Items(fed + Running(g, fed)) == log[..j]
  {
    hide Items, Answers, InFlight;
    var fed := t + [Fed(log[i..j])];
    TurnNext(t, Fed(log[i..j]));
    assert log[..i] + log[i..j] == log[..j];
    if Running(g, fed) == [] { assert fed + [] == fed; } else { TurnNext(fed, Ran(g.engine(fed))); }
  }

  lemma ItemsOfOne(x: Turn)
    ensures Items([x]) == if x.Fed? then x.items else []
  {
    assert [x][..0] == [];
  }

  /** A rank's generator has been fed a prefix of the queue. */
  lemma FedPrefix(g: Group, s: State, k: Rank)
    requires Following(g, s, k)
    ensures k.flags <= |s.flags| && Trues(s.flags[..k.flags]) <= |s.log|
    ensures k.turns + (if k.phase.Synced? then Running(g, k.turns) else []) == History(g, s.log, s.flags[..k.flags])
    ensures k.inFlight == InFlight(k.turns) && (k.phase.Synced? ==> EndsFed(k.turns))
    ensures Base(s.flags[..k.flags]) <= |s.log| && Items(k.turns) == s.log[..Base(s.flags[..k.flags])]
  {
    var f := s.flags[..k.flags];
    ItemsAreLog(g, s.log, f);
    if k.phase.Synced? {
      ItemsConcat(k.turns, Running(g, k.turns));
      if Running(g, k.turns) != [] { ItemsOfOne(Ran(g.engine(k.turns))); }
    } else {
      assert k.turns + [] == k.turns;
    }
  }

  /**
   * In every run, two ranks that have completed as many sync rounds have fed their generators the
   * same packets in the same order; when they are also both before or both after `next`, the
   * generators have the same history and the same number of packets is in flight.
   */
  lemma SameFeed(g: Group, es: seq<Event>, a: nat, b: nat)
    requires g.size > 0 && Run(g, es).Some? && a < g.size && b < g.size
    requires RoundsOf(Run(g, es).value, a) == RoundsOf(Run(g, es).value, b)
    ensures var k, l := Run(g, es).value.ranks[a], Run(g, es).value.ranks[b];
      && Items(k.turns) == Items(l.turns)
      && (k.phase.Synced? == l.phase.Synced? ==> k.turns == l.turns && k.inFlight == l.inFlight)
  {
    RunInv(g, es);
    var s := Run(g, es).value;
    hide Inv, Run;
    InvRank(g, s, a); InvRank(g, s, b);
    if s.ranks[a].flags <= s.ranks[b].flags {
      Agree(g, s, s.ranks[a], s.ranks[b]);
    } else {
      Agree(g, s, s.ranks[b], s.ranks[a]);
    }
  }

  lemma InvRank(g: Group, s: State, r: nat)
    requires Inv(g, s) && r < g.size
    ensures r < |s.ranks| && Following(g, s, s.ranks[r]) && Settled(g, s.ranks[r], r)
  {
    assert RankOk(g, s, r);
  }

  lemma Agree(g: Group, s: State, k: Rank, l: Rank)
    requires Following(g, s, k) && Following(g, s, l) && k.flags <= l.flags <= |s.flags|
    requires Rounds(s.flags[..k.flags]) == Rounds(s.flags[..l.flags])
    ensures Items(k.turns) == Items(l.turns)
    ensures k.phase.Synced? == l.phase.Synced? ==> k.turns == l.turns && k.inFlight == l.inFlight
  {
    hide Following, History, Items, Answers, Base, Trues, Running, InFlight, Rounds;
    FedPrefix(g, s, k); FedPrefix(g, s, l);
    var f, h := s.flags[..k.flags], s.flags[..l.flags];
    assert h[..k.flags] == f;
    SameRounds(g, s.log, f, h);
    ItemsAreLog(g, s.log, f); ItemsAreLog(g, s.log, h);
    LastTurn(g, k.turns, l.turns, k.phase.Synced? && l.phase.Synced?);
  }

  /** The history after `next` determines the one before. */
  lemma LastTurn(g: Group, t: seq<Turn>, u: seq<Turn>, synced: bool)
    ensures synced && EndsFed(t) && EndsFed(u) && t + Running(g, t) == u + Running(g, u) ==> t == u
    ensures t + [] == u + [] ==> t == u
  {
    assert t + [] == t && u + [] == u;
    var x, y := t + Running(g, t), u + Running(g, u);
    if synced && EndsFed(t) && EndsFed(u) && x == y {
      assert Running(g, t) == [] ==> x == t;
      assert Running(g, u) == [] ==> y == u;
      assert Running(g, t) != [] ==> x[..|x| - 1] == t && x[|x| - 1].Ran?;
      assert Running(g, u) != [] ==> y[..|y| - 1] == u && y[|y| - 1].Ran?;
    }
  }

  // ---------- ids and futures ----------

  /** In every run no id is put twice, and each names the rank that issued it. */
  lemma IdsDiffer(g: Group, es: seq<Event>, i: nat, j: nat)
    requires g.size > 0 && Run(g, es).Some? && i < |Run(g, es).value.log| && j < |Run(g, es).value.log|
    requires Run(g, es).value.log[i].Task?
    ensures Run(g, es).value.log[i] == Run(g, es).value.log[j] ==> i == j
    ensures var s := Run(g, es).value; var tid := s.log[i].tid; Issued(g, s.ranks[tid % g.size], tid % g.size, tid)
  {
    RunInv(g, es);
    var s := Run(g, es).value;
    assert Accounted(g, s, s.log[i].tid);
    assert i != j ==> s.log[if i < j then i else j] != s.log[if i < j then j else i];
  }

  /** In every run a future is set at most once, on the rank that issued it and on no other, and then it is gone. */
  lemma SetOnce(g: Group, es: seq<Event>, r: nat, tid: nat)
    requires g.size > 0 && Run(g, es).Some? && r < g.size
    ensures var k := Run(g, es).value.ranks[r];
      && NoDup(k.settled) && (tid in k.settled ==> tid % g.size == r && tid !in k.futures)
      && (Issued(g, k, r, tid) <==> tid in k.futures || tid in k.settled)
  {
    RunInv(g, es);
    InvRank(g, Run(g, es).value, r);
    assert Issued(g, Run(g, es).value.ranks[r], r, tid) || !Issued(g, Run(g, es).value.ranks[r], r, tid);
  }

  // ---------- what a generator reads ----------

  /** The requests before the first sentinel: a generator reads nothing after it. */
  function Read(x: seq<Item>): seq<Item> {
    if x == [] || x[0].Stop? then [] else [x[0]] + Read(x[1..])
  }

  lemma {:induction false} ReadSpec(x: seq<Item>)
    ensures |Read(x)| <= |x| && Read(x) == x[..|Read(x)|] && forall y <- Read(x) :: y.Task?
    ensures if Stop in x then |Read(x)| < |x| && x[|Read(x)|].Stop? else Read(x) == x
  {
    if x != [] && !x[0].Stop? {
      ReadSpec(x[1..]);
      assert x == [x[0]] + x[1..];
    }
  }

  /** Nothing that was read is lost when more is fed. */
  lemma {:induction false} ReadMore(x: seq<Item>, y: seq<Item>)
    ensures Read(x) <= Read(x + y) && (Stop in x ==> Read(x + y) == Read(x))
  {
    if x != [] && !x[0].Stop? {
      ReadMore(x[1..], y);
      assert (x + y)[1..] == x[1..] + y && x == [x[0]] + x[1..];
    }
  }

  // ---------- with a generator that answers each packet once ----------

  /** A history this generator can have. */
  ghost predicate Consistent(g: Group, t: seq<Turn>) {
    forall i: nat {:trigger t[i]} :: i < |t| && t[i].Ran? ==> t[i].y == g.engine(t[..i])
  }

  ghost predicate Distinct(x: seq<Item>) {
    forall i: nat, j: nat {:trigger x[i], x[j]} :: i < j < |x| && x[i].Task? ==> x[i] != x[j]
  }

  /**
   * A generator answers only what it has read and not answered; it ends when there was a sentinel
   * and all it read before that is answered.
   */
  ghost predicate Reasonable(t: seq<Turn>, y: Yield) {
    match y
    case Handover => true
    case Packet(tid) => Task(tid) in Read(Items(t)) && tid !in Answers(t)
    case Exhausted => Ended(t)
  }

  ghost predicate Ended(t: seq<Turn>) {
    Stop in Items(t) && forall tid: nat :: Task(tid) in Read(Items(t)) ==> tid in Answers(t)
  }

  /** The generator is reasonable in every history it can have, as long as anything fed is unanswered. */
  ghost predicate Sane(g: Group) {
    g.size > 0 && forall t: seq<Turn> {:trigger g.engine(t)} ::
      Consistent(g, t) && Distinct(Items(t)) && InFlight(t) > 0 ==> Reasonable(t, g.engine(t))
  }

  /** The futures set on a rank are those of its own ids that its generator has answered. */
  ghost predicate Mine(g: Group, k: Rank, r: nat) {
    forall tid: nat {:trigger tid in k.settled} {:trigger tid in Answers(k.turns)} ::
      tid in k.settled <==> tid in Answers(k.turns) && g.size > 0 && tid % g.size == r
  }

  /** No packet is answered twice, and only packets that were read are. */
  ghost predicate OnceEach(k: Rank) {
    NoDup(Answers(k.turns)) && forall tid <- Answers(k.turns) :: Task(tid) in Read(Items(k.turns))
  }

  ghost predicate Delivered(g: Group, k: Rank, r: nat) {
    && Mine(g, k, r) && OnceEach(k) && k.inFlight >= 0 && (k.phase.Finished? ==> Ended(k.turns))
    && Consistent(g, k.turns)
  }

  lemma ConsistentNext(g: Group, t: seq<Turn>, x: Turn)
    requires Consistent(g, t) && (x.Ran? ==> x.y == g.engine(t))
    ensures Consistent(g, t + [x])
  {
    forall i: nat | i < |t + [x]| && (t + [x])[i].Ran? ensures (t + [x])[i].y == g.engine((t + [x])[..i]) {
      if i < |t| {
        assert t[i].Ran? && (t + [x])[..i] == t[..i];
      } else {
        assert (t + [x])[..i] == t;
      }
    }
  }

  lemma FeedDelivers(g: Group, k: Rank, r: nat)
    requires Delivered(g, k, r)
    ensures Delivered(g, Feed(k), r)
  {
    hide Items, Answers, Read, Consistent;
    TurnNext(k.turns, Fed(k.packets));
    ConsistentNext(g, k.turns, Fed(k.packets));
    ReadMore(Items(k.turns), k.packets);
  }

  /** What has been fed was put, so it was issued by the rank its id names. */
  lemma FedIssued(g: Group, s: State, r: nat, tid: nat)
    requires Inv(g, s) && r < g.size && Task(tid) in Items(s.ranks[r].turns)
    ensures g.size > 0 && tid % g.size < |s.ranks| && Issued(g, s.ranks[tid % g.size], tid % g.size, tid)
  {
    InvRank(g, s, r);
    FedPrefix(g, s, s.ranks[r]);
    hide Items, Answers, Base, Trues, History, Following, Settled, RankOk;
    var n := Base(s.flags[..s.ranks[r].flags]);
    var i :| 0 <= i < |s.log[..n]| && s.log[..n][i] == Task(tid);
    assert s.log[i] == Task(tid);
    assert Accounted(g, s, s.log[i].tid);
  }

  /** The answer to its own id settles a future, the answer to another rank's id does not. */
  lemma AnswerDelivers(g: Group, k: Rank, r: nat, tid: nat)
    requires Delivered(g, k, r) && Settled(g, k, r) && InFlight(k.turns) == k.inFlight != 0
    requires g.engine(k.turns) == Packet(tid) && Task(tid) in Read(Items(k.turns)) && tid !in Answers(k.turns)
    requires g.size > 0 && (tid % g.size == r ==> Issued(g, k, r, tid))
    ensures Delivered(g, RunOnce(g, k), r)
  {
    hide Items, Answers, InFlight, Read, Consistent;
    TurnNext(k.turns, Ran(Packet(tid)));
    ConsistentNext(g, k.turns, Ran(Packet(tid)));
    assert Items(k.turns) + [] == Items(k.turns);
    assert Issued(g, k, r, tid) <==> tid % g.size == r;
    assert tid !in k.settled;
  }

  /** A turn without an answer. */
  lemma OtherDelivers(g: Group, k: Rank, r: nat)
    requires Delivered(g, k, r) && k.inFlight != 0 && Reasonable(k.turns, g.engine(k.turns))
    requires !g.engine(k.turns).Packet?
    ensures Delivered(g, RunOnce(g, k), r)
  {
    hide Items, Answers, Read, Consistent;
    TurnNext(k.turns, Ran(g.engine(k.turns)));
    ConsistentNext(g, k.turns, Ran(g.engine(k.turns)));
    assert Items(k.turns) + [] == Items(k.turns) && Answers(k.turns) + [] == Answers(k.turns);
  }

  lemma RunDelivers(g: Group, s: State, r: nat)
    requires Inv(g, s) && Sane(g) && r < g.size && s.ranks[r].phase.Synced? && Delivered(g, s.ranks[r], r)
    ensures Delivered(g, RunOnce(g, s.ranks[r]), r)
  {
    hide Inv, Items, Answers, Read, Following, Settled, Consistent, History, Trues, Base;
    FollowedInFlight(g, s, r);
    var k := s.ranks[r];
    if k.inFlight != 0 {
      FedOnce(g, s, r);
      var y := g.engine(k.turns);
      assert Reasonable(k.turns, y);
      if y.Packet? {
        ReadSpec(Items(k.turns));
        FedIssued(g, s, r, y.tid);
        AnswerDelivers(g, k, r, y.tid);
      } else {
        OtherDelivers(g, k, r);
      }
    }
  }

  lemma FollowedInFlight(g: Group, s: State, r: nat)
    requires Inv(g, s) && r < g.size
    ensures r < |s.ranks| && Settled(g, s.ranks[r], r) && s.ranks[r].inFlight == InFlight(s.ranks[r].turns)
  {
    InvRank(g, s, r);
  }

  ghost predicate AllDelivered(g: Group, s: State) {
    |s.ranks| == g.size && forall r: nat {:trigger s.ranks[r]} :: r < g.size ==> Delivered(g, s.ranks[r], r)
  }

  /** Whatever else happens to a rank does not matter. */
  lemma SameDelivers(g: Group, k: Rank, k': Rank, r: nat)
    requires Delivered(g, k, r) && k'.turns == k.turns && k'.settled == k.settled && k'.inFlight == k.inFlight
    requires k'.phase.Finished? ==> k.phase.Finished?
    ensures Delivered(g, k', r)
  {
  }

  /** Only following a flag and running the generator change a rank's history. */
  lemma Untouched(g: Group, s: State, e: Event, r: nat)
    requires |s.ranks| == |s.seen| == g.size > 0 && r < g.size && Step(g, s, e).Some? && e != Next(r)
    requires e.Flag? && e.r == r && s.ranks[r].flags < |s.flags| ==> s.flags[s.ranks[r].flags]
    ensures var k, k' := s.ranks[r], Step(g, s, e).value.ranks[r];
      && k'.turns == k.turns && k'.settled == k.settled && k'.inFlight == k.inFlight
      && (k'.phase.Finished? ==> k.phase.Finished?)
  {
    hide RunOnce;
  }

  lemma RankDelivers(g: Group, s: State, e: Event, r: nat)
    requires |s.ranks| == |s.seen| == g.size > 0 && r < g.size && Step(g, s, e).Some?
    requires Inv(g, s) && Sane(g) && Delivered(g, s.ranks[r], r)
    ensures Delivered(g, Step(g, s, e).value.ranks[r], r)
  {
    hide Inv, Sane, RunOnce, Delivered;
    var k := s.ranks[r];
    if e == Next(r) {
      RunDelivers(g, s, r);
    } else if e == Flag(r) && !s.flags[k.flags] {
      SameDelivers(g, k, k.(flags := k.flags + 1), r);
      FeedDelivers(g, k.(flags := k.flags + 1), r);
    } else {
      Untouched(g, s, e, r);
      SameDelivers(g, k, Step(g, s, e).value.ranks[r], r);
    }
  }

  lemma StepDelivers(g: Group, s: State, e: Event)
    requires |s.ranks| == |s.seen| == g.size > 0 && Step(g, s, e).Some?
    requires Inv(g, s) && Sane(g) && AllDelivered(g, s)
    ensures AllDelivered(g, Step(g, s, e).value)
  {
    hide Inv, Sane, Delivered;
    var s' := Step(g, s, e).value;
    forall r: nat | r < g.size ensures Delivered(g, s'.ranks[r], r) {
      assert Delivered(g, s.ranks[r], r);
      RankDelivers(g, s, e, r);
    }
  }

  lemma {:induction false} RunDelivered(g: Group, es: seq<Event>)
    requires Sane(g) && Run(g, es).Some?
    ensures AllDelivered(g, Run(g, es).value)
    decreases |es|
  {
    if es == [] {
      hide Sane;
      assert forall r: nat :: r < g.size ==> Start(g).ranks[r].turns == [] && Start(g).ranks[r].settled == [];
    } else {
      assert g.size > 0;
      hide Inv, Sane, AllDelivered, Step;
      RunDelivered(g, es[..|es| - 1]);
      RunInv(g, es[..|es| - 1]);
      StepDelivers(g, Run(g, es[..|es| - 1]).value, es[|es| - 1]);
    }
  }

  /**
   * In every run, on every rank: the futures set are exactly those of the rank's own ids that its
   * generator has answered, no packet is answered twice, and a rank's request whose packet was
   * answered no longer waits.
   */
  lemma Delivery(g: Group, es: seq<Event>, r: nat, tid: nat)
    requires Sane(g) && Run(g, es).Some? && r < g.size
    ensures var k := Run(g, es).value.ranks[r];
      && (tid in k.settled <==> tid in Answers(k.turns) && tid % g.size == r)
      && NoDup(Answers(k.turns)) && k.inFlight >= 0
      && (tid in k.futures <==> Issued(g, k, r, tid) && tid !in Answers(k.turns))
  {
    RunDelivered(g, es); RunInv(g, es);
    var s := Run(g, es).value;
    hide Run, Items, Answers, Following, LogOk, Read, Consistent, Sane;
    InvRank(g, s, r);
    assert Delivered(g, s.ranks[r], r);
    assert Issued(g, s.ranks[r], r, tid) <==> tid in s.ranks[r].futures || tid in s.ranks[r].settled;
  }

  // ---------- counting what is in flight ----------

  lemma SomeMember(a: seq<nat>)
    ensures a == [] || exists tid: nat :: tid in a
  {
    if a != [] { assert a[0] in a; }
  }

  /** Distinct requests, all answered and nothing else: as many answers as requests. */
  lemma {:induction false} SameCount(x: seq<Item>, a: seq<nat>)
    requires Distinct(x) && (forall y <- x :: y.Task?)
    requires NoDup(a) && (forall tid: nat :: Task(tid) in x <==> tid in a)
    ensures |x| == |a|
    decreases |x|
  {
    if x == [] {
      SomeMember(a);
    } else {
      var y, z := x[..|x| - 1], x[|x| - 1];
      assert x == y + [z] && z in x && z == Task(z.tid);
      var i :| 0 <= i < |a| && a[i] == z.tid;
      var b := a[..i] + a[i + 1..];
      forall tid: nat ensures Task(tid) in y <==> tid in b {
        assert Task(tid) in x <==> Task(tid) in y || tid == z.tid;
        assert tid in a <==> tid in b || tid == a[i];
      }
      SameCount(y, b);
    }
  }

  /** What a rank's generator was fed contains no request twice. */
  lemma FedOnce(g: Group, s: State, r: nat)
    requires Inv(g, s) && r < g.size
    ensures r < |s.ranks| && Distinct(Items(s.ranks[r].turns))
  {
    InvRank(g, s, r);
    FedPrefix(g, s, s.ranks[r]);
    hide Items, Answers, Base, Trues, History, Following, Settled, RankOk;
    var n := Base(s.flags[..s.ranks[r].flags]);
    forall i: nat, j: nat | i < j < |s.log[..n]| && s.log[..n][i].Task? ensures s.log[..n][i] != s.log[..n][j] {
      assert s.log[..n][i] == s.log[i] && s.log[..n][j] == s.log[j];
    }
  }

  /** When all that was read is answered, there are as many answers as requests read. */
  lemma AllReadAnswered(g: Group, s: State, r: nat)
    requires Inv(g, s) && r < g.size && |s.ranks| == g.size && Delivered(g, s.ranks[r], r)
    requires var t := s.ranks[r].turns; forall tid: nat :: Task(tid) in Read(Items(t)) ==> tid in Answers(t)
    ensures |Answers(s.ranks[r].turns)| == |Read(Items(s.ranks[r].turns))|
  {
    hide Inv, Items, Answers, Read, Consistent;
    FedOnce(g, s, r);
    var t := s.ranks[r].turns;
    var x := Items(t);
    ReadSpec(x);
    DistinctPrefix(x, |Read(x)|);
    SameCount(Read(x), Answers(t));
  }

  lemma DistinctPrefix(x: seq<Item>, n: nat)
    requires Distinct(x) && n <= |x|
    ensures Distinct(x[..n])
  {
    forall i: nat, j: nat | i < j < n && x[..n][i].Task? ensures x[..n][i] != x[..n][j] {
      assert x[..n][i] == x[i] && x[..n][j] == x[j];
    }
  }

  /**
   * In every run, when `work` calls `next` on a generator that has been fed no sentinel, some packet
   * was fed and not answered: the generator never waits on an empty queue.
   */
  lemma NeverBlocks(g: Group, es: seq<Event>, r: nat)
    requires Sane(g) && Run(g, es).Some? && r < g.size
    requires var k := Run(g, es).value.ranks[r]; k.phase.Synced? && k.inFlight != 0 && Stop !in Items(k.turns)
    ensures var k := Run(g, es).value.ranks[r];
      exists tid: nat :: Task(tid) in Items(k.turns) && tid !in Answers(k.turns)
  {
    RunDelivered(g, es); RunInv(g, es);
    var s := Run(g, es).value;
    var k := s.ranks[r];
    hide Run, Items, Answers, Inv, Sane, Read, Consistent;
    FollowedInFlight(g, s, r);
    assert Delivered(g, k, r);
    ReadSpec(Items(k.turns));
    if forall tid: nat :: Task(tid) in Items(k.turns) ==> tid in Answers(k.turns) {
      AllReadAnswered(g, s, r);
    }
  }

  /**
   * In every run, when a rank's generator has ended: what is counted as in flight is everything fed
   * from the first sentinel on, so `work`'s first assertion holds exactly when that sentinel was the
   * last item fed; and its second one holds exactly when every request of this rank was fed before it.
   */
  lemma Shutdown(g: Group, es: seq<Event>, r: nat)
    requires Sane(g) && Run(g, es).Some? && r < g.size && Run(g, es).value.ranks[r].phase.Finished?
    ensures var k := Run(g, es).value.ranks[r];
      var x := Items(k.turns);
      && k.inFlight == |x| - |Read(x)| >= 1 && x[|Read(x)|].Stop?
      && (k.inFlight == 1 <==> x[|x| - 1].Stop? && Stop !in x[..|x| - 1])
      && (k.futures == {} <==> forall tid: nat :: Issued(g, k, r, tid) ==> Task(tid) in Read(x))
  {
    RunDelivered(g, es); RunInv(g, es);
    var s := Run(g, es).value;
    hide Run, Sane;
    AtTheEnd(g, s, r);
  }

  lemma AtTheEnd(g: Group, s: State, r: nat)
    requires Inv(g, s) && r < g.size && |s.ranks| == g.size && s.ranks[r].phase.Finished? && Delivered(g, s.ranks[r], r)
    ensures var k := s.ranks[r];
      var x := Items(k.turns);
      && k.inFlight == |x| - |Read(x)| >= 1 && x[|Read(x)|].Stop?
      && (k.inFlight == 1 <==> x[|x| - 1].Stop? && Stop !in x[..|x| - 1])
      && (k.futures == {} <==> forall tid: nat :: Issued(g, k, r, tid) ==> Task(tid) in Read(x))
  {
    hide Inv, Items, Answers, Read, Consistent;
    var k := s.ranks[r];
    FollowedInFlight(g, s, r);
    AllReadAnswered(g, s, r);
    ReadSpec(Items(k.turns));
    LastIsStop(Items(k.turns));
    OwnRequests(g, k, r);
  }

  lemma LastIsStop(x: seq<Item>)
    requires Stop in x
    ensures |x| - |Read(x)| == 1 <==> x[|x| - 1].Stop? && Stop !in x[..|x| - 1]
  {
    hide Read;
    ReadSpec(x);
    ReadSpec(x[..|x| - 1]);
    assert x == x[..|x| - 1] + [x[|x| - 1]];
    ReadMore(x[..|x| - 1], [x[|x| - 1]]);
    if |Read(x)| == |x| - 1 { assert x[..|x| - 1] == Read(x); }
  }

  lemma OwnRequests(g: Group, k: Rank, r: nat)
    requires g.size > 0 && Settled(g, k, r) && Delivered(g, k, r) && k.phase.Finished?
    ensures k.futures == {} <==> forall tid: nat :: Issued(g, k, r, tid) ==> Task(tid) in Read(Items(k.turns))
  {
    hide Items, Answers, Read, Consistent;
    forall tid: nat ensures tid in k.futures <==> Issued(g, k, r, tid) && Task(tid) !in Read(Items(k.turns)) {
      assert Issued(g, k, r, tid) <==> tid in k.futures || tid in k.settled;
      assert Task(tid) in Read(Items(k.turns)) <==> tid in Answers(k.turns);
      assert Issued(g, k, r, tid) ==> tid % g.size == r;
    }
  }

  /** Once every rank has stopped, each further call of `stop` on rank 0 puts one more sentinel. */
  lemma StopAgain(g: Group, s: State)
    requires Inv(g, s) && s.ranks[0].stopped && s.stops == g.size
    ensures Step(g, s, Stopping(0, true)) == Some(s.(log := s.log + [Stop]))
    ensures multiset(s.log + [Stop])[Stop] == multiset(s.log)[Stop] + 1
  {
  }

  // ---------- runs in which `work` fails an assertion ----------

  /** One rank, which has stopped, with this in its queues. */
  function Alone(log: seq<Item>, seen: nat, flags: seq<bool>, k: Rank): State { State(log, [seen], flags, 1, [k]) }

  /** A rank that has called `stop` and issued these requests, all of them put. */
  function Stopped(n: nat, ids: set<nat>): Rank {
    Rank(n, {}, ids, [], true, Outside, 0, 0, [], 0, [])
  }

  /** The same rank, n items into its first sync round. */
  function Taking(log: seq<Item>, k: Rank, phase: Phase, n: nat, flags: nat): Rank
    requires n <= |log|
  {
    k.(phase := phase, flags := flags, taken := n, packets := log[..n])
  }

  /** What happens once two items have been put: they arrive, and `work` is called. */
  function WorkEvents(): seq<Event> {
    [Deliver(0)] + [Deliver(0)] + [Begin(0)] + [Push] + [Flag(0)] + [Fetch(0)] + [Push] + [Flag(0)] + [Fetch(0)]
    + [Push] + [Flag(0)] + [Next(0)]
  }

  lemma Then(g: Group, es: seq<Event>, s: State, e: Event)
    requires g.size > 0 && Run(g, es) == Some(s) && |s.ranks| == |s.seen| == g.size
    ensures Run(g, es + [e]) == Step(g, s, e)
  {
    assert (es + [e])[..|es|] == es;
  }

  /** A step of the only rank. */
  lemma Moves(g: Group, es: seq<Event>, s: State, e: Event, s': State)
    requires g.size == 1 && Run(g, es) == Some(s) && |s.ranks| == |s.seen| == |s'.ranks| == |s'.seen| == 1
    requires Step(g, s, e).Some? && Step(g, s, e).value.seen[0] == s'.seen[0]
    requires Step(g, s, e).value.ranks[0] == s'.ranks[0]
      && Step(g, s, e).value == s'.(seen := Step(g, s, e).value.seen, ranks := Step(g, s, e).value.ranks)
    ensures Run(g, es + [e]) == Some(s')
  {
    hide Run, Step;
    Then(g, es, s, e);
    assert Step(g, s, e).value.ranks == s'.ranks && Step(g, s, e).value.seen == s'.seen;
  }

  /** The rank takes an item that has reached it. */
  lemma TakesOne(g: Group, es: seq<Event>, log: seq<Item>, k: Rank, n: nat, flags: seq<bool>)
    requires g.size == 1 && |log| == 2 && n < 2 && |flags| == n
      && Run(g, es) == Some(Alone(log, 2, flags, Taking(log, k, Asking(false), n, n)))
    ensures Run(g, es + [Push] + [Flag(0)] + [Fetch(0)])
      == Some(Alone(log, 2, flags + [true], Taking(log, k, Asking(false), n + 1, n + 1)))
  {
    hide Run;
    Moves(g, es, Alone(log, 2, flags, Taking(log, k, Asking(false), n, n)), Push,
      Alone(log, 2, flags + [true], Taking(log, k, Asking(true), n, n)));
    Moves(g, es + [Push], Alone(log, 2, flags + [true], Taking(log, k, Asking(true), n, n)), Flag(0),
      Alone(log, 2, flags + [true], Taking(log, k, Fetching, n, n + 1)));
    assert log[..n] + [log[n]] == log[..n + 1];
    Moves(g, es + [Push] + [Flag(0)], Alone(log, 2, flags + [true], Taking(log, k, Fetching, n, n + 1)), Fetch(0),
      Alone(log, 2, flags + [true], Taking(log, k, Asking(false), n + 1, n + 1)));
  }

  lemma BothArrive(g: Group, es: seq<Event>, log: seq<Item>, k: Rank)
    requires g.size == 1 && |log| == 2 && k.phase.Outside? && k.flags == k.taken == 0 && k.packets == []
    requires Run(g, es) == Some(Alone(log, 0, [], k))
    ensures Run(g, es + [Deliver(0)] + [Deliver(0)] + [Begin(0)])
      == Some(Alone(log, 2, [], Taking(log, k, Asking(false), 0, 0)))
  {
    hide Run;
    Moves(g, es, Alone(log, 0, [], k), Deliver(0), Alone(log, 1, [], k));
    Moves(g, es + [Deliver(0)], Alone(log, 1, [], k), Deliver(0), Alone(log, 2, [], k));
    Moves(g, es + [Deliver(0)] + [Deliver(0)], Alone(log, 2, [], k), Begin(0),
      Alone(log, 2, [], Taking(log, k, Asking(false), 0, 0)));
  }

  /** The rank is told that there are no more items, feeds its generator both, and runs it. */
  lemma FeedsBoth(g: Group, es: seq<Event>, log: seq<Item>, k: Rank)
    requires g.size == 1 && |log| == 2 && k.inFlight == 0 && k.turns == []
    requires Run(g, es) == Some(Alone(log, 2, [true, true], Taking(log, k, Asking(false), 2, 2)))
    ensures var fed := Taking(log, k, Synced, 2, 3).(packets := [], inFlight := 2, turns := [Fed(log)]);
      Run(g, es + [Push] + [Flag(0)] + [Next(0)]) == Some(Alone(log, 2, [true, true] + [false], RunOnce(g, fed)))
  {
    hide Run;
    var flags := [true, true] + [false];
    Moves(g, es, Alone(log, 2, [true, true], Taking(log, k, Asking(false), 2, 2)), Push,
      Alone(log, 2, flags, Taking(log, k, Asking(true), 2, 2)));
    var fed := Feed(Taking(log, k, Asking(true), 2, 3));
    assert log[..2] == log && [] + [Fed(log)] == [Fed(log)];
    assert fed == Taking(log, k, Synced, 2, 3).(packets := [], inFlight := 2, turns := [Fed(log)]);
    Moves(g, es + [Push], Alone(log, 2, flags, Taking(log, k, Asking(true), 2, 2)), Flag(0),
      Alone(log, 2, flags, fed));
    Moves(g, es + [Push] + [Flag(0)], Alone(log, 2, flags, fed), Next(0), Alone(log, 2, flags, RunOnce(g, fed)));
  }

  /** With two items put and a generator that ends after them, `work` finds two in flight. */
  lemma WorksOnce(g: Group, es: seq<Event>, log: seq<Item>, k: Rank)
    requires g.size == 1 && |log| == 2 && k.phase.Outside? && k.flags == k.taken == k.inFlight == 0
    requires k.packets == [] && k.turns == [] && g.engine([Fed(log)]).Exhausted?
    requires Run(g, es) == Some(Alone(log, 0, [], k))
    ensures Run(g, es + WorkEvents()).Some?
    ensures var k' := Run(g, es + WorkEvents()).value.ranks[0];
      k'.phase.Finished? && k'.inFlight == 2 && k'.futures == k.futures
  {
    hide Run;
    BothArrive(g, es, log, k);
    var es1 := es + [Deliver(0)] + [Deliver(0)] + [Begin(0)];
    TakesOne(g, es1, log, k, 0, []);
    var es2 := es1 + [Push] + [Flag(0)] + [Fetch(0)];
    assert [] + [true] == [true];
    TakesOne(g, es2, log, k, 1, [true]);
    var es3 := es2 + [Push] + [Flag(0)] + [Fetch(0)];
    assert [true] + [true] == [true, true];
    FeedsBoth(g, es3, log, k);
    assert es + WorkEvents() == es3 + [Push] + [Flag(0)] + [Next(0)];
  }

  lemma Begins(g: Group)
    requires g.size == 1
    ensures Run(g, []) == Some(State([], [0], [], 0, [Stopped(0, {}).(stopped := false)]))
  {
    var s := State([], [0], [], 0, [Stopped(0, {}).(stopped := false)]);
    assert Start(g).ranks == s.ranks && Start(g).seen == s.seen;
  }

  /** `stop` twice. */
  function StoppedTwice(): seq<Event> { [Stopping(0, true)] + [Stopping(0, true)] }

  /** Two sentinels are in flight when the generator ends, so `work` fails its first assertion. */
  lemma StoppedTwiceFails(g: Group)
    requires g.size == 1 && g.engine([Fed([Stop, Stop])]).Exhausted?
    ensures Run(g, StoppedTwice() + WorkEvents()).Some?
    ensures var k := Run(g, StoppedTwice() + WorkEvents()).value.ranks[0]; k.phase.Finished? && k.inFlight == 2
  {
    Begins(g);
    hide Run;
    var k := Stopped(0, {});
    Moves(g, [], State([], [0], [], 0, [k.(stopped := false)]), Stopping(0, true), Alone([Stop], 0, [], k));
    assert [] + [Stopping(0, true)] == [Stopping(0, true)] && [Stop] + [Stop] == [Stop, Stop];
    Moves(g, [Stopping(0, true)], Alone([Stop], 0, [], k), Stopping(0, true), Alone([Stop, Stop], 0, [], k));
    WorksOnce(g, StoppedTwice(), [Stop, Stop], k);
  }

  /** A request gets its id, `stop` is called, and then the request is put. */
  function PutLate(): seq<Event> { [Claim(0)] + [Stopping(0, true)] + [Put(0, 0)] }

  lemma ClaimsFirst(g: Group)
    requires g.size == 1
    ensures Run(g, [Claim(0)]) == Some(State([], [0], [], 0, [Stopped(1, {0}).(stopped := false, waiting := {0})]))
  {
    Begins(g);
    hide Run;
    var k := Stopped(0, {}).(stopped := false);
    var k' := Stopped(1, {0}).(stopped := false, waiting := {0});
    assert {} + {0} == {0};
    assert ClaimId(g, k, 0) == k';
    Moves(g, [], State([], [0], [], 0, [k]), Claim(0), State([], [0], [], 0, [k']));
    assert [] + [Claim(0)] == [Claim(0)];
  }

  lemma PutsLast(g: Group)
    requires g.size == 1
    ensures Run(g, PutLate()) == Some(Alone([Stop, Task(0)], 0, [], Stopped(1, {0})))
  {
    ClaimsFirst(g);
    hide Run;
    var k := Stopped(1, {0}).(waiting := {0});
    Moves(g, [Claim(0)], State([], [0], [], 0, [k.(stopped := false)]), Stopping(0, true), Alone([Stop], 0, [], k));
    assert [Stop] + [Task(0)] == [Stop, Task(0)];
    assert k.(waiting := k.waiting - {0}) == Stopped(1, {0}) by { assert {0} - {0} == {}; }
    Moves(g, [Claim(0)] + [Stopping(0, true)], Alone([Stop], 0, [], k), Put(0, 0),
      Alone([Stop, Task(0)], 0, [], Stopped(1, {0})));
  }

  /** The request after the sentinel is never read: `work` fails both assertions, the future is never set. */
  lemma PutLateFails(g: Group)
    requires g.size == 1 && g.engine([Fed([Stop, Task(0)])]).Exhausted?
    ensures Run(g, PutLate() + WorkEvents()).Some?
    ensures var k := Run(g, PutLate() + WorkEvents()).value.ranks[0];
      k.phase.Finished? && k.inFlight == 2 && k.futures == {0}
  {
    hide Run;
    PutsLast(g);
    WorksOnce(g, PutLate(), [Stop, Task(0)], Stopped(1, {0}));
  }
}
